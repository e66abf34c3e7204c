/**
 Field operations on top of the Montgomery product: addition, subtraction, conversion in and out of
 Montgomery form, exponentiation, the square test and the square root.
 */
module P256Elem {
  import opened Words
  import opened ModArith
  import opened Limbs
  import opened P256Repr
  import opened P256Field

  const MONT_ONE: seq<u32> := [0x00000001, 0x00000000, 0x00000000, 0xffffffff, 0xffffffff, 0xffffffff, 0xfffffffe, 0x00000000]
  const MONT_R2: seq<u32> := [0x00000003, 0x00000000, 0xffffffff, 0xfffffffb, 0xfffffffe, 0xffffffff, 0xfffffffd, 0x00000004]
  const MONT_B: seq<u32> := [0x29c4bddf, 0xd89cdf62, 0x78843090, 0xacf005cd, 0xf7212ed6, 0xe5a220ab, 0x04874834, 0xdc30061d]
  const EXP_HALF: seq<u32> := [0xffffffff, 0xffffffff, 0x7fffffff, 0x00000000, 0x00000000, 0x80000000, 0x80000000, 0x7fffffff]
  const EXP_QUARTER: seq<u32> := [0x00000000, 0x00000000, 0x40000000, 0x00000000, 0x00000000, 0x40000000, 0xc0000000, 0x3fffffff]

  /** The curve coefficient b. */
  const CURVE_B: nat := 0x5ac635d8_aa3a93e7_b3ebbd55_769886bc_651d06b0_cc53b0f6_3bce3c3e_27d2604b

  lemma TableNumbers()
    ensures Val(MONT_ONE) == 0x00000000_fffffffe_ffffffff_ffffffff_ffffffff_00000000_00000000_00000001
    ensures Val(MONT_R2) == 0x00000004_fffffffd_ffffffff_fffffffe_fffffffb_ffffffff_00000000_00000003
    ensures Val(MONT_B) == 0xdc30061d_04874834_e5a220ab_f7212ed6_acf005cd_78843090_d89cdf62_29c4bddf
  {
    ValEight(MONT_ONE);
    ValEight(MONT_R2);
    ValEight(MONT_B);
  }

  lemma OneTable()
    ensures IsElem(MONT_ONE) && Elem(MONT_ONE) == 1
  {
    hide Val, Base;
    TableNumbers();
    PNumber();
    InverseNumbers();
  }

  lemma R2Table()
    ensures IsElem(MONT_R2) && Elem(MONT_R2) == R() % P()
  {
    hide Val, Base;
    TableNumbers();
    PNumber();
    InverseNumbers();
    RIsBase();
  }

  lemma BTable()
    ensures IsElem(MONT_B) && Elem(MONT_B) == CURVE_B
  {
    hide Val, Base;
    TableNumbers();
    PNumber();
    InverseNumbers();
  }

  lemma ExponentTables()
    ensures 2 * Val(EXP_HALF) + 1 == P()
    ensures 4 * Val(EXP_QUARTER) == P() + 1
  {
    ValEight(EXP_HALF);
    ValEight(EXP_QUARTER);
    PNumber();
  }

  /** r := a + b mod P. */
  method FeAdd(r: array<u32>, a: array<u32>, b: array<u32>)
    requires r.Length == a.Length == b.Length == 8
    modifies r
    ensures var s := old(Val(a[..]) + Val(b[..])); s < 2 * P() ==> Val(r[..]) == s % P()
    ensures old(IsElem(a[..]) && IsElem(b[..])) ==>
              IsElem(r[..]) && Elem(r[..]) == FAdd(old(Elem(a[..])), old(Elem(b[..])))
  {
    hide Val, Base, P, R, Std, FAdd;
    ghost var va, vb := Val(a[..]), Val(b[..]);
    var t := new u32[8];
    var c := AddCarry(t, a, b, 0);
    var p := Load(P_LIMBS);
    RIsBase();
    PFacts();
    PIsTable();
    assert t[..8] == t[..];
    ValBelowR(t[..]);
    CondSubMod(r, t, c, p);
    SumSelected(va + vb, Val(t[..]), c, Val(r[..]));
    StdAdd(va, vb);
  }

  /** What the conditional subtraction leaves of a sum with its carry. */
  lemma SumSelected(s: nat, low: nat, c: u32, r: nat)
    requires s == low + c * R() && c <= 1 && low < R()
    requires r == if c == 1 then low - P() + (if low < P() then R() else 0) else if low >= P() then low - P() else low
    ensures s < 2 * P() ==> r == s % P() && r < P()
  {
    hide P, R;
    PFacts();
    SumReduced(s, r);
  }

  lemma SumReduced(s: nat, r: nat)
    requires s < 2 * P() ==> r == if s >= P() then s - P() else s
    ensures s < 2 * P() ==> r == s % P() && r < P()
  {
    hide P;
    if s < 2 * P() {
      ModPlusMultiple(s, -1, P());
      ModSmall(r, P());
    }
  }

  /** r := a - b mod P. */
  method FeSub(r: array<u32>, a: array<u32>, b: array<u32>)
    requires r.Length == a.Length == b.Length == 8
    modifies r
    ensures var d := old((Val(a[..]) as int) - (Val(b[..]) as int)); 0 <= d + P() && d < P() ==> Val(r[..]) == d % P()
    ensures old(IsElem(a[..]) && IsElem(b[..])) ==>
              IsElem(r[..]) && Elem(r[..]) == FSub(old(Elem(a[..])), old(Elem(b[..])))
  {
    hide Val, Base, P, R, Std, FSub;
    ghost var va: int, vb: int := Val(a[..]), Val(b[..]);
    var t := new u32[8];
    assert a[..8] == a[..];
    var borrow := SubBorrow(t, a, b);
    var p := Load(P_LIMBS);
    RIsBase();
    PFacts();
    PIsTable();
    var s := new u32[8];
    var c := AddCarry(s, t, p, 0);
    ValBelowR(s[..]);
    assert t[..8] == t[..];
    SelectLimbs(r, s, t, borrow);
    DifferenceReduced(va - vb, Val(r[..]));
    StdSub(va, vb);
  }

  lemma DifferenceReduced(d: int, r: nat)
    requires 0 <= d + P() && d < P() ==> r == if d < 0 then d + P() else d
    ensures 0 <= d + P() && d < P() ==> r == d % P() && r < P()
  {
    hide P;
    if 0 <= d + P() && d < P() {
      ModPlusMultiple(d, 1, P());
      ModSmall(r, P());
    }
  }

  // ---------- conversions and tests ----------

  /** r := a * 2^256 mod P, the Montgomery form of any 256-bit a. */
  method FeToMont(r: array<u32>, a: array<u32>)
    requires r.Length == a.Length == 8
    modifies r
    ensures IsElem(r[..]) && Elem(r[..]) == old(Val(a[..])) % P()
    ensures Val(r[..]) == old(Val(a[..])) * R() % P()
  {
    hide Val, P, R, Std, ReducedProduct;
    ghost var v := Val(a[..]);
    var r2 := Load(MONT_R2);
    R2Table();
    FeMul(r, a, r2);
    ToMontResidue(Val(r[..]), v);
  }

  lemma ToMontResidue(r: nat, v: nat)
    requires r < P() && Std(r) == FMul(Std(v), R() % P())
    ensures Std(r) == v % P() && r == v * R() % P()
  {
    hide P, R, Std;
    ModMul(Std(v), R(), P());
    StdTimesR(v);
    StdTimesR(r);
    ModSmall(r, P());
    ModMul(v, R(), P());
  }

  /** r := a / 2^256 mod P, the residue a stands for. */
  method FeFromMont(r: array<u32>, a: array<u32>)
    requires r.Length == a.Length == 8
    modifies r
    ensures Val(r[..]) == old(Elem(a[..]))
  {
    hide Val, P, RInv;
    ghost var v := Val(a[..]);
    var one := new u32[8](_ => 0);
    one[0] := 1;
    OneValue(one[..]);
    FeMul(r, a, one);
    ModSmall(Val(r[..]), P());
  }

  lemma OneValue(s: seq<u32>)
    requires |s| == 8 && s[0] == 1 && forall i :: 1 <= i < 8 ==> s[i] == 0
    ensures Val(s) == 1
  {
    ValEight(s);
  }

  /** All limbs zero, by or-ing them together. */
  method FeIsZero(a: array<u32>) returns (z: bool)
    requires a.Length == 8
    ensures z <==> Val(a[..]) == 0
  {
    var x: nat := 0;
    for i := 0 to 8
      invariant x == 0 <==> forall k :: 0 <= k < i ==> a[k] == 0
    {
      OrIsZero(x, a[i]);
      x := Or(x, a[i]);
    }
    ValZero(a[..]);
    z := x == 0;
  }

  /** All limbs equal, by or-ing their differences together. */
  method FeEq(a: array<u32>, b: array<u32>) returns (e: bool)
    requires a.Length == b.Length == 8
    ensures e <==> a[..] == b[..]
  {
    var x: nat := 0;
    for i := 0 to 8
      invariant x == 0 <==> forall k :: 0 <= k < i ==> a[k] == b[k]
    {
      XorIsZero(a[i], b[i]);
      OrIsZero(x, Xor(a[i], b[i]));
      x := Or(x, Xor(a[i], b[i]));
    }
    e := x == 0;
  }

  lemma ElemEq(s: seq<u32>, t: seq<u32>)
    requires IsElem(s) && IsElem(t)
    ensures s == t <==> Elem(s) == Elem(t)
  {
    hide Val, P, Std;
    if Elem(s) == Elem(t) {
      StdInjective(Val(s), Val(t));
      ValInjective(s, t);
    }
  }

  // ---------- exponentiation ----------

  /** Bit i of a limb sequence, as the loop extracts it. */
  function Bit(e: seq<u32>, i: nat): nat
    requires i < 32 * |e|
  {
    Shr(e[i / 32], i % 32) % 2
  }

  /** The integer made of the bits from position i upwards. */
  ghost function BitsFrom(e: seq<u32>, i: nat): nat
    requires i <= 32 * |e|
    decreases 32 * |e| - i
  {
    if i == 32 * |e| then 0 else 2 * BitsFrom(e, i + 1) + Bit(e, i)
  }

  lemma BitAt(e: seq<u32>, k: nat, j: nat)
    requires k < |e| && j < 32
    ensures Bit(e, 32 * k + j) == Shr(e[k], j) % 2
  {
  }

  lemma BitsCombine(h: int, w: int, q: int, bit: int)
    ensures 2 * (h * w + q) + bit == h * (2 * w) + (2 * q + bit)
  {
  }

  /** The d bits of limb k from position j, under everything above the limb. */
  lemma {:induction false} BitsInLimb(e: seq<u32>, k: nat, j: nat, d: nat)
    requires k < |e| && j + d == 32
    ensures BitsFrom(e, 32 * k + j) == BitsFrom(e, 32 * k + 32) * Pow2(d) + Shr(e[k], j)
    decreases d
  {
    if d == 0 {
      ShrAll(e[k], j);
    } else {
      var high := BitsFrom(e, 32 * k + 32);
      BitsInLimb(e, k, j + 1, d - 1);
      BitAt(e, k, j);
      BitsCombine(high, Pow2(d - 1), Shr(e[k], j + 1), Shr(e[k], j) % 2);
    }
  }

  lemma {:induction false} ValCons(s: seq<u32>)
    requires s != []
    ensures Val(s) == s[0] + 0x1_0000_0000 * Val(s[1..])
  {
    hide Val, Base;
    var n := |s| - 1;
    var tail := s[1..];
    assert s[..n + 1] == s;
    ValSnoc(s, n);
    if n == 0 {
      ValOfNone();
      assert s[..0] == [] && tail == [];
    } else {
      ValCons(s[..n]);
      assert s[..n][1..] == tail[..n - 1] && tail[..n] == tail;
      ValSnoc(tail, n - 1);
      BaseNext(n - 1);
      MulAssoc(0x1_0000_0000, s[n], Base(n - 1));
      Distribute(Val(tail[..n - 1]), s[n] * Base(n - 1), 0x1_0000_0000);
      MulScaled(s[n], Base(n - 1));
    }
  }

  lemma ValOfNone()
    ensures Val([]) == 0 && Base(0) == 1
  {
  }

  lemma MulScaled(x: int, w: int)
    ensures x * (0x1_0000_0000 * w) == 0x1_0000_0000 * (x * w)
  {
  }

  lemma NoBits(e: seq<u32>)
    ensures BitsFrom(e, 32 * |e|) == 0
  {
  }

  /** Read as binary, an exponent table has the value of its limbs. */
  lemma {:induction false} BitsAll(e: seq<u32>, k: nat)
    requires k <= |e|
    ensures BitsFrom(e, 32 * k) == Val(e[k..])
    decreases |e| - k
  {
    hide BitsFrom, Val, Pow2, Base;
    if k == |e| {
      assert e[k..] == [];
      ValOfNone();
      NoBits(e);
    } else {
      BitsAll(e, k + 1);
      BitsInLimb(e, k, 0, 32);
      Pow2At32();
      ValCons(e[k..]);
      assert e[k..][1..] == e[k + 1..];
    }
  }

  /** x to the power n in the field. */
  ghost function FPow(x: nat, n: nat): (r: nat)
    ensures r < P()
  {
    Pow(x, n) % P()
  }

  /** One square-and-multiply step doubles the exponent and adds the bit. */
  lemma PowStep(x: nat, n: nat, bit: nat)
    requires bit <= 1
    ensures var sq := FMul(FPow(x, n), FPow(x, n));
            FPow(x, 2 * n + bit) == if bit == 1 then FMul(sq, x) else sq
  {
    hide P, Pow;
    PowAdd(x, n, n);
    ModMul(Pow(x, n), Pow(x, n), P());
    ModMul(Pow(x, n + n), x, P());
    PowNext(x, n + n);
  }

  lemma BitIsBit(e: seq<u32>, i: nat)
    requires i < 32 * |e|
    ensures Bit(e, i) <= 1
  {
    hide Shr;
  }

  /** The step at bit i of an exponent table. */
  lemma PowBit(x: nat, e: seq<u32>, i: nat)
    requires i < 32 * |e|
    ensures var f := FPow(x, BitsFrom(e, i + 1));
            FPow(x, BitsFrom(e, i)) == if Bit(e, i) == 1 then FMul(FMul(f, f), x) else FMul(f, f)
  {
    hide FPow, FMul, Bit;
    BitIsBit(e, i);
    PowStep(x, BitsFrom(e, i + 1), Bit(e, i));
  }

  lemma PowNone(x: nat, e: seq<u32>)
    ensures FPow(x, BitsFrom(e, 32 * |e|)) == 1
  {
    hide P, BitsFrom, Pow;
    NoBits(e);
    PowZero(x);
    ModSmall(1, P());
  }

  lemma PowZero(x: nat)
    ensures Pow(x, 0) == 1
  {
  }

  lemma PowNext(x: nat, n: nat)
    ensures Pow(x, n + 1) == Pow(x, n) * x
  {
  }

  method FeSet(r: array<u32>, a: array<u32>)
    requires r.Length == a.Length == 8
    modifies r
    ensures r[..] == old(a[..])
  {
    for i := 0 to 8
      invariant a[..] == old(a[..]) || r == a
      invariant r[..i] == old(a[..i])
      invariant forall k :: i <= k < 8 ==> a[k] == old(a[k])
    {
      r[i] := a[i];
    }
  }

  /** r := a^e, by square-and-multiply from the top bit, for a base that need not be reduced. */
  method FePow(r: array<u32>, a: array<u32>, e: seq<u32>)
    requires r.Length == a.Length == |e| == 8
    modifies r
    ensures IsElem(r[..]) && Elem(r[..]) == FPow(old(Elem(a[..])), Val(e))
  {
    hide FPow, FMul, Elem, IsElem, Bit, BitsFrom, Val, P, ReducedProduct;
    ghost var va := a[..];
    ghost var x := Elem(va);
    var acc := Load(MONT_ONE);
    OneTable();
    PowNone(x, e);
    var i := 256;
    while i > 0
      invariant 0 <= i <= 256 && fresh(acc) && acc.Length == 8
      invariant a[..] == va && IsElem(acc[..])
      invariant Elem(acc[..]) == FPow(x, BitsFrom(e, i))
    {
      i := i - 1;
      PowBit(x, e, i);
      FeMul(acc, acc, acc);
      if Bit(e, i) == 1 {
        FeMul(acc, acc, a);
      }
    }
    BitsAll(e, 0);
    assert e[0..] == e;
    FeSet(r, acc);
  }
}
