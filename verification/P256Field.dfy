/**
 The P-256 base field: word-by-word Montgomery multiplication, addition and subtraction on
 eight-limb arrays.  Every in-parameter may be the same array as the result, as in the C code.
 */
module P256Field {
  import opened Words
  import opened ModArith
  import opened Limbs
  import opened P256Repr

  // ---------- the two inner loops of the product ----------

  lemma ProductWord(t: u32, x: u32, y: u32, c: u32)
    ensures t + x * y + c < 0x1_0000_0000_0000_0000
  {
    MulAtMost(x, 0xffff_ffff, y);
    MulAtMost(y, 0xffff_ffff, 0xffff_ffff);
  }

  lemma RowCombine(v: int, v0: int, va: int, y: int, c: int, c': int, w: int, t: int, t0: int, x: int)
    requires v + c * w == v0 + va * y
    requires t + c' * 0x1_0000_0000 == t0 + x * y + c
    ensures (v + t * w) + c' * (0x1_0000_0000 * w) == (v0 + t0 * w) + (va + x * w) * y
  {
  }

  /** The first n limbs of t with carry c stand for those of t0 plus y times those of a. */
  ghost predicate RowSum(t: seq<u32>, c: int, t0: seq<u32>, a: seq<u32>, y: int, n: nat)
    requires n <= |t| == |t0| && n <= |a|
  {
    Val(t[..n]) + c * Base(n) == Val(t0[..n]) + Val(a[..n]) * y
  }

  lemma RowLimb(t: seq<u32>, t0: seq<u32>, a: seq<u32>, y: int, i: nat, c: int, lo: u32, c': int)
    requires i < |t| == |t0| && i < |a| && RowSum(t, c, t0, a, y, i)
    requires (lo as int) + c' * 0x1_0000_0000 == t0[i] + a[i] * y + c
    ensures RowSum(t[i := lo], c', t0, a, y, i + 1)
  {
    hide Val, Base;
    LimbSet(t, i, lo);
    ValSnoc(t0, i);
    ValSnoc(a, i);
    BaseNext(i);
    RowCombine(Val(t[..i]), Val(t0[..i]), Val(a[..i]), y, c, c', Base(i), lo, t0[i], a[i]);
  }

  lemma RowSumAll(t: seq<u32>, c: int, t0: seq<u32>, a: seq<u32>, y: int)
    requires |t| == |t0| == 10 && |a| == 8 && RowSum(t, c, t0, a, y, 8)
    ensures Val(t[..8]) + c * Base(8) == Val(t0[..8]) + Val(a) * y
  {
    assert a[..8] == a;
  }

  lemma TopCombine(x: int, x0: int, lo: int, hi: int, t: int, c: int, w: int, v: int)
    requires x + c * w == x0 + v
    requires lo + hi * 0x1_0000_0000 == t + c
    ensures x + lo * w + hi * (0x1_0000_0000 * w) == x0 + t * w + v
  {
  }

  /** Storing the carry of the row into limbs 8 and 9 completes the sum. */
  lemma RowTop(t: seq<u32>, t0: seq<u32>, c: int, lo: u32, hi: u32, v: int)
    requires |t| == |t0| == 10 && t[8] == t0[8]
    requires Val(t[..8]) + c * Base(8) == Val(t0[..8]) + v
    requires (lo as int) + (hi as int) * 0x1_0000_0000 == t[8] + c
    ensures Val(t[8 := lo][9 := hi]) == Val(t0[..9]) + v
  {
    hide Val, Base;
    var t1 := t[8 := lo];
    assert t1[9 := hi][..10] == t1[9 := hi];
    LimbSet(t, 8, lo);
    LimbSet(t1, 9, hi);
    ValSnoc(t0, 8);
    BaseNext(8);
    TopCombine(Val(t[..8]), Val(t0[..8]), lo, hi, t0[8], c, Base(8), v);
  }

  lemma RowNone(t: seq<u32>, a: seq<u32>, y: int)
    ensures RowSum(t, 0, t, a, y, 0)
  {
  }

  /** The multiply-accumulate loop: t[0..8] := t[0..8] + a * y, with the carry returned. */
  method AddRowLimbs(t: array<u32>, a: array<u32>, y: u32) returns (c: u64)
    requires t.Length == 10 && a.Length == 8 && t != a
    modifies t
    ensures c < 0x1_0000_0000 && t[..][8..] == old(t[..][8..])
    ensures Val(t[..][..8]) + c * Base(8) == old(Val(t[..][..8])) + Val(a[..]) * y
  {
    hide Val, Base, RowSum;
    ghost var t0, va := t[..], a[..];
    c := 0;
    RowNone(t0, va, y);
    for j := 0 to 8
      invariant c < 0x1_0000_0000
      invariant a[..] == va && t[..][j..] == t0[j..]
      invariant RowSum(t[..], c, t0, va, y, j)
    {
      assert t[j] == t[..][j..][0] == t0[j];
      ghost var t1, c1 := t[..], c;
      ProductWord(t[j], a[j], y, c);
      var s: u64 := t[j] + a[j] * y + c;
      t[j] := s % 0x1_0000_0000;
      c := s / 0x1_0000_0000;
      ghost var lo: u32 := t[j];
      assert t[..] == t1[j := lo];
      assert t[..][j + 1..] == t1[j..][1..];
      RowLimb(t1, t0, va, y, j, c1, lo, c);
    }
    RowSumAll(t[..], c, t0, va, y);
  }

  /** t := t + a * y, on the nine live limbs of t, filling the tenth. */
  method AddRow(t: array<u32>, a: array<u32>, y: u32)
    requires t.Length == 10 && a.Length == 8 && t != a
    modifies t
    ensures t[9] <= 1
    ensures Val(t[..]) == old(Val(t[..9])) + Val(a[..]) * y
  {
    hide Val, Base;
    ghost var t0, v := t[..], Val(a[..]) * y;
    var c := AddRowLimbs(t, a, y);
    assert t[8] == t[..][8..][0] == t0[8..][0];
    ghost var t1: seq<u32> := t[..];
    var s8: u64 := (t[8] as int) + c;
    t[8] := s8 % 0x1_0000_0000;
    t[9] := s8 / 0x1_0000_0000;
    ghost var x8: u32, x9: u32 := t[8], t[9];
    assert t[..] == t1[8 := x8][9 := x9];
    RowTop(t1, t0, c, x8, x9, v);
    assert t0[..9] == old(t[..9]);
  }

  lemma ShiftedSum(v: int, x: int, w: int)
    ensures (v + x * w) * 0x1_0000_0000 == v * 0x1_0000_0000 + x * (0x1_0000_0000 * w)
  {
  }

  /** The limbs stored so far, one place down, stand for those of t0 plus m times those of p. */
  ghost predicate ShiftSum(t: seq<u32>, c: int, t0: seq<u32>, p: seq<u32>, m: int, n: nat)
    requires 1 <= n <= |t| == |t0| && n <= |p|
  {
    Val(t[..n - 1]) * 0x1_0000_0000 + c * Base(n) == Val(t0[..n]) + Val(p[..n]) * m
  }

  lemma ShiftLimb(t: seq<u32>, t0: seq<u32>, p: seq<u32>, m: int, i: nat, c: int, lo: u32, c': int)
    requires 1 <= i < |t| == |t0| && i < |p| && ShiftSum(t, c, t0, p, m, i)
    requires (lo as int) + c' * 0x1_0000_0000 == t0[i] + p[i] * m + c
    ensures ShiftSum(t[i - 1 := lo], c', t0, p, m, i + 1)
  {
    hide Val, Base;
    LimbSet(t, i - 1, lo);
    ValSnoc(t0, i);
    ValSnoc(p, i);
    BaseNext(i - 1);
    BaseNext(i);
    var b := 0x1_0000_0000;
    RowCombine(Val(t[..i - 1]) * b, Val(t0[..i]), Val(p[..i]), m, c, c', Base(i), lo, t0[i], p[i]);
    ShiftedSum(Val(t[..i - 1]), lo, Base(i - 1));
  }

  lemma ShiftSumAll(t: seq<u32>, c: int, t0: seq<u32>, p: seq<u32>, m: int)
    requires |t| == |t0| == 10 && |p| == 8 && ShiftSum(t, c, t0, p, m, 8)
    ensures Val(t[..7]) * 0x1_0000_0000 + c * Base(8) == Val(t0[..8]) + Val(p) * m
  {
    assert p[..8] == p;
  }

  lemma ShiftCombine(v: int, x7: int, x8: int, w: int, hi: int, t: int, t8: int, t9: int, c: int, m: int)
    requires v * 0x1_0000_0000 + c * (0x1_0000_0000 * w) == t + m
    requires x7 + hi * 0x1_0000_0000 == t8 + c
    requires x8 == t9 + hi
    ensures var w8 := 0x1_0000_0000 * w;
            var w9 := 0x1_0000_0000 * w8;
            (v + x7 * w + x8 * w8) * 0x1_0000_0000 == t + t8 * w8 + t9 * w9 + m
  {
  }

  /** Storing the carry into limb 7 and the spill into limb 8 completes the shifted sum. */
  lemma ShiftTop(t: seq<u32>, t0: seq<u32>, c: int, lo: u32, hi: u32, top: u32, m: int)
    requires |t| == |t0| == 10 && t[8] == t0[8]
    requires Val(t[..7]) * 0x1_0000_0000 + c * Base(8) == Val(t0[..8]) + m
    requires (lo as int) + (hi as int) * 0x1_0000_0000 == t0[8] + c
    requires (top as int) == (t0[9] as int) + hi
    ensures Val(t[7 := lo][8 := top][..9]) * 0x1_0000_0000 == Val(t0) + m
  {
    hide Val, Base;
    LimbSet(t, 7, lo);
    LimbSet(t[7 := lo], 8, top);
    assert t0[..10] == t0;
    ValSnoc(t0, 8);
    ValSnoc(t0, 9);
    BaseNext(7);
    BaseNext(8);
    ShiftCombine(Val(t[..7]), lo, top, Base(7), hi, Val(t0[..8]), t0[8], t0[9], c, m);
  }

  lemma FirstLimbs(t: seq<u32>, p: seq<u32>)
    requires |t| > 0 && |p| > 0 && p[0] == 0xffff_ffff
    ensures ShiftSum(t, t[0], t, p, t[0], 1)
  {
  }

  /** The reduction loop: adds t[0] * P and stores the sum one limb down, returning the carry. */
  method ReduceRowLimbs(t: array<u32>, p: array<u32>) returns (c: u64)
    requires t.Length == 10 && p.Length == 8 && t != p && p[..] == P_LIMBS
    modifies t
    ensures c < 0x1_0000_0000 && t[..][8..] == old(t[..][8..])
    ensures Val(t[..][..7]) * 0x1_0000_0000 + c * Base(8) == old(Val(t[..][..8])) + P() * old(t[0])
  {
    hide Val, Base, ShiftSum;
    ghost var t0 := t[..];
    var m: u32 := t[0];
    ProductWord(t[0], m, p[0], 0);
    var s0: u64 := t[0] + m * p[0];
    c := s0 / 0x1_0000_0000;
    FirstLimbs(t0, P_LIMBS);
    for j := 1 to 8
      invariant c < 0x1_0000_0000
      invariant p[..] == P_LIMBS && t[..][j..] == t0[j..]
      invariant ShiftSum(t[..], c, t0, P_LIMBS, m, j)
    {
      assert t[j] == t[..][j..][0] == t0[j];
      ghost var t1, c1 := t[..], c;
      ProductWord(t[j], m, p[j], c);
      var s: u64 := t[j] + m * p[j] + c;
      t[j - 1] := s % 0x1_0000_0000;
      c := s / 0x1_0000_0000;
      ghost var lo: u32 := t[j - 1];
      assert t[..] == t1[j - 1 := lo];
      assert t[..][j + 1..] == t1[j..][1..];
      ShiftLimb(t1, t0, P_LIMBS, m, j, c1, lo, c);
    }
    ShiftSumAll(t[..], c, t0, P_LIMBS, m);
    assert P() == Val(P_LIMBS);
  }

  /** t := (t + t[0] * P) / 2^32: P is -1 modulo 2^32, so the low limb of the sum is zero. */
  method ReduceRow(t: array<u32>, p: array<u32>)
    requires t.Length == 10 && p.Length == 8 && t != p && p[..] == P_LIMBS
    requires t[9] <= 1
    modifies t
    ensures Val(t[..9]) * 0x1_0000_0000 == old(Val(t[..])) + P() * old(t[0])
  {
    hide Val, Base, P;
    ghost var t0, m := t[..], P() * t[0];
    var c := ReduceRowLimbs(t, p);
    assert t[8] == t[..][8..][0] == t0[8..][0] && t[9] == t[..][8..][1] == t0[8..][1];
    ghost var t1: seq<u32> := t[..];
    var se: u64 := (t[8] as int) + c;
    t[7] := se % 0x1_0000_0000;
    t[8] := t[9] + se / 0x1_0000_0000;
    ghost var x7: u32, x8: u32 := t[7], t[8];
    assert t[..] == t1[7 := x7][8 := x8];
    ShiftTop(t1, t0, c, x7, se / 0x1_0000_0000, x8, m);
    assert t[..][..9] == t[..9];
  }

  // ---------- the product ----------

  /** After n words of b, the accumulator times 2^(32n) is a * b[..n] plus a small multiple of P. */
  ghost predicate Accumulated(t: nat, a: nat, b: nat, q: nat, w: nat) {
    t * w == a * b + q * P() && q < w
  }

  /** One outer step keeps the running bound `accumulator < a + P` and the accumulated product. */
  lemma OuterStep(t: nat, t': nat, a: nat, b: nat, b': nat, bi: u32, m: u32, q: nat, q': nat, w: nat, w': nat)
    requires t' * 0x1_0000_0000 == t + a * bi + P() * m
    requires t < a + P()
    requires Accumulated(t, a, b, q, w)
    requires b' == b + bi * w && q' == q + m * w && w' == 0x1_0000_0000 * w
    ensures t' < a + P()
    ensures Accumulated(t', a, b', q', w')
  {
    hide P;
    OuterBound(t, t', a, bi, m, P());
    OuterProduct(t, t', a, b, bi, m, P(), q, w);
    QuotientBound(q, m, w);
  }

  lemma QuotientBound(q: int, m: u32, w: int)
    requires 0 <= q < w
    ensures q + m * w < 0x1_0000_0000 * w
  {
    MulAtMost(m, 0xffff_ffff, w);
  }

  lemma OuterBound(t: int, t': int, a: int, bi: u32, m: u32, p: int)
    requires t' * 0x1_0000_0000 == t + a * bi + p * m
    requires t < a + p && a >= 0 && p >= 0
    ensures t' < a + p
  {
    MulAtMost(bi, 0xffff_ffff, a);
    MulAtMost(m, 0xffff_ffff, p);
    BelowSum(t, t', a, p, a * bi, p * m);
  }

  lemma BelowSum(t: int, t': int, a: int, p: int, x: int, y: int)
    requires t' * 0x1_0000_0000 == t + x + y
    requires t < a + p && x <= 0xffff_ffff * a && y <= 0xffff_ffff * p
    ensures t' < a + p
  {
  }

  /** The product equation, scaled by the next word of b. */
  lemma OuterProduct(t: int, t': int, a: int, b: int, bi: int, m: int, p: int, q: int, w: int)
    requires t' * 0x1_0000_0000 == t + a * bi + p * m
    requires t * w == a * b + q * p
    ensures t' * (0x1_0000_0000 * w) == a * (b + bi * w) + (q + m * w) * p
  {
    calc {
      t' * (0x1_0000_0000 * w);
      == { MulAssoc(t', 0x1_0000_0000, w); }
      (t + a * bi + p * m) * w;
      == { Distribute(t + a * bi, p * m, w); Distribute(t, a * bi, w); }
      t * w + a * bi * w + p * m * w;
      == { MulAssoc(a, bi, w); MulAssoc(p, m, w); }
      a * b + q * p + a * (bi * w) + p * (m * w);
      == { Distribute(q, m * w, p); Distribute(b, bi * w, a); }
      a * (b + bi * w) + (q + m * w) * p;
    }
  }

  lemma DivBound(t: int, s: int, w: int)
    requires w > 0 && s > 0 && t * w <= (w - 1) * s
    ensures t < s
  {
  }

  /** The final accumulator is below b + P as well. */
  lemma FinalBound(t: nat, a: nat, b: nat, q: nat, w: nat)
    requires Accumulated(t, a, b, q, w) && a < w
    ensures t < b + P()
  {
    hide P;
    MulAtMost(a, w - 1, b);
    MulAtMost(q, w - 1, P());
    assert (w - 1) * (b + P()) == (w - 1) * b + (w - 1) * P();
    DivBound(t, b + P(), w);
  }

  /** The value r that is left after the one conditional subtraction of P. */
  ghost predicate ReducedProduct(r: nat, a: nat, b: nat) {
    && r % P() == MontMul(a, b)
    && (a < P() || b < P() ==> r < P())
  }

  lemma Subtracted(t: nat, r: nat, a: nat, b: nat, q: nat)
    requires a < R() && t < a + P() && Accumulated(t, a, b, q, R())
    requires r == if t >= P() then t - P() else t
    ensures ReducedProduct(r, a, b)
  {
    hide MontMul, P, R, Accumulated;
    FinalBound(t, a, b, q, R());
    SubtractedResidue(t, a, b, q);
    ModMinus(t, P());
  }

  lemma SubtractedResidue(t: nat, a: nat, b: nat, q: nat)
    requires Accumulated(t, a, b, q, R())
    ensures t % P() == MontMul(a, b)
  {
    hide P, R, RInv;
    CancelRadix(t, a * b, q);
  }

  /** The conditional subtraction works on the value including the ninth limb. */
  lemma NinthLimb(t: nat, top: u32, low: nat, r: nat)
    requires t == low + top * R() && top <= 1 && low < R() && t < R() + P()
    requires r == if top == 1 then low - P() + (if low < P() then R() else 0) else if low >= P() then low - P() else low
    ensures r == if t >= P() then t - P() else t
  {
    hide P, R;
  }

  lemma TopLimb(t: seq<u32>)
    requires |t| == 9 && Val(t) < 2 * R()
    ensures t[8] <= 1 && Val(t) == Val(t[..8]) + t[8] * R() && Val(t[..8]) < R()
  {
    hide Val, Base, R;
    RIsBase();
    ValSnoc(t, 8);
    assert t[..9] == t;
    ValBound(t[..8]);
  }

  lemma ValBelowR(s: seq<u32>)
    requires |s| == 8
    ensures Val(s) < R()
  {
    hide Val, Base, R;
    ValBound(s);
    RIsBase();
  }

  /** The state of the outer loop after n words of b. */
  ghost predicate OuterSum(t: seq<u32>, a: seq<u32>, b: seq<u32>, q: nat, n: nat)
    requires n <= |b|
  {
    && Val(t) < Val(a) + P()
    && Accumulated(Val(t), Val(a), Val(b[..n]), q, Base(n))
  }

  lemma OuterRow(t: seq<u32>, t': seq<u32>, a: seq<u32>, b: seq<u32>, q: nat, q': nat, n: nat, m: u32)
    requires n < |b| && OuterSum(t, a, b, q, n)
    requires Val(t') * 0x1_0000_0000 == Val(t) + Val(a) * b[n] + P() * m
    requires q' == q + m * Base(n)
    ensures OuterSum(t', a, b, q', n + 1)
  {
    hide Val, Base, P, Accumulated;
    ValSnoc(b, n);
    BaseNext(n);
    OuterStep(Val(t), Val(t'), Val(a), Val(b[..n]), Val(b[..n + 1]), b[n], m, q, q', Base(n), Base(n + 1));
  }

  lemma OuterNone(t: seq<u32>, a: seq<u32>, b: seq<u32>)
    requires Val(t) == 0
    ensures OuterSum(t, a, b, 0, 0)
  {
    hide P;
  }

  /** The outer loop of the product, on a zeroed accumulator. */
  method Accumulate(t: array<u32>, a: array<u32>, b: array<u32>, p: array<u32>) returns (ghost q: nat)
    requires t.Length == 10 && a.Length == b.Length == p.Length == 8
    requires t != a && t != b && t != p && p[..] == P_LIMBS
    requires Val(t[..9]) == 0
    modifies t
    ensures OuterSum(t[..9], a[..], b[..], q, 8)
  {
    hide Val, Base, P, OuterSum;
    ghost var va, vb := a[..], b[..];
    q := 0;
    OuterNone(t[..9], va, vb);
    for i := 0 to 8
      invariant a[..] == va && b[..] == vb && p[..] == P_LIMBS
      invariant OuterSum(t[..9], va, vb, q, i)
    {
      ghost var t0 := t[..9];
      assert b[i] == vb[i];
      AddRow(t, a, b[i]);
      ghost var m: u32 := t[0];
      ReduceRow(t, p);
      ghost var q0 := q;
      q := q + m * Base(i);
      OuterRow(t0, t[..9], va, vb, q0, q, i, m);
    }
  }

  /**
   r := a * b / 2^256 mod P.  The congruence holds for all 256-bit a and b; the result is fully
   reduced as soon as either factor is.
   */
  method FeMul(r: array<u32>, a: array<u32>, b: array<u32>)
    requires r.Length == a.Length == b.Length == 8
    modifies r
    ensures ReducedProduct(Val(r[..]), old(Val(a[..])), old(Val(b[..])))
    ensures old(IsElem(a[..]) || IsElem(b[..])) ==>
              IsElem(r[..]) && Elem(r[..]) == FMul(old(Elem(a[..])), old(Elem(b[..])))
  {
    hide Val, Base, P, R, OuterSum, Accumulated, ReducedProduct, IsElem, Elem, FMul;
    ghost var va, vb := a[..], b[..];
    var p := Load(P_LIMBS);
    var t := new u32[10](_ => 0);
    ValZero(t[..9]);
    ghost var q := Accumulate(t, a, b, p);
    ghost var v := t[..9];
    ProductBounds(v, va, vb, q);
    RIsBase();
    PIsTable();
    assert t[8] == v[8] && v[..8] == t[..8];
    CondSubMod(r, t, t[8], p);
    FinishProduct(v, va, vb, q, Val(r[..]));
    ElemMul(r[..], va, vb);
  }

  lemma ProductResidue(r: nat, a: nat, b: nat)
    requires ReducedProduct(r, a, b) && r < P()
    ensures Std(r) == FMul(Std(a), Std(b))
  {
    hide P, MontMul, Std, FMul;
    ModSmall(r, P());
    StdMul(a, b);
  }

  lemma ElemMul(r: seq<u32>, a: seq<u32>, b: seq<u32>)
    requires |r| == |a| == |b| == 8 && ReducedProduct(Val(r), Val(a), Val(b))
    ensures IsElem(a) || IsElem(b) ==> IsElem(r) && Elem(r) == FMul(Elem(a), Elem(b))
  {
    hide Val, P, Std, FMul, MontMul;
    if IsElem(a) || IsElem(b) {
      ProductResidue(Val(r), Val(a), Val(b));
    }
  }

  lemma FinishProduct(t: seq<u32>, a: seq<u32>, b: seq<u32>, q: nat, r: nat)
    requires |t| == 9 && |a| == |b| == 8 && OuterSum(t, a, b, q, 8)
    requires t[8] <= 1
    requires var low := Val(t[..8]);
             r == if t[8] == 1 then low - P() + (if low < P() then R() else 0) else if low >= P() then low - P() else low
    ensures ReducedProduct(r, Val(a), Val(b))
  {
    hide Val, P, R, Accumulated, OuterSum, ReducedProduct;
    ProductBounds(t, a, b, q);
    PFacts();
    NinthLimb(Val(t), t[8], Val(t[..8]), r);
    Subtracted(Val(t), r, Val(a), Val(b), q);
  }

  lemma ProductBounds(t: seq<u32>, a: seq<u32>, b: seq<u32>, q: nat)
    requires |t| == 9 && |a| == |b| == 8 && OuterSum(t, a, b, q, 8)
    ensures Val(a) < R() && Val(t) < Val(a) + P()
    ensures t[8] <= 1 && Val(t) == Val(t[..8]) + t[8] * R() && Val(t[..8]) < R()
    ensures Accumulated(Val(t), Val(a), Val(b), q, R())
  {
    hide Val, P, R, Accumulated;
    ValBelowR(a);
    PFacts();
    TopLimb(t);
    RIsBase();
    assert b[..8] == b;
  }
}
