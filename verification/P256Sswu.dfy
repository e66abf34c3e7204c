/**
 The simplified SWU map from octets to points of the P-256 curve, on limbs: every input below P gives a valid
 point.
 */
module P256Sswu {
  import opened Words
  import opened ModArith
  import opened Limbs
  import opened P256Repr
  import opened P256Field
  import opened P256Elem
  import opened P256Bytes
  import opened P256Point
  import opened P256Map

  const P_MINUS_2: seq<u32> := [0xfffffffd, 0xffffffff, 0xffffffff, 0x00000000, 0x00000000, 0x00000000, 0x00000001, 0xffffffff]

  lemma InversionTable()
    ensures Val(P_MINUS_2) + 2 == P()
  {
    ValEight(P_MINUS_2);
    PNumber();
  }

  // ---------- the right-hand side ----------

  /** r := x^3 + A x + b, as the map computes it. */
  method Rhs(x: array<u32>, a: array<u32>) returns (r: array<u32>)
    requires x.Length == a.Length == 8 && IsElem(x[..]) && IsElem(a[..]) && Elem(a[..]) == Minus(3)
    ensures fresh(r) && r.Length == 8 && IsElem(r[..]) && Elem(r[..]) == CurveRhs(Elem(x[..]))
  {
    hide IsElem, Elem, FMul, FAdd, FSub, Val, P, ReducedProduct, CurveRhs;
    var sq, ax := new u32[8], new u32[8];
    r := new u32[8];
    FeMul(sq, x, x);
    FeMul(sq, sq, x);
    FeMul(ax, a, x);
    FeAdd(r, sq, ax);
    var b := Load(MONT_B);
    BTable();
    FeAdd(r, r, b);
    RhsWithA(Elem(x[..]));
  }

  // ---------- the constants ----------

  lemma SmallSums()
    ensures FAdd(FAdd(1, 1), 1) == 3 && FAdd(3, 3) == 6 && FAdd(6, 3) == 9 && FAdd(9, 1) == 10
  {
    hide P;
    PLarge();
    ModSmall(2, P());
    ModSmall(3, P());
    ModSmall(6, P());
    ModSmall(9, P());
    ModSmall(10, P());
  }

  lemma PLarge()
    ensures P() > 10
  {
    PNumber();
  }

  /** A = -3 and Z = -10, from sums of ones. */
  method Constants() returns (a: array<u32>, z: array<u32>)
    ensures fresh(a) && a.Length == 8 && IsElem(a[..]) && Elem(a[..]) == Minus(3)
    ensures fresh(z) && z.Length == 8 && IsElem(z[..]) && Elem(z[..]) == Minus(10)
  {
    hide IsElem, Elem, FAdd, FSub, Val, P;
    var one := Load(MONT_ONE);
    var three, ten := new u32[8], new u32[8];
    OneTable();
    SmallSums();
    FeAdd(three, one, one);
    FeAdd(three, three, one);
    FeAdd(ten, three, three);
    FeAdd(ten, ten, three);
    FeAdd(ten, ten, one);
    a := Negated(three);
    z := Negated(ten);
  }

  method Negated(x: array<u32>) returns (r: array<u32>)
    requires x.Length == 8 && IsElem(x[..])
    ensures fresh(r) && r.Length == 8 && IsElem(r[..]) && Elem(r[..]) == Minus(Elem(x[..]))
  {
    hide IsElem, Elem, FSub, Val, P;
    r := new u32[8];
    FeSet(r, x);
    FeNegate(r);
  }

  method FeInv(x: array<u32>) returns (r: array<u32>)
    requires x.Length == 8
    ensures fresh(r) && r.Length == 8 && IsElem(r[..]) && Elem(r[..]) == Inv0(Elem(x[..]))
    ensures if Elem(x[..]) == 0 then Elem(r[..]) == 0 else FMul(Elem(x[..]), Elem(r[..])) == 1
  {
    hide IsElem, Elem, FPow, Val, P;
    r := new u32[8];
    InversionTable();
    Inv0Inverts(Elem(x[..]));
    ModSmall(Elem(x[..]), P());
    FePow(r, x, P_MINUS_2);
  }

  // ---------- the candidates ----------

  /** The common denominator, and Z * u^2. */
  method Denominator(um: array<u32>, z: array<u32>) returns (denom: array<u32>, zu2: array<u32>)
    requires um.Length == z.Length == 8 && IsElem(um[..]) && IsElem(z[..]) && Elem(z[..]) == Minus(10)
    ensures fresh(denom) && denom.Length == 8 && IsElem(denom[..]) && Elem(denom[..]) == Denom(Elem(um[..]))
    ensures fresh(zu2) && zu2.Length == 8 && IsElem(zu2[..]) && Elem(zu2[..]) == Zu2(Elem(um[..]))
  {
    hide IsElem, Elem, FMul, FAdd, FSub, Val, P, ReducedProduct, Minus;
    var u2, u4, z2u4 := new u32[8], new u32[8], new u32[8];
    denom, zu2 := new u32[8], new u32[8];
    FeMul(u2, um, um);
    FeMul(u4, u2, u2);
    FeMul(zu2, z, u2);
    FeMul(z2u4, z, z);
    FeMul(z2u4, z2u4, u4);
    FeAdd(denom, z2u4, zu2);
  }

  method FirstCandidate(tv1: array<u32>, a: array<u32>, z: array<u32>, ghost u: nat) returns (x1: array<u32>)
    requires tv1.Length == a.Length == z.Length == 8 && IsElem(tv1[..]) && IsElem(a[..]) && IsElem(z[..])
    requires Elem(tv1[..]) == Tv1(u) && Elem(a[..]) == Minus(3) && Elem(z[..]) == Minus(10)
    ensures fresh(x1) && x1.Length == 8 && IsElem(x1[..]) && Elem(x1[..]) == X1(u)
  {
    hide IsElem, Elem, FMul, FAdd, FSub, Val, P, ReducedProduct, Inv0, Minus, Tv1;
    x1 := new u32[8];
    var b := Load(MONT_B);
    BTable();
    var none := FeIsZero(tv1);
    ElemZero(tv1[..]);
    if none {
      var za := new u32[8];
      FeMul(za, z, a);
      var iza := FeInv(za);
      FeMul(x1, b, iza);
    } else {
      var nb := Negated(b);
      var ia := FeInv(a);
      var onep := new u32[8];
      var one := Load(MONT_ONE);
      OneTable();
      FeMul(nb, nb, ia);
      FeAdd(onep, one, tv1);
      FeMul(x1, nb, onep);
    }
  }

  /** y is given the parity of the octet string's last bit, unless it is zero. */
  method Signed(y: array<u32>, odd: nat)
    requires y.Length == 8 && IsElem(y[..]) && odd <= 1
    modifies y
    ensures IsElem(y[..]) && FMul(Elem(y[..]), Elem(y[..])) == old(FMul(Elem(y[..]), Elem(y[..])))
    ensures Elem(y[..]) % 2 == odd || Elem(y[..]) == 0
  {
    hide IsElem, Elem, FMul, FSub, Val, P;
    var s := FeSgn0(y);
    if s != odd {
      NegatedSquare(Elem(y[..]));
      NegatedFlips(Elem(y[..]));
      FeNegate(y);
    }
  }

  /** P is odd, so negation flips the parity of everything but zero. */
  lemma NegatedFlips(y: nat)
    requires y < P()
    ensures y == 0 ==> FSub(0, y) == 0
    ensures y != 0 ==> FSub(0, y) % 2 != y % 2
  {
    hide P;
    PFacts();
    if y == 0 {
      ModSmall(0, P());
    } else {
      ModPlusMultiple(0 - y, 1, P());
      ModSmall(P() - y, P());
    }
  }

  /**
   The map.  It fails exactly for input that is not below P; otherwise the output is a valid point with the
   x coordinate of the candidate taken and a y of the input's parity or zero.
   */
  method Sswu(uBe: array<u8>, out: array<u8>) returns (ok: bool)
    requires uBe.Length == 32 && out.Length == 64 && uBe != out
    modifies out
    ensures ok <==> BeVal(uBe[..]) < P()
    ensures !ok ==> out[..] == old(out[..])
    ensures ok ==> ValidPoint(out[..]) && BeVal(out[..32]) == MapX(BeVal(uBe[..]))
    ensures ok ==> BeVal(out[32..]) % 2 == BeVal(uBe[..]) % 2 || BeVal(out[32..]) == 0
  {
    hide Val, BeVal, Elem, IsElem, CurveRhs, PassesSquareTest, FMul, P, ValidPoint, X1, Zu2, Tv1, MapX,
         ReducedProduct, Minus;
    assert uBe[0..32] == uBe[..];
    var u := new u32[8];
    ok := ReadCoordinate(u, uBe, 0);
    if !ok {
      return;
    }
    ghost var v := Val(u[..]);
    ModSmall(v, P());
    ValParity(u[..]);
    var um := new u32[8];
    FeToMont(um, u);
    var x, y := Candidate(um);
    Signed(y, u[0] % 2);
    WritePoint(out, x, y);
    MappedPoint(out[..], MapX(v));
  }

  /** The x coordinate taken and the root of its right-hand side, before its sign is chosen. */
  method Candidate(um: array<u32>) returns (x: array<u32>, y: array<u32>)
    requires um.Length == 8 && IsElem(um[..])
    ensures fresh(x) && x.Length == 8 && IsElem(x[..]) && Elem(x[..]) == MapX(Elem(um[..]))
    ensures fresh(y) && y.Length == 8 && IsElem(y[..]) && x != y
    ensures FMul(Elem(y[..]), Elem(y[..])) == CurveRhs(MapX(Elem(um[..])))
  {
    hide Elem, IsElem, CurveRhs, PassesSquareTest, FMul, P, Val, X1, Zu2, Denom, Inv0, ReducedProduct, Minus;
    ghost var u := Elem(um[..]);
    MapPasses(u);
    var a, z := Constants();
    var denom, zu2 := Denominator(um, z);
    var tv1 := FeInv(denom);
    x := FirstCandidate(tv1, a, z, u);
    var gx := Rhs(x, a);
    var x2 := new u32[8];
    FeMul(x2, zu2, x);
    var gx2 := Rhs(x2, a);
    var square := FeIsSquare(gx);
    y := new u32[8];
    if square {
      FeSqrt(y, gx);
    } else {
      x := x2;
      FeSqrt(y, gx2);
    }
  }

  lemma MappedPoint(out: seq<u8>, x: nat)
    requires |out| == 64 && BeVal(out[..32]) == x < P() && BeVal(out[32..]) < P()
    ensures FMul(BeVal(out[32..]), BeVal(out[32..])) == CurveRhs(x) ==> ValidPoint(out)
  {
    hide BeVal, P, CurveRhs, FMul;
    if FMul(BeVal(out[32..]), BeVal(out[32..])) == CurveRhs(x) {
      OriginNotOnCurve(x, BeVal(out[32..]));
    }
  }
}
