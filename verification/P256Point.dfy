/**
 Points of the P-256 curve y^2 = x^3 - 3x + b: the validity check and recovery of a point from its
 x coordinate.  Nothing here assumes that P is prime.
 */
module P256Point {
  import opened Words
  import opened ModArith
  import opened Limbs
  import opened P256Repr
  import opened P256Field
  import opened P256Elem
  import opened P256Bytes

  ghost function CurveRhs(x: nat): (r: nat)
    ensures r < P()
  {
    FAdd(FSub(FMul(FMul(x, x), x), FAdd(FAdd(x, x), x)), CURVE_B)
  }

  ghost predicate OnCurve(x: nat, y: nat) {
    FMul(y, y) == CurveRhs(x)
  }

  lemma Cube(x: nat)
    ensures FMul(FMul(x, x), x) == x * x * x % P()
  {
    hide P;
    ModMulLeft(x * x, x, P());
  }

  lemma Triple(x: nat, y: nat)
    requires y == x + x
    ensures FAdd(FAdd(x, x), x) == (y + x) % P()
  {
    hide P;
    ModShift(y, x, P());
  }

  lemma RhsIsCubic(x: nat, c: int, t: int)
    requires c == x * x * x && t == x + x + x
    ensures CurveRhs(x) == (c - t + CURVE_B) % P()
  {
    hide FMul, P;
    Cube(x);
    Triple(x, x + x);
    ModAdd(c, t, P());
    ModShift(c - t, CURVE_B, P());
  }

  /** The curve equation without the intermediate reductions. */
  lemma OnCurveIsEquation(x: nat, y: nat)
    ensures OnCurve(x, y) <==> y * y % P() == (x * x * x - 3 * x + CURVE_B) % P()
  {
    hide P;
    RhsIsCubic(x, x * x * x, 3 * x);
  }

  /** A 64-byte encoding of a point: canonical coordinates, not both zero, on the curve. */
  ghost predicate ValidPoint(pt: seq<u8>) {
    && |pt| == 64
    && BeVal(pt[..32]) < P() && BeVal(pt[32..]) < P()
    && !(BeVal(pt[..32]) == 0 && BeVal(pt[32..]) == 0)
    && OnCurve(BeVal(pt[..32]), BeVal(pt[32..]))
  }

  /** The criterion the code uses for squares; for a prime P it is Euler's. */
  ghost predicate PassesSquareTest(x: nat) {
    x == 0 || FPow(x, (P() - 1) / 2) == 1
  }

  method FeIsSquare(a: array<u32>) returns (s: bool)
    requires a.Length == 8 && IsElem(a[..])
    ensures s <==> PassesSquareTest(Elem(a[..]))
  {
    hide Val, P, Std, FPow, IsElem, Elem;
    var z := FeIsZero(a);
    ElemZero(a[..]);
    if z {
      return true;
    }
    var t := new u32[8];
    FePow(t, a, EXP_HALF);
    ExponentTables();
    var one := Load(MONT_ONE);
    OneTable();
    s := FeEq(t, one);
    ElemEq(t[..], MONT_ONE);
  }

  lemma ElemZero(s: seq<u32>)
    requires IsElem(s)
    ensures Val(s) == 0 <==> Elem(s) == 0
  {
    hide Val, P, R, RInv;
    var v := Val(s);
    StdTimesR(v);
    ModSmall(v, P());
    ModSmall(0, P());
    assert v == 0 ==> v * RInv() == 0;
    assert Std(v) == 0 ==> Std(v) * R() == 0;
  }

  /** Squaring x^((P+1)/4) gives x * x^((P-1)/2), hence x for every x that passes the test. */
  lemma SqrtSquares(x: nat, q: nat, h: nat)
    requires x < P() && 2 * q == h + 1
    requires x == 0 || FPow(x, h) == 1
    ensures FMul(FPow(x, q), FPow(x, q)) == x
  {
    hide P;
    PowAdd(x, q, q);
    ModMul(Pow(x, q), Pow(x, q), P());
    assert Pow(x, q + q) == x * Pow(x, h);
    ModMul(x, Pow(x, h), P());
    ModSmall(x, P());
  }

  /** r := a^((P+1)/4); it squares to a whenever a passes the square test. */
  method FeSqrt(r: array<u32>, a: array<u32>)
    requires r.Length == a.Length == 8 && IsElem(a[..])
    modifies r
    ensures IsElem(r[..])
    ensures old(PassesSquareTest(Elem(a[..]))) ==> FMul(Elem(r[..]), Elem(r[..])) == old(Elem(a[..]))
  {
    hide Val, P, FPow, FMul, IsElem, Elem;
    ghost var x := Elem(a[..]);
    FePow(r, a, EXP_QUARTER);
    ExponentTables();
    if PassesSquareTest(x) {
      SqrtSquares(x, Val(EXP_QUARTER), (P() - 1) / 2);
    }
  }

  lemma ValParity(s: seq<u32>)
    requires s != []
    ensures Val(s) % 2 == s[0] % 2
  {
    hide Val, Base;
    ValCons(s);
    EvenPart(Val(s), s[0], Val(s[1..]));
  }

  lemma EvenPart(x: int, a: int, b: int)
    requires x == a + 0x1_0000_0000 * b
    ensures x % 2 == a % 2
  {
    assert x == a + 2 * (0x8000_0000 * b);
  }

  /** The parity of the residue. */
  method FeSgn0(a: array<u32>) returns (b: nat)
    requires a.Length == 8
    ensures b == Elem(a[..]) % 2
  {
    hide Val, P, Elem;
    var n := new u32[8];
    FeFromMont(n, a);
    ValParity(n[..]);
    b := n[0] % 2;
  }

  /** r := x^3 - 3x + b, with x in Montgomery form. */
  method FeCurveRhs(r: array<u32>, xm: array<u32>)
    requires r.Length == xm.Length == 8 && r != xm && IsElem(xm[..])
    modifies r
    ensures IsElem(r[..]) && Elem(r[..]) == CurveRhs(Elem(xm[..]))
  {
    hide IsElem, Elem, FMul, FAdd, FSub, Val, P, ReducedProduct;
    var x3, threeX, t := new u32[8], new u32[8], new u32[8];
    FeMul(x3, xm, xm);
    FeMul(x3, x3, xm);
    FeAdd(threeX, xm, xm);
    FeAdd(threeX, threeX, xm);
    FeSub(t, x3, threeX);
    var b := Load(MONT_B);
    BTable();
    FeAdd(r, t, b);
  }

  method PointOnCurve(xm: array<u32>, ym: array<u32>) returns (on: bool)
    requires xm.Length == ym.Length == 8 && IsElem(xm[..]) && IsElem(ym[..])
    ensures on <==> OnCurve(Elem(xm[..]), Elem(ym[..]))
  {
    hide IsElem, Elem, FMul, CurveRhs, Val, P, ReducedProduct;
    var y2, rhs := new u32[8], new u32[8];
    FeMul(y2, ym, ym);
    FeCurveRhs(rhs, xm);
    on := FeEq(y2, rhs);
    ElemEq(y2[..], rhs[..]);
  }

  /** x := the coordinate at b[off..off+32]; below tells whether it is canonical. */
  method ReadCoordinate(x: array<u32>, b: array<u8>, off: nat) returns (below: bool)
    requires x.Length == 8 && off + 32 <= b.Length
    modifies x
    ensures Val(x[..]) == BeVal(b[off..off + 32])
    ensures below <==> Val(x[..]) < P()
  {
    hide Val, BeVal, P;
    PIsTable();
    BeToFe(x, b, off);
    var p := Load(P_LIMBS);
    var c := Compare(x, p);
    below := c < 0;
  }

  method PointValid(pt: array<u8>) returns (valid: bool)
    requires pt.Length == 64
    ensures valid <==> ValidPoint(pt[..])
  {
    hide OnCurve, P, Val, BeVal;
    assert pt[..][..32] == pt[0..32] && pt[..][32..] == pt[32..64];
    var x, y := new u32[8], new u32[8];
    var cx := ReadCoordinate(x, pt, 0);
    var cy := ReadCoordinate(y, pt, 32);
    if !cx || !cy {
      return false;
    }
    var zx := FeIsZero(x);
    var zy := FeIsZero(y);
    if zx && zy {
      return false;
    }
    valid := CoordinatesOnCurve(x, y);
  }

  /** The curve check on coordinates in ordinary form. */
  method CoordinatesOnCurve(x: array<u32>, y: array<u32>) returns (on: bool)
    requires x.Length == y.Length == 8 && Val(x[..]) < P() && Val(y[..]) < P()
    ensures on <==> OnCurve(Val(x[..]), Val(y[..]))
  {
    hide OnCurve, P, Val, Elem, IsElem;
    ModSmall(Val(x[..]), P());
    ModSmall(Val(y[..]), P());
    var xm, ym := new u32[8], new u32[8];
    FeToMont(xm, x);
    FeToMont(ym, y);
    on := PointOnCurve(xm, ym);
  }

  lemma NegatedSquare(y: nat)
    requires y < P()
    ensures FMul(FSub(0, y), FSub(0, y)) == FMul(y, y)
  {
    hide P;
    ModMul(0 - y, 0 - y, P());
    assert (0 - y) * (0 - y) == y * y;
  }

  /** P is odd, so negation flips the parity of a nonzero residue. */
  lemma NegatedParity(y: nat)
    requires y < P() && y % 2 == 1
    ensures FSub(0, y) % 2 == 0
  {
    hide P;
    PFacts();
    ModPlusMultiple(0 - y, 1, P());
    ModSmall(P() - y, P());
  }

  lemma OriginNotOnCurve(x: nat, y: nat)
    requires OnCurve(x, y)
    ensures !(x == 0 && y == 0)
  {
    RhsAtZero();
  }

  lemma RhsAtZero()
    ensures CurveRhs(0) == CURVE_B
  {
    hide P;
    PBound();
    ModSmall(0, P());
    ModSmall(CURVE_B, P());
  }

  lemma PBound()
    ensures CURVE_B < P()
  {
    PNumber();
  }

  /** y := -y in the field. */
  method FeNegate(y: array<u32>)
    requires y.Length == 8 && IsElem(y[..])
    modifies y
    ensures IsElem(y[..]) && Elem(y[..]) == FSub(0, old(Elem(y[..])))
  {
    hide FSub, Val, P, Elem;
    var zero, ny := new u32[8](_ => 0), new u32[8];
    ValZero(zero[..]);
    ElemZero(zero[..]);
    FeSub(ny, zero, y);
    FeSet(y, ny);
  }

  /** y := the even square root of rhs. */
  method EvenRoot(y: array<u32>, rhs: array<u32>)
    requires y.Length == rhs.Length == 8 && IsElem(rhs[..]) && PassesSquareTest(Elem(rhs[..]))
    modifies y
    ensures IsElem(y[..]) && Elem(y[..]) % 2 == 0
    ensures FMul(Elem(y[..]), Elem(y[..])) == old(Elem(rhs[..]))
  {
    hide FMul, FSub, Elem, IsElem, PassesSquareTest, P;
    FeSqrt(y, rhs);
    var odd := FeSgn0(y);
    if odd != 0 {
      NegatedSquare(Elem(y[..]));
      NegatedParity(Elem(y[..]));
      FeNegate(y);
    }
  }

  /** out := the residues of xm and ym as two 32-byte coordinates. */
  method WritePoint(out: array<u8>, xm: array<u32>, ym: array<u32>)
    requires out.Length == 64 && xm.Length == ym.Length == 8
    modifies out
    ensures BeVal(out[..32]) == Elem(xm[..]) && BeVal(out[32..]) == Elem(ym[..])
  {
    hide Val, BeVal, Elem;
    var xn, yn := new u32[8], new u32[8];
    FeFromMont(xn, xm);
    FeFromMont(yn, ym);
    FeToBe(out, 0, xn);
    ghost var first := out[0..32];
    FeToBe(out, 32, yn);
    assert out[..32] == first && out[32..] == out[32..64];
  }

  /**
   The point with the given x coordinate and even y.  It succeeds exactly for canonical x whose
   right-hand side passes the square test, and then the result is a valid point that keeps x.
   */
  method PointFromX(xBe: array<u8>, out: array<u8>) returns (ok: bool)
    requires xBe.Length == 32 && out.Length == 64 && xBe != out
    modifies out
    ensures ok <==> BeVal(xBe[..]) < P() && PassesSquareTest(CurveRhs(BeVal(xBe[..])))
    ensures ok ==> out[..32] == xBe[..] && BeVal(out[32..]) % 2 == 0 && ValidPoint(out[..])
    ensures !ok ==> out[..] == old(out[..])
  {
    hide Val, BeVal, Elem, IsElem, CurveRhs, PassesSquareTest, FMul, P, ValidPoint;
    assert xBe[0..32] == xBe[..];
    var x := new u32[8];
    var below := ReadCoordinate(x, xBe, 0);
    if !below {
      return false;
    }
    ModSmall(Val(x[..]), P());
    var xm, rhs, y := new u32[8], new u32[8], new u32[8];
    FeToMont(xm, x);
    FeCurveRhs(rhs, xm);
    var square := FeIsSquare(rhs);
    if !square {
      return false;
    }
    EvenRoot(y, rhs);
    WritePoint(out, xm, y);
    Recovered(out[..], xBe[..]);
    ok := true;
  }

  lemma Recovered(out: seq<u8>, x: seq<u8>)
    requires |out| == 64 && |x| == 32
    requires BeVal(out[..32]) == BeVal(x) < P() && BeVal(out[32..]) < P()
    requires OnCurve(BeVal(x), BeVal(out[32..]))
    ensures out[..32] == x && ValidPoint(out)
  {
    hide BeVal, P, OnCurve;
    BeInjective(out[..32], x);
    OriginNotOnCurve(BeVal(x), BeVal(out[32..]));
  }
}
