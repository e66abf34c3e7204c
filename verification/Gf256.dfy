/**
 GF(2^8) with the AES polynomial: the loops that multiply and invert, and the proof that they do so in a
 field - the product is commutative, associative and distributive, and x^254 is the inverse of x.
 */
module Gf256 {

  /** The doubling inside the product loop, with a mask instead of a multiplication. */
  function Double(a: bv8): bv8 {
    (a << 1) ^ ((0 - (a >> 7)) & 0x1b)
  }

  /** Addition in the field; named so that proofs can treat it as an uninterpreted operation. */
  function Add(a: bv8, b: bv8): bv8 { a ^ b }

  /** a when the low bit of b is set, and 0 otherwise. */
  function Sel(a: bv8, b: bv8): bv8 { a & (0 - (b & 1)) }

  function Low(b: bv8): bv8 { b & 1 }

  function Half(b: bv8): bv8 { b >> 1 }

  /** The sum of a * x^i over the bits i of b below n: the product of polynomials, reduced at every doubling. */
  function Prod(a: bv8, b: bv8, n: nat): bv8
    decreases n
  {
    if n == 0 then 0 else Add(Sel(a, b), Prod(Double(a), Half(b), n - 1))
  }

  function GfMul(a: bv8, b: bv8): bv8 { Prod(a, b, 8) }

  function Square(a: bv8): bv8 { GfMul(a, a) }

  /** x^254, the product of x^2, x^4, ..., x^128. */
  function GfInv(x: bv8): bv8 {
    var x2 := Square(x);
    var x4 := Square(x2);
    var x8 := Square(x4);
    var x16 := Square(x8);
    var x32 := Square(x16);
    var x64 := Square(x32);
    var x128 := Square(x64);
    GfMul(GfMul(GfMul(GfMul(GfMul(GfMul(GfMul(1, x2), x4), x8), x16), x32), x64), x128)
  }

  // ---------- the loops ----------

  /** The shift-and-add loop computes the product. */
  method GfMulLoop(a: bv8, b: bv8) returns (r: bv8)
    ensures r == GfMul(a, b)
  {
    hide Double, Sel, Half, Add;
    var a', b' := a, b;
    r := 0;
    AddZero(GfMul(a, b));
    for i := 0 to 8
      invariant Add(r, Prod(a', b', 8 - i)) == GfMul(a, b)
    {
      AddAssoc(r, Sel(a', b'), Prod(Double(a'), Half(b'), 7 - i));
      MaskedStep(r, a', b');
      r := r ^ (a' & (0 - (b' & 1)));
      var hi := 0 - (a' >> 7);
      a' := (a' << 1) ^ (hi & 0x1b);
      b' := b' >> 1;
    }
    AddZero(r);
  }

  lemma MaskedStep(r: bv8, a: bv8, b: bv8)
    ensures r ^ (a & (0 - (b & 1))) == Add(r, Sel(a, b))
    ensures (a << 1) ^ ((0 - (a >> 7)) & 0x1b) == Double(a) && b >> 1 == Half(b)
  {
  }

  /** The running product of the inversion loop after n more squarings. */
  function InvFrom(r: bv8, b: bv8, n: nat): bv8
    decreases n
  {
    if n == 0 then r else InvFrom(GfMul(r, Square(b)), Square(b), n - 1)
  }

  lemma InvFromAll(x: bv8)
    ensures InvFrom(1, x, 7) == GfInv(x)
  {
    hide GfMul, Square;
    var x2 := Square(x);
    var x4 := Square(x2);
    var x8 := Square(x4);
    var x16 := Square(x8);
    var x32 := Square(x16);
    var x64 := Square(x32);
    var r2 := GfMul(1, x2);
    var r4 := GfMul(r2, x4);
    var r8 := GfMul(r4, x8);
    var r16 := GfMul(r8, x16);
    var r32 := GfMul(r16, x32);
    assert InvFrom(1, x, 7) == InvFrom(r2, x2, 6);
    assert InvFrom(r2, x2, 6) == InvFrom(r4, x4, 5);
    assert InvFrom(r4, x4, 5) == InvFrom(r8, x8, 4);
    assert InvFrom(r8, x8, 4) == InvFrom(r16, x16, 3);
    assert InvFrom(r16, x16, 3) == InvFrom(r32, x32, 2);
  }

  /** The square-and-multiply loop computes x^254. */
  method GfInvLoop(x: bv8) returns (r: bv8)
    ensures r == GfInv(x)
  {
    hide GfMul, GfInv;
    InvFromAll(x);
    var b := x;
    r := 1;
    for i := 1 to 8
      invariant InvFrom(r, b, 8 - i) == GfInv(x)
    {
      b := GfMulLoop(b, b);
      r := GfMulLoop(r, b);
    }
  }

  // ---------- addition ----------

  lemma AddZero(a: bv8)
    ensures Add(a, 0) == a && Add(0, a) == a && Add(a, a) == 0
  {
  }

  lemma AddAssoc(a: bv8, b: bv8, c: bv8)
    ensures Add(Add(a, b), c) == Add(a, Add(b, c))
  {
  }

  lemma AddCommutes(a: bv8, b: bv8)
    ensures Add(a, b) == Add(b, a)
  {
  }

  lemma AddSwap(a: bv8, b: bv8, c: bv8, d: bv8)
    ensures Add(Add(a, b), Add(c, d)) == Add(Add(a, c), Add(b, d))
  {
    hide Add;
    AddAssoc(a, b, Add(c, d));
    AddAssoc(b, c, d);
    AddCommutes(b, c);
    AddAssoc(c, b, d);
    AddAssoc(a, c, Add(b, d));
  }

  lemma DoubleLinear(a: bv8, b: bv8)
    ensures Double(Add(a, b)) == Add(Double(a), Double(b))
  {
  }

  lemma SelCases(a: bv8, b: bv8)
    ensures Low(b) == 0 || Low(b) == 1
    ensures Sel(a, b) == if Low(b) == 0 then 0 else a
  {
  }

  lemma LowLinear(b: bv8, b': bv8)
    ensures Low(Add(b, b')) == Add(Low(b), Low(b'))
  {
  }

  lemma HalfLinear(b: bv8, b': bv8)
    ensures Half(Add(b, b')) == Add(Half(b), Half(b'))
  {
  }

  lemma SelLinear(a: bv8, a': bv8, b: bv8)
    ensures Sel(Add(a, a'), b) == Add(Sel(a, b), Sel(a', b))
    ensures Sel(Double(a), b) == Double(Sel(a, b))
  {
    hide Sel, Add, Double, Low;
    SelCases(Add(a, a'), b);
    SelCases(Double(a), b);
    SelCases(a, b);
    SelCases(a', b);
    AddZero(0);
    DoubleZero();
  }

  lemma BitsLinear(a: bv8, b: bv8, b': bv8)
    ensures Sel(a, Add(b, b')) == Add(Sel(a, b), Sel(a, b'))
    ensures Half(Add(b, b')) == Add(Half(b), Half(b'))
  {
    hide Sel, Add, Half, Low;
    HalfLinear(b, b');
    LowLinear(b, b');
    SelCases(a, Add(b, b'));
    SelCases(a, b);
    SelCases(a, b');
    AddZero(a);
    AddZero(0);
    AddZero(1);
  }

  // ---------- multiplication is commutative, associative and distributive ----------

  lemma {:induction false} ProdLeft(a: bv8, a': bv8, b: bv8, n: nat)
    ensures Prod(Add(a, a'), b, n) == Add(Prod(a, b, n), Prod(a', b, n))
    decreases n
  {
    hide Double, Add, Sel, Half;
    if n == 0 {
      AddZero(0);
    } else {
      SelLinear(a, a', b);
      DoubleLinear(a, a');
      ProdLeft(Double(a), Double(a'), Half(b), n - 1);
      AddSwap(Sel(a, b), Sel(a', b), Prod(Double(a), Half(b), n - 1), Prod(Double(a'), Half(b), n - 1));
    }
  }

  lemma {:induction false} ProdRight(a: bv8, b: bv8, b': bv8, n: nat)
    ensures Prod(a, Add(b, b'), n) == Add(Prod(a, b, n), Prod(a, b', n))
    decreases n
  {
    hide Double, Add, Sel, Half;
    if n == 0 {
      AddZero(0);
    } else {
      BitsLinear(a, b, b');
      ProdRight(Double(a), Half(b), Half(b'), n - 1);
      AddSwap(Sel(a, b), Sel(a, b'), Prod(Double(a), Half(b), n - 1), Prod(Double(a), Half(b'), n - 1));
    }
  }

  lemma DoubleZero()
    ensures Double(0) == 0
  {
  }

  lemma {:induction false} ProdDouble(a: bv8, b: bv8, n: nat)
    ensures Prod(Double(a), b, n) == Double(Prod(a, b, n))
    decreases n
  {
    hide Double, Add, Sel, Half;
    if n == 0 {
      DoubleZero();
    } else {
      SelLinear(a, a, b);
      ProdDouble(Double(a), Half(b), n - 1);
      DoubleLinear(Sel(a, b), Prod(Double(a), Half(b), n - 1));
    }
  }

  lemma {:induction false} ProdZero(b: bv8, n: nat)
    ensures Prod(0, b, n) == 0
    decreases n
  {
    hide Double, Half;
    if n > 0 {
      DoubleZero();
      ProdZero(Half(b), n - 1);
    }
  }

  lemma SelProd(a: bv8, b: bv8, c: bv8, n: nat)
    ensures Prod(Sel(a, b), c, n) == Sel(Prod(a, c, n), b)
  {
    hide Prod, Sel, Low;
    SelCases(a, b);
    SelCases(Prod(a, c, n), b);
    ProdZero(c, n);
  }

  /** Multiplying a sum of shifts of e by a is the sum of the same shifts of e * a. */
  lemma {:induction false} ProdThenMul(e: bv8, b: bv8, a: bv8, n: nat)
    ensures GfMul(Prod(e, b, n), a) == Prod(GfMul(e, a), b, n)
    decreases n
  {
    hide Double, Add, Sel, Half;
    if n == 0 {
      ProdZero(a, 8);
    } else {
      ProdLeft(Sel(e, b), Prod(Double(e), Half(b), n - 1), a, 8);
      SelProd(e, b, a, 8);
      ProdThenMul(Double(e), Half(b), a, n - 1);
      ProdDouble(e, a, 8);
    }
  }

  lemma MulSwapLast(a: bv8, b: bv8, c: bv8)
    ensures GfMul(GfMul(a, b), c) == GfMul(GfMul(a, c), b)
  {
    hide Prod;
    ProdThenMul(a, b, c, 8);
  }

  /** The sum of the images that the bits of b select: the additive map sending 1, x, ..., x^7 to c0, ..., c7. */
  function Image(b: bv8, c0: bv8, c1: bv8, c2: bv8, c3: bv8, c4: bv8, c5: bv8, c6: bv8, c7: bv8): bv8 {
    var b1 := Half(b);
    var b2 := Half(b1);
    var b3 := Half(b2);
    var b4 := Half(b3);
    var b5 := Half(b4);
    var b6 := Half(b5);
    Add(Sel(c0, b), Add(Sel(c1, b1), Add(Sel(c2, b2), Add(Sel(c3, b3), Add(Sel(c4, b4), Add(Sel(c5, b5),
      Add(Sel(c6, b6), Sel(c7, Half(b6)))))))))
  }

  lemma ImageOfBits(b: bv8)
    ensures Image(b, 1, 2, 4, 8, 16, 32, 64, 128) == b
  {
  }

  lemma Powers()
    ensures Double(1) == 2 && Double(2) == 4 && Double(4) == 8 && Double(8) == 16
    ensures Double(16) == 32 && Double(32) == 64 && Double(64) == 128
  {
  }

  lemma ProdStep(a: bv8, b: bv8, n: nat)
    requires n > 0
    ensures Prod(a, b, n) == Add(Sel(a, b), Prod(Double(a), Half(b), n - 1))
  {
  }

  lemma ProdLast(a: bv8, b: bv8)
    ensures Prod(a, b, 1) == Sel(a, b)
  {
    hide Sel, Add, Half, Double;
    AddZero(Sel(a, b));
    assert Prod(Double(a), Half(b), 0) == 0;
  }

  /** The product written out. */
  lemma MulUnrolled(a: bv8, b: bv8)
    ensures var a1 := Double(a);
            var a2 := Double(a1);
            var a3 := Double(a2);
            var a4 := Double(a3);
            var a5 := Double(a4);
            var a6 := Double(a5);
            GfMul(a, b) == Image(b, a, a1, a2, a3, a4, a5, a6, Double(a6))
  {
    hide Add, Sel, Half, Double, Prod;
    var a1, b1 := Double(a), Half(b);
    var a2, b2 := Double(a1), Half(b1);
    var a3, b3 := Double(a2), Half(b2);
    var a4, b4 := Double(a3), Half(b3);
    var a5, b5 := Double(a4), Half(b4);
    var a6, b6 := Double(a5), Half(b5);
    ProdStep(a, b, 8);
    ProdStep(a1, b1, 7);
    ProdStep(a2, b2, 6);
    ProdStep(a3, b3, 5);
    ProdStep(a4, b4, 4);
    ProdStep(a5, b5, 3);
    ProdStep(a6, b6, 2);
    ProdLast(Double(a6), Half(b6));
  }

  lemma OneMul(b: bv8)
    ensures GfMul(1, b) == b
  {
    hide Add, Sel, Half, Double, GfMul;
    ImageOfBits(b);
    Powers();
    MulUnrolled(1, b);
  }

  lemma MulCommutes(a: bv8, b: bv8)
    ensures GfMul(a, b) == GfMul(b, a)
  {
    hide GfMul;
    MulSwapLast(1, a, b);
    OneMul(a);
    OneMul(b);
  }

  lemma MulAssociates(a: bv8, b: bv8, c: bv8)
    ensures GfMul(GfMul(a, b), c) == GfMul(a, GfMul(b, c))
  {
    hide GfMul;
    MulCommutes(a, b);
    MulSwapLast(b, a, c);
    MulCommutes(GfMul(b, c), a);
  }

  /** The product distributes over addition on both sides. */
  lemma MulDistributes(a: bv8, b: bv8, c: bv8)
    ensures GfMul(Add(a, b), c) == Add(GfMul(a, c), GfMul(b, c))
    ensures GfMul(c, Add(a, b)) == Add(GfMul(c, a), GfMul(c, b))
  {
    hide Add, Prod;
    ProdLeft(a, b, c, 8);
    ProdRight(c, a, b, 8);
  }

  /** One is the unit, and multiplication by the element x is the doubling step. */
  lemma MulUnitAndX(a: bv8, b: bv8)
    ensures GfMul(a, 1) == a && GfMul(1, a) == a
    ensures GfMul(a, 0) == 0 && GfMul(0, a) == 0
    ensures GfMul(a, Double(b)) == Double(GfMul(a, b))
    ensures GfMul(a, 2) == Double(a)
  {
    MulUnit(a);
    MulDouble(a, b);
    MulDouble(a, 1);
    assert Double(1) == 2;
  }

  lemma MulUnit(a: bv8)
    ensures GfMul(a, 1) == a && GfMul(1, a) == a
    ensures GfMul(a, 0) == 0 && GfMul(0, a) == 0
  {
    hide Prod;
    OneMul(a);
    MulCommutes(a, 1);
    ProdZero(a, 8);
    MulCommutes(a, 0);
  }

  lemma MulDouble(a: bv8, b: bv8)
    ensures GfMul(a, Double(b)) == Double(GfMul(a, b))
  {
    hide Prod, Double;
    MulCommutes(a, Double(b));
    ProdDouble(b, a, 8);
    MulCommutes(a, b);
  }

  // ---------- every non-zero element has its inverse ----------

  lemma MulInterleaves(a: bv8, b: bv8, c: bv8, d: bv8)
    ensures GfMul(GfMul(a, b), GfMul(c, d)) == GfMul(GfMul(a, c), GfMul(b, d))
  {
    hide GfMul;
    MulAssociates(GfMul(a, b), c, d);
    MulSwapLast(a, b, c);
    MulAssociates(GfMul(a, c), b, d);
  }

  lemma SquareAdds(a: bv8, b: bv8)
    ensures Square(Add(a, b)) == Add(Square(a), Square(b))
  {
    hide Add, GfMul;
    MulDistributes(a, b, Add(a, b));
    MulDistributes(a, b, a);
    MulDistributes(a, b, b);
    MulCommutes(a, b);
    var p := GfMul(a, b);
    AddSwap(Square(a), p, p, Square(b));
    AddCommutes(p, Square(b));
    AddSwap(Square(a), p, Square(b), p);
    AddZero(p);
    AddZero(Add(Square(a), Square(b)));
  }

  lemma SquaresLow()
    ensures Square(1) == 0x01 && Square(2) == 0x04 && Square(4) == 0x10 && Square(8) == 0x40
  {
    hide GfMul;
    MulUnrolled(1, 1);
    MulUnrolled(2, 2);
    MulUnrolled(4, 4);
    MulUnrolled(8, 8);
  }

  lemma SquaresHigh()
    ensures Square(16) == 0x1b && Square(32) == 0x6c && Square(64) == 0xab && Square(128) == 0x9a
  {
    hide GfMul;
    MulUnrolled(16, 16);
    MulUnrolled(32, 32);
    MulUnrolled(64, 64);
    MulUnrolled(128, 128);
  }

  /** f keeps zero and sums. */
  ghost predicate Additive(f: bv8 -> bv8) {
    f(0) == 0 && forall a, b {:trigger f(Add(a, b))} :: f(Add(a, b)) == Add(f(a), f(b))
  }

  lemma AdditiveTerm(f: bv8 -> bv8, c: bv8, b: bv8, rest: bv8)
    requires Additive(f)
    ensures f(Add(Sel(c, b), rest)) == Add(Sel(f(c), b), f(rest))
    ensures f(Sel(c, b)) == Sel(f(c), b)
  {
    hide Add, Sel, Low;
    SelCases(c, b);
    SelCases(f(c), b);
  }

  /** An additive map is determined by the images of the powers of x. */
  lemma AdditiveIsImage(f: bv8 -> bv8, b: bv8)
    requires Additive(f)
    ensures f(b) == Image(b, f(1), f(2), f(4), f(8), f(16), f(32), f(64), f(128))
  {
    hide Add, Sel, Half, Additive;
    ImageOfBits(b);
    var b1 := Half(b);
    var b2 := Half(b1);
    var b3 := Half(b2);
    var b4 := Half(b3);
    var b5 := Half(b4);
    var b6 := Half(b5);
    var s7 := Sel(128, Half(b6));
    AdditiveTerm(f, 64, b6, s7);
    var s6 := Add(Sel(64, b6), s7);
    AdditiveTerm(f, 32, b5, s6);
    var s5 := Add(Sel(32, b5), s6);
    AdditiveTerm(f, 16, b4, s5);
    var s4 := Add(Sel(16, b4), s5);
    AdditiveTerm(f, 8, b3, s4);
    var s3 := Add(Sel(8, b3), s4);
    AdditiveTerm(f, 4, b2, s3);
    var s2 := Add(Sel(4, b2), s3);
    AdditiveTerm(f, 2, b1, s2);
    AdditiveTerm(f, 1, b, Add(Sel(2, b1), s2));
    AdditiveTerm(f, 128, Half(b6), 0);
  }

  lemma SquareAdditive()
    ensures Additive(Square)
  {
    hide Square, Add;
    SquareZero();
    forall a, b ensures Square(Add(a, b)) == Add(Square(a), Square(b)) {
      SquareAdds(a, b);
    }
  }

  lemma SquareZero()
    ensures Square(0) == 0
  {
    hide GfMul;
    MulUnit(0);
  }

  ghost predicate Twice(f: bv8 -> bv8, g: bv8 -> bv8) {
    forall x :: g(x) == f(f(x))
  }

  lemma TwiceAdditive(f: bv8 -> bv8, g: bv8 -> bv8)
    requires Additive(f) && Twice(f, g)
    ensures Additive(g)
  {
    hide Add;
    forall a, b ensures g(Add(a, b)) == Add(g(a), g(b)) {
    }
  }

  lemma SquareIsImage(b: bv8)
    ensures Square(b) == Image(b, 0x01, 0x04, 0x10, 0x40, 0x1b, 0x6c, 0xab, 0x9a)
  {
    hide Square, Image, Additive;
    SquareAdditive();
    SquaresLow();
    SquaresHigh();
    AdditiveIsImage(Square, b);
  }

  function Power4(x: bv8): bv8 { Square(Square(x)) }

  function Power16(x: bv8): bv8 { Power4(Power4(x)) }

  function Power256(x: bv8): bv8 { Power16(Power16(x)) }

  lemma SquareSpreads(b: bv8, y: bv8)
    requires Image(b, 0x01, 0x04, 0x10, 0x40, 0x1b, 0x6c, 0xab, 0x9a) == y
    ensures Square(b) == y
  {
    hide Square, Image;
    SquareIsImage(b);
  }

  lemma Power4s()
    ensures Power4(1) == 0x01 && Power4(2) == 0x10 && Power4(4) == 0x1b && Power4(8) == 0xab
    ensures Power4(16) == 0x5e && Power4(32) == 0x97 && Power4(64) == 0xb3 && Power4(128) == 0xc5
  {
    hide Square;
    SquaresLow();
    SquaresHigh();
    SquareSpreads(0x40, 0xab);
    SquareSpreads(0x1b, 0x5e);
    SquareSpreads(0x6c, 0x97);
    SquareSpreads(0xab, 0xb3);
    SquareSpreads(0x9a, 0xc5);
  }

  lemma Power4IsImage(b: bv8)
    ensures Power4(b) == Image(b, 0x01, 0x10, 0x1b, 0xab, 0x5e, 0x97, 0xb3, 0xc5)
  {
    hide Square, Image, Additive;
    Power4Additive();
    Power4s();
    AdditiveIsImage(Power4, b);
  }

  lemma Power4Spreads(b: bv8, y: bv8)
    requires Image(b, 0x01, 0x10, 0x1b, 0xab, 0x5e, 0x97, 0xb3, 0xc5) == y
    ensures Power4(b) == y
  {
    hide Power4, Image;
    Power4IsImage(b);
  }

  lemma Power16s()
    ensures Power16(1) == 0x01 && Power16(2) == 0x5e && Power16(4) == 0xe4 && Power16(8) == 0xe8
    ensures Power16(16) == 0x4d && Power16(32) == 0x91 && Power16(64) == 0x1d && Power16(128) == 0x6c
  {
    hide Power4;
    Power4s();
    Power4Spreads(0x1b, 0xe4);
    Power4Spreads(0xab, 0xe8);
    Power4Spreads(0x5e, 0x4d);
    Power4Spreads(0x97, 0x91);
    Power4Spreads(0xb3, 0x1d);
    Power4Spreads(0xc5, 0x6c);
  }

  lemma Power16IsImage(b: bv8)
    ensures Power16(b) == Image(b, 0x01, 0x5e, 0xe4, 0xe8, 0x4d, 0x91, 0x1d, 0x6c)
  {
    hide Power4, Image, Additive;
    Power16Additive();
    Power16s();
    AdditiveIsImage(Power16, b);
  }

  lemma Power4Additive()
    ensures Additive(Power4)
  {
    hide Square, Add;
    SquareAdditive();
    TwiceAdditive(Square, Power4);
  }

  lemma Power16Additive()
    ensures Additive(Power16)
  {
    hide Power4, Add;
    Power4Additive();
    TwiceAdditive(Power4, Power16);
  }

  lemma Power16Spreads(b: bv8, y: bv8)
    requires Image(b, 0x01, 0x5e, 0xe4, 0xe8, 0x4d, 0x91, 0x1d, 0x6c) == y
    ensures Power16(b) == y
  {
    hide Power16, Image;
    Power16IsImage(b);
  }

  lemma Power256s()
    ensures Power256(1) == 1 && Power256(2) == 2 && Power256(4) == 4 && Power256(8) == 8
    ensures Power256(16) == 16 && Power256(32) == 32 && Power256(64) == 64 && Power256(128) == 128
  {
    hide Power16;
    Power16s();
    Power16Spreads(0x5e, 2);
    Power16Spreads(0xe4, 4);
    Power16Spreads(0xe8, 8);
    Power16Spreads(0x4d, 16);
    Power16Spreads(0x91, 32);
    Power16Spreads(0x1d, 64);
    Power16Spreads(0x6c, 128);
  }

  /** x^256 == x. */
  lemma Power256IsSame(x: bv8)
    ensures Power256(x) == x
  {
    hide Power16, Power256, Image, Additive;
    Power256Additive();
    Power256s();
    AdditiveIsImage(Power256, x);
    ImageOfBits(x);
  }

  lemma Power256Additive()
    ensures Additive(Power256)
  {
    hide Power16, Add;
    Power16Additive();
    TwiceAdditive(Power16, Power256);
  }

  lemma FixedImage(m: bv8)
    requires Image(m, 0x01, 0x10, 0x1b, 0xab, 0x5e, 0x97, 0xb3, 0xc5) == m
    ensures m == 0 || m == 0x01 || m == 0xbc || m == 0xbd
  {
  }

  lemma CubesOfFour()
    ensures GfMul(0xbc, Square(0xbc)) == 1 && GfMul(0xbd, Square(0xbd)) == 1
  {
    hide Square;
    SquareSpreads(0xbc, 0xbd);
    SquareSpreads(0xbd, 0xbc);
    CubeProducts();
  }

  lemma CubeProducts()
    ensures GfMul(0xbc, 0xbd) == 1 && GfMul(0xbd, 0xbc) == 1
  {
    hide GfMul;
    MulUnrolled(0xbc, 0xbd);
    MulUnrolled(0xbd, 0xbc);
  }

  /** An element with m^4 == m is zero or a cube root of one. */
  lemma FixedByPower4(m: bv8)
    requires Power4(m) == m
    ensures m == 0 || GfMul(m, Square(m)) == 1
  {
    hide Power4, Image, GfMul;
    Power4IsImage(m);
    FixedImage(m);
    CubesOfFour();
    MulUnit(1);
  }

  lemma SquareOfProduct(a: bv8, b: bv8)
    ensures Square(GfMul(a, b)) == GfMul(Square(a), Square(b))
  {
    hide GfMul;
    MulInterleaves(a, b, a, b);
  }

  lemma Power4OfProduct(a: bv8, b: bv8)
    ensures Power4(GfMul(a, b)) == GfMul(Power4(a), Power4(b))
  {
    hide GfMul, Square;
    SquareOfProduct(a, b);
    SquareOfProduct(Square(a), Square(b));
  }

  /** x * x^16, the norm of x to the field of sixteen elements. */
  function Norm(x: bv8): bv8 { GfMul(x, Power16(x)) }

  /** The norm of the norm, to the field of four elements. */
  function Norm4(x: bv8): bv8 { GfMul(Norm(x), Power4(Norm(x))) }

  lemma NormFixed(x: bv8)
    ensures Power16(Norm(x)) == Norm(x)
  {
    hide GfMul, Power4;
    Power4OfProduct(x, Power16(x));
    Power4OfProduct(Power4(x), Power4(Power16(x)));
    Power256IsSame(x);
    MulCommutes(x, Power16(x));
  }

  lemma Norm4Fixed(x: bv8)
    ensures Power4(Norm4(x)) == Norm4(x)
  {
    hide GfMul, Power4, Norm;
    Power4OfProduct(Norm(x), Power4(Norm(x)));
    NormFixed(x);
    MulCommutes(Norm(x), Power4(Norm(x)));
  }

  function Chain4(x: bv8, x2: bv8, x4: bv8, x8: bv8): bv8 { GfMul(GfMul(GfMul(x, x2), x4), x8) }

  lemma Chain4Times(p: bv8, a: bv8, b: bv8, c: bv8, d: bv8)
    ensures GfMul(GfMul(GfMul(GfMul(p, a), b), c), d) == GfMul(p, Chain4(a, b, c, d))
  {
    hide GfMul;
    MulAssociates(p, a, b);
    MulAssociates(p, GfMul(a, b), c);
    MulAssociates(p, GfMul(GfMul(a, b), c), d);
  }

  lemma Chain4Interleaves(a: bv8, b: bv8, c: bv8, d: bv8, a': bv8, b': bv8, c': bv8, d': bv8)
    ensures GfMul(Chain4(a, b, c, d), Chain4(a', b', c', d'))
         == Chain4(GfMul(a, a'), GfMul(b, b'), GfMul(c, c'), GfMul(d, d'))
  {
    hide GfMul;
    MulInterleaves(GfMul(GfMul(a, b), c), d, GfMul(GfMul(a', b'), c'), d');
    MulInterleaves(GfMul(a, b), c, GfMul(a', b'), c');
    MulInterleaves(a, b, a', b');
  }

  /** x^255 as the product of x and its seven further squarings. */
  function Power255(x: bv8): bv8 {
    var x4 := Power4(x);
    var x16 := Power16(x);
    var x64 := Power4(x16);
    GfMul(Chain4(x, Square(x), x4, Square(x4)), Chain4(x16, Square(x16), x64, Square(x64)))
  }

  lemma InvTimes(x: bv8)
    ensures GfMul(x, GfInv(x)) == Power255(x)
  {
    hide GfMul, Square;
    var x2 := Square(x);
    var x4 := Square(x2);
    var x8 := Square(x4);
    var x16 := Square(x8);
    var x32 := Square(x16);
    var x64 := Square(x32);
    var x128 := Square(x64);
    var low := GfMul(GfMul(GfMul(1, x2), x4), x8);
    MulUnit(x2);
    MulAssociates(x, x2, x4);
    MulAssociates(x, GfMul(x2, x4), x8);
    assert GfMul(x, low) == Chain4(x, x2, x4, x8);
    Chain4Times(low, x16, x32, x64, x128);
    MulAssociates(x, low, Chain4(x16, x32, x64, x128));
  }

  /** The square of the norm is the norm of the square, in the order the factors are multiplied. */
  lemma NormSquared(x: bv8)
    ensures GfMul(Square(x), Square(Power16(x))) == Square(Norm(x))
    ensures GfMul(Power4(x), Power4(Power16(x))) == Power4(Norm(x))
    ensures GfMul(Square(Power4(x)), Square(Power4(Power16(x)))) == Square(Power4(Norm(x)))
  {
    hide GfMul, Square, Power4, Power16;
    SquareOfProduct(x, Power16(x));
    Power4OfProduct(x, Power16(x));
    SquareOfProduct(Power4(x), Power4(Power16(x)));
  }

  lemma Power255IsCube(x: bv8)
    ensures Power255(x) == GfMul(Norm4(x), Square(Norm4(x)))
  {
    hide GfMul, Square, Power4, Power16;
    var n := Norm(x);
    var n4 := Power4(n);
    Chain4Interleaves(x, Square(x), Power4(x), Square(Power4(x)),
                      Power16(x), Square(Power16(x)), Power4(Power16(x)), Square(Power4(Power16(x))));
    NormSquared(x);
    assert Power255(x) == Chain4(n, Square(n), n4, Square(n4));
    MulSwapLast(n, Square(n), n4);
    MulAssociates(GfMul(n, n4), Square(n), Square(n4));
    SquareOfProduct(n, n4);
  }

  lemma Telescope(x: bv8, r: bv8, b: bv8)
    requires GfMul(x, r) == b
    ensures GfMul(x, GfMul(r, b)) == Square(b)
  {
    hide GfMul;
    MulAssociates(x, r, b);
  }

  /** x * x^255 == x. */
  lemma TimesPower255(x: bv8)
    ensures GfMul(x, Power255(x)) == x
  {
    hide GfMul, Square;
    var x2 := Square(x);
    var x4 := Square(x2);
    var x8 := Square(x4);
    var x16 := Square(x8);
    var x32 := Square(x16);
    var x64 := Square(x32);
    var x128 := Square(x64);
    var low := Chain4(x, x2, x4, x8);
    assert GfMul(x, x) == x2 by { SquareIs(x); }
    Telescope(x, x, x2);
    Telescope(x, GfMul(x, x2), x4);
    Telescope(x, GfMul(GfMul(x, x2), x4), x8);
    Telescope(x, low, x16);
    Telescope(x, GfMul(low, x16), x32);
    Telescope(x, GfMul(GfMul(low, x16), x32), x64);
    Telescope(x, GfMul(GfMul(GfMul(low, x16), x32), x64), x128);
    Chain4Times(low, x16, x32, x64, x128);
    Power256IsSame(x);
  }

  lemma SquareIs(x: bv8)
    ensures GfMul(x, x) == Square(x)
  {
  }

  /** What the inversion loop computes is the inverse of every element but zero, and zero for zero. */
  lemma InverseLaw(x: bv8)
    ensures x != 0 ==> GfMul(x, GfInv(x)) == 1
    ensures GfInv(0) == 0
  {
    hide GfMul, GfInv, Norm4, Power4, Power255;
    InvTimes(x);
    Power255IsCube(x);
    TimesPower255(x);
    Norm4Fixed(x);
    FixedByPower4(Norm4(x));
    MulUnit(Square(0));
    MulUnit(x);
    InvOfZero();
  }

  lemma InvOfZero()
    ensures GfInv(0) == 0
  {
    hide GfMul;
    MulUnit(0);
    MulUnit(1);
  }

  lemma InverseUnique(x: bv8, y: bv8)
    requires GfMul(x, y) == 1
    ensures y == GfInv(x)
  {
    hide GfMul, GfInv;
    InverseLaw(x);
    MulUnit(y);
    MulUnit(GfInv(x));
    MulSwapLast(x, y, GfInv(x));
  }

  /** The field has no zero divisors. */
  lemma NoZeroDivisors(a: bv8, b: bv8)
    ensures GfMul(a, b) == 0 <==> a == 0 || b == 0
  {
    hide GfMul, GfInv;
    InverseLaw(a);
    MulAssociates(GfInv(a), a, b);
    MulCommutes(GfInv(a), a);
    MulUnit(b);
    MulUnit(a);
    MulUnit(GfInv(a));
  }

  /** Inverting twice is the identity, zero included. */
  lemma InvInv(x: bv8)
    ensures GfInv(GfInv(x)) == x
  {
    hide GfMul, GfInv;
    var y := GfInv(x);
    InverseLaw(x);
    InverseLaw(y);
    MulUnit(x);
    MulUnit(GfInv(y));
    MulAssociates(x, y, GfInv(y));
  }
}
