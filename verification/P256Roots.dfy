/**
 What the primality of the P-256 modulus gives: powers that invert, and a square test that decides.
 */
module P256Roots {
  import opened ModArith
  import opened Primes
  import opened Residues
  import opened P256Certificate
  import opened P256Prime
  import opened P256Repr
  import opened P256Elem
  import opened P256Point

  lemma PIsPrime()
    ensures Prime(P()) && P() == PRIME && P() > 30 && P() % 4 == 3
  {
    hide Prime;
    PNumber();
    ModulusIsPrime();
  }

  /** Every element but zero times its power with exponent p - 2 is one. */
  lemma PowerInverts(x: nat)
    requires x % P() != 0
    ensures P() > 2 && FMul(x, FPow(x, P() - 2)) == 1
  {
    hide P, Prime;
    PIsPrime();
    InversePower(x, P());
  }

  /** A product is zero exactly when a factor is. */
  lemma ProductIsZero(x: nat, y: nat)
    ensures FMul(x, y) == 0 <==> x % P() == 0 || y % P() == 0
  {
    hide P, Prime;
    PIsPrime();
    if FMul(x, y) == 0 {
      Euclid(P(), x, y);
    }
    ModMul(x, y, P());
    ModSmall(0, P());
  }

  ghost predicate IsSquare(x: nat) {
    exists y: nat :: y < P() && FMul(y, y) == x
  }

  /** The test that the code makes decides whether an element has a square root. */
  lemma TestIffSquare(x: nat)
    requires x < P()
    ensures PassesSquareTest(x) <==> IsSquare(x)
  {
    hide P, Prime, FPow, FMul;
    PIsPrime();
    var h, q := (P() - 1) / 2, (P() + 1) / 4;
    if PassesSquareTest(x) {
      SqrtSquares(x, q, h);
      assert FPow(x, q) < P() && FMul(FPow(x, q), FPow(x, q)) == x;
    }
    if IsSquare(x) {
      var y: nat :| y < P() && FMul(y, y) == x;
      SquaresPass(y);
    }
  }

  lemma SquaresPass(y: nat)
    ensures PassesSquareTest(FMul(y, y))
  {
    hide P, Prime;
    PIsPrime();
    var h := (P() - 1) / 2;
    if y % P() == 0 {
      ProductIsZero(y, y);
    } else {
      SquarePower(y, h, P());
      PowMod(y * y, h, P());
    }
  }

  /** An element but zero has a half power of one or minus one. */
  lemma HalfPowers(x: nat)
    requires x % P() != 0
    ensures FPow(x, (P() - 1) / 2) == 1 || FPow(x, (P() - 1) / 2) == P() - 1
  {
    hide P, Prime;
    PIsPrime();
    HalfPower(x, (P() - 1) / 2, P());
  }

  /** A product of two elements but zero passes exactly when both pass or neither does. */
  lemma TestOfProduct(x: nat, y: nat)
    requires 0 < x < P() && 0 < y < P()
    ensures PassesSquareTest(FMul(x, y)) <==> (PassesSquareTest(x) <==> PassesSquareTest(y))
  {
    hide P, Prime, Pow;
    PIsPrime();
    var h := (P() - 1) / 2;
    ModSmall(x, P());
    ModSmall(y, P());
    ProductIsZero(x, y);
    HalfPowers(x);
    HalfPowers(y);
    SignsMultiply(x, y, h, P());
    PowMod(x * y, h, P());
  }

  /** Minus one is no square. */
  lemma MinusOneFails()
    ensures !PassesSquareTest(P() - 1)
  {
    hide P, Prime, Pow;
    PIsPrime();
    HalfIsOdd(P());
    MinusPower((P() - 1) / 2, P());
  }

  lemma HalfIsOdd(p: nat)
    requires p % 4 == 3
    ensures (p - 1) / 2 % 2 == 1
  {
  }

  const ROOT_OF_TEN: nat := 0xda538e3b_e1d89b99_c978fc67_5180aab2_7b8d1ff8_4c55d5b6_2ccd3427_e433c47f

  lemma TenIsSquare()
    ensures FMul(ROOT_OF_TEN, ROOT_OF_TEN) == 10
  {
    PNumber();
  }

  /** So minus ten, the constant of the map, is none. */
  lemma MinusTenFails()
    ensures P() > 10 && !PassesSquareTest(P() - 10)
  {
    hide P, Prime, FPow, FMul;
    PIsPrime();
    TenIsSquare();
    SquaresPass(ROOT_OF_TEN);
    MinusOneFails();
    TestOfProduct(P() - 1, 10);
    MinusTimes(10);
  }

  lemma MinusTimes(x: nat)
    requires 0 < x < P()
    ensures FMul(P() - 1, x) == P() - x
  {
    hide P;
    Complement(x, P());
  }

  lemma Complement(x: nat, p: nat)
    requires 0 < x < p
    ensures (p - 1) * x % p == p - x
  {
    Distribute(p, 1, x);
    Distribute(x, 1, p);
    assert (p - 1) * x == (x - 1) * p + (p - x);
    DivModUnique((p - 1) * x, p, x - 1, p - x);
  }

  /** So a point is recovered from an x coordinate exactly when the curve has one there. */
  lemma RecoverableIff(x: nat)
    ensures PassesSquareTest(CurveRhs(x)) <==> exists y: nat :: y < P() && OnCurve(x, y)
  {
    hide P, CurveRhs, PassesSquareTest, FMul;
    TestIffSquare(CurveRhs(x));
    if IsSquare(CurveRhs(x)) {
      var y: nat :| y < P() && FMul(y, y) == CurveRhs(x);
      assert OnCurve(x, y);
    }
  }
}
