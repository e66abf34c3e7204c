/**
 The simplified SWU map on residues: its two candidates, the equation that the first one solves, and the reason
 why the right-hand side of the one taken is always a square.
 */
module P256Map {
  import opened ModArith
  import opened Gauss
  import opened P256Repr
  import opened P256Elem
  import opened P256Point
  import opened P256Roots

  // ---------- the map on residues ----------

  /** x^(P-2), which for a prime P is the inverse of x, and zero for zero. */
  ghost function Inv0(x: nat): (r: nat)
    ensures r < P()
  {
    PFacts();
    FPow(x, P() - 2)
  }

  /** -n in the field. */
  ghost function Minus(n: nat): (r: nat)
    ensures r < P()
  {
    FSub(0, n)
  }

  /** Z * u^2 with Z = -10. */
  ghost function Zu2(u: nat): (r: nat)
    ensures r < P()
  {
    FMul(Minus(10), FMul(u, u))
  }

  /** Z^2 * u^4 + Z * u^2. */
  ghost function Denom(u: nat): (r: nat)
    ensures r < P()
  {
    FAdd(FMul(FMul(Minus(10), Minus(10)), FMul(FMul(u, u), FMul(u, u))), Zu2(u))
  }

  ghost function Tv1(u: nat): (r: nat)
    ensures r < P()
  {
    Inv0(Denom(u))
  }

  /** The first candidate, from A = -3 and the coefficient b. */
  ghost function X1(u: nat): (r: nat)
    ensures r < P()
  {
    if Tv1(u) == 0 then FMul(CURVE_B, Inv0(FMul(Minus(10), Minus(3))))
    else FMul(FMul(Minus(CURVE_B), Inv0(Minus(3))), FAdd(1, Tv1(u)))
  }

  /** The candidate that the map takes. */
  ghost function MapX(u: nat): (r: nat)
    ensures r < P()
  {
    if PassesSquareTest(CurveRhs(X1(u))) then X1(u) else FMul(Zu2(u), X1(u))
  }

  // ---------- the right-hand side with A = -3 ----------

  lemma RhsWithA(x: nat)
    ensures FAdd(FAdd(FMul(FMul(x, x), x), FMul(Minus(3), x)), CURVE_B) == CurveRhs(x)
  {
    hide P, FMul, FAdd, Minus, CurveRhs;
    var c, t := x * x * x, x + x + x;
    RhsIsCubic(x, c, t);
    Cube(x);
    MinusThree(x, t);
    AddResidues(c, -t);
    AddConstant(c - t, CURVE_B);
  }

  lemma MinusThree(x: nat, t: int)
    requires t == x + x + x
    ensures FMul(Minus(3), x) == (-t) % P()
  {
    hide P;
    ModMulLeft(0 - 3, x, P());
    assert (0 - 3) * x == -t;
  }

  lemma AddResidues(x: int, y: int)
    ensures FAdd(x % P(), y % P()) == (x + y) % P()
  {
    hide P;
    ModAdd(x, y, P());
  }

  lemma AddConstant(x: int, z: nat)
    ensures FAdd(x % P(), z) == (x + z) % P()
  {
    hide P;
    ModShift(x, z, P());
  }

  // ---------- multiples of the modulus ----------

  predicate Vanishes(n: int, p: nat)
    requires p > 0
  {
    n % p == 0
  }

  lemma VanishSum(m: int, n: int, p: nat)
    requires p > 0 && Vanishes(m, p) && Vanishes(n, p)
    ensures Vanishes(m + n, p) && Vanishes(m - n, p)
  {
    ModAdd(m, n, p);
    ModSmall(0, p);
  }

  lemma VanishTimes(m: int, n: int, p: nat)
    requires p > 0 && Vanishes(m, p)
    ensures Vanishes(m * n, p) && Vanishes(n * m, p)
  {
    ModMul(m, n, p);
    ModSmall(0, p);
    assert n * m == m * n;
  }

  lemma SameMod(m: int, n: int, p: nat)
    requires p > 0
    ensures m % p == n % p <==> Vanishes(m - n, p)
  {
    ModAdd(m, n, p);
    ModSmall(0, p);
    if Vanishes(m - n, p) {
      ModShift(m - n, n, p);
    }
  }

  lemma ReducedVanishes(m: int, p: nat)
    requires p > 0
    ensures Vanishes(m % p - m, p) && Vanishes(m - m % p, p)
  {
    ModSmall(m % p, p);
    SameMod(m % p, m, p);
    SameMod(m, m % p, p);
  }

  // ---------- the first candidate ----------

  lemma Inv0Inverts(x: nat)
    ensures x % P() != 0 ==> FMul(x, Inv0(x)) == 1
    ensures x == 0 ==> Inv0(x) == 0
  {
    hide P, FMul;
    PIsPrime();
    if x % P() != 0 {
      PowerInverts(x);
    }
    if x == 0 {
      Gauss.PowZero(P() - 2);
      ModSmall(0, P());
    }
  }

  /** The integers behind the equation: m is a negative three, i its inverse, t the denominator's, n a negative b. */
  lemma FirstEquation(b: int, d: int, n: int, m: int, i: int, t: int, p: nat)
    requires p > 0 && Vanishes(n + b, p) && Vanishes(m + 3, p) && Vanishes(m * i - 1, p) && Vanishes(d * t - 1, p)
    ensures Vanishes(3 * d * (n * i * (1 + t)) - b * (d + 1), p)
  {
    hide Vanishes;
    var w := d * (1 + t);
    VanishTimes(n + b, 3, p);
    VanishTimes(m + 3, b, p);
    VanishSum(3 * (n + b), b * (m + 3), p);
    var a := 3 * n - m * b;
    assert a == 3 * (n + b) - b * (m + 3);
    VanishTimes(a, i * w, p);
    VanishTimes(m * i - 1, w, p);
    VanishSum((m * i - 1) * w, d * t - 1, p);
    var c := (m * i - 1) * w + (d * t - 1);
    VanishTimes(c, b, p);
    VanishSum(a * (i * w), b * c, p);
    FirstProducts(b, d, n, m, i, t, w);
  }

  lemma FirstProducts(b: int, d: int, n: int, m: int, i: int, t: int, w: int)
    requires w == d * (1 + t)
    ensures 3 * d * (n * i * (1 + t)) - b * (d + 1)
         == (3 * n - m * b) * (i * w) + b * ((m * i - 1) * w + (d * t - 1))
  {
    assert w == d + d * t;
    assert 3 * d * (n * i * (1 + t)) == 3 * n * (i * w) by {
      assert d * (n * i * (1 + t)) == n * (i * (d * (1 + t)));
    }
    Distribute(3 * n, m * b, i * w);
    assert m * b * (i * w) == b * (m * i * w) by {
      assert m * b == b * m;
      MulAssoc(b, m, i * w);
      MulAssoc(m, i, w);
    }
    Distribute(m * i, 1, w);
    assert b * ((m * i - 1) * w + (d * t - 1)) == b * (m * i * w) - b * (d + 1) by {
      assert (m * i - 1) * w + (d * t - 1) == m * i * w - (d + 1);
      Distribute(m * i * w, d + 1, b);
    }
  }

  lemma ReducedProduct3(n: int, i: int, s: int, p: nat)
    requires p > 0
    ensures Vanishes((n * i % p) * (s % p) % p - n * i * s, p)
  {
    ModMul(n * i, s, p);
    SameMod((n * i % p) * (s % p) % p, n * i * s, p);
    ModSmall((n * i % p) * (s % p) % p, p);
  }

  lemma MinusVanishes(n: nat)
    ensures Vanishes(Minus(n) + n, P())
  {
    hide P;
    ReducedVanishes(0 - n, P());
  }

  /** The first candidate solves 3 d x = b (d + 1) for the denominator d, unless that is zero. */
  lemma FirstSolves(u: nat)
    requires Denom(u) != 0
    ensures Vanishes(3 * Denom(u) * X1(u) - CURVE_B * (Denom(u) + 1), P())
  {
    hide P, Denom, X1, Tv1, Inv0, Minus, Vanishes;
    PIsPrime();
    var d, t, n, m := Denom(u), Tv1(u), Minus(CURVE_B), Minus(3);
    var i := Inv0(m);
    TvInverts(u);
    MinusThreeInverted();
    MinusVanishes(CURVE_B);
    MinusVanishes(3);
    FirstEquation(CURVE_B, d, n, m, i, t, P());
    FirstReduced(u);
    SolutionReduced(X1(u), n * i * (1 + t), d, CURVE_B, P());
  }

  lemma TvInverts(u: nat)
    requires Denom(u) != 0
    ensures Vanishes(Denom(u) * Tv1(u) - 1, P())
  {
    hide P, Denom, Inv0, Vanishes;
    DenomInverted(Denom(u));
  }

  lemma FirstReduced(u: nat)
    requires Denom(u) != 0
    ensures Vanishes(X1(u) - Minus(CURVE_B) * Inv0(Minus(3)) * (1 + Tv1(u)), P())
  {
    hide P, Denom, Tv1, Inv0, Minus, Vanishes;
    PIsPrime();
    var n, i, t := Minus(CURVE_B), Inv0(Minus(3)), Tv1(u);
    TvInverts(u);
    ReducedProduct3(n, i, 1 + t, P());
    if t == 0 {
      assert Denom(u) * t == 0;
      NotMinusOne(P());
    }
  }

  lemma SolutionReduced(x: int, y: int, d: int, b: int, p: nat)
    requires p > 0 && Vanishes(x - y, p) && Vanishes(3 * d * y - b * (d + 1), p)
    ensures Vanishes(3 * d * x - b * (d + 1), p)
  {
    hide Vanishes;
    VanishTimes(x - y, 3 * d, p);
    Distribute(x, y, 3 * d);
    VanishSum(3 * d * (x - y), 3 * d * y - b * (d + 1), p);
  }

  lemma DenomInverted(d: nat)
    requires 0 < d < P()
    ensures Vanishes(d * Inv0(d) - 1, P())
  {
    hide P, Inv0;
    PIsPrime();
    ModSmall(d, P());
    Inv0Inverts(d);
    ModSmall(1, P());
    SameMod(d * Inv0(d), 1, P());
  }

  lemma MinusThreeInverted()
    ensures Vanishes(Minus(3) * Inv0(Minus(3)) - 1, P())
  {
    hide P, Inv0;
    PIsPrime();
    ModPlusMultiple(-3, 1, P());
    ModSmall(P() - 3, P());
    DenomInverted(Minus(3));
  }

  lemma NotMinusOne(p: nat)
    requires p > 1
    ensures !Vanishes(0 - 1, p)
  {
    ModPlusMultiple(-1, 1, p);
    ModSmall(p - 1, p);
  }

  /** The same in the field: 3 d x = b (d + 1). */
  lemma FirstCandidateLaw(u: nat)
    requires Denom(u) != 0
    ensures FMul(FMul(3, Denom(u)), X1(u)) == FMul(CURVE_B, FAdd(Denom(u), 1))
  {
    hide P, Denom, X1, Vanishes;
    var d, x := Denom(u), X1(u);
    FirstSolves(u);
    SameMod(3 * d * x, CURVE_B * (d + 1), P());
    ModMul(3 * d, x, P());
    ModMul(CURVE_B, d + 1, P());
  }

  // ---------- where the denominator vanishes ----------

  /** b / 30, and a square root of the right-hand side there. */
  const X_EXCEPTION: nat := 0xa528bd86_96bdaf99_6c65b982_d94959d3_146fe6a0_20693090_bdba1313_2375f224
  const X_SQUARED: nat := 0xb94e85bd_878d61d9_ee6c9df8_0f889b1d_ada28d2b_9c626721_c80169ad_ac933a56
  const X_CUBED: nat := 0xff6b4668_b84beaa8_628d85d1_ba5f96c3_41ee17b0_fe0ba8f5_6a2b1335_d7679ba8
  const RHS_EXCEPTION: nat := 0x6ab743ac_9e4d6fc4_d148169e_a51c1006_69bb6a82_6923c839_6ccb163a_94d82586
  const Y_EXCEPTION: nat := 0x0e5fb73d_16791ce3_58fb5adb_2d33668a_3b24099f_d8d401f6_685e0e99_4fb4d756

  lemma ExceptionCubed()
    ensures FMul(30, X_EXCEPTION) == CURVE_B && X_EXCEPTION < P()
    ensures FMul(X_EXCEPTION, X_EXCEPTION) == X_SQUARED && FMul(X_SQUARED, X_EXCEPTION) == X_CUBED
  {
    PNumber();
  }

  lemma ExceptionRhs()
    ensures FAdd(FSub(X_CUBED, FAdd(FAdd(X_EXCEPTION, X_EXCEPTION), X_EXCEPTION)), CURVE_B) == RHS_EXCEPTION
    ensures FMul(Y_EXCEPTION, Y_EXCEPTION) == RHS_EXCEPTION
  {
    PNumber();
  }

  lemma ExceptionPasses()
    ensures PassesSquareTest(CurveRhs(X_EXCEPTION))
  {
    hide P, FMul, FAdd, FSub, PassesSquareTest;
    ExceptionCubed();
    ExceptionRhs();
    SquaresPass(Y_EXCEPTION);
  }

  lemma ThirtyIs()
    ensures FMul(Minus(10), Minus(3)) == 30
  {
    hide P;
    PIsPrime();
    ModMul(0 - 10, 0 - 3, P());
    ModSmall(30, P());
  }

  /** Where the denominator is zero the first candidate is b / 30. */
  lemma ExceptionalCandidate(u: nat)
    requires Denom(u) == 0
    ensures Tv1(u) == 0 && FMul(30, X1(u)) == CURVE_B && X1(u) == X_EXCEPTION
  {
    hide P, Denom, Inv0, Minus;
    PIsPrime();
    Inv0Inverts(0);
    ThirtyIs();
    ModSmall(30, P());
    Inv0Inverts(30);
    ExceptionCubed();
    Thirtieth(Inv0(30));
  }

  lemma Thirtieth(i: nat)
    requires FMul(30, i) == 1
    ensures FMul(30, FMul(CURVE_B, i)) == CURVE_B && FMul(CURVE_B, i) == X_EXCEPTION
  {
    hide P;
    var b, x, p := CURVE_B, X_EXCEPTION, P();
    ExceptionCubed();
    PBound();
    ModMul(30, b * i, p);
    ModMul(30 * i, b, p);
    assert 30 * (b * i) == 30 * i * b;
    ModSmall(b, p);
    ModMul(30 * x, i, p);
    ModMul(30 * i, x, p);
    assert 30 * x * i == 30 * i * x;
    ModSmall(x, p);
  }

  // ---------- the second candidate ----------

  lemma DenomIs(u: nat)
    ensures Vanishes(Denom(u) - (Zu2(u) * Zu2(u) + Zu2(u)), P())
  {
    hide P, Minus, Vanishes;
    SquareOfProduct(Minus(10), u * u % P(), P());
  }

  lemma SquareOfProduct(m: int, v: int, p: nat)
    requires p > 0
    ensures var z := m * v % p; Vanishes(((m * m % p) * (v * v % p) % p + z) % p - (z * z + z), p)
  {
    hide Vanishes;
    var y, z := m * v, m * v % p;
    var a := (m * m % p) * (v * v % p) % p;
    ModMul(m * m, v * v, p);
    ModMul(y, y, p);
    SquaresTimes(m, v);
    ModShift(a, z, p);
    ModShift(z * z, z, p);
    ModSmall((a + z) % p, p);
    ModSmall(a, p);
    SameMod((a + z) % p, z * z + z, p);
  }

  lemma SquaresTimes(m: int, v: int)
    ensures m * m * (v * v) == (m * v) * (m * v)
  {
    MulAssoc(m, v, m * v);
    MulAssoc(v, m, v);
    MulAssoc(m, v, v);
    MulAssoc(m, m, v * v);
  }

  /** What ties the right-hand sides of x and of z x together. */
  lemma CandidateIdentity(z: int, x: int, b: int)
    ensures (z * x * (z * x) * (z * x) - 3 * (z * x) + b) - z * z * z * (x * x * x - 3 * x + b)
         == (z - 1) * (3 * (z * z + z) * x - b * (z * z + z + 1))
  {
    var y, c, d := z * x, x * x * x, z * z + z;
    assert y * y * y == z * z * z * c by {
      Cubes(z, x);
    }
    Distribute(c, 3 * x, z * z * z);
    RestOfIdentity(z, x, b);
    assert z * z * z * (c - 3 * x + b) == z * z * z * c - z * z * z * (3 * x) + z * z * z * b by {
      Distribute(c - 3 * x, b, z * z * z);
    }
  }

  lemma Cubes(z: int, x: int)
    ensures z * x * (z * x) * (z * x) == z * z * z * (x * x * x)
  {
    assert z * x * (z * x) == z * z * (x * x) by {
      MulAssoc(z, x, z * x);
      MulAssoc(x, z, x);
      MulAssoc(z, x, x);
      MulAssoc(z, z, x * x);
    }
    MulAssoc(z * z, x * x, z * x);
    MulAssoc(x * x, z, x);
    MulAssoc(z, x * x, x);
    MulAssoc(z * z, z, x * x * x);
  }

  lemma RestOfIdentity(z: int, x: int, b: int)
    ensures z * z * z * (3 * x) - 3 * (z * x) + b - z * z * z * b
         == (z - 1) * (3 * (z * z + z) * x - b * (z * z + z + 1))
  {
    var d, w := z * z + z, z * z * z;
    MulAssoc(z, z, z);
    Distribute(z, 1, d);
    Distribute(z, 1, d + 1);
    assert z * d == w + z * z;
    assert (z - 1) * d == w - z && (z - 1) * (d + 1) == w - 1;
    LinearPart(z, x, b, d, w);
  }

  lemma LinearPart(z: int, x: int, b: int, d: int, w: int)
    requires (z - 1) * d == w - z && (z - 1) * (d + 1) == w - 1
    ensures w * (3 * x) - 3 * (z * x) + b - w * b == (z - 1) * (3 * d * x - b * (d + 1))
  {
    var k := z - 1;
    Distribute(3 * d * x, b * (d + 1), k);
    assert k * (3 * d * x) == 3 * (k * d) * x by {
      MulAssoc(3, d, x);
      MulAssoc(k, 3, d * x);
      MulAssoc(3, k, d * x);
      MulAssoc(k, d, x);
      MulAssoc(3, k * d, x);
    }
    assert k * (b * (d + 1)) == b * (k * (d + 1)) by {
      MulAssoc(k, b, d + 1);
      MulAssoc(b, k, d + 1);
    }
    Distribute(w, z, x);
    Distribute(w, 1, b);
    assert 3 * (w - z) * x == 3 * (w * x) - 3 * (z * x) by {
      MulAssoc(3, w - z, x);
    }
    assert w * (3 * x) == 3 * (w * x) by {
      MulAssoc(w, 3, x);
      MulAssoc(3, w, x);
    }
  }

  lemma RhsReduced(n: nat)
    ensures CurveRhs(n % P()) == CurveRhs(n)
  {
    hide P;
    var r := n % P();
    ModMul(n, n, P());
    assert FMul(r, r) == FMul(n, n);
    ModMul(FMul(n, n), n, P());
    assert FMul(FMul(n, n), r) == FMul(FMul(n, n), n);
    ModAdd(n, n, P());
    assert FAdd(r, r) == FAdd(n, n);
    ModShift(n, FAdd(n, n), P());
    assert FAdd(FAdd(r, r), r) == FAdd(FAdd(n, n), n);
  }

  lemma RhsVanishes(x: nat)
    ensures Vanishes(CurveRhs(x) - (x * x * x - 3 * x + CURVE_B), P())
  {
    hide P, CurveRhs;
    RhsIsCubic(x, x * x * x, 3 * x);
    ReducedVanishes(x * x * x - 3 * x + CURVE_B, P());
  }

  lemma EquationInZ(d: int, z: int, x: int, b: int, p: nat)
    requires p > 0 && Vanishes(d - (z * z + z), p) && Vanishes(3 * d * x - b * (d + 1), p)
    ensures Vanishes(3 * (z * z + z) * x - b * (z * z + z + 1), p)
  {
    hide Vanishes;
    var e := z * z + z;
    VanishTimes(d - e, 3 * x - b, p);
    VanishSum(3 * d * x - b * (d + 1), (d - e) * (3 * x - b), p);
    Exchanged(d, e, x, b);
  }

  lemma Exchanged(d: int, e: int, x: int, b: int)
    ensures 3 * d * x - b * (d + 1) - (d - e) * (3 * x - b) == 3 * e * x - b * (e + 1)
  {
    Distribute(d, e, 3 * x - b);
    Distribute(3 * x, b, d);
    Distribute(3 * x, b, e);
    assert d * (3 * x - b) == d * (3 * x) - d * b && e * (3 * x - b) == e * (3 * x) - e * b;
    assert d * (3 * x) == 3 * d * x && e * (3 * x) == 3 * e * x;
    assert b * (d + 1) == d * b + b && b * (e + 1) == e * b + b;
  }

  lemma CubeOf(z: nat)
    ensures Vanishes(FMul(FMul(z, z), z) - z * z * z, P())
  {
    hide P;
    Cube(z);
    ReducedVanishes(z * z * z, P());
  }

  /** The right-hand side of the second candidate is z^3 times that of the first, for z = -10 u^2. */
  lemma SecondRhs(u: nat)
    requires Denom(u) != 0
    ensures var z := Zu2(u);
      CurveRhs(FMul(z, X1(u))) == FMul(FMul(FMul(z, z), z), CurveRhs(X1(u)))
  {
    hide P, Denom, X1, Zu2, CurveRhs, Vanishes;
    FirstSolves(u);
    DenomIs(u);
    EquationInZ(Denom(u), Zu2(u), X1(u), CURVE_B, P());
    var z, x := Zu2(u), X1(u);
    var y, cube := z * x, FMul(FMul(z, z), z);
    RhsReduced(y);
    RhsVanishes(y);
    RhsVanishes(x);
    CubeOf(z);
    Transfer(z, x, CURVE_B, CurveRhs(y), cube, CurveRhs(x), P());
  }

  lemma Transfer(z: int, x: int, b: int, left: nat, cube: nat, right: nat, p: nat)
    requires p > 0 && left < p
    requires var y := z * x; Vanishes(left - (y * y * y - 3 * y + b), p)
    requires Vanishes(cube - z * z * z, p) && Vanishes(right - (x * x * x - 3 * x + b), p)
    requires Vanishes(3 * (z * z + z) * x - b * (z * z + z + 1), p)
    ensures left == cube * right % p
  {
    hide Vanishes;
    var y := z * x;
    var s, t, w := y * y * y - 3 * y + b, x * x * x - 3 * x + b, z * z * z;
    CandidateIdentity(z, x, b);
    VanishTimes(3 * (z * z + z) * x - b * (z * z + z + 1), z - 1, p);
    VanishTimes(right - t, w, p);
    VanishTimes(cube - w, right, p);
    VanishSum(left - s, s - w * t, p);
    VanishSum(left - w * t, w * (right - t), p);
    Distribute(right, t, w);
    VanishSum(left - w * right, right * (cube - w), p);
    Distribute(cube, w, right);
    assert left - cube * right == left - w * right - right * (cube - w);
    SameMod(left, cube * right, p);
    ModSmall(left, p);
  }

  // ---------- the map always succeeds ----------

  /** The candidate that the map takes has a square right-hand side, for every input. */
  lemma MapPasses(u: nat)
    ensures PassesSquareTest(CurveRhs(MapX(u)))
  {
    hide P, Denom, X1, Zu2, CurveRhs, FMul, PassesSquareTest, Vanishes;
    var z, g := Zu2(u), CurveRhs(X1(u));
    if Denom(u) == 0 {
      ExceptionalCandidate(u);
      ExceptionPasses();
    } else if !PassesSquareTest(g) {
      SecondRhs(u);
      FactorFails(u);
      ZeroPasses();
      CubeFails(z);
      TestOfProduct(FMul(FMul(z, z), z), g);
    }
  }

  lemma ZeroPasses()
    ensures PassesSquareTest(0)
  {
  }

  /** -10 u^2 is no square when the denominator is not zero. */
  lemma FactorFails(u: nat)
    requires Denom(u) != 0
    ensures Zu2(u) != 0 && !PassesSquareTest(Zu2(u))
  {
    hide P, Denom, FMul, PassesSquareTest;
    var z, v := Zu2(u), FMul(u, u);
    FactorNotZero(u);
    MinusTenFails();
    MinusTenIs();
    SquaresPass(u);
    ProductIsZero(Minus(10), v);
    ModSmall(0, P());
    TestOfProduct(Minus(10), v);
  }

  lemma MinusTenIs()
    ensures P() > 10 && Minus(10) == P() - 10
  {
    hide P;
    PIsPrime();
    ModPlusMultiple(-10, 1, P());
    ModSmall(P() - 10, P());
  }

  lemma FactorNotZero(u: nat)
    requires Denom(u) != 0
    ensures Zu2(u) != 0
  {
    hide P, Denom, Zu2;
    DenomIs(u);
    if Zu2(u) == 0 {
      ReducedDenom(u);
    }
  }

  lemma ReducedDenom(u: nat)
    requires Vanishes(Denom(u), P())
    ensures Denom(u) == 0
  {
    hide P;
    var d := Denom(u);
    ModSmall(d, P());
  }

  lemma CubeFails(z: nat)
    requires 0 < z < P() && !PassesSquareTest(z)
    ensures FMul(FMul(z, z), z) != 0 && !PassesSquareTest(FMul(FMul(z, z), z))
  {
    hide P, FMul, PassesSquareTest;
    SquaresPass(z);
    ModSmall(z, P());
    ProductIsZero(z, z);
    ProductIsZero(FMul(z, z), z);
    ModSmall(FMul(z, z), P());
    TestOfProduct(FMul(z, z), z);
  }
}
