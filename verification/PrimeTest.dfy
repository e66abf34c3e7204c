/**
 A primality test after Lucas: a Gaussian integer of norm one whose power with exponent k * 2^(e - 1) is -1 modulo p
 leaves each divisor of p, modulo 2^e, no value but 1 and -1.
 */
module PrimeTest {
  import opened ModArith
  import opened Words
  import opened Primes
  import opened Gauss

  // ---------- congruence ----------

  /** x and y agree modulo d. */
  ghost predicate Like(x: Complex, y: Complex, d: nat) {
    exists z :: x == Plus(y, Scale(d, z))
  }

  lemma LikeSame(x: Complex, d: nat)
    ensures Like(x, x, d)
  {
    assert x == Plus(x, Scale(d, ZERO));
  }

  lemma LikeBack(x: Complex, y: Complex, d: nat)
    requires Like(x, y, d)
    ensures Like(y, x, d)
  {
    var z :| x == Plus(y, Scale(d, z));
    var w := Complex(-z.re, -z.im);
    assert d * -z.re == -(d * z.re) && d * -z.im == -(d * z.im);
    assert y == Plus(x, Scale(d, w));
  }

  lemma LikeOn(x: Complex, y: Complex, w: Complex, d: nat)
    requires Like(x, y, d) && Like(y, w, d)
    ensures Like(x, w, d)
  {
    hide Scale;
    var z :| x == Plus(y, Scale(d, z));
    var z' :| y == Plus(w, Scale(d, z'));
    ScalePlus(d, z', z);
    PlusAssociates(w, Scale(d, z'), Scale(d, z));
  }

  lemma LikeTimes(x: Complex, y: Complex, x': Complex, y': Complex, d: nat)
    requires Like(x, y, d) && Like(x', y', d)
    ensures Like(Times(x, x'), Times(y, y'), d)
  {
    hide Scale, Times, Plus;
    var z :| x == Plus(y, Scale(d, z));
    var z' :| x' == Plus(y', Scale(d, z'));
    TimesPlus(x, y', Scale(d, z'));
    TimesScale(d, x, z');
    TimesPlus(y', y, Scale(d, z));
    TimesScale(d, z, y');
    PlusAssociates(Times(y, y'), Scale(d, Times(z, y')), Scale(d, Times(x, z')));
    ScalePlus(d, Times(z, y'), Times(x, z'));
    assert Times(x, x') == Plus(Times(y, y'), Scale(d, Plus(Times(z, y'), Times(x, z'))));
  }

  lemma {:induction false} LikeRaise(x: Complex, y: Complex, n: nat, d: nat)
    requires Like(x, y, d)
    ensures Like(Raise(x, n), Raise(y, n), d)
  {
    hide Like;
    if n == 0 {
      LikeSame(ONE, d);
    } else {
      LikeRaise(x, y, n - 1, d);
      LikeTimes(x, y, Raise(x, n - 1), Raise(y, n - 1), d);
    }
  }

  lemma LikeFactor(x: Complex, y: Complex, d: nat, e: nat)
    requires Like(x, y, d * e)
    ensures Like(x, y, d)
  {
    var z :| x == Plus(y, Scale(d * e, z));
    ScaleTwice(d, e, z);
    assert x == Plus(y, Scale(d, Scale(e, z)));
  }

  // ---------- the order of a number of norm one ----------

  const MINUS := Complex(-1, 0)

  lemma {:induction false} OddPowerOfMinus(t: nat)
    requires t % 2 == 1
    ensures Raise(MINUS, t) == MINUS
  {
    hide Times, Raise;
    if t > 1 {
      OddPowerOfMinus(t - 2);
      RaiseTwoMore(MINUS, t);
      MinusTwice();
    } else {
      FirstPower(MINUS);
    }
  }

  lemma MinusTwice()
    ensures Times(MINUS, Times(MINUS, MINUS)) == MINUS
  {
  }

  lemma {:induction false} RaiseOne(n: nat)
    ensures Raise(ONE, n) == ONE
  {
    hide Times;
    if n > 0 {
      RaiseOne(n - 1);
      TimesOne(ONE);
    }
  }

  /** One and minus one differ modulo an odd number. */
  lemma SignsDiffer(d: nat)
    requires d > 1 && d % 2 == 1
    ensures !Like(ONE, MINUS, d)
  {
    if Like(ONE, MINUS, d) {
      var z :| ONE == Plus(MINUS, Scale(d, z));
      NotTwo(d, z.re);
    }
  }

  lemma NotTwo(d: nat, q: int)
    requires d > 1 && d % 2 == 1
    ensures d * q != 2
  {
    if q <= 0 {
      MulAtMost(q, 0, d);
    } else if q >= 2 {
      MulAtMost(2, q, d);
    }
  }

  /** n as a power of two times an odd number. */
  lemma {:induction false} OddPart(n: nat) returns (s: nat, t: nat)
    requires n > 0
    ensures n == Pow2(s) * t && t % 2 == 1
  {
    if n % 2 == 1 {
      s, t := 0, n;
    } else {
      s, t := OddPart(n / 2);
      s := s + 1;
      MulAssoc(2, Pow2(s - 1), t);
    }
  }

  lemma {:induction false} Pow2Add(m: nat, n: nat)
    ensures Pow2(m + n) == Pow2(m) * Pow2(n)
  {
    if m > 0 {
      Pow2Add(m - 1, n);
      MulAssoc(2, Pow2(m - 1), Pow2(n));
      assert m + n - 1 == (m - 1) + n;
    }
  }

  /** A power that gives one is a multiple of 2^e when half as much of it gives minus one. */
  lemma OrderIsPower(x: Complex, k: nat, e: nat, n: nat, d: nat)
    requires d > 1 && d % 2 == 1 && e > 0 && n > 0
    requires Like(Raise(x, n), ONE, d) && Like(Raise(x, k * Pow2(e - 1)), MINUS, d)
    ensures n % Pow2(e) == 0
  {
    hide Like, Raise, Pow2;
    var s, t := OddPart(n);
    if s >= e {
      Pow2Add(e, s - e);
      MulAssoc(Pow2(e), Pow2(s - e), t);
      MultipleIs(Pow2(s - e) * t, Pow2(e));
    } else {
      var rest := Pow2(e - 1 - s);
      Pow2Add(s, e - 1 - s);
      SameExponent(k, Pow2(s), rest, t);
      RaiseTimes(x, n, k * rest);
      RaiseTimes(x, k * Pow2(e - 1), t);
      LikeRaise(Raise(x, n), ONE, k * rest, d);
      RaiseOne(k * rest);
      LikeRaise(Raise(x, k * Pow2(e - 1)), MINUS, t, d);
      OddPowerOfMinus(t);
      LikeBack(Raise(x, n * (k * rest)), ONE, d);
      LikeOn(ONE, Raise(x, n * (k * rest)), MINUS, d);
      SignsDiffer(d);
    }
  }

  lemma SameExponent(k: nat, a: nat, b: nat, t: nat)
    ensures a * t * (k * b) == k * (a * b) * t
  {
    assert a * t * (k * b) == (a * b) * (k * t) by {
      MulAssoc(a, t, k * b);
      MulAssoc(a, b, k * t);
      assert t * (k * b) == b * (k * t) by {
        MulAssoc(t, k, b);
        MulAssoc(b, k, t);
        assert t * k == k * t;
        assert k * t * b == b * (k * t);
      }
    }
    MulAssoc(k, a * b, t);
    assert (a * b) * (k * t) == k * ((a * b) * t) by {
      MulAssoc(a * b, k, t);
      MulAssoc(k, a * b, t);
    }
  }

  // ---------- the prime divisors ----------

  /** A number of norm one modulo an odd prime d gives one at d - 1 or at d + 1. */
  lemma OneAtNeighbour(x: Complex, d: nat) returns (n: nat)
    requires Prime(d) && d % 2 == 1 && x.re >= 0 && x.im >= 0 && Like(Times(x, Conj(x)), ONE, d)
    ensures (n == d - 1 || n == d + 1) && n > 0 && Like(Raise(x, n), ONE, d)
  {
    hide Raise, Times, Plus, Scale;
    var z := Frobenius(x, d);
    RaiseAdd(x, 1, d);
    FirstPower(x);
    if Raise(x, d) == Plus(Conj(x), Scale(d, z)) {
      n := d + 1;
      LikeSame(x, d);
      assert Like(Raise(x, d), Conj(x), d);
      LikeTimes(x, x, Raise(x, d), Conj(x), d);
      LikeOn(Raise(x, n), Times(x, Conj(x)), ONE, d);
    } else {
      n := d - 1;
      assert Like(Raise(x, d), x, d);
      OneBefore(x, d);
    }
  }

  lemma FirstPower(x: Complex)
    ensures Raise(x, 1) == x
  {
    TimesOne(x);
    assert Raise(x, 0) == ONE;
  }

  lemma OneBefore(x: Complex, d: nat)
    requires d > 0 && Like(Times(x, Conj(x)), ONE, d) && Like(Raise(x, d), x, d)
    ensures Like(Raise(x, d - 1), ONE, d)
  {
    hide Like, Times;
    var y, c := Raise(x, d - 1), Conj(x);
    LikeSame(c, d);
    LikeSame(y, d);
    LikeTimes(c, c, Raise(x, d), x, d);
    TimesAssociates(c, x, y);
    TimesCommutes(c, x);
    LikeTimes(Times(x, c), ONE, y, y, d);
    TimesOne(y);
    LikeBack(Times(Times(x, c), y), y, d);
    LikeOn(y, Times(c, Raise(x, d)), Times(c, x), d);
    LikeOn(y, Times(x, c), ONE, d);
  }

  /** The test: every odd prime d that x passes at is 1 or -1 modulo 2^e. */
  lemma PrimeDivisorShape(x: Complex, k: nat, e: nat, d: nat)
    requires Prime(d) && d % 2 == 1 && x.re >= 0 && x.im >= 0 && e > 0
    requires Like(Times(x, Conj(x)), ONE, d) && Like(Raise(x, k * Pow2(e - 1)), MINUS, d)
    ensures d % Pow2(e) == 1 % Pow2(e) || (d + 1) % Pow2(e) == 0
  {
    hide Like, Raise, Times, Pow2;
    var n := OneAtNeighbour(x, d);
    OrderIsPower(x, k, e, n, d);
    if n == d - 1 {
      ModShift(n, 1, Pow2(e));
    }
  }

  lemma LikeFromMods(x: Complex, y: Complex, d: nat)
    requires d > 0 && (x.re - y.re) % d == 0 && (x.im - y.im) % d == 0
    ensures Like(x, y, d)
  {
    var z := Complex((x.re - y.re) / d, (x.im - y.im) / d);
    assert x == Plus(y, Scale(d, z));
  }

  // ---------- from the shape of the divisors to primality ----------

  /** One or minus one modulo f. */
  predicate Shaped(n: nat, f: nat)
    requires f > 0
  {
    n % f == 1 || (n + 1) % f == 0
  }

  lemma ShapedIs(n: nat, f: nat) returns (x: nat, s: int)
    requires f > 2 && n > 0 && Shaped(n, f)
    ensures (s == 1 || s == -1) && n == x * f + s && (s == -1 || n > 1 ==> x > 0)
  {
    if n % f == 1 {
      x, s := n / f, 1;
    } else {
      x, s := (n + 1) / f, -1;
    }
  }

  lemma ShapedProduct(x: int, s: int, y: int, t: int, f: int)
    ensures (x * f + s) * (y * f + t) == (x * y * f + x * t + y * s) * f + s * t
  {
    Distribute(x * f, s, y * f + t);
    Distribute(y * f, t, x * f);
    Distribute(y * f, t, s);
    Distribute(x * y * f + x * t, y * s, f);
    Distribute(x * y * f, x * t, f);
    Rearranged4(x, y, f);
    MulAssoc(x, t, f);
    MulAssoc(s, y, f);
    assert x * f * t == x * t * f by {
      MulAssoc(x, f, t);
    }
    assert s * (y * f) == y * s * f;
    assert y * f * (x * f) == (x * f) * (y * f) && t * (x * f) == (x * f) * t;
    assert (y * f) * s == s * (y * f) && t * s == s * t;
  }

  lemma Rearranged4(x: int, y: int, f: int)
    ensures (x * f) * (y * f) == x * y * f * f
  {
    MulAssoc(x, f, y * f);
    MulAssoc(f, y, f);
    MulAssoc(x, y, f);
    MulAssoc(x, y * f, f);
  }

  lemma ShapedTimes(a: nat, b: nat, f: nat)
    requires f > 2 && a > 0 && b > 0 && Shaped(a, f) && Shaped(b, f)
    ensures Shaped(a * b, f)
  {
    var x, s := ShapedIs(a, f);
    var y, t := ShapedIs(b, f);
    ShapedProduct(x, s, y, t, f);
    var q := x * y * f + x * t + y * s;
    if s * t == 1 {
      DivModUnique(a * b, f, q, 1);
    } else {
      DivModUnique(a * b + 1, f, q, 0);
    }
  }

  lemma ProductAtLeast(a: int, b: int, c: int, d: int)
    requires a >= c >= 0 && b >= d >= 0
    ensures a * b >= c * d
  {
    MulAtMost(c, a, b);
    MulAtMost(d, b, c);
    assert d * c == c * d && b * c == c * b;
  }

  lemma Consecutive(x: nat)
    ensures x * (x + 1) % 2 == 0
  {
    if x % 2 == 0 {
      MulAssoc(2, x / 2, x + 1);
      MultipleIs(x / 2 * (x + 1), 2);
    } else {
      assert x * (x + 1) == (x + 1) * x;
      MulAssoc(2, (x + 1) / 2, x);
      MultipleIs((x + 1) / 2 * x, 2);
    }
  }

  /** A number 1 and a number -1 modulo f whose quotients are not consecutive have a product beyond f^3 - f^2. */
  lemma NoOpposites(f: nat, m: nat, x: nat, y: nat)
    requires f > 2 && m % 2 == 1 && x > 0 && y > 0
    requires x * y * f - x + y == m * f + 1
    ensures (x * f + 1) * (y * f - 1) >= f * f * (f - 1)
  {
    var k := m - x * y;
    Distribute(m, x * y, f);
    assert y - x - 1 == k * f;
    if k == 0 {
      Consecutive(x);
    } else if k >= 1 {
      MulAtMost(1, k, f);
      MulAtMost(f + 1, y, f);
      MulAtMost(1, x, f);
      Distribute(f, 1, f);
      ProductAtLeast(y * f - 1, x * f + 1, f * f, f - 1);
      assert (x * f + 1) * (y * f - 1) == (y * f - 1) * (x * f + 1);
    } else {
      MulAtMost(k, -1, f);
      MulAtMost(f, x, f);
      MulAtMost(1, y, f);
      ProductAtLeast(x * f + 1, y * f - 1, f * f, f - 1);
    }
  }

  lemma NoFactors(p: nat, f: nat, m: nat, a: nat, b: nat)
    requires f > 2 && m % 2 == 1 && p + 1 == (m * f + 1) * f
    requires a > 1 && b > 1 && a * b == p && Shaped(a, f) && Shaped(b, f)
    ensures p >= f * f * (f - 1)
  {
    var x, s := ShapedIs(a, f);
    var y, t := ShapedIs(b, f);
    ShapedProduct(x, s, y, t, f);
    var q := x * y * f + x * t + y * s;
    if s * t == 1 {
      DivModUnique(p + 1, f, q, 2);
      DivModUnique(p + 1, f, m * f + 1, 0);
    } else {
      DivModUnique(p + 1, f, q, 0);
      DivModUnique(p + 1, f, m * f + 1, 0);
      assert q == m * f + 1;
      if s == 1 {
        NoOpposites(f, m, x, y);
      } else {
        assert x * y == y * x;
        assert (y * f + 1) * (x * f - 1) == b * a == a * b;
        NoOpposites(f, m, y, x);
      }
    }
  }

  /** Every divisor is shaped when the odd prime ones are. */
  lemma {:induction false} DivisorsShaped(p: nat, n: nat, f: nat)
    requires f > 2 && p % 2 == 1 && n > 0 && p % n == 0
    requires forall d :: Prime(d) && d % 2 == 1 && p % d == 0 ==> Shaped(d, f)
    ensures Shaped(n, f)
    decreases n
  {
    if n == 1 {
      ModSmall(1, f);
    } else {
      var d := PrimeDivisor(n);
      var q := Multiple(n, d);
      var e := Multiple(p, n);
      MulAssoc(d, q, e);
      MultipleIs(q * e, d);
      assert p == q * (d * e) by {
        MulAssoc(q, d, e);
        assert q * d == d * q;
      }
      FactorPositive(d, q);
      MultipleIs(d * e, q);
      OddFactor(d, q * e, p);
      SmallerFactor(d, q);
      DivisorsShaped(p, q, f);
      ShapedTimes(d, q, f);
    }
  }

  lemma OddFactor(d: nat, e: nat, p: nat)
    requires d * e == p && p % 2 == 1
    ensures d % 2 == 1
  {
    if d % 2 == 0 {
      MulAssoc(2, d / 2, e);
      MultipleIs(d / 2 * e, 2);
    }
  }

  lemma FactorPositive(d: nat, q: nat)
    ensures d * q > 0 ==> q > 0
    ensures d > 0 && d * q > d ==> q > 1
  {
    if q == 0 {
      assert d * q == 0;
    } else if q == 1 {
      assert d * q == d;
    }
  }

  lemma SmallerFactor(d: nat, q: nat)
    requires d > 1 && q > 0
    ensures q < d * q
  {
    MulAtMost(2, d, q);
  }

  /** The whole test. */
  lemma PassesTest(p: nat, m: nat, e: nat, x: Complex)
    requires e > 1 && p % 2 == 1 && p > 1 && m % 2 == 1
    requires p + 1 == (m * Pow2(e) + 1) * Pow2(e) && p < Pow2(e) * Pow2(e) * (Pow2(e) - 1)
    requires x.re >= 0 && x.im >= 0 && Like(Times(x, Conj(x)), ONE, p) && Like(Raise(x, Pow2(e - 1)), MINUS, p)
    ensures Prime(p)
  {
    hide Like, Raise, Times, Pow2, Shaped, Prime;
    var f := Pow2(e);
    AtLeastFour(e);
    forall d | Prime(d) && d % 2 == 1 && p % d == 0
      ensures Shaped(d, f)
    {
      DivisorPasses(p, e, x, d);
    }
    forall k | 1 < k < p
      ensures p % k != 0
    {
      if p % k == 0 {
        BeyondAnyFactor(p, f, m, k);
      }
    }
    PrimeIs(p);
  }

  lemma DivisorPasses(p: nat, e: nat, x: Complex, d: nat)
    requires e > 1 && x.re >= 0 && x.im >= 0 && Prime(d) && d % 2 == 1 && p % d == 0
    requires Like(Times(x, Conj(x)), ONE, p) && Like(Raise(x, Pow2(e - 1)), MINUS, p)
    ensures Shaped(d, Pow2(e))
  {
    hide Like, Raise, Times, Pow2, Shaped, Prime;
    AtLeastFour(e);
    PrimeAtLeastTwo(d);
    var q := Multiple(p, d);
    LikeFactor(Times(x, Conj(x)), ONE, d, q);
    LikeFactor(Raise(x, Pow2(e - 1)), MINUS, d, q);
    assert 1 * Pow2(e - 1) == Pow2(e - 1);
    PrimeDivisorShape(x, 1, e, d);
    ShapeIs(d, Pow2(e));
  }

  lemma PrimeAtLeastTwo(d: nat)
    requires Prime(d)
    ensures d >= 2
  {
  }

  lemma BeyondAnyFactor(p: nat, f: nat, m: nat, k: nat)
    requires f > 2 && p % 2 == 1 && m % 2 == 1 && p + 1 == (m * f + 1) * f && 1 < k < p && p % k == 0
    requires forall d :: Prime(d) && d % 2 == 1 && p % d == 0 ==> Shaped(d, f)
    ensures p >= f * f * (f - 1)
  {
    hide Shaped, Prime;
    var q := Multiple(p, k);
    DivisorsShaped(p, k, f);
    assert q * k == p;
    FactorPositive(k, q);
    MultipleIs(k, q);
    DivisorsShaped(p, q, f);
    NoFactors(p, f, m, k, q);
  }

  lemma PrimeIs(p: nat)
    requires p > 1 && forall k :: 1 < k < p ==> p % k != 0
    ensures Prime(p)
  {
  }

  lemma ShapeIs(d: nat, f: nat)
    requires f > 2 && (d % f == 1 % f || (d + 1) % f == 0)
    ensures Shaped(d, f)
  {
    ModSmall(1, f);
  }

  lemma AtLeastFour(e: nat)
    requires e > 1
    ensures Pow2(e) > 2
  {
    assert Pow2(e - 1) == 2 * Pow2(e - 2);
  }
}
