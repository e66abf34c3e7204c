/**
 Prime numbers: inverses modulo a prime, the binomial theorem in the Gaussian integers, and what it says about
 the power with a prime exponent there and in the integers.
 */
module Primes {
  import opened ModArith

  ghost predicate Prime(d: nat) {
    d > 1 && forall k :: 1 < k < d ==> d % k != 0
  }

  // ---------- divisibility ----------

  /** Modulo a prime every number that is not zero has an inverse, by Euclid's algorithm. */
  lemma {:induction false} Inverse(d: nat, x: nat) returns (y: nat)
    requires Prime(d) && 0 < x < d
    ensures x * y % d == 1
    decreases x
  {
    if x == 1 {
      y := 1;
      ModSmall(1, d);
    } else {
      var r := d % x;
      assert r != 0;
      var z := Inverse(d, r);
      y := InverseFrom(d, x, d / x, r, z);
    }
  }

  lemma InverseFrom(d: nat, x: nat, q: nat, r: nat, z: nat) returns (y: nat)
    requires d > 1 && d == x * q + r && r * z % d == 1
    ensures x * y % d == 1
  {
    var c, e, f: int := 0 - q * z, r * z, 0 - z;
    y := c % d;
    ModMul(x, c, d);
    Rearranged(d, x, q, r, z);
    assert x * c == e + f * d;
    ModPlusMultiple(e, f, d);
  }

  lemma Rearranged(d: int, x: int, q: int, r: int, z: int)
    requires d == x * q + r
    ensures x * (0 - q * z) == r * z + (0 - z) * d
  {
    assert z * d == x * q * z + r * z;
    assert x * q * z == x * (q * z);
  }

  /** A prime that divides a product divides a factor. */
  lemma Euclid(d: nat, x: nat, y: nat)
    requires Prime(d) && x * y % d == 0
    ensures x % d == 0 || y % d == 0
  {
    if x % d != 0 {
      var z := Inverse(d, x % d);
      Recovered(d, x, y, z);
    }
  }

  lemma Recovered(d: nat, x: nat, y: nat, z: nat)
    requires d > 1 && x % d * z % d == 1 && x * y % d == 0
    ensures y % d == 0
  {
    calc {
      y % d;
      { assert 1 * y == y; ModMul(x % d * z, y, d); }
      x % d * z * y % d;
      { MulAssoc(x % d, z, y); ModMul(x, z * y, d); }
      x * (z * y) % d;
      { assert x * (z * y) == z * (x * y); ModMul(z, x * y, d); }
      z * 0 % d;
      { ModSmall(0, d); }
      0;
    }
  }

  lemma Multiple(n: nat, d: nat) returns (q: nat)
    requires d > 0 && n % d == 0
    ensures n == d * q && q == n / d
  {
    q := n / d;
  }

  lemma MultipleIs(q: int, d: nat)
    requires d > 0
    ensures d * q % d == 0
  {
    DivModUnique(d * q, d, q, 0);
  }

  lemma {:induction false} PrimeDivisor(n: nat) returns (d: nat)
    requires n > 1
    ensures Prime(d) && d <= n && n % d == 0
    decreases n
  {
    if forall k :: 1 < k < n ==> n % k != 0 {
      d := n;
      DivModUnique(n, n, 1, 0);
    } else {
      var k :| 1 < k < n && n % k == 0;
      d := PrimeDivisor(k);
      var a := Multiple(n, k);
      var b := Multiple(k, d);
      MulAssoc(d, b, a);
      MultipleIs(b * a, d);
    }
  }

  // ---------- binomial coefficients ----------

  function Choose(n: nat, k: nat): nat
    decreases n
  {
    if k == 0 then 1 else if n == 0 then 0 else Choose(n - 1, k - 1) + Choose(n - 1, k)
  }

  lemma {:induction false} ChooseAbove(n: nat, k: nat)
    ensures k > n ==> Choose(n, k) == 0
    ensures k == n ==> Choose(n, k) == 1
    decreases n
  {
    if n > 0 && k > 0 {
      ChooseAbove(n - 1, k - 1);
      ChooseAbove(n - 1, k);
    }
  }

  lemma {:induction false} Absorption(n: nat, k: nat)
    requires n > 0 && k > 0
    ensures k * Choose(n, k) == n * Choose(n - 1, k - 1)
    decreases n
  {
    if n == 1 {
      ChooseAbove(0, k - 1);
      ChooseAbove(0, k);
    } else {
      var m, u, v := n - 1, Choose(n - 2, k - 1), Choose(n - 1, k - 1);
      Absorption(m, k);
      assert k * Choose(m, k) == m * u;
      if k > 1 {
        Absorption(m, k - 1);
        AbsorptionStep(k, m, v, Choose(m, k), Choose(n - 2, k - 2), u);
      } else {
        assert u == 1 && v == 1;
      }
    }
  }

  lemma AbsorptionStep(k: int, m: int, v: int, w: int, t: int, u: int)
    requires k * w == m * u && (k - 1) * v == m * t && v == t + u
    ensures k * (v + w) == (m + 1) * v
  {
    assert k * (v + w) == (k - 1) * v + v + k * w;
    assert m * (t + u) == m * t + m * u;
  }

  lemma PrimeDividesChoose(d: nat, k: nat)
    requires Prime(d) && 0 < k < d
    ensures Choose(d, k) % d == 0
  {
    hide Choose;
    Absorption(d, k);
    MultipleIs(Choose(d - 1, k - 1), d);
    Euclid(d, k, Choose(d, k));
    ModSmall(k, d);
  }
}
