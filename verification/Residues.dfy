/**
 Powers modulo a prime: the inverse of a unit, and Euler's criterion for squares.
 */
module Residues {
  import opened ModArith
  import opened Primes
  import opened Gauss

  lemma {:induction false} PowMul(x: nat, y: nat, n: nat)
    ensures Pow(x * y, n) == Pow(x, n) * Pow(y, n)
  {
    if n > 0 {
      PowMul(x, y, n - 1);
      var a, b := Pow(x, n - 1), Pow(y, n - 1);
      MulAssoc(x, y, a * b);
      MulAssoc(y, a, b);
      MulAssoc(a, y, b);
      MulAssoc(x, a, y * b);
      assert y * a == a * y;
    }
  }

  lemma {:induction false} PowMod(x: nat, n: nat, d: nat)
    requires d > 0
    ensures Pow(x % d, n) % d == Pow(x, n) % d
  {
    if n > 0 {
      PowMod(x, n - 1, d);
      ModMul(x, Pow(x % d, n - 1), d);
      ModMul(x, Pow(x % d, n - 1) % d, d);
      ModMul(x, Pow(x, n - 1), d);
      ModMul(x, Pow(x % d, n - 1), d);
    }
  }

  lemma {:induction false} PowTwice(x: nat, n: nat)
    ensures Pow(x * x, n) == Pow(x, 2 * n) && Pow(x, n) * Pow(x, n) == Pow(x, 2 * n)
  {
    PowMul(x, x, n);
    PowAdd(x, n, n);
  }

  lemma {:induction false} PowPositive(x: nat, n: nat)
    requires x > 0
    ensures Pow(x, n) > 0
  {
    if n > 0 {
      PowPositive(x, n - 1);
      MulAtMost(1, x, Pow(x, n - 1));
    }
  }

  /** A unit's power with exponent d - 1 is one. */
  lemma UnitPower(x: nat, d: nat)
    requires Prime(d) && x % d != 0
    ensures Pow(x, d - 1) % d == 1
  {
    hide Prime;
    PrimeAboveOne(d);
    var z := Fermat(x, d);
    var w := Pow(x, d - 1);
    NotZero(x, d);
    PowPositive(x, d - 1);
    assert Pow(x, d) == x * w;
    Distribute(w, 1, x);
    assert x * (w - 1) == d * z by {
      assert x * w - x * 1 == d * z;
      assert (w - 1) * x == x * (w - 1);
      assert w * x == x * w;
    }
    MultipleIs(z, d);
    Euclid(d, x, w - 1);
    ModShift(w - 1, 1, d);
    ModSmall(1, d);
  }

  lemma NotZero(x: nat, d: nat)
    requires d > 0 && x % d != 0
    ensures x > 0
  {
    if x == 0 {
      ModSmall(0, d);
    }
  }

  lemma PrimeAboveOne(d: nat)
    requires Prime(d)
    ensures d > 1
  {
  }

  /** So the power with exponent d - 2 is the inverse. */
  lemma InversePower(x: nat, d: nat)
    requires Prime(d) && d > 2 && x % d != 0
    ensures x * (Pow(x, d - 2) % d) % d == 1
  {
    hide Prime;
    UnitPower(x, d);
    ModMul(x, Pow(x, d - 2), d);
    assert Pow(x, d - 1) == x * Pow(x, d - 2);
  }

  /** Euler's criterion, one half: the half power of a unit is one or minus one. */
  lemma HalfPower(x: nat, h: nat, d: nat)
    requires Prime(d) && d == 2 * h + 1 && x % d != 0
    ensures Pow(x, h) % d == 1 || Pow(x, h) % d == d - 1
  {
    hide Prime;
    UnitPower(x, d);
    PowTwice(x, h);
    var w := Pow(x, h);
    NotZero(x, d);
    PowPositive(x, h);
    assert (w - 1) * (w + 1) == w * w - 1;
    ModShift(w * w, -1, d);
    PrimeAboveOne(d);
    ModSmall(0, d);
    Euclid(d, w - 1, w + 1);
    if (w - 1) % d == 0 {
      ModShift(w - 1, 1, d);
      ModSmall(1, d);
    } else {
      ModShift(w + 1, -1, d);
      BackFromZero(w, d);
    }
  }

  lemma BackFromZero(w: nat, d: nat)
    requires d > 1 && (w + 1) % d == 0
    ensures w % d == d - 1
  {
    var q := Multiple(w + 1, d);
    assert d * q == q * d;
    Distribute(q, 1, d);
    DivModUnique(w, d, q - 1, d - 1);
  }

  /** The half power of a square is one. */
  lemma SquarePower(y: nat, h: nat, d: nat)
    requires Prime(d) && d == 2 * h + 1 && y % d != 0
    ensures Pow(y * y, h) % d == 1
  {
    hide Prime;
    UnitPower(y, d);
    PowTwice(y, h);
  }

  /** The half power of a product of two units whose half powers are minus one is one. */
  lemma SignsMultiply(x: nat, y: nat, h: nat, d: nat)
    requires d > 2
    requires (Pow(x, h) % d == 1 || Pow(x, h) % d == d - 1) && (Pow(y, h) % d == 1 || Pow(y, h) % d == d - 1)
    ensures Pow(x * y, h) % d == if Pow(x, h) % d == Pow(y, h) % d then 1 else d - 1
  {
    PowMul(x, y, h);
    var a, b := Pow(x, h) % d, Pow(y, h) % d;
    ModMul(Pow(x, h), Pow(y, h), d);
    assert Pow(x * y, h) % d == a * b % d;
    SignProducts(d);
  }

  lemma SignProducts(d: nat)
    requires d > 2
    ensures 1 * 1 % d == 1 && (d - 1) * 1 % d == d - 1 && 1 * (d - 1) % d == d - 1 && (d - 1) * (d - 1) % d == 1
  {
    ModSmall(1, d);
    ModSmall(d - 1, d);
    assert (d - 1) * (d - 1) == 1 + (d - 2) * d;
    ModPlusMultiple(1, d - 2, d);
  }

  /** Minus one has an odd power of minus one. */
  lemma {:induction false} MinusPower(h: nat, d: nat)
    requires d > 2
    ensures Pow(d - 1, h) % d == if h % 2 == 1 then d - 1 else 1
  {
    if h == 0 {
      ModSmall(1, d);
    } else {
      MinusPower(h - 1, d);
      ModMul(d - 1, Pow(d - 1, h - 1), d);
      SignProducts(d);
    }
  }
}
