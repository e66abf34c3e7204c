/**
 Modular arithmetic over the naturals: uniqueness of quotient and remainder, congruence, powers.
 Every lemma takes its modulus as a parameter, so that none of them depends on a particular prime.
 */
module ModArith {

  lemma MulAtLeast(d: int, m: int)
    requires d >= 1 && m >= 0
    ensures d * m >= m
  {
  }

  lemma MulAtMost(x: int, y: int, m: int)
    requires x <= y && m >= 0
    ensures x * m <= y * m
  {
  }

  lemma DivModUnique(x: int, m: int, q: int, r: int)
    requires m > 0 && x == q * m + r && 0 <= r < m
    ensures x / m == q && x % m == r
  {
    var q', r' := x / m, x % m;
    var d := q' - q;
    assert d * m == q' * m - q * m;
    if d >= 1 {
      MulAtLeast(d, m);
    } else if d <= -1 {
      assert (-d) * m == -(d * m);
      MulAtLeast(-d, m);
    }
  }

  lemma ModPlusMultiple(x: int, k: int, m: int)
    requires m > 0
    ensures (x + k * m) % m == x % m
  {
    var q, r := x / m, x % m;
    assert (q + k) * m == q * m + k * m;
    DivModUnique(x + k * m, m, q + k, r);
  }

  lemma ModMinus(x: int, m: int)
    requires m > 0
    ensures (x - m) % m == x % m
  {
    ModPlusMultiple(x, -1, m);
  }

  // ---------- congruences ----------

  /** A product may be reduced through either factor. */
  lemma ModMul(x: int, y: int, m: int)
    requires m > 0
    ensures (x % m) * y % m == x * y % m
    ensures x * (y % m) % m == x * y % m
    ensures (x % m) * (y % m) % m == x * y % m
  {
    ModMulLeft(x, y, m);
    ModMulLeft(y, x, m);
    ModMulLeft(y, x % m, m);
    assert y * x == x * y && (y % m) * x == x * (y % m);
    assert (y % m) * (x % m) == (x % m) * (y % m) && y * (x % m) == (x % m) * y;
  }

  lemma ModMulLeft(x: int, y: int, m: int)
    requires m > 0
    ensures (x % m) * y % m == x * y % m
  {
    var q := x / m;
    assert x == q * m + x % m;
    assert x * y == (x % m) * y + (q * y) * m;
    ModPlusMultiple((x % m) * y, q * y, m);
  }

  lemma ModShift(x: int, y: int, m: int)
    requires m > 0
    ensures (x % m + y) % m == (x + y) % m
  {
    ModPlusMultiple(x % m + y, x / m, m);
  }

  lemma ModUnshift(x: int, y: int, m: int)
    requires m > 0
    ensures (x - y % m) % m == (x - y) % m
  {
    ModPlusMultiple(x - y, y / m, m);
  }

  /** A sum may be reduced through either summand, a difference likewise. */
  lemma ModAdd(x: int, y: int, m: int)
    requires m > 0
    ensures (x % m + y % m) % m == (x + y) % m
    ensures (x % m - y % m) % m == (x - y) % m
  {
    ModShift(x, y % m, m);
    ModShift(y, x, m);
    ModShift(x, -(y % m), m);
    ModUnshift(x, y, m);
  }

  /** Scaling by k distributes over modular addition and subtraction. */
  lemma ModScale(x: int, y: int, k: int, m: int)
    requires m > 0
    ensures (x + y) % m * k % m == (x * k % m + y * k % m) % m
    ensures (x - y) % m * k % m == (x * k % m - y * k % m) % m
  {
    ModMulLeft(x + y, k, m);
    ModMulLeft(x - y, k, m);
    ModAdd(x * k, y * k, m);
    Distribute(x, y, k);
  }

  lemma Distribute(x: int, y: int, k: int)
    ensures (x + y) * k == x * k + y * k && (x - y) * k == x * k - y * k
  {
  }

  lemma MulAssoc(x: int, y: int, z: int)
    ensures (x * y) * z == x * (y * z)
  {
  }

  lemma ModSmall(x: int, m: int)
    requires 0 <= x < m
    ensures x % m == x
  {
  }

  // ---------- powers ----------

  function Pow(x: nat, n: nat): nat {
    if n == 0 then 1 else x * Pow(x, n - 1)
  }

  lemma {:induction false} PowAdd(x: nat, m: nat, n: nat)
    ensures Pow(x, m + n) == Pow(x, m) * Pow(x, n)
  {
    if m > 0 {
      PowAdd(x, m - 1, n);
      MulAssoc(x, Pow(x, m - 1), Pow(x, n));
      assert Pow(x, m + n) == x * Pow(x, m - 1 + n);
    }
  }
}
