/**
 The Gaussian integers: their arithmetic, the binomial theorem, and the prime power of a sum - from which
 Fermat's little theorem follows, and that a prime power of a Gaussian integer is itself or its conjugate.
 */
module Gauss {
  import opened ModArith
  import opened Primes

  datatype Complex = Complex(re: int, im: int)

  const ONE := Complex(1, 0)

  function Plus(x: Complex, y: Complex): Complex { Complex(x.re + y.re, x.im + y.im) }

  function Times(x: Complex, y: Complex): Complex {
    Complex(x.re * y.re - x.im * y.im, x.re * y.im + x.im * y.re)
  }

  function Scale(n: int, x: Complex): Complex { Complex(n * x.re, n * x.im) }

  function Conj(x: Complex): Complex { Complex(x.re, -x.im) }

  function Raise(x: Complex, n: nat): Complex {
    if n == 0 then ONE else Times(x, Raise(x, n - 1))
  }

  // ---------- laws ----------

  lemma TimesCommutes(x: Complex, y: Complex)
    ensures Times(x, y) == Times(y, x)
  {
  }

  lemma TimesAssociates(x: Complex, y: Complex, z: Complex)
    ensures Times(Times(x, y), z) == Times(x, Times(y, z))
  {
    Triple(x.re, y.re, z.re, x.im, y.im, z.im);
    Triple(x.re, y.re, z.im, x.im, y.im, z.re);
  }

  lemma Triple(a: int, b: int, c: int, a': int, b': int, c': int)
    ensures (a * b - a' * b') * c - (a * b' + a' * b) * c' == a * (b * c - b' * c') - a' * (b * c' + b' * c)
  {
    Distribute(a * b, a' * b', c);
    Distribute(a * b', a' * b, c');
    Distribute(b * c, b' * c', a);
    Distribute(b * c', b' * c, a');
    MulAssoc(a, b, c);
    MulAssoc(a', b', c);
    MulAssoc(a, b', c');
    MulAssoc(a', b, c');
  }

  lemma TimesPlus(x: Complex, y: Complex, z: Complex)
    ensures Times(x, Plus(y, z)) == Plus(Times(x, y), Times(x, z))
    ensures Times(Plus(y, z), x) == Plus(Times(y, x), Times(z, x))
  {
    Distribute(y.re, z.re, x.re);
    Distribute(y.im, z.im, x.im);
    Distribute(y.re, z.re, x.im);
    Distribute(y.im, z.im, x.re);
  }

  lemma TimesScale(n: int, x: Complex, y: Complex)
    ensures Times(x, Scale(n, y)) == Scale(n, Times(x, y)) && Times(Scale(n, x), y) == Scale(n, Times(x, y))
  {
    ScaledProduct(n, x.re, y.re);
    ScaledProduct(n, x.im, y.im);
    ScaledProduct(n, x.re, y.im);
    ScaledProduct(n, x.im, y.re);
    Distribute(x.re * y.re, x.im * y.im, n);
    Distribute(x.re * y.im, x.im * y.re, n);
  }

  lemma ScaledProduct(n: int, a: int, b: int)
    ensures a * (n * b) == n * (a * b) && n * a * b == n * (a * b)
  {
    MulAssoc(a, n, b);
    MulAssoc(n, a, b);
  }

  lemma ScaleTwice(m: int, n: int, x: Complex)
    ensures Scale(m + n, x) == Plus(Scale(m, x), Scale(n, x))
    ensures Scale(m, Scale(n, x)) == Scale(m * n, x)
  {
    Distribute(m, n, x.re);
    Distribute(m, n, x.im);
    MulAssoc(m, n, x.re);
    MulAssoc(m, n, x.im);
  }

  lemma ScalePlus(n: int, x: Complex, y: Complex)
    ensures Scale(n, Plus(x, y)) == Plus(Scale(n, x), Scale(n, y))
  {
    Distribute(x.re, y.re, n);
    Distribute(x.im, y.im, n);
  }

  lemma TimesOne(x: Complex)
    ensures Times(x, ONE) == x && Times(ONE, x) == x
  {
  }

  lemma {:induction false} RaiseAdd(x: Complex, m: nat, n: nat)
    ensures Raise(x, m + n) == Times(Raise(x, m), Raise(x, n))
    decreases m
  {
    hide Times;
    if m == 0 {
      TimesOne(Raise(x, n));
    } else {
      RaiseAdd(x, m - 1, n);
      TimesAssociates(x, Raise(x, m - 1), Raise(x, n));
      assert m + n - 1 == (m - 1) + n;
    }
  }

  lemma {:induction false} RaiseTimes(x: Complex, m: nat, n: nat)
    ensures Raise(Raise(x, m), n) == Raise(x, m * n)
    decreases n
  {
    hide Times;
    if n > 0 {
      RaiseTimes(x, m, n - 1);
      RaiseAdd(x, m, m * (n - 1));
      assert m * n == m + m * (n - 1);
    }
  }

  /** Real numbers are raised as they are. */
  lemma {:induction false} RaiseReal(a: nat, n: nat)
    ensures Raise(Complex(a, 0), n) == Complex(Pow(a, n), 0)
  {
    if n > 0 {
      RaiseReal(a, n - 1);
    }
  }

  /** An odd power of an imaginary number is imaginary, up to its sign. */
  lemma {:induction false} RaiseImaginary(b: nat, n: nat) returns (s: int)
    requires n % 2 == 1
    ensures (s == 1 || s == -1) && Raise(Complex(0, b), n) == Complex(0, s * Pow(b, n))
  {
    if n == 1 {
      s := 1;
      assert Raise(Complex(0, b), 0) == ONE;
      assert Pow(b, 0) == 1;
    } else {
      var s' := RaiseImaginary(b, n - 2);
      s := -s';
      var p, x := Pow(b, n - 2), Complex(0, b);
      TwoMore(b, n);
      RaiseTwoMore(x, n);
      SquaredImaginary(b, s', p);
    }
  }

  lemma TwoMore(b: nat, n: nat)
    requires n >= 2
    ensures Pow(b, n) == b * (b * Pow(b, n - 2))
  {
    assert Pow(b, n - 1) == b * Pow(b, n - 2);
  }

  lemma RaiseTwoMore(x: Complex, n: nat)
    requires n >= 2
    ensures Raise(x, n) == Times(x, Times(x, Raise(x, n - 2)))
  {
    hide Times;
    assert Raise(x, n - 1) == Times(x, Raise(x, n - 2));
  }

  lemma SquaredImaginary(b: int, s: int, p: int)
    ensures var x := Complex(0, b); Times(x, Times(x, Complex(0, s * p))) == Complex(0, -s * (b * (b * p)))
  {
    assert Times(Complex(0, b), Complex(0, s * p)) == Complex(-(b * (s * p)), 0);
    assert b * -(b * (s * p)) == -s * (b * (b * p)) by {
      MulAssoc(b, s, p);
      MulAssoc(s, b, p);
      MulAssoc(b, s, b * p);
      MulAssoc(s, b, b * p);
    }
  }

  // ---------- the binomial theorem ----------

  const ZERO := Complex(0, 0)

  function Term(x: Complex, y: Complex, n: nat, k: nat): Complex {
    if k > n then ZERO else Scale(Choose(n, k), Times(Raise(x, k), Raise(y, n - k)))
  }

  /** The terms 0 to k. */
  function Sum(x: Complex, y: Complex, n: nat, k: nat): Complex {
    if k == 0 then Term(x, y, n, 0) else Plus(Sum(x, y, n, k - 1), Term(x, y, n, k))
  }

  lemma ZeroLaws(x: Complex)
    ensures Plus(x, ZERO) == x && Times(x, ZERO) == ZERO && Scale(0, x) == ZERO && Scale(1, x) == x
  {
  }

  lemma FirstTerm(x: Complex, y: Complex, n: nat)
    ensures Term(x, y, n, 0) == Raise(y, n) && Term(x, y, n + 1, 0) == Times(y, Term(x, y, n, 0))
  {
    hide Times;
    TimesOne(Raise(y, n));
    TimesOne(Raise(y, n + 1));
  }

  lemma LastTerm(x: Complex, y: Complex, n: nat)
    ensures Term(x, y, n, n) == Raise(x, n)
  {
    hide Times;
    ChooseAbove(n, n);
    TimesOne(Raise(x, n));
  }

  lemma TermStep(x: Complex, y: Complex, n: nat, k: nat)
    ensures Term(x, y, n + 1, k + 1) == Plus(Times(x, Term(x, y, n, k)), Times(y, Term(x, y, n, k + 1)))
  {
    hide Times, Scale, Choose;
    if k == n {
      LastTerm(x, y, n + 1);
      LastTerm(x, y, n);
      ZeroLaws(y);
      ZeroLaws(Raise(x, n + 1));
    } else if k > n {
      ZeroLaws(x);
      ZeroLaws(y);
      ZeroLaws(ZERO);
    } else {
      InnerTerm(x, y, n, k);
    }
  }

  lemma InnerTerm(x: Complex, y: Complex, n: nat, k: nat)
    requires k < n
    ensures Term(x, y, n + 1, k + 1) == Plus(Times(x, Term(x, y, n, k)), Times(y, Term(x, y, n, k + 1)))
  {
    hide Times, Scale, Plus;
    var u, v, c, c' := Raise(x, k), Raise(y, n - k - 1), Choose(n, k), Choose(n, k + 1);
    var w := Times(Raise(x, k + 1), Raise(y, n - k));
    TimesScale(c, x, Times(u, Raise(y, n - k)));
    TimesAssociates(x, u, Raise(y, n - k));
    TimesScale(c', y, Times(Raise(x, k + 1), v));
    TimesAssociates(y, Raise(x, k + 1), v);
    TimesCommutes(y, Raise(x, k + 1));
    TimesAssociates(Raise(x, k + 1), y, v);
    ScaleTwice(c, c', w);
    assert Choose(n + 1, k + 1) == c + c';
  }

  lemma {:induction false} SumStep(x: Complex, y: Complex, n: nat, k: nat)
    ensures Sum(x, y, n + 1, k)
         == Plus(if k == 0 then ZERO else Times(x, Sum(x, y, n, k - 1)), Times(y, Sum(x, y, n, k)))
  {
    hide Times, Term;
    if k == 0 {
      FirstTerm(x, y, n);
    } else {
      SumStep(x, y, n, k - 1);
      TermStep(x, y, n, k - 1);
      TimesPlus(y, Sum(x, y, n, k - 1), Term(x, y, n, k));
      if k > 1 {
        TimesPlus(x, Sum(x, y, n, k - 2), Term(x, y, n, k - 1));
      }
    }
  }

  /** The power of a sum is the sum of all terms. */
  lemma {:induction false} Binomial(x: Complex, y: Complex, n: nat)
    ensures Raise(Plus(x, y), n) == Sum(x, y, n, n)
  {
    hide Times, Plus;
    if n == 0 {
      FirstTerm(x, y, 0);
    } else {
      Binomial(x, y, n - 1);
      SumStep(x, y, n - 1, n);
      var s := Sum(x, y, n - 1, n - 1);
      assert Term(x, y, n - 1, n) == ZERO;
      ZeroLaws(s);
      TimesPlus(s, x, y);
      TimesPlus(Plus(x, y), s, s);
      SumTimes(x, y, s);
    }
  }

  lemma SumTimes(x: Complex, y: Complex, s: Complex)
    ensures Times(Plus(x, y), s) == Plus(Times(x, s), Times(y, s))
  {
    TimesPlus(s, x, y);
  }

  // ---------- prime powers ----------

  /** All terms between the first and the last are multiples of a prime exponent. */
  lemma {:induction false} InnerSum(x: Complex, y: Complex, d: nat, k: nat) returns (z: Complex)
    requires Prime(d) && k < d
    ensures Sum(x, y, d, k) == Plus(Raise(y, d), Scale(d, z))
    decreases k
  {
    hide Times, Raise, Choose;
    if k == 0 {
      z := ZERO;
      FirstTerm(x, y, d);
    } else {
      var z' := InnerSum(x, y, d, k - 1);
      PrimeDividesChoose(d, k);
      var q := Multiple(Choose(d, k), d);
      var t := Times(Raise(x, k), Raise(y, d - k));
      ScaleTwice(d, q, t);
      z := Plus(z', Scale(q, t));
      ScalePlus(d, z', Scale(q, t));
      PlusAssociates(Raise(y, d), Scale(d, z'), Scale(d, Scale(q, t)));
    }
  }

  lemma PlusAssociates(x: Complex, y: Complex, z: Complex)
    ensures Plus(Plus(x, y), z) == Plus(x, Plus(y, z)) && Plus(x, y) == Plus(y, x)
  {
  }

  /** Modulo a prime d, the d-th power of a sum is the sum of the d-th powers. */
  lemma PrimePower(x: Complex, y: Complex, d: nat) returns (z: Complex)
    requires Prime(d)
    ensures Raise(Plus(x, y), d) == Plus(Plus(Raise(x, d), Raise(y, d)), Scale(d, z))
  {
    hide Times, Raise, Choose, Scale, Term;
    Binomial(x, y, d);
    z := InnerSum(x, y, d, d - 1);
    LastTerm(x, y, d);
    PlusAssociates(Raise(y, d), Scale(d, z), Raise(x, d));
    PlusAssociates(Raise(x, d), Raise(y, d), Scale(d, z));
  }

  /** Fermat's little theorem. */
  lemma {:induction false} Fermat(a: nat, d: nat) returns (z: int)
    requires Prime(d)
    ensures Pow(a, d) == a + d * z
    decreases a
  {
    if a == 0 {
      z := 0;
      PowZero(d);
    } else {
      var z' := Fermat(a - 1, d);
      var w := OneMore(a, d);
      z := z' + w;
      Gathered(Pow(a, d), Pow(a - 1, d), a, d, z', w);
    }
  }

  lemma OneMore(a: nat, d: nat) returns (w: int)
    requires Prime(d) && a > 0
    ensures Pow(a, d) == Pow(a - 1, d) + 1 + d * w
  {
    hide Raise, Pow, Prime;
    var x := Complex(a - 1, 0);
    var z := PrimePower(x, ONE, d);
    w := z.re;
    assert Plus(x, ONE) == Complex(a, 0);
    RaiseReal(a - 1, d);
    RaiseReal(1, d);
    PowOne(d);
    RaiseReal(a, d);
  }

  lemma Gathered(p: int, q: int, a: int, d: int, z: int, w: int)
    requires q == a - 1 + d * z && p == q + 1 + d * w
    ensures p == a + d * (z + w)
  {
    Distribute(z, w, d);
  }

  lemma {:induction false} PowZero(n: nat)
    requires n > 0
    ensures Pow(0, n) == 0
  {
    assert Pow(0, n) == 0 * Pow(0, n - 1);
  }

  lemma {:induction false} PowOne(n: nat)
    ensures Pow(1, n) == 1
  {
    if n > 0 {
      PowOne(n - 1);
    }
  }

  /** Modulo an odd prime d, the d-th power of a Gaussian integer is itself or its conjugate. */
  lemma Frobenius(x: Complex, d: nat) returns (z: Complex)
    requires Prime(d) && d % 2 == 1 && x.re >= 0 && x.im >= 0
    ensures Raise(x, d) == Plus(x, Scale(d, z)) || Raise(x, d) == Plus(Conj(x), Scale(d, z))
  {
    hide Raise, Pow, Prime;
    var a, b := x.re, x.im;
    assert Plus(Complex(a, 0), Complex(0, b)) == x;
    var w := PrimePower(Complex(a, 0), Complex(0, b), d);
    RaiseReal(a, d);
    var s := RaiseImaginary(b, d);
    var u := Fermat(a, d);
    var v := Fermat(b, d);
    z := Complex(u + w.re, s * v + w.im);
    PartsOfPower(a, u, w.re, d);
    SignedPart(b, s, v, w.im, d);
    assert Raise(x, d) == Complex(Pow(a, d) + d * w.re, s * Pow(b, d) + d * w.im);
  }

  lemma PartsOfPower(a: int, u: int, w: int, d: int)
    ensures a + d * u + d * w == a + d * (u + w)
  {
    Distribute(u, w, d);
  }

  lemma SignedPart(b: int, s: int, v: int, w: int, d: int)
    requires s == 1 || s == -1
    ensures s * (b + d * v) + d * w == s * b + d * (s * v + w)
  {
    Distribute(s * v, w, d);
  }
}
