/**
 The field modulus of P-256 is prime: the certificate passes the test, so every divisor of the modulus is 1 or -1
 modulo 2^96, and no product of two such numbers is the modulus.
 */
module P256Prime {
  import opened ModArith
  import opened Words
  import opened Primes
  import opened Gauss
  import opened PrimeTest
  import opened P256Certificate

  // ---------- following the certificate ----------

  function Norm(y: Complex): int { y.re * y.re + y.im * y.im }

  /** A number of norm one, modulo the modulus, with real part c. */
  ghost predicate Tracks(y: Complex, c: int) {
    y.re % PRIME == c && Norm(y) % PRIME == 1
  }

  lemma NormTimes(y: Complex)
    ensures Norm(Times(y, y)) == Norm(y) * Norm(y) && Times(y, y).re == 2 * (y.re * y.re) - Norm(y)
  {
    var a, b := y.re * y.re, y.im * y.im;
    assert (y.re * y.im + y.im * y.re) * (y.re * y.im + y.im * y.re) == 4 * (a * b) by {
      Fourfold(y.re, y.im);
    }
    assert (a - b) * (a - b) + 4 * (a * b) == (a + b) * (a + b);
  }

  lemma Fourfold(r: int, i: int)
    ensures (r * i + i * r) * (r * i + i * r) == 4 * ((r * r) * (i * i))
  {
    assert r * i + i * r == 2 * (r * i);
    assert (r * i) * (r * i) == (r * r) * (i * i) by {
      MulAssoc(r, i, r * i);
      MulAssoc(i, r, i);
      MulAssoc(r, i, i);
      MulAssoc(r, r, i * i);
    }
  }

  lemma SquareMod(y: int, c: int, n: int, p: nat)
    requires p > 1 && y % p == c && n % p == 1
    ensures (2 * (y * y) - n) % p == (2 * c * c - 1) % p
    ensures n * n % p == 1
  {
    ModMul(y, y, p);
    ModMul(2, y * y, p);
    ModMul(2, c * c, p);
    ModAdd(2 * (y * y), n, p);
    ModAdd(2 * (c * c), 1, p);
    ModSmall(1, p);
    ModMul(n, n, p);
    MulAssoc(2, c, c);
  }

  lemma Square(y: Complex, c: int, p: nat)
    requires p > 1 && y.re % p == c && Norm(y) % p == 1
    ensures Times(y, y).re % p == (2 * c * c - 1) % p && Norm(Times(y, y)) % p == 1
  {
    hide Times, Norm;
    NormTimes(y);
    SquareMod(y.re, c, Norm(y), p);
  }

  lemma SquareRaise(x: Complex, k: nat)
    ensures Times(Raise(x, Pow2(k)), Raise(x, Pow2(k))) == Raise(x, Pow2(k + 1))
  {
    hide Raise, Times;
    RaiseAdd(x, Pow2(k), Pow2(k));
  }

  lemma Next(x: Complex, k: nat, c: int)
    requires Tracks(Raise(x, Pow2(k)), c)
    ensures Tracks(Raise(x, Pow2(k + 1)), Doubled(c))
  {
    hide Raise, Times, Norm, Pow2;
    Square(Raise(x, Pow2(k)), c, PRIME);
    SquareRaise(x, k);
  }

  lemma NextTwelve(x: Complex, k: nat, a0: int, a1: int, a2: int, a3: int, a4: int, a5: int, a6: int,
                   a7: int, a8: int, a9: int, a10: int, a11: int, a12: int)
    requires Tracks(Raise(x, Pow2(k)), a0)
    requires Doubled(a0) == a1 && Doubled(a1) == a2 && Doubled(a2) == a3 && Doubled(a3) == a4
    requires Doubled(a4) == a5 && Doubled(a5) == a6 && Doubled(a6) == a7 && Doubled(a7) == a8
    requires Doubled(a8) == a9 && Doubled(a9) == a10 && Doubled(a10) == a11 && Doubled(a11) == a12
    ensures Tracks(Raise(x, Pow2(k + 12)), a12)
  {
    hide Raise, Tracks, Pow2, Doubled;
    Next(x, k + 0, a0);
    Next(x, k + 1, a1);
    Next(x, k + 2, a2);
    Next(x, k + 3, a3);
    Next(x, k + 4, a4);
    Next(x, k + 5, a5);
    Next(x, k + 6, a6);
    Next(x, k + 7, a7);
    Next(x, k + 8, a8);
    Next(x, k + 9, a9);
    Next(x, k + 10, a10);
    Next(x, k + 11, a11);
  }

  function Root(): Complex { Complex(C0, IMAGINARY) }

  /** The power with exponent 2^94 has real part zero. */
  lemma CertificateEnds()
    ensures Tracks(Raise(Root(), Pow2(94)), 0)
  {
    hide Raise, Tracks, Pow2, Doubled;
    var x := Root();
    RootTracks();
    DoublesFrom0();
    NextTwelve(x, 0, C0, C1, C2, C3, C4, C5, C6, C7, C8, C9, C10, C11, C12);
    DoublesFrom12();
    NextTwelve(x, 12, C12, C13, C14, C15, C16, C17, C18, C19, C20, C21, C22, C23, C24);
    DoublesFrom24();
    NextTwelve(x, 24, C24, C25, C26, C27, C28, C29, C30, C31, C32, C33, C34, C35, C36);
    DoublesFrom36();
    NextTwelve(x, 36, C36, C37, C38, C39, C40, C41, C42, C43, C44, C45, C46, C47, C48);
    DoublesFrom48();
    NextTwelve(x, 48, C48, C49, C50, C51, C52, C53, C54, C55, C56, C57, C58, C59, C60);
    DoublesFrom60();
    NextTwelve(x, 60, C60, C61, C62, C63, C64, C65, C66, C67, C68, C69, C70, C71, C72);
    DoublesFrom72();
    NextTwelve(x, 72, C72, C73, C74, C75, C76, C77, C78, C79, C80, C81, C82, C83, C84);
    DoublesFrom84();
    Next(x, 84, C84);
    Next(x, 85, C85);
    Next(x, 86, C86);
    Next(x, 87, C87);
    Next(x, 88, C88);
    Next(x, 89, C89);
    Next(x, 90, C90);
    Next(x, 91, C91);
    Next(x, 92, C92);
    Next(x, 93, C93);
  }

  lemma RootTracks()
    ensures Tracks(Raise(Root(), Pow2(0)), C0)
  {
    hide Times;
    NormOne();
    TimesOne(Root());
    assert Raise(Root(), 1) == Times(Root(), Raise(Root(), 0));
  }

  // ---------- the modulus is prime ----------

  /** Half of the exponent that gives one gives minus one. */
  lemma MinusOne(y: Complex, p: nat)
    requires p > 1 && y.re % p == 0 && Norm(y) % p == 1
    ensures Like(Times(y, y), MINUS, p)
  {
    hide Times, Norm;
    NormTimes(y);
    SquareMod(y.re, 0, Norm(y), p);
    ImaginaryPart(y, p);
    ModShift(Times(y, y).re, 1, p);
    ModShift(-1, 1, p);
    ModSmall(0, p);
    LikeFromMods(Times(y, y), MINUS, p);
  }

  lemma ImaginaryPart(y: Complex, p: nat)
    requires p > 1 && y.re % p == 0
    ensures Times(y, y).im % p == 0
  {
    assert Times(y, y).im == y.re * (2 * y.im) by {
      assert y.re * y.im + y.im * y.re == 2 * (y.re * y.im);
      MulAssoc(2, y.re, y.im);
      MulAssoc(y.re, 2, y.im);
    }
    ModMul(y.re, 2 * y.im, p);
    ModSmall(0, p);
  }

  lemma NormIsOne()
    ensures Like(Times(Root(), Conj(Root())), ONE, PRIME)
  {
    var x := Root();
    NormOne();
    var t := Times(x, Conj(x));
    assert x.re * -x.im + x.im * x.re == 0;
    assert t.re == Norm(x) && t.im == 0;
    ModShift(Norm(x), -1, PRIME);
    ModSmall(0, PRIME);
    LikeFromMods(t, ONE, PRIME);
  }

  lemma TwoTo96()
    ensures Pow2(96) == 0x1_00000000_00000000_00000000
  {
    Pow2At32();
    Pow2Add(32, 32);
    Pow2Add(64, 32);
  }

  lemma Sizes(f: nat)
    requires f == 0x1_00000000_00000000_00000000
    ensures PRIME + 1 == (0xffffffff_00000001 * f + 1) * f && PRIME < f * f * (f - 1) && PRIME % 2 == 1
  {
  }

  /** The modulus has no divisors but one and itself. */
  lemma ModulusIsPrime()
    ensures Prime(PRIME)
  {
    hide Prime, Like, Times, Raise, Pow2, Tracks;
    TwoTo96();
    Sizes(Pow2(96));
    NormIsOne();
    var y := Raise(Root(), Pow2(94));
    CertificateEnds();
    EndIs(y);
    MinusOne(y, PRIME);
    SquareRaise(Root(), 94);
    PassesTest(PRIME, 0xffffffff_00000001, 96, Root());
  }

  lemma EndIs(y: Complex)
    requires Tracks(y, 0)
    ensures y.re % PRIME == 0 && Norm(y) % PRIME == 1
  {
  }
}
