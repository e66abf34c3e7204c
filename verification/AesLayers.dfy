/**
 The layers of AES on octets: the S-box pair and the column matrices, each with the fact that makes
 decryption undo encryption.
 */
module AesLayers {
  import opened Gf256

  function Affine(s: bv8): bv8 {
    s ^ Rotl1(s) ^ Rotl2(s) ^ Rotl3(s) ^ Rotl4(s) ^ 0x63
  }

  function InvAffine(y: bv8): bv8 {
    Rotl1(y) ^ Rotl3(y) ^ Rotl6(y) ^ 0x05
  }

  function Rotl1(x: bv8): bv8 { (x << 1) | (x >> 7) }

  function Rotl2(x: bv8): bv8 { (x << 2) | (x >> 6) }

  function Rotl3(x: bv8): bv8 { (x << 3) | (x >> 5) }

  function Rotl4(x: bv8): bv8 { (x << 4) | (x >> 4) }

  function Rotl6(x: bv8): bv8 { (x << 6) | (x >> 2) }

  function Sbox(x: bv8): bv8 {
    Affine(GfInv(x))
  }

  function InvSbox(y: bv8): bv8 {
    GfInv(InvAffine(y))
  }

  /** Worked examples of FIPS 197: section 4.2, section 5.1.1, the first column mixed in appendix B. */
  lemma StandardExamples()
    ensures GfMul(0x57, 0x83) == 0xc1 && GfMul(0x57, 0x13) == 0xfe
    ensures Sbox(0x00) == 0x63 && Sbox(0x53) == 0xed
    ensures MixRow(0xd4, 0xbf, 0x5d, 0x30) == 0x04 && MixRow(0xbf, 0x5d, 0x30, 0xd4) == 0x66
    ensures MixRow(0x5d, 0x30, 0xd4, 0xbf) == 0x81 && MixRow(0x30, 0xd4, 0xbf, 0x5d) == 0xe5
  {
    hide GfInv, GfMul;
    InvOfZero();
    MulUnrolled(0x57, 0x83);
    MulUnrolled(0x57, 0x13);
    MulUnrolled(0x53, 0xca);
    InverseUnique(0x53, 0xca);
  }

  lemma AffineInverse(x: bv8)
    ensures InvAffine(Affine(x)) == x && Affine(InvAffine(x)) == x
  {
  }

  /** The two substitution boxes are inverse to each other. */
  lemma SboxInverse(x: bv8)
    ensures InvSbox(Sbox(x)) == x
    ensures Sbox(InvSbox(x)) == x
  {
    AffineInverse(GfInv(x));
    InvInv(x);
    AffineInverse(x);
    InvInv(InvAffine(x));
  }

  // ---------- the column matrices ----------

  function Xtime(x: bv8): bv8 {
    (x << 1) ^ ((x >> 7) * 0x1b)
  }

  lemma DoubleIsXtime(a: bv8)
    ensures Double(a) == Xtime(a)
  {
  }

  function Add4(a: bv8, b: bv8, c: bv8, d: bv8): bv8 { Add(Add(Add(a, b), c), d) }

  function Mul9(a: bv8): bv8 { Add(Double(Double(Double(a))), a) }

  function Mul11(a: bv8): bv8 { Add(Add(Double(Double(Double(a))), Double(a)), a) }

  function Mul13(a: bv8): bv8 { Add(Add(Double(Double(Double(a))), Double(Double(a))), a) }

  function Mul14(a: bv8): bv8 { Add(Add(Double(Double(Double(a))), Double(Double(a))), Double(a)) }

  lemma MulEight(a: bv8)
    ensures GfMul(a, 2) == Double(a) && GfMul(a, 4) == Double(Double(a)) && GfMul(a, 8) == Double(Double(Double(a)))
  {
    hide GfMul, Double;
    Powers();
    MulUnit(a);
    MulDouble(a, 1);
    MulDouble(a, 2);
    MulDouble(a, 4);
  }

  /** The coefficients of the inverse matrix as sums of doublings. */
  lemma MulSmall(a: bv8)
    ensures GfMul(a, 9) == Mul9(a) && GfMul(a, 11) == Mul11(a)
    ensures GfMul(a, 13) == Mul13(a) && GfMul(a, 14) == Mul14(a)
  {
    hide GfMul, Add, Double;
    MulEight(a);
    MulUnit(a);
    SmallSums();
    MulDistributes(8, 1, a);
    MulDistributes(Add(8, 2), 1, a);
    MulDistributes(8, 2, a);
    MulDistributes(Add(8, 4), 1, a);
    MulDistributes(8, 4, a);
    MulDistributes(Add(8, 4), 2, a);
  }

  lemma SmallSums()
    ensures Add(8, 1) == 9 && Add(Add(8, 2), 1) == 11 && Add(Add(8, 4), 1) == 13 && Add(Add(8, 4), 2) == 14
  {
  }

  lemma Regroup(a: bv8, b: bv8, c: bv8, a': bv8, b': bv8, c': bv8)
    ensures Add(Add(a, a'), Add(b, b')) == Add(Add(a, b), Add(a', b'))
    ensures Add(Add(Add(a, a'), Add(b, b')), Add(c, c')) == Add(Add(Add(a, b), c), Add(Add(a', b'), c'))
  {
  }

  /** Each coefficient of the inverse matrix distributes over addition. */
  lemma MulLinear(a: bv8, b: bv8)
    ensures Mul9(Add(a, b)) == Add(Mul9(a), Mul9(b))
    ensures Mul11(Add(a, b)) == Add(Mul11(a), Mul11(b))
    ensures Mul13(Add(a, b)) == Add(Mul13(a), Mul13(b))
    ensures Mul14(Add(a, b)) == Add(Mul14(a), Mul14(b))
  {
    hide Double, Add;
    var a1, b1 := Double(a), Double(b);
    var a2, b2 := Double(a1), Double(b1);
    var a3, b3 := Double(a2), Double(b2);
    DoubleLinear(a, b);
    DoubleLinear(a1, b1);
    DoubleLinear(a2, b2);
    Regroup(a3, a, a, b3, b, b);
    Regroup(a3, a1, a, b3, b1, b);
    Regroup(a3, a2, a, b3, b2, b);
    Regroup(a3, a2, a1, b3, b2, b1);
  }

  lemma MulLinear4(a: bv8, b: bv8, c: bv8, d: bv8)
    ensures Mul9(Add4(a, b, c, d)) == Add4(Mul9(a), Mul9(b), Mul9(c), Mul9(d))
    ensures Mul11(Add4(a, b, c, d)) == Add4(Mul11(a), Mul11(b), Mul11(c), Mul11(d))
    ensures Mul13(Add4(a, b, c, d)) == Add4(Mul13(a), Mul13(b), Mul13(c), Mul13(d))
    ensures Mul14(Add4(a, b, c, d)) == Add4(Mul14(a), Mul14(b), Mul14(c), Mul14(d))
  {
    hide Add, Mul9, Mul11, Mul13, Mul14;
    MulLinear(Add(Add(a, b), c), d);
    MulLinear(Add(a, b), c);
    MulLinear(a, b);
  }

  lemma XtimeLinear4(a: bv8, b: bv8, c: bv8, d: bv8)
    ensures Xtime(Add4(a, b, c, d)) == Add4(Xtime(a), Xtime(b), Xtime(c), Xtime(d))
  {
    hide Add, Double, Xtime;
    DoubleIsXtime(Add4(a, b, c, d));
    DoubleIsXtime(a);
    DoubleIsXtime(b);
    DoubleIsXtime(c);
    DoubleIsXtime(d);
    DoubleLinear(Add(Add(a, b), c), d);
    DoubleLinear(Add(a, b), c);
    DoubleLinear(a, b);
  }

  /** The first row of the column matrix; the other rows are its rotations. */
  function MixRow(a: bv8, b: bv8, c: bv8, d: bv8): bv8 {
    Add4(Xtime(a), Add(Xtime(b), b), c, d)
  }

  /** The first row of the inverse matrix. */
  function InvMixRow(a: bv8, b: bv8, c: bv8, d: bv8): bv8 {
    Add4(GfMul(a, 14), GfMul(b, 11), GfMul(c, 13), GfMul(d, 9))
  }

  lemma InvMixRowSum(a: bv8, b: bv8, c: bv8, d: bv8)
    ensures InvMixRow(a, b, c, d) == Add4(Mul14(a), Mul11(b), Mul13(c), Mul9(d))
  {
    hide GfMul, Mul9, Mul11, Mul13, Mul14, Add4;
    MulSmall(a);
    MulSmall(b);
    MulSmall(c);
    MulSmall(d);
  }

  /** The products of the two matrices' coefficients. */
  lemma CoefficientProducts()
    ensures GfMul(2, 9) == 18 && GfMul(2, 11) == 22 && GfMul(2, 13) == 26 && GfMul(2, 14) == 28
    ensures GfMul(3, 9) == 27 && GfMul(3, 11) == 29 && GfMul(3, 13) == 23 && GfMul(3, 14) == 18
    ensures GfMul(9, 2) == 18 && GfMul(11, 2) == 22 && GfMul(13, 2) == 26 && GfMul(14, 2) == 28
    ensures GfMul(9, 3) == 27 && GfMul(11, 3) == 29 && GfMul(13, 3) == 23 && GfMul(14, 3) == 18
  {
    hide GfMul;
    MulSmall(2);
    MulSmall(3);
    MulCommutes(2, 9); MulCommutes(2, 11); MulCommutes(2, 13); MulCommutes(2, 14);
    MulCommutes(3, 9); MulCommutes(3, 11); MulCommutes(3, 13); MulCommutes(3, 14);
  }

  lemma MulTwoThree(a: bv8)
    ensures GfMul(a, 2) == Double(a) && GfMul(a, 3) == Add(Double(a), a)
  {
    hide GfMul, Double, Add;
    MulEight(a);
    MulUnit(a);
    assert Add(2, 1) == 3 by { TwoAndOne(); }
    MulDistributes(2, 1, a);
  }

  lemma TwoAndOne()
    ensures Add(2, 1) == 3
  {
  }

  /** Four multiples of a add up to the multiple by the sum. */
  lemma ScaledSum(a: bv8, n0: bv8, n1: bv8, n2: bv8, n3: bv8)
    ensures Add4(GfMul(a, n0), GfMul(a, n1), GfMul(a, n2), GfMul(a, n3)) == GfMul(a, Add4(n0, n1, n2, n3))
  {
    hide GfMul, Add;
    MulDistributes(n0, n1, a);
    MulDistributes(Add(n0, n1), n2, a);
    MulDistributes(Add(Add(n0, n1), n2), n3, a);
  }

  lemma CoefficientSums()
    ensures Add4(28, 11, 13, 27) == 1 && Add4(18, 22, 13, 9) == 0 && Add4(14, 29, 26, 9) == 0 && Add4(14, 11, 23, 18) == 0
    ensures Add4(28, 27, 13, 11) == 1 && Add4(22, 18, 9, 13) == 0 && Add4(26, 29, 14, 9) == 0 && Add4(18, 23, 11, 14) == 0
  {
  }

  /** A coefficient of the inverse matrix applied to twice and three times a. */
  lemma AfterMix(a: bv8)
    ensures Mul9(Double(a)) == GfMul(a, 18) && Mul11(Double(a)) == GfMul(a, 22)
    ensures Mul13(Double(a)) == GfMul(a, 26) && Mul14(Double(a)) == GfMul(a, 28)
    ensures Mul9(Add(Double(a), a)) == GfMul(a, 27) && Mul11(Add(Double(a), a)) == GfMul(a, 29)
    ensures Mul13(Add(Double(a), a)) == GfMul(a, 23) && Mul14(Add(Double(a), a)) == GfMul(a, 18)
  {
    hide GfMul, Double, Add, Mul9, Mul11, Mul13, Mul14;
    CoefficientProducts();
    MulTwoThree(a);
    MulSmall(Double(a));
    MulSmall(Add(Double(a), a));
    MulAssociates(a, 2, 9); MulAssociates(a, 2, 11); MulAssociates(a, 2, 13); MulAssociates(a, 2, 14);
    MulAssociates(a, 3, 9); MulAssociates(a, 3, 11); MulAssociates(a, 3, 13); MulAssociates(a, 3, 14);
  }

  /** Twice and three times a coefficient of the inverse matrix. */
  lemma BeforeMix(a: bv8)
    ensures Double(Mul9(a)) == GfMul(a, 18) && Double(Mul11(a)) == GfMul(a, 22)
    ensures Double(Mul13(a)) == GfMul(a, 26) && Double(Mul14(a)) == GfMul(a, 28)
    ensures Add(Double(Mul9(a)), Mul9(a)) == GfMul(a, 27) && Add(Double(Mul11(a)), Mul11(a)) == GfMul(a, 29)
    ensures Add(Double(Mul13(a)), Mul13(a)) == GfMul(a, 23) && Add(Double(Mul14(a)), Mul14(a)) == GfMul(a, 18)
  {
    hide GfMul, Double, Add, Mul9, Mul11, Mul13, Mul14;
    CoefficientProducts();
    MulSmall(a);
    MulTwoThree(Mul9(a));
    MulTwoThree(Mul11(a));
    MulTwoThree(Mul13(a));
    MulTwoThree(Mul14(a));
    MulAssociates(a, 9, 2); MulAssociates(a, 11, 2); MulAssociates(a, 13, 2); MulAssociates(a, 14, 2);
    MulAssociates(a, 9, 3); MulAssociates(a, 11, 3); MulAssociates(a, 13, 3); MulAssociates(a, 14, 3);
  }

  /** The product of the inverse matrix and the matrix, coefficient by coefficient. */
  lemma Coefficients(a: bv8)
    ensures Add4(Mul14(Xtime(a)), Mul11(a), Mul13(a), Mul9(Add(Xtime(a), a))) == a
    ensures Add4(Mul14(Add(Xtime(a), a)), Mul11(Xtime(a)), Mul13(a), Mul9(a)) == 0
    ensures Add4(Mul14(a), Mul11(Add(Xtime(a), a)), Mul13(Xtime(a)), Mul9(a)) == 0
    ensures Add4(Mul14(a), Mul11(a), Mul13(Add(Xtime(a), a)), Mul9(Xtime(a))) == 0
  {
    hide GfMul, Double, Xtime, Add, Add4, Mul9, Mul11, Mul13, Mul14;
    DoubleIsXtime(a);
    AfterMix(a);
    MulSmall(a);
    CoefficientSums();
    MulUnit(a);
    ScaledSum(a, 28, 11, 13, 27);
    ScaledSum(a, 18, 22, 13, 9);
    ScaledSum(a, 14, 29, 26, 9);
    ScaledSum(a, 14, 11, 23, 18);
  }

  /** The product in the other order. */
  lemma CoefficientsRight(a: bv8)
    ensures Add4(Xtime(Mul14(a)), Add(Xtime(Mul9(a)), Mul9(a)), Mul13(a), Mul11(a)) == a
    ensures Add4(Xtime(Mul11(a)), Add(Xtime(Mul14(a)), Mul14(a)), Mul9(a), Mul13(a)) == 0
    ensures Add4(Xtime(Mul13(a)), Add(Xtime(Mul11(a)), Mul11(a)), Mul14(a), Mul9(a)) == 0
    ensures Add4(Xtime(Mul9(a)), Add(Xtime(Mul13(a)), Mul13(a)), Mul11(a), Mul14(a)) == 0
  {
    hide GfMul, Double, Xtime, Add, Add4, Mul9, Mul11, Mul13, Mul14;
    DoubleIsXtime(Mul9(a));
    DoubleIsXtime(Mul11(a));
    DoubleIsXtime(Mul13(a));
    DoubleIsXtime(Mul14(a));
    BeforeMix(a);
    MulSmall(a);
    CoefficientSums();
    MulUnit(a);
    ScaledSum(a, 28, 27, 13, 11);
    ScaledSum(a, 22, 18, 9, 13);
    ScaledSum(a, 26, 29, 14, 9);
    ScaledSum(a, 18, 23, 11, 14);
  }

  lemma AddRows(a: bv8, b: bv8, c: bv8, d: bv8, a': bv8, b': bv8, c': bv8, d': bv8)
    ensures Add(Add4(a, b, c, d), Add4(a', b', c', d')) == Add4(Add(a, a'), Add(b, b'), Add(c, c'), Add(d, d'))
  {
    hide Add;
    Regroup(a, b, c, a', b', c');
    Regroup(Add(Add(a, b), c), d, d, Add(Add(a', b'), c'), d', d');
  }

  lemma Transpose(a0: bv8, a1: bv8, a2: bv8, a3: bv8, b0: bv8, b1: bv8, b2: bv8, b3: bv8,
                  c0: bv8, c1: bv8, c2: bv8, c3: bv8, d0: bv8, d1: bv8, d2: bv8, d3: bv8)
    ensures Add4(Add4(a0, b0, c0, d0), Add4(a1, b1, c1, d1), Add4(a2, b2, c2, d2), Add4(a3, b3, c3, d3))
         == Add4(Add4(a0, a1, a2, a3), Add4(b0, b1, b2, b3), Add4(c0, c1, c2, c3), Add4(d0, d1, d2, d3))
  {
    hide Add;
    AddRows(a0, b0, c0, d0, a1, b1, c1, d1);
    AddRows(Add(a0, a1), Add(b0, b1), Add(c0, c1), Add(d0, d1), a2, b2, c2, d2);
    AddRows(Add(Add(a0, a1), a2), Add(Add(b0, b1), b2), Add(Add(c0, c1), c2), Add(Add(d0, d1), d2), a3, b3, c3, d3);
  }

  lemma OnlyFirst(a: bv8)
    ensures Add4(a, 0, 0, 0) == a
  {
  }

  /** Multiplying a column by the matrix and then by the inverse's first row gives its first byte. */
  lemma InvMixUndoesMix(a: bv8, b: bv8, c: bv8, d: bv8)
    ensures InvMixRow(MixRow(a, b, c, d), MixRow(b, c, d, a), MixRow(c, d, a, b), MixRow(d, a, b, c)) == a
  {
    hide Add, Add4, Mul9, Mul11, Mul13, Mul14, Xtime, InvMixRow;
    InvMixRowSum(MixRow(a, b, c, d), MixRow(b, c, d, a), MixRow(c, d, a, b), MixRow(d, a, b, c));
    var a', b', c', d' := Add(Xtime(a), a), Add(Xtime(b), b), Add(Xtime(c), c), Add(Xtime(d), d);
    MulLinear4(Xtime(a), b', c, d);
    MulLinear4(Xtime(b), c', d, a);
    MulLinear4(Xtime(c), d', a, b);
    MulLinear4(Xtime(d), a', b, c);
    Rotations(Mul11(Xtime(b)), Mul11(c'), Mul11(d), Mul11(a));
    Rotations(Mul13(Xtime(c)), Mul13(d'), Mul13(a), Mul13(b));
    Rotations(Mul9(Xtime(d)), Mul9(a'), Mul9(b), Mul9(c));
    Transpose(Mul14(Xtime(a)), Mul11(a), Mul13(a), Mul9(a'), Mul14(b'), Mul11(Xtime(b)), Mul13(b), Mul9(b),
              Mul14(c), Mul11(c'), Mul13(Xtime(c)), Mul9(c), Mul14(d), Mul11(d), Mul13(d'), Mul9(Xtime(d)));
    Coefficients(a);
    Coefficients(b);
    Coefficients(c);
    Coefficients(d);
    OnlyFirst(a);
  }

  lemma Rotation(a: bv8, b: bv8, c: bv8, d: bv8)
    ensures Add4(d, a, b, c) == Add4(a, b, c, d)
  {
    hide Add;
    AddAssoc(d, a, b);
    AddAssoc(d, Add(a, b), c);
    AddCommutes(d, Add(Add(a, b), c));
  }

  lemma Rotations(a: bv8, b: bv8, c: bv8, d: bv8)
    ensures Add4(a, b, c, d) == Add4(d, a, b, c) == Add4(c, d, a, b) == Add4(b, c, d, a)
  {
    hide *;
    Rotation(a, b, c, d);
    Rotation(d, a, b, c);
    Rotation(c, d, a, b);
  }

  /** Multiplying a column by the inverse and then by the matrix's first row gives its first byte. */
  lemma MixUndoesInvMix(a: bv8, b: bv8, c: bv8, d: bv8)
    ensures MixRow(InvMixRow(a, b, c, d), InvMixRow(b, c, d, a), InvMixRow(c, d, a, b), InvMixRow(d, a, b, c)) == a
  {
    hide Add, Add4, Mul9, Mul11, Mul13, Mul14, Xtime, InvMixRow;
    InvMixRowSum(a, b, c, d);
    InvMixRowSum(b, c, d, a);
    InvMixRowSum(c, d, a, b);
    InvMixRowSum(d, a, b, c);
    var p0, p1, p2, p3 := Mul14(a), Mul11(b), Mul13(c), Mul9(d);
    var q0, q1, q2, q3 := Mul14(b), Mul11(c), Mul13(d), Mul9(a);
    XtimeLinear4(p0, p1, p2, p3);
    XtimeLinear4(q0, q1, q2, q3);
    AddRows(Xtime(q0), Xtime(q1), Xtime(q2), Xtime(q3), q0, q1, q2, q3);
    Rotations(Add(Xtime(q0), q0), Add(Xtime(q1), q1), Add(Xtime(q2), q2), Add(Xtime(q3), q3));
    Rotations(Mul14(c), Mul11(d), Mul13(a), Mul9(b));
    Rotations(Mul14(d), Mul11(a), Mul13(b), Mul9(c));
    Transpose(Xtime(p0), Add(Xtime(q3), q3), Mul13(a), Mul11(a), Xtime(p1), Add(Xtime(q0), q0), Mul9(b), Mul13(b),
              Xtime(p2), Add(Xtime(q1), q1), Mul14(c), Mul9(c), Xtime(p3), Add(Xtime(q2), q2), Mul11(d), Mul14(d));
    CoefficientsRight(a);
    CoefficientsRight(b);
    CoefficientsRight(c);
    CoefficientsRight(d);
    OnlyFirst(a);
  }
}
