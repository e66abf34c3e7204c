/**
 The AES-128 block transforms over a 44-word round-key schedule: the state functions of the two
 directions and the theorem that they are inverse to each other for every schedule.
 */
module Aes {
  import opened Gf256
  import opened AesLayers

  type Block = s: seq<bv8> | |s| == 16 witness seq(16, _ => 0)
  type Schedule = w: seq<bv32> | |w| == 44 witness seq(44, _ => 0)

  /** Byte r of a round-key word, the most significant first. */
  function KeyByte(w: bv32, r: nat): bv8
    requires r < 4
  {
    if r == 0 then ((w >> 24) & 0xff) as bv8
    else if r == 1 then ((w >> 16) & 0xff) as bv8
    else if r == 2 then ((w >> 8) & 0xff) as bv8
    else (w & 0xff) as bv8
  }

  function AddRoundKey(s: Block, w: Schedule, round: nat): Block
    requires round <= 10
  {
    seq(16, i requires 0 <= i < 16 => s[i] ^ KeyByte(w[4 * round + i / 4], i % 4))
  }

  function SubBytes(s: Block): Block {
    seq(16, i requires 0 <= i < 16 => Sbox(s[i]))
  }

  function InvSubBytes(s: Block): Block {
    seq(16, i requires 0 <= i < 16 => InvSbox(s[i]))
  }

  /** Row r of the state moves left by r columns; byte 4c + r is row r of column c. */
  function ShiftRows(s: Block): Block {
    seq(16, i requires 0 <= i < 16 => s[4 * ((i / 4 + i % 4) % 4) + i % 4])
  }

  function InvShiftRows(s: Block): Block {
    seq(16, i requires 0 <= i < 16 => s[4 * ((i / 4 - i % 4) % 4) + i % 4])
  }

  /** Byte r of a mixed column. */
  function MixByte(a: bv8, b: bv8, c: bv8, d: bv8, r: nat): bv8
    requires r < 4
  {
    if r == 0 then MixRow(a, b, c, d)
    else if r == 1 then MixRow(b, c, d, a)
    else if r == 2 then MixRow(c, d, a, b)
    else MixRow(d, a, b, c)
  }

  function InvMixByte(a: bv8, b: bv8, c: bv8, d: bv8, r: nat): bv8
    requires r < 4
  {
    if r == 0 then InvMixRow(a, b, c, d)
    else if r == 1 then InvMixRow(b, c, d, a)
    else if r == 2 then InvMixRow(c, d, a, b)
    else InvMixRow(d, a, b, c)
  }

  function MixColumns(s: Block): Block {
    seq(16, i requires 0 <= i < 16 =>
      var k := i / 4 * 4; MixByte(s[k], s[k + 1], s[k + 2], s[k + 3], i % 4))
  }

  function InvMixColumns(s: Block): Block {
    seq(16, i requires 0 <= i < 16 =>
      var k := i / 4 * 4; InvMixByte(s[k], s[k + 1], s[k + 2], s[k + 3], i % 4))
  }

  // ---------- the rounds ----------

  /** One encryption round; the last skips MixColumns. */
  function EncRound(s: Block, w: Schedule, round: nat): Block
    requires 1 <= round <= 10
  {
    var t := ShiftRows(SubBytes(s));
    AddRoundKey(if round != 10 then MixColumns(t) else t, w, round)
  }

  /** The encryption state after the given round. */
  function EncState(input: Block, w: Schedule, round: nat): Block
    requires round <= 10
    decreases round
  {
    if round == 0 then AddRoundKey(input, w, 0) else EncRound(EncState(input, w, round - 1), w, round)
  }

  function Encrypt(input: Block, w: Schedule): Block {
    EncState(input, w, 10)
  }

  /** One decryption round; round 0 skips InvMixColumns. */
  function DecRound(s: Block, w: Schedule, round: nat): Block
    requires round <= 9
  {
    var t := AddRoundKey(InvSubBytes(InvShiftRows(s)), w, round);
    if round != 0 then InvMixColumns(t) else t
  }

  /** The decryption state when rounds 9 down to the given one are done. */
  function DecState(input: Block, w: Schedule, round: nat): Block
    requires round <= 10
    decreases 10 - round
  {
    if round == 10 then AddRoundKey(input, w, 10) else DecRound(DecState(input, w, round + 1), w, round)
  }

  function Decrypt(input: Block, w: Schedule): Block {
    DecState(input, w, 0)
  }

  // ---------- the rounds in words ----------

  /** The word that a column spells, its first row the most significant. */
  function Word(a: bv8, b: bv8, c: bv8, d: bv8): bv32 {
    ((a as bv32) << 24) | ((b as bv32) << 16) | ((c as bv32) << 8) | (d as bv32)
  }

  function Column(s: Block, c: nat): bv32
    requires c < 4
  {
    Word(s[4 * c], s[4 * c + 1], s[4 * c + 2], s[4 * c + 3])
  }

  lemma KeyWord(w: bv32, a: bv8, b: bv8, c: bv8, d: bv8)
    ensures Word(Add(a, KeyByte(w, 0)), Add(b, KeyByte(w, 1)), Add(c, KeyByte(w, 2)), Add(d, KeyByte(w, 3)))
         == Word(a, b, c, d) ^ w
  {
  }

  lemma KeyedByte(s: Block, w: Schedule, round: nat, c: nat, r: nat)
    requires round <= 10 && c < 4 && r < 4
    ensures AddRoundKey(s, w, round)[4 * c + r] == Add(s[4 * c + r], KeyByte(w[4 * round + c], r))
  {
    hide KeyByte;
    var i := 4 * c + r;
    assert i / 4 == c && i % 4 == r;
  }

  /** Column c of the state is added word 4 * round + c of the schedule. */
  lemma RoundKeyWord(s: Block, w: Schedule, round: nat, c: nat)
    requires round <= 10 && c < 4
    ensures Column(AddRoundKey(s, w, round), c) == Column(s, c) ^ w[4 * round + c]
  {
    hide KeyByte, AddRoundKey, Word, Add;
    var k, i, t := w[4 * round + c], 4 * c, AddRoundKey(s, w, round);
    KeyedByte(s, w, round, c, 0);
    KeyedByte(s, w, round, c, 1);
    KeyedByte(s, w, round, c, 2);
    KeyedByte(s, w, round, c, 3);
    assert Column(t, c) == Word(t[i], t[i + 1], t[i + 2], t[i + 3]);
    assert Column(s, c) == Word(s[i], s[i + 1], s[i + 2], s[i + 3]);
    hide Column;
    KeyWord(k, s[i], s[i + 1], s[i + 2], s[i + 3]);
  }

  /** Row r of column c after substitution and row shift: the substituted byte of the diagonal. */
  function Diagonal(s: Block, c: nat, r: nat): bv8
    requires c < 4 && r < 4
  {
    Sbox(s[4 * ((c + r) % 4) + r])
  }

  lemma DiagonalAt(s: Block, c: nat, r: nat)
    requires c < 4 && r < 4
    ensures ShiftRows(SubBytes(s))[4 * c + r] == Diagonal(s, c, r)
  {
    hide Sbox, ShiftRows;
    ShiftedAt(SubBytes(s), c, r);
  }

  /** The first row of the column matrix is 2, 3, 1, 1. */
  lemma MixRowIs(a: bv8, b: bv8, c: bv8, d: bv8)
    ensures MixRow(a, b, c, d) == Add4(GfMul(a, 2), GfMul(b, 3), c, d)
  {
    hide GfMul, Add, Double, Xtime;
    MulTwoThree(a);
    MulTwoThree(b);
    DoubleIsXtime(a);
    DoubleIsXtime(b);
  }

  /** A column times the circulant matrix of 2, 3, 1, 1. */
  function MixWord(a: bv8, b: bv8, c: bv8, d: bv8): bv32 {
    Word(Add4(GfMul(a, 2), GfMul(b, 3), c, d), Add4(a, GfMul(b, 2), GfMul(c, 3), d),
         Add4(a, b, GfMul(c, 2), GfMul(d, 3)), Add4(GfMul(a, 3), b, c, GfMul(d, 2)))
  }

  lemma MixByteIs(a: bv8, b: bv8, c: bv8, d: bv8)
    ensures MixByte(a, b, c, d, 0) == MixRow(a, b, c, d) && MixByte(a, b, c, d, 1) == MixRow(b, c, d, a)
    ensures MixByte(a, b, c, d, 2) == MixRow(c, d, a, b) && MixByte(a, b, c, d, 3) == MixRow(d, a, b, c)
  {
    hide MixRow;
  }

  lemma MixedRows(t: Block, c: nat)
    requires c < 4
    ensures var t0, t1, t2, t3, m := t[4 * c], t[4 * c + 1], t[4 * c + 2], t[4 * c + 3], MixColumns(t);
      && m[4 * c] == Add4(GfMul(t0, 2), GfMul(t1, 3), t2, t3)
      && m[4 * c + 1] == Add4(t0, GfMul(t1, 2), GfMul(t2, 3), t3)
      && m[4 * c + 2] == Add4(t0, t1, GfMul(t2, 2), GfMul(t3, 3))
      && m[4 * c + 3] == Add4(GfMul(t0, 3), t1, t2, GfMul(t3, 2))
  {
    hide *;
    var t0, t1, t2, t3 := t[4 * c], t[4 * c + 1], t[4 * c + 2], t[4 * c + 3];
    MixByteIs(t0, t1, t2, t3);
    MixedColumn(t, c, 0);
    MixedColumn(t, c, 1);
    MixedColumn(t, c, 2);
    MixedColumn(t, c, 3);
    MixRowIs(t0, t1, t2, t3);
    MixRowIs(t1, t2, t3, t0);
    MixRowIs(t2, t3, t0, t1);
    MixRowIs(t3, t0, t1, t2);
    Rotation(GfMul(t1, 2), GfMul(t2, 3), t3, t0);
    Rotations(GfMul(t2, 2), GfMul(t3, 3), t0, t1);
    Rotation(t1, t2, GfMul(t3, 2), GfMul(t0, 3));
    Rotations(GfMul(t3, 2), GfMul(t0, 3), t1, t2);
  }

  lemma MixedWord(t: Block, c: nat)
    requires c < 4
    ensures Column(MixColumns(t), c) == MixWord(t[4 * c], t[4 * c + 1], t[4 * c + 2], t[4 * c + 3])
  {
    hide Word, MixColumns, GfMul, Add;
    MixedRows(t, c);
  }

  lemma DiagonalColumn(s: Block, c: nat)
    requires c < 4
    ensures var t := ShiftRows(SubBytes(s));
      && Column(t, c) == Word(Diagonal(s, c, 0), Diagonal(s, c, 1), Diagonal(s, c, 2), Diagonal(s, c, 3))
      && Column(MixColumns(t), c) == MixWord(Diagonal(s, c, 0), Diagonal(s, c, 1), Diagonal(s, c, 2), Diagonal(s, c, 3))
  {
    hide Word, MixWord, MixColumns, ShiftRows, SubBytes, Diagonal;
    DiagonalAt(s, c, 0);
    DiagonalAt(s, c, 1);
    DiagonalAt(s, c, 2);
    DiagonalAt(s, c, 3);
    MixedWord(ShiftRows(SubBytes(s)), c);
  }

  /**
   One round, column by column, as the combined table look-up of FIPS 197: the substituted bytes of one
   diagonal, multiplied by the column matrix except in the last round, and one word of the schedule.
   */
  lemma RoundColumn(s: Block, w: Schedule, round: nat, c: nat)
    requires 1 <= round <= 10 && c < 4
    ensures var t0, t1, t2, t3 := Diagonal(s, c, 0), Diagonal(s, c, 1), Diagonal(s, c, 2), Diagonal(s, c, 3);
      Column(EncRound(s, w, round), c)
        == (if round == 10 then Word(t0, t1, t2, t3) else MixWord(t0, t1, t2, t3)) ^ w[4 * round + c]
  {
    hide Word, MixWord, MixColumns, ShiftRows, SubBytes, Diagonal, AddRoundKey, Column;
    var t := ShiftRows(SubBytes(s));
    DiagonalColumn(s, c);
    RoundKeyWord(if round != 10 then MixColumns(t) else t, w, round, c);
  }

  /** Encryption starts by adding the first four words of the schedule. */
  lemma FirstWords(b: Block, w: Schedule, c: nat)
    requires c < 4
    ensures Column(EncState(b, w, 0), c) == Column(b, c) ^ w[c]
  {
    hide AddRoundKey, Word;
    RoundKeyWord(b, w, 0, c);
  }

  /** And it ends, after nine full rounds, with one without column mixing and the last four words. */
  lemma LastWords(b: Block, w: Schedule, c: nat)
    requires c < 4
    ensures var s := EncState(b, w, 9);
      Column(Encrypt(b, w), c)
        == Word(Diagonal(s, c, 0), Diagonal(s, c, 1), Diagonal(s, c, 2), Diagonal(s, c, 3)) ^ w[40 + c]
  {
    hide Word, Diagonal, Column, EncRound;
    RoundColumn(EncState(b, w, 9), w, 10, c);
  }

  lemma SboxOf(x: bv8, z: bv8)
    requires GfMul(x, z) == 1
    ensures Sbox(x) == Affine(z)
  {
    hide GfMul, GfInv, Affine;
    InverseUnique(x, z);
  }

  /** The substitutions of the first round of the example in appendix B of FIPS 197, each by its inverse. */
  lemma StandardSubstitutions()
    ensures Sbox(0x19) == 0xd4 && Sbox(0xf4) == 0xbf && Sbox(0x8d) == 0x5d && Sbox(0x08) == 0x30
    ensures Sbox(0xa0) == 0xe0 && Sbox(0xc6) == 0xb4 && Sbox(0x48) == 0x52 && Sbox(0xbe) == 0xae
    ensures Sbox(0x9a) == 0xb8 && Sbox(0xf8) == 0x41 && Sbox(0xe3) == 0x11 && Sbox(0x2b) == 0xf1
    ensures Sbox(0xe9) == 0x1e && Sbox(0x3d) == 0x27 && Sbox(0xe2) == 0x98 && Sbox(0x2a) == 0xe5
  {
    hide GfMul, Sbox;
    MulUnrolled(0x19, 0x3f);
    SboxOf(0x19, 0x3f);
    MulUnrolled(0xf4, 0x68);
    SboxOf(0xf4, 0x68);
    MulUnrolled(0x8d, 0x02);
    SboxOf(0x8d, 0x02);
    MulUnrolled(0x08, 0xe8);
    SboxOf(0x08, 0xe8);
    MulUnrolled(0xa0, 0xfb);
    SboxOf(0xa0, 0xfb);
    MulUnrolled(0xc6, 0xe4);
    SboxOf(0xc6, 0xe4);
    MulUnrolled(0x48, 0xa7);
    SboxOf(0x48, 0xa7);
    MulUnrolled(0xbe, 0x86);
    SboxOf(0xbe, 0x86);
    MulUnrolled(0x9a, 0x9f);
    SboxOf(0x9a, 0x9f);
    MulUnrolled(0xf8, 0xdd);
    SboxOf(0xf8, 0xdd);
    MulUnrolled(0xe3, 0xeb);
    SboxOf(0xe3, 0xeb);
    MulUnrolled(0x2b, 0x15);
    SboxOf(0x2b, 0x15);
    MulUnrolled(0xe9, 0x4e);
    SboxOf(0xe9, 0x4e);
    MulUnrolled(0x3d, 0xbb);
    SboxOf(0x3d, 0xbb);
    MulUnrolled(0xe2, 0xd6);
    SboxOf(0xe2, 0xd6);
    MulUnrolled(0x2a, 0x98);
    SboxOf(0x2a, 0x98);
  }

  /** The products of a column as doublings. */
  lemma MixWordIs(a: bv8, b: bv8, c: bv8, d: bv8)
    ensures MixWord(a, b, c, d) == Word(Add4(Double(a), Add(Double(b), b), c, d), Add4(a, Double(b), Add(Double(c), c), d),
                                        Add4(a, b, Double(c), Add(Double(d), d)), Add4(Add(Double(a), a), b, c, Double(d)))
  {
    hide GfMul, Double, Add, Add4, Word;
    MulTwoThree(a);
    MulTwoThree(b);
    MulTwoThree(c);
    MulTwoThree(d);
  }

  lemma WordBytes(a: bv8, b: bv8, c: bv8, d: bv8)
    ensures var w := Word(a, b, c, d);
      a == KeyByte(w, 0) && b == KeyByte(w, 1) && c == KeyByte(w, 2) && d == KeyByte(w, 3)
  {
  }

  /** That example from its input to its second round, with every schedule that starts with its eight words. */
  lemma StandardRound(b: Block, w: Schedule)
    requires Column(b, 0) == 0x3243f6a8 && Column(b, 1) == 0x885a308d && Column(b, 2) == 0x313198a2 && Column(b, 3) == 0xe0370734
    requires w[0] == 0x2b7e1516 && w[1] == 0x28aed2a6 && w[2] == 0xabf71588 && w[3] == 0x09cf4f3c
    requires w[4] == 0xa0fafe17 && w[5] == 0x88542cb1 && w[6] == 0x23a33939 && w[7] == 0x2a6c7605
    ensures var s := EncState(b, w, 1);
      Column(s, 0) == 0xa49c7ff2 && Column(s, 1) == 0x689f352b && Column(s, 2) == 0x6b5bea43 && Column(s, 3) == 0x026a5049
  {
    hide Sbox, MixWord, AddRoundKey, EncRound;
    StandardStart(b, w);
    StandardSubstitutions();
    MixWordIs(0xd4, 0xbf, 0x5d, 0x30);
    MixWordIs(0xe0, 0xb4, 0x52, 0xae);
    MixWordIs(0xb8, 0x41, 0x11, 0xf1);
    MixWordIs(0x1e, 0x27, 0x98, 0xe5);
    var s := EncState(b, w, 0);
    RoundColumn(s, w, 1, 0);
    RoundColumn(s, w, 1, 1);
    RoundColumn(s, w, 1, 2);
    RoundColumn(s, w, 1, 3);
  }

  lemma StandardStart(b: Block, w: Schedule)
    requires Column(b, 0) == 0x3243f6a8 && Column(b, 1) == 0x885a308d && Column(b, 2) == 0x313198a2 && Column(b, 3) == 0xe0370734
    requires w[0] == 0x2b7e1516 && w[1] == 0x28aed2a6 && w[2] == 0xabf71588 && w[3] == 0x09cf4f3c
    ensures var s := EncState(b, w, 0);
      && s[0] == 0x19 && s[1] == 0x3d && s[2] == 0xe3 && s[3] == 0xbe
      && s[4] == 0xa0 && s[5] == 0xf4 && s[6] == 0xe2 && s[7] == 0x2b
      && s[8] == 0x9a && s[9] == 0xc6 && s[10] == 0x8d && s[11] == 0x2a
      && s[12] == 0xe9 && s[13] == 0xf8 && s[14] == 0x48 && s[15] == 0x08
  {
    hide AddRoundKey, Word;
    var s := EncState(b, w, 0);
    FirstWords(b, w, 0);
    WordBytes(s[0], s[1], s[2], s[3]);
    FirstWords(b, w, 1);
    WordBytes(s[4], s[5], s[6], s[7]);
    FirstWords(b, w, 2);
    WordBytes(s[8], s[9], s[10], s[11]);
    FirstWords(b, w, 3);
    WordBytes(s[12], s[13], s[14], s[15]);
  }

  // ---------- each layer is undone by its inverse ----------

  lemma AddRoundKeyTwice(s: Block, w: Schedule, round: nat)
    requires round <= 10
    ensures AddRoundKey(AddRoundKey(s, w, round), w, round) == s
  {
  }

  lemma SubBytesInverse(s: Block)
    ensures InvSubBytes(SubBytes(s)) == s && SubBytes(InvSubBytes(s)) == s
  {
    hide Sbox, InvSbox;
    forall i | 0 <= i < 16
      ensures InvSubBytes(SubBytes(s))[i] == s[i] && SubBytes(InvSubBytes(s))[i] == s[i]
    {
      SboxInverse(s[i]);
    }
  }

  lemma ShiftedAt(s: Block, c: nat, r: nat)
    requires c < 4 && r < 4
    ensures ShiftRows(s)[4 * c + r] == s[4 * ((c + r) % 4) + r]
    ensures InvShiftRows(s)[4 * c + r] == s[4 * ((c - r) % 4) + r]
  {
    var i := 4 * c + r;
    assert i / 4 == c && i % 4 == r;
  }

  lemma TurnedBack(c: nat, r: nat)
    requires c < 4 && r < 4
    ensures ((c + r) % 4 - r) % 4 == c && ((c - r) % 4 + r) % 4 == c
  {
  }

  lemma ShiftedByte(s: Block, c: nat, r: nat, left: nat, right: nat)
    requires c < 4 && r < 4 && left == (c + r) % 4 && right == (c - r) % 4
    ensures InvShiftRows(ShiftRows(s))[4 * c + r] == s[4 * c + r]
    ensures ShiftRows(InvShiftRows(s))[4 * c + r] == s[4 * c + r]
  {
    hide ShiftRows, InvShiftRows;
    TurnedBack(c, r);
    ShiftedAt(InvShiftRows(s), c, r);
    ShiftedAt(ShiftRows(s), c, r);
    ShiftedAt(s, left, r);
    ShiftedAt(s, right, r);
  }

  lemma ShiftRowsInverse(s: Block)
    ensures InvShiftRows(ShiftRows(s)) == s && ShiftRows(InvShiftRows(s)) == s
  {
    hide ShiftRows, InvShiftRows;
    forall i | 0 <= i < 16
      ensures InvShiftRows(ShiftRows(s))[i] == s[i] && ShiftRows(InvShiftRows(s))[i] == s[i]
    {
      ShiftedByte(s, i / 4, i % 4, (i / 4 + i % 4) % 4, (i / 4 - i % 4) % 4);
    }
  }

  lemma MixBytesInverse(a: bv8, b: bv8, c: bv8, d: bv8, r: nat)
    requires r < 4
    ensures InvMixByte(MixByte(a, b, c, d, 0), MixByte(a, b, c, d, 1), MixByte(a, b, c, d, 2), MixByte(a, b, c, d, 3), r)
         == [a, b, c, d][r]
    ensures MixByte(InvMixByte(a, b, c, d, 0), InvMixByte(a, b, c, d, 1), InvMixByte(a, b, c, d, 2), InvMixByte(a, b, c, d, 3), r)
         == [a, b, c, d][r]
  {
    hide MixRow, InvMixRow;
    InvMixUndoesMix(a, b, c, d);
    InvMixUndoesMix(b, c, d, a);
    InvMixUndoesMix(c, d, a, b);
    InvMixUndoesMix(d, a, b, c);
    MixUndoesInvMix(a, b, c, d);
    MixUndoesInvMix(b, c, d, a);
    MixUndoesInvMix(c, d, a, b);
    MixUndoesInvMix(d, a, b, c);
  }

  lemma MixedColumn(s: Block, c: nat, r: nat)
    requires c < 4 && r < 4
    ensures MixColumns(s)[4 * c + r] == MixByte(s[4 * c], s[4 * c + 1], s[4 * c + 2], s[4 * c + 3], r)
    ensures InvMixColumns(s)[4 * c + r] == InvMixByte(s[4 * c], s[4 * c + 1], s[4 * c + 2], s[4 * c + 3], r)
  {
    hide MixRow, InvMixRow;
    var i := 4 * c + r;
    assert i / 4 == c && i % 4 == r;
  }

  lemma MixedByte(s: Block, c: nat, r: nat)
    requires c < 4 && r < 4
    ensures InvMixColumns(MixColumns(s))[4 * c + r] == s[4 * c + r]
    ensures MixColumns(InvMixColumns(s))[4 * c + r] == s[4 * c + r]
  {
    hide *;
    MixedColumn(s, c, 0);
    MixedColumn(s, c, 1);
    MixedColumn(s, c, 2);
    MixedColumn(s, c, 3);
    MixedColumn(MixColumns(s), c, r);
    MixedColumn(InvMixColumns(s), c, r);
    MixBytesInverse(s[4 * c], s[4 * c + 1], s[4 * c + 2], s[4 * c + 3], r);
  }

  lemma MixColumnsInverse(s: Block)
    ensures InvMixColumns(MixColumns(s)) == s && MixColumns(InvMixColumns(s)) == s
  {
    hide MixColumns, InvMixColumns;
    forall i | 0 <= i < 16
      ensures InvMixColumns(MixColumns(s))[i] == s[i] && MixColumns(InvMixColumns(s))[i] == s[i]
    {
      MixedByte(s, i / 4, i % 4);
    }
  }

  // ---------- the rounds mirror each other ----------

  /** Decrypting a ciphertext passes, in reverse, through the inputs of ShiftRows's successors. */
  lemma {:induction false} DecMirrorsEnc(p: Block, w: Schedule, round: nat)
    requires 1 <= round <= 10
    ensures DecState(Encrypt(p, w), w, round) == ShiftRows(SubBytes(EncState(p, w, round - 1)))
    decreases 10 - round
  {
    hide AddRoundKey, SubBytes, InvSubBytes, ShiftRows, InvShiftRows, MixColumns, InvMixColumns;
    if round == 10 {
      AddRoundKeyTwice(ShiftRows(SubBytes(EncState(p, w, 9))), w, 10);
    } else {
      DecMirrorsEnc(p, w, round + 1);
      var s := EncState(p, w, round);
      ShiftRowsInverse(SubBytes(s));
      SubBytesInverse(s);
      var t := ShiftRows(SubBytes(EncState(p, w, round - 1)));
      AddRoundKeyTwice(MixColumns(t), w, round);
      MixColumnsInverse(t);
    }
  }

  /** Encrypting a decrypted block passes, in reverse, through the decryption states. */
  lemma {:induction false} EncMirrorsDec(c: Block, w: Schedule, round: nat)
    requires round <= 9
    ensures EncState(Decrypt(c, w), w, round) == InvSubBytes(InvShiftRows(DecState(c, w, round + 1)))
  {
    hide AddRoundKey, SubBytes, InvSubBytes, ShiftRows, InvShiftRows, MixColumns, InvMixColumns;
    var t := InvSubBytes(InvShiftRows(DecState(c, w, round + 1)));
    AddRoundKeyTwice(t, w, round);
    if round > 0 {
      EncMirrorsDec(c, w, round - 1);
      var d := DecState(c, w, round);
      SubBytesInverse(InvShiftRows(d));
      ShiftRowsInverse(d);
      MixColumnsInverse(AddRoundKey(t, w, round));
    }
  }

  /** The two block transforms are inverse to each other, for every schedule and block. */
  lemma AesInverse(b: Block, w: Schedule)
    ensures Decrypt(Encrypt(b, w), w) == b
    ensures Encrypt(Decrypt(b, w), w) == b
  {
    hide AddRoundKey, SubBytes, InvSubBytes, ShiftRows, InvShiftRows, MixColumns, InvMixColumns;
    DecMirrorsEnc(b, w, 1);
    var s := EncState(b, w, 0);
    ShiftRowsInverse(SubBytes(s));
    SubBytesInverse(s);
    AddRoundKeyTwice(b, w, 0);
    EncMirrorsDec(b, w, 9);
    var d := DecState(b, w, 10);
    SubBytesInverse(InvShiftRows(d));
    ShiftRowsInverse(d);
    AddRoundKeyTwice(b, w, 10);
  }
}
