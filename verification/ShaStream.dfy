/**
 The buffered hash contexts of SHA-1 and SHA-256 over an abstract compression function: whatever
 the split of a message into updates, the result is the compression function folded over the
 message padded as in section 5.1.1 of FIPS 180-4.
 */
module ShaStream {
  import opened ModArith
  import opened Octets
  import opened Words

  // ---------- the definition ----------

  /** The chaining value after the whole blocks of m. */
  ghost function Fold<H>(compress: (H, seq<bv8>) -> H, h: H, m: seq<bv8>): H
    requires |m| % 64 == 0
    decreases |m|
  {
    if m == [] then h else Fold(compress, compress(h, m[..64]), m[64..])
  }

  /** n modulo 2^64, most significant octet first. */
  function Be64(n: nat): (b: seq<bv8>)
    ensures |b| == 8
  {
    [Octet(n, 7), Octet(n, 6), Octet(n, 5), Octet(n, 4), Octet(n, 3), Octet(n, 2), Octet(n, 1), Octet(n, 0)]
  }

  /** The number of zero octets between the 0x80 and the length of an n-octet message. */
  function ZeroCount(n: nat): (k: nat)
    ensures k < 64
  {
    if n % 64 <= 55 then 55 - n % 64 else 119 - n % 64
  }

  function Zeros(k: nat): (z: seq<bv8>)
    ensures |z| == k
  {
    seq(k, _ => 0)
  }

  const TWO64: nat := 0x1_0000_0000_0000_0000

  /** The padded message; the length field is the bit count modulo 2^64. */
  ghost function Pad(m: seq<bv8>): (p: seq<bv8>) {
    m + [0x80] + Zeros(ZeroCount(|m|)) + Be64(8 * |m| % TWO64)
  }

  ghost function Hash<H>(compress: (H, seq<bv8>) -> H, iv: H, m: seq<bv8>): H {
    PadIsWholeBlocks(m);
    Fold(compress, iv, Pad(m))
  }

  lemma PadIsWholeBlocks(m: seq<bv8>)
    ensures |Pad(m)| % 64 == 0
  {
    hide Be64, ZeroCount;
    FewestZeros(|m|, 0);
    WholeBlocks(|m| + 1 + ZeroCount(|m|));
  }

  lemma WholeBlocks(n: nat)
    requires n % 64 == 56
    ensures (n + 8) % 64 == 0
  {
  }

  /** The zeros are the fewest that put the length field at the end of a block. */
  lemma FewestZeros(n: nat, k: nat)
    ensures (n + 1 + ZeroCount(n)) % 64 == 56
    ensures (n + 1 + k) % 64 == 56 ==> ZeroCount(n) <= k
  {
  }

  /** Below 2^64 bits the length field is the exact bit count. */
  lemma ExactLength(m: seq<bv8>)
    requires 8 * |m| < TWO64
    ensures Pad(m) == m + [0x80] + Zeros(ZeroCount(|m|)) + Be64(8 * |m|)
  {
    hide Be64, ZeroCount;
    assert 8 * |m| % TWO64 == 8 * |m|;
  }

  lemma Be64IsDigits(n: nat)
    ensures Be64(n) == Digits(n, 8) && Number(Be64(n)) == n % TWO64
  {
    hide Octet;
    var d := Digits(n, 8);
    assert Be64(n) == d;
    DigitsSpell(n, 8);
  }

  /**
   The padded message octet by octet: the message, a one bit, zeros - fewer than a block of them - up to
   the last eight octets of a whole number of blocks, and there the message's length in bits.
   */
  lemma PadIs(m: seq<bv8>)
    ensures var p := Pad(m); var n := |m|;
      && |p| % 64 == 0 && n + 9 <= |p| < n + 9 + 64
      && p[..n] == m && p[n] == 0x80 && (forall i :: n < i < |p| - 8 ==> p[i] == 0)
      && Number(p[|p| - 8..]) == 8 * n % TWO64
  {
    hide ZeroCount, Be64, Number;
    PadIsWholeBlocks(m);
    var p, k := Pad(m), ZeroCount(|m|);
    Be64IsDigits(8 * |m| % TWO64);
    assert p[|p| - 8..] == Be64(8 * |m| % TWO64);
    ModSmall(8 * |m| % TWO64, TWO64);
  }

  /** Below 2^64 bits, different messages are padded differently. */
  lemma PadInjective(m: seq<bv8>, m': seq<bv8>)
    requires 8 * |m| < TWO64 && 8 * |m'| < TWO64 && Pad(m) == Pad(m')
    ensures m == m'
  {
    hide Pad, Number;
    PadIs(m);
    PadIs(m');
    ModSmall(8 * |m|, TWO64);
    ModSmall(8 * |m'|, TWO64);
  }

  /** One more block at the end is one more application of the compression function. */
  lemma {:induction false} FoldSnoc<H>(compress: (H, seq<bv8>) -> H, h: H, m: seq<bv8>, block: seq<bv8>)
    requires |m| % 64 == 0 && |block| == 64
    ensures Fold(compress, h, m + block) == compress(Fold(compress, h, m), block)
    decreases |m|
  {
    if m == [] {
      assert m + block == block && block[..64] == block && block[64..] == [];
    } else {
      assert (m + block)[..64] == m[..64] && (m + block)[64..] == m[64..] + block;
      FoldSnoc(compress, compress(h, m[..64]), m[64..], block);
    }
  }

  // ---------- the context ----------

  /** The length of the part of m that has been compressed. */
  ghost function Done(m: seq<bv8>): (n: nat)
    ensures n <= |m| && n % 64 == 0
  {
    |m| - |m| % 64
  }

  /** The context state of message m. */
  ghost predicate StateOf<H>(compress: (H, seq<bv8>) -> H, iv: H, m: seq<bv8>, h: H, pending: seq<bv8>) {
    h == Fold(compress, iv, m[..Done(m)]) && pending == m[Done(m)..]
  }

  lemma StateStart<H>(compress: (H, seq<bv8>) -> H, iv: H)
    ensures StateOf(compress, iv, [], iv, [])
  {
  }

  /** Data that does not fill the block only extends what is pending. */
  lemma StateGrows<H>(compress: (H, seq<bv8>) -> H, iv: H, m: seq<bv8>, h: H, pending: seq<bv8>, d: seq<bv8>)
    requires StateOf(compress, iv, m, h, pending) && |pending| + |d| < 64
    ensures StateOf(compress, iv, m + d, h, pending + d)
  {
    hide Fold;
    assert |pending| == |m| % 64 && Done(m + d) == Done(m);
    assert (m + d)[..Done(m)] == m[..Done(m)];
    assert (m + d)[Done(m)..] == m[Done(m)..] + d;
  }

  /** Data that fills it compresses the block. */
  lemma StateFills<H>(compress: (H, seq<bv8>) -> H, iv: H, m: seq<bv8>, h: H, pending: seq<bv8>, d: seq<bv8>)
    requires StateOf(compress, iv, m, h, pending) && |pending| + |d| == 64
    ensures StateOf(compress, iv, m + d, compress(h, pending + d), [])
  {
    hide Fold;
    assert |pending| == |m| % 64 && Done(m + d) == |m + d|;
    assert (m + d)[..|m + d|] == m[..Done(m)] + (pending + d) by {
      assert m == m[..Done(m)] + pending;
    }
    FoldSnoc(compress, iv, m[..Done(m)], pending + d);
  }

  lemma StateOfWhole<H>(compress: (H, seq<bv8>) -> H, iv: H, m: seq<bv8>, h: H, pending: seq<bv8>)
    requires StateOf(compress, iv, m, h, pending) && |m| % 64 == 0
    ensures h == Fold(compress, iv, m)
  {
    assert m[..|m|] == m;
  }

  /** The number of octets still to go to the length field; it wraps at the block boundary. */
  function ToLengthField(n: nat): nat
    requires n < 64
  {
    if n <= 56 then 56 - n else 120 - n
  }

  /** m0, the 0x80 octet and k zeros so far, the last block being filled up to `fill`. */
  ghost predicate Padding(m0: seq<bv8>, m: seq<bv8>, k: nat, fill: nat) {
    && m == m0 + [0x80] + Zeros(k)
    && fill == |m| % 64
    && k + ToLengthField(fill) == ZeroCount(|m0|)
  }

  lemma PaddingStarts(m0: seq<bv8>)
    ensures Padding(m0, m0 + [0x80], 0, (|m0| + 1) % 64)
  {
  }

  lemma NextFill(n: nat)
    requires n % 64 != 56
    ensures ToLengthField((n + 1) % 64) == ToLengthField(n % 64) - 1
  {
  }

  lemma PaddingStep(m0: seq<bv8>, m': seq<bv8>, k: nat, fill': nat)
    requires |m'| > 0 && var m := m'[..|m'| - 1]; m' == m + [0x00] && |m| % 64 != 56 && Padding(m0, m, k, |m| % 64)
    requires fill' == |m'| % 64
    ensures Padding(m0, m', k + 1, fill')
    ensures ToLengthField(fill') < ToLengthField((|m'| - 1) % 64)
  {
    hide ToLengthField, ZeroCount;
    NextFill(|m'| - 1);
    assert Zeros(k) + [0x00] == Zeros(k + 1);
    assert m0 + [0x80] + Zeros(k) + [0x00] == m0 + [0x80] + Zeros(k + 1);
  }

  lemma PaddingEnds(m0: seq<bv8>, m: seq<bv8>, k: nat)
    requires Padding(m0, m, k, 56)
    ensures m == m0 + [0x80] + Zeros(ZeroCount(|m0|))
  {
  }

  class HashCtx<H> {
    const compress: (H, seq<bv8>) -> H
    const iv: H
    var h: H
    var nbits: u64
    const buf: array<bv8>
    var bufLen: nat

    /** The octets fed in so far. */
    ghost var message: seq<bv8>

    ghost predicate Valid()
      reads this, buf
    {
      && buf.Length == 64 && bufLen < 64
      && nbits == 8 * |message| % TWO64
      && StateOf(compress, iv, message, h, buf[..bufLen])
    }

    constructor (compress: (H, seq<bv8>) -> H, iv: H)
      ensures Valid() && fresh(buf) && message == [] && this.compress == compress && this.iv == iv
    {
      this.compress, this.iv, h := compress, iv, iv;
      nbits, bufLen, message := 0, 0, [];
      buf := new bv8[64];
      new;
      StateStart(compress, iv);
      assert buf[..0] == [];
    }

    /** Moves the first `take` octets of the data into the buffer, compressing it when full. */
    method Take(data: seq<bv8>, take: nat, ghost m: seq<bv8>)
      requires buf.Length == 64 && bufLen < 64 && take <= |data| && bufLen + take <= 64
      requires StateOf(compress, iv, m, h, buf[..bufLen])
      modifies this`h, this`bufLen, buf
      ensures bufLen < 64 && StateOf(compress, iv, m + data[..take], h, buf[..bufLen])
    {
      hide StateOf;
      ghost var pending := buf[..bufLen];
      forall i | 0 <= i < take {
        buf[bufLen + i] := data[i];
      }
      bufLen := bufLen + take;
      assert buf[..bufLen] == pending + data[..take];
      if bufLen == 64 {
        StateFills(compress, iv, m, h, pending, data[..take]);
        assert buf[..] == buf[..bufLen];
        h := compress(h, buf[..]);
        bufLen := 0;
        assert buf[..0] == [];
      } else {
        StateGrows(compress, iv, m, h, pending, data[..take]);
      }
    }

    /** Feeds data in, a buffer's worth at a time. */
    method Update(data: seq<bv8>)
      requires Valid()
      modifies this, buf
      ensures Valid() && message == old(message) + data
    {
      hide StateOf;
      nbits := BitCount(nbits, |message|, |data|);
      ghost var m0 := message;
      var rest := data;
      assert m0 + data[..|data| - |rest|] == m0;
      while |rest| > 0
        invariant buf.Length == 64 && bufLen < 64 && |rest| <= |data|
        invariant rest == data[|data| - |rest|..]
        invariant StateOf(compress, iv, m0 + data[..|data| - |rest|], h, buf[..bufLen])
        invariant nbits == 8 * (|m0| + |data|) % TWO64 && message == m0
        decreases |rest|
      {
        var take := 64 - bufLen;
        if take > |rest| {
          take := |rest|;
        }
        ghost var n := |data| - |rest|;
        Take(rest, take, m0 + data[..n]);
        assert m0 + data[..n] + rest[..take] == m0 + data[..n + take];
        rest := rest[take..];
      }
      assert data[..|data|] == data;
      message := m0 + data;
    }

    /** The bit counter wraps at 2^64. */
    static function BitCount(nbits: u64, ghost n: nat, len: nat): (r: u64)
      requires nbits == 8 * n % TWO64
      ensures r == 8 * (n + len) % TWO64
    {
      ModAdd(8 * n, 8 * len, TWO64);
      (nbits + 8 * len % TWO64) % TWO64
    }


    /** Feeds the 0x80 octet and zeros until the length field is next. */
    method PadToLength()
      requires Valid()
      modifies this, buf
      ensures Valid() && bufLen == 56
      ensures message == old(message) + [0x80] + Zeros(ZeroCount(|old(message)|))
    {
      hide Valid, ToLengthField, ZeroCount, Zeros;
      ghost var m0, k := message, 0;
      Update([0x80]);
      FillIs();
      PaddingStarts(m0);
      while bufLen != 56
        invariant Valid() && Padding(m0, message, k, bufLen)
        decreases ToLengthField(bufLen)
      {
        Update([0x00]);
        FillIs();
        PaddingStep(m0, message, k, bufLen);
        k := k + 1;
      }
      PaddingEnds(m0, message, k);
    }

    lemma FillIs()
      requires Valid()
      ensures bufLen == |message| % 64
    {
    }

    /** SHA-1's end: the length goes in as an update like any other. */
    method FinalByUpdate() returns (digest: H)
      requires Valid()
      modifies this, buf
      ensures digest == Hash(compress, iv, old(message))
    {
      hide StateOf, Fold;
      var bits := nbits;
      ghost var m0 := message;
      PadToLength();
      Update(Be64(bits));
      assert message == Pad(m0);
      PadIsWholeBlocks(m0);
      StateOfWhole(compress, iv, message, h, buf[..bufLen]);
      digest := h;
    }

    /** SHA-256's end: the length is written into the buffer, without being counted. */
    method FinalInPlace() returns (digest: H)
      requires Valid()
      modifies this, buf
      ensures digest == Hash(compress, iv, old(message))
    {
      hide StateOf, Fold;
      var bits := nbits;
      ghost var m0 := message;
      PadToLength();
      ghost var pending, lenBe := buf[..bufLen], Be64(bits);
      StateFills(compress, iv, message, h, pending, lenBe);
      forall i | 0 <= i < 8 {
        buf[bufLen + i] := Be64(bits)[i];
      }
      assert buf[..] == pending + lenBe;
      h := compress(h, buf[..]);
      assert message + lenBe == Pad(m0);
      PadIsWholeBlocks(m0);
      StateOfWhole(compress, iv, Pad(m0), h, []);
      digest := h;
    }
  }

  /** A message fed in any number of pieces hashes as the whole, with either ending. */
  method HashInPieces<H>(compress: (H, seq<bv8>) -> H, iv: H, pieces: seq<seq<bv8>>, inPlace: bool) returns (digest: H)
    ensures digest == Hash(compress, iv, Concat(pieces))
  {
    var c := new HashCtx(compress, iv);
    assert pieces[..0] == [];
    for i := 0 to |pieces|
      invariant c.Valid() && c.message == Concat(pieces[..i])
      invariant fresh(c) && fresh(c.buf) && c.compress == compress && c.iv == iv
    {
      c.Update(pieces[i]);
      assert pieces[..i + 1][..i] == pieces[..i];
    }
    assert pieces[..|pieces|] == pieces;
    if inPlace {
      digest := c.FinalInPlace();
    } else {
      digest := c.FinalByUpdate();
    }
  }

  function Concat(pieces: seq<seq<bv8>>): seq<bv8> {
    if pieces == [] then [] else Concat(pieces[..|pieces| - 1]) + pieces[|pieces| - 1]
  }
}
