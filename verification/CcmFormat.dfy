/**
 CCM as sections 2.2 and 2.3 of RFC 3610 lay it out, with an 8-octet tag and a 2-octet length field: the blocks
 B_0, B_1, ... padded with zeros and chained, and the key stream of the counter blocks A_0, A_1, ...
 */
module CcmFormat {
  import opened Octets
  import opened Aes
  import opened Ccm

  /** The flags octet: whether there is associated data, the tag length less 2 halved, the length size less 1. */
  function FlagsOf(hasAad: bool, tagLen: nat, lenSize: nat): nat
    requires tagLen >= 2 && lenSize >= 1
  {
    (if hasAad then 64 else 0) + 8 * ((tagLen - 2) / 2) + (lenSize - 1)
  }

  lemma FirstBlockIs(nonce: Nonce, aLen: nat, mLen: nat)
    ensures var b := Block0(nonce, aLen, mLen);
      && Weight(b[0]) == FlagsOf(aLen != 0, 8, 2)
      && b[1..14] == nonce
      && b[14..] == Digits(mLen, 2) && Number(b[14..]) == mLen % 0x1_0000
  {
    DigitsSpell(mLen, 2);
    Be16IsDigits(mLen);
    var b := Block0(nonce, aLen, mLen);
    assert b[1..14] == nonce && b[14..] == Be16(mLen);
  }

  lemma Be16IsDigits(n: nat)
    ensures Be16(n) == Digits(n, 2)
  {
    var d := Digits(n, 2);
    assert d[0] == Octet(n, 1) && d[1] == Octet(n, 0);
    assert Pow256(1) == 0x100 * Pow256(0) && Pow256(0) == 1;
  }

  function Padded(data: seq<bv8>): (p: seq<bv8>)
    ensures |p| % 16 == 0
  {
    PadLength(|data|);
    data + seq((16 - |data| % 16) % 16, _ => 0)
  }

  lemma PadLength(n: nat)
    ensures (n + (16 - n % 16) % 16) % 16 == 0
  {
  }

  function XorBlock(x: Block, y: Block): Block {
    seq(16, i requires 0 <= i < 16 => x[i] ^ y[i])
  }

  /** Cipher block chaining over whole blocks. */
  function Chained(w: Schedule, x: Block, b: seq<bv8>): Block
    requires |b| % 16 == 0
    decreases |b|
  {
    if b == [] then x
    else Chained(w, Encrypt(XorBlock(x, b[..16]), w), b[16..])
  }

  /** The blocks that the tag is computed over. */
  function Formatted(nonce: Nonce, adata: seq<bv8>, mdata: seq<bv8>): (b: seq<bv8>)
    ensures |b| % 16 == 0
  {
    var b0, aad, m := Block0(nonce, |adata|, |mdata|), FormattedAad(adata), Padded(mdata);
    WholeSum(|b0|, |aad|, |m|);
    b0 + aad + m
  }

  lemma WholeSum(a: nat, b: nat, c: nat)
    requires a % 16 == 0 && b % 16 == 0 && c % 16 == 0
    ensures (a + b + c) % 16 == 0
  {
  }

  /** The associated data with its length in front. */
  function FormattedAad(adata: seq<bv8>): (b: seq<bv8>)
    ensures |b| % 16 == 0
  {
    if adata == [] then [] else Padded(Digits(|adata|, 2) + adata)
  }

  lemma PaddedXor(x: Block, data: seq<bv8>)
    requires 0 < |data| <= 16
    ensures |Padded(data)| == 16
    ensures XorPrefix(x, data) == XorBlock(x, Padded(data))
  {
  }

  lemma PaddedTail(data: seq<bv8>)
    requires |data| > 16
    ensures |Padded(data)| > 16 && Padded(data)[..16] == data[..16] && Padded(data)[16..] == Padded(data[16..])
  {
    SamePadding(|data|);
    var z := (16 - |data| % 16) % 16;
    assert Padded(data)[16..] == data[16..] + seq(z, _ => 0);
    assert Padded(data)[..16] == data[..16];
  }

  lemma SamePadding(n: nat)
    requires n > 16
    ensures (n - 16) % 16 == n % 16
  {
  }

  /** Leaving out the zeros changes nothing. */
  lemma {:induction false} BlocksAreChained(w: Schedule, x: Block, data: seq<bv8>)
    ensures MacBlocks(w, x, data) == Chained(w, x, Padded(data))
    decreases |data|
  {
    hide Encrypt, XorPrefix, Padded, XorBlock;
    if data == [] {
      NoPadding();
    } else if |data| <= 16 {
      PaddedXor(x, data);
      var y := Encrypt(XorPrefix(x, data), w);
      NothingChained(w, y);
      assert data[..|data|] == data && data[|data|..] == [];
      var p := Padded(data);
      assert p[..16] == p && p[16..] == [];
    } else {
      PaddedTail(data);
      PaddedXor(x, data[..16]);
      WholePadded(data[..16]);
      BlocksAreChained(w, Encrypt(XorPrefix(x, data[..16]), w), data[16..]);
    }
  }

  lemma NoPadding()
    ensures Padded([]) == []
  {
  }

  lemma WholePadded(data: seq<bv8>)
    requires |data| == 16
    ensures Padded(data) == data
  {
  }

  lemma {:induction false} ChainedOn(w: Schedule, x: Block, a: seq<bv8>, b: seq<bv8>)
    requires |a| % 16 == 0 && |b| % 16 == 0
    ensures Chained(w, x, a + b) == Chained(w, Chained(w, x, a), b)
    decreases |a|
  {
    hide Encrypt, XorBlock;
    if a == [] {
      assert a + b == b;
    } else {
      assert (a + b)[16..] == a[16..] + b && (a + b)[..16] == a[..16];
      ChainedOn(w, Encrypt(XorBlock(x, a[..16]), w), a[16..], b);
    }
  }

  /** The code's tag is the chaining of B_0 and everything after it from a block of zeros. */
  lemma MacIsChained(w: Schedule, nonce: Nonce, adata: seq<bv8>, mdata: seq<bv8>)
    ensures Mac(w, nonce, adata, mdata) == Chained(w, seq(16, _ => 0), Formatted(nonce, adata, mdata))
  {
    hide Encrypt, XorBlock, Padded, MacBlocks, Chained, Block0;
    var b0 := Block0(nonce, |adata|, |mdata|);
    var aad := FormattedAad(adata);
    var zeros: Block := seq(16, _ => 0);
    Be16IsDigits(|adata|);
    FirstChained(w, b0);
    var x := Encrypt(b0, w);
    if adata == [] {
      assert Chained(w, x, []) == x by { NothingChained(w, x); }
    } else {
      BlocksAreChained(w, x, Be16(|adata|) + adata);
    }
    BlocksAreChained(w, MacHeader(w, nonce, adata, |mdata|), mdata);
    ChainedOn(w, zeros, b0, aad);
    ChainedOn(w, zeros, b0 + aad, Padded(mdata));
  }

  lemma NothingChained(w: Schedule, x: Block)
    ensures Chained(w, x, []) == x && MacBlocks(w, x, []) == x
  {
  }

  lemma FirstChained(w: Schedule, b: Block)
    ensures Chained(w, seq(16, _ => 0), b) == Encrypt(b, w)
  {
    hide Encrypt;
    var zeros: Block := seq(16, _ => 0);
    assert b[..16] == b && b[16..] == [];
    assert XorBlock(zeros, b) == b;
  }

  /** Counter block A_i: flags with the length size only, the nonce, the number of the block. */
  lemma CounterBlockIs(nonce: Nonce, i: nat)
    ensures var a := Counter(nonce, i);
      Weight(a[0]) == 1 && a[1..14] == nonce && Number(a[14..]) == i % 0x1_0000
  {
    hide CounterBytes;
    CounterIsNumber(i);
    var (h, l) := CounterBytes(i);
    var a := Counter(nonce, i);
    assert a[1..14] == nonce && a[14..] == [h, l];
    NumberOfTwo(h, l);
  }

  lemma NumberOfTwo(h: bv8, l: bv8)
    ensures Number([h, l]) == h as int * 0x100 + l as int
  {
    var one, two := [h], [h, l];
    assert two[..|two| - 1] == one && one[..|one| - 1] == [];
    assert Number(one) == Weight(h);
  }

  /** Block k of the output is block k of the data with the encryption of A_(k + 1) added. */
  lemma CtrBlock(w: Schedule, nonce: Nonce, data: seq<bv8>, k: nat)
    requires 16 * k + 16 <= |data|
    ensures Ctr(w, nonce, data)[16 * k..16 * k + 16]
         == XorBlock(data[16 * k..16 * k + 16], Encrypt(Counter(nonce, k + 1), w))
  {
    hide Encrypt, Counter;
    var s, x := Encrypt(Counter(nonce, k + 1), w), Ctr(w, nonce, data)[16 * k..16 * k + 16];
    forall i | 0 <= i < 16
      ensures x[i] == data[16 * k + i] ^ s[i]
    {
      assert (16 * k + i) / 16 == k && (16 * k + i) % 16 == i;
    }
  }

  /** The tag is the first half of the chained block with the encryption of A_0 added. */
  lemma TagIs(w: Schedule, nonce: Nonce, adata: seq<bv8>, mdata: seq<bv8>)
    ensures Tag(w, nonce, adata, mdata)
         == XorBlock(Chained(w, seq(16, _ => 0), Formatted(nonce, adata, mdata)), Encrypt(Counter(nonce, 0), w))[..8]
  {
    hide Encrypt, Counter, Mac, Chained, Formatted;
    MacIsChained(w, nonce, adata, mdata);
  }
}
