/**
 CCM with an 8-octet tag and a 2-octet length field (sections 2.2 and 2.3 of RFC 3610): the
 blockwise definition, the byte-at-a-time chaining that the code uses, and their equality.
 */
module Ccm {
  import opened Aes

  type Nonce = s: seq<bv8> | |s| == 13 witness seq(13, _ => 0)

  /** The low 16 bits of n, big-endian. */
  function Be16(n: nat): (b: seq<bv8>)
    ensures |b| == 2
  {
    [(n / 0x100 % 0x100) as bv8, (n % 0x100) as bv8]
  }

  // ---------- blockwise definition ----------

  /** The first authentication block: flags, nonce, payload length. */
  function Block0(nonce: Nonce, aLen: nat, mLen: nat): Block {
    [if aLen != 0 then 0x59 else 0x19] + nonce + Be16(mLen)
  }

  /** x with d added in, d being padded with zeros to a whole block. */
  function XorPrefix(x: Block, d: seq<bv8>): Block
    requires |d| <= 16
  {
    seq(16, i requires 0 <= i < 16 => if i < |d| then x[i] ^ d[i] else x[i])
  }

  /** CBC-MAC from chaining value x over data cut into blocks, the last one zero-padded. */
  function MacBlocks(w: Schedule, x: Block, data: seq<bv8>): Block
    decreases |data|
  {
    if data == [] then x
    else
      var n := if |data| < 16 then |data| else 16;
      MacBlocks(w, Encrypt(XorPrefix(x, data[..n]), w), data[n..])
  }

  /** The chaining value after the first block and the associated data. */
  function MacHeader(w: Schedule, nonce: Nonce, adata: seq<bv8>, mLen: nat): Block {
    var x := Encrypt(Block0(nonce, |adata|, mLen), w);
    if adata == [] then x else MacBlocks(w, x, Be16(|adata|) + adata)
  }

  function Mac(w: Schedule, nonce: Nonce, adata: seq<bv8>, mdata: seq<bv8>): Block {
    MacBlocks(w, MacHeader(w, nonce, adata, |mdata|), mdata)
  }

  /** The two counter octets after i increments from zero. */
  function CounterBytes(i: nat): (bv8, bv8) {
    if i == 0 then (0, 0)
    else
      var (h, l) := CounterBytes(i - 1);
      if l + 1 != 0 then (h, l + 1) else (h + 1, 0)
  }

  /** Counter block A_i. */
  function Counter(nonce: Nonce, i: nat): Block {
    var (h, l) := CounterBytes(i);
    [1] + nonce + [h, l]
  }

  /** Octet k of the key stream: octet k mod 16 of the encryption of A_(k / 16 + 1). */
  function KeyByteAt(w: Schedule, nonce: Nonce, k: nat): bv8 {
    Encrypt(Counter(nonce, k / 16 + 1), w)[k % 16]
  }

  function Ctr(w: Schedule, nonce: Nonce, data: seq<bv8>): (r: seq<bv8>)
    ensures |r| == |data|
  {
    seq(|data|, k requires 0 <= k < |data| => data[k] ^ KeyByteAt(w, nonce, k))
  }

  function Tag(w: Schedule, nonce: Nonce, adata: seq<bv8>, mdata: seq<bv8>): (t: seq<bv8>)
    ensures |t| == 8
  {
    var m, s := Mac(w, nonce, adata, mdata), Encrypt(Counter(nonce, 0), w);
    seq(8, i requires 0 <= i < 8 => m[i] ^ s[i])
  }

  // ---------- facts about the definition ----------

  lemma ByteSucc(b: bv8)
    ensures (b + 1) as int == if b + 1 == 0 then 0 else b as int + 1
    ensures b + 1 == 0 ==> b as int == 0xff
  {
  }

  lemma CarryNumber(h: int, l: int, h': int, l': int, i: int)
    requires 0 <= h < 0x100 && 0 <= l < 0x100 && h * 0x100 + l == i % 0x1_0000
    requires if l == 0xff then l' == 0 && h' == (if h == 0xff then 0 else h + 1) else l' == l + 1 && h' == h
    ensures h' * 0x100 + l' == (i + 1) % 0x1_0000
  {
    var x := i % 0x1_0000;
    assert (i + 1) % 0x1_0000 == if x == 0xffff then 0 else x + 1;
  }

  /** The counter octets are the block number modulo 2^16, most significant octet first. */
  lemma {:induction false} CounterIsNumber(i: nat)
    ensures CounterBytes(i).0 as int * 0x100 + CounterBytes(i).1 as int == i % 0x1_0000
  {
    if i > 0 {
      CounterIsNumber(i - 1);
      var (h, l) := CounterBytes(i - 1);
      var (h', l') := CounterBytes(i);
      NextNumber(h, l, h', l', i - 1);
    }
  }

  lemma NextNumber(h: bv8, l: bv8, h': bv8, l': bv8, i: nat)
    requires h as int * 0x100 + l as int == i % 0x1_0000
    requires (h', l') == if l + 1 != 0 then (h, l + 1) else (h + 1, 0)
    ensures h' as int * 0x100 + l' as int == (i + 1) % 0x1_0000
  {
    ByteSucc(l);
    ByteSucc(h);
    CarryNumber(h as int, l as int, h' as int, l' as int, i);
  }

  /** Applying the key stream twice gives the data back. */
  lemma CtrTwice(w: Schedule, nonce: Nonce, data: seq<bv8>)
    ensures Ctr(w, nonce, Ctr(w, nonce, data)) == data
  {
  }

  // ---------- byte-at-a-time chaining ----------

  function Absorb(x: Block, i: nat, b: bv8): Block
    requires i < 16
  {
    x[i := x[i] ^ b]
  }

  /**
   What the code's running block becomes after the remaining octets: an octet that meets a full
   block first encrypts it, and at the end a block with anything absorbed is encrypted.
   */
  function Stream(w: Schedule, x: Block, blen: nat, rest: seq<bv8>): Block
    requires blen <= 16
    decreases |rest|
  {
    if rest == [] then
      if blen != 0 then Encrypt(x, w) else x
    else if blen == 16 then Stream(w, Absorb(Encrypt(x, w), 0, rest[0]), 1, rest[1..])
    else Stream(w, Absorb(x, blen, rest[0]), blen + 1, rest[1..])
  }

  lemma AbsorbExtends(x: Block, p: seq<bv8>, b: bv8)
    requires |p| < 16
    ensures Absorb(XorPrefix(x, p), |p|, b) == XorPrefix(x, p + [b])
  {
  }

  lemma XorNothing(x: Block)
    ensures XorPrefix(x, []) == x
  {
  }

  /** With p already absorbed into x, streaming the rest equals chaining p + rest blockwise. */
  lemma {:induction false} StreamIsBlocks(w: Schedule, x: Block, p: seq<bv8>, rest: seq<bv8>)
    requires |p| <= 16
    ensures Stream(w, XorPrefix(x, p), |p|, rest) == MacBlocks(w, x, p + rest)
    decreases |rest|
  {
    hide Encrypt, XorPrefix, Absorb;
    if rest == [] {
      assert p + rest == p;
      assert p[..|p|] == p && p[|p|..] == [];
      XorNothing(x);
    } else if |p| == 16 {
      var y := Encrypt(XorPrefix(x, p), w);
      XorNothing(y);
      AbsorbExtends(y, [], rest[0]);
      StreamIsBlocks(w, y, [rest[0]], rest[1..]);
      assert [] + [rest[0]] == [rest[0]] && [rest[0]] + rest[1..] == rest;
      assert (p + rest)[..16] == p && (p + rest)[16..] == rest;
    } else {
      AbsorbExtends(x, p, rest[0]);
      StreamIsBlocks(w, x, p + [rest[0]], rest[1..]);
      assert p + [rest[0]] + rest[1..] == p + rest;
    }
  }

  /** Started on a block boundary, the byte loop computes the blockwise chain. */
  lemma StreamFromBoundary(w: Schedule, x: Block, data: seq<bv8>)
    ensures Stream(w, x, 0, data) == MacBlocks(w, x, data)
  {
    XorNothing(x);
    StreamIsBlocks(w, x, [], data);
    assert [] + data == data;
  }
}
