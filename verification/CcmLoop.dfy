/**
 The CCM routine itself: one running MAC block, one counter block and an in-place pass over the
 payload, octet by octet, shown to compute the blockwise definition.
 */
module CcmLoop {
  import opened ModArith
  import opened Aes
  import opened AesBlock
  import opened Ccm

  /** Writes B_0, the length octets from the least significant upwards. */
  method WriteBlock0(block: array<bv8>, nonce: Nonce, aLen: nat, mLen: nat)
    requires block.Length == 16
    modifies block
    ensures block[..] == Block0(nonce, aLen, mLen)
  {
    block[0] := ((if aLen != 0 then 1 else 0) << 6) | (((8 - 2) >> 1) << 3) | (2 - 1);
    forall i | 0 <= i < 13 {
      block[1 + i] := nonce[i];
    }
    assert block[0] == if aLen != 0 then 0x59 else 0x19;
    ghost var front := block[..14];
    assert front == [block[0]] + nonce;
    var len := mLen;
    block[15] := (len % 0x100) as bv8;
    len := len / 0x100;
    block[14] := (len % 0x100) as bv8;
    assert block[..14] == front;
    assert block[..] == block[..14] + [block[14], block[15]];
  }

  lemma StreamStep(w: Schedule, x: Block, blen: nat, b: bv8, rest: seq<bv8>)
    requires blen <= 16
    ensures var y, i := if blen == 16 then Encrypt(x, w) else x, if blen == 16 then 0 else blen;
            Stream(w, x, blen, [b] + rest) == Stream(w, Absorb(y, i, b), i + 1, rest)
  {
  }

  /** block[blen] ^= b, after encrypting a block that is already full. */
  method AbsorbByte(w: array<bv32>, block: array<bv8>, blen: nat, b: bv8, ghost rest: seq<bv8>)
    returns (blen': nat)
    requires w.Length == 44 && block.Length == 16 && blen <= 16
    modifies block
    ensures 0 < blen' <= 16
    ensures Stream(w[..], block[..], blen', rest) == Stream(w[..], old(block[..]), blen, [b] + rest)
  {
    hide Encrypt, Stream;
    StreamStep(w[..], block[..], blen, b, rest);
    blen' := blen;
    if blen' == 16 {
      EncryptBlock(w, block, block);
      blen' := 0;
    }
    ghost var y: Block := block[..];
    block[blen'] := block[blen'] ^ b;
    assert block[..] == Absorb(y, blen', b);
    blen' := blen' + 1;
  }

  /** CBC-MAC over the length-prefixed associated data, from and to a block boundary. */
  method AbsorbHeader(w: array<bv32>, block: array<bv8>, adata: seq<bv8>)
    requires w.Length == 44 && block.Length == 16
    modifies block
    ensures block[..] == if adata == [] then old(block[..])
                         else MacBlocks(w[..], old(block[..]), Be16(|adata|) + adata)
  {
    hide Encrypt;
    if |adata| == 0 {
      return;
    }
    ghost var sched: Schedule, x: Block, data := w[..], block[..], Be16(|adata|) + adata;
    StreamFromBoundary(sched, x, data);
    assert data == [data[0]] + ([data[1]] + adata);
    var blen := AbsorbByte(w, block, 0, (|adata| / 0x100 % 0x100) as bv8, [data[1]] + adata);
    blen := AbsorbByte(w, block, blen, (|adata| % 0x100) as bv8, adata);
    for i := 0 to |adata|
      invariant 0 < blen <= 16 && w[..] == sched
      invariant Stream(sched, block[..], blen, adata[i..]) == MacBlocks(sched, x, data)
    {
      assert adata[i..] == [adata[i]] + adata[i + 1..];
      blen := AbsorbByte(w, block, blen, adata[i], adata[i + 1..]);
    }
    assert adata[|adata|..] == [];
    EncryptBlock(w, block, block);
  }

  /** The counter block c0 with one added to its last two octets. */
  ghost predicate Bumped(c: seq<bv8>, c0: seq<bv8>)
    requires |c| == |c0| == 16
  {
    && c[..14] == c0[..14]
    && (if c0[15] + 1 != 0 then c[14] == c0[14] && c[15] == c0[15] + 1 else c[14] == c0[14] + 1 && c[15] == 0)
  }

  /** The carry has reached octet j. */
  ghost predicate Carried(c: seq<bv8>, c0: seq<bv8>, j: nat)
    requires |c0| == 16
  {
    && |c| == 16
    && (j == 15 ==> c == c0)
    && (j == 14 ==> c == c0[15 := 0] && c0[15] + 1 == 0)
    && (j == 13 ==> Bumped(c, c0))
  }

  lemma CarryStep(c: seq<bv8>, c0: seq<bv8>, j: nat, x: bv8)
    requires |c0| == 16 && Carried(c, c0, j) && 13 < j <= 15 && x == c[j] + 1
    ensures if x == 0 then Carried(c[j := x], c0, j - 1) else Bumped(c[j := x], c0)
  {
  }

  lemma BumpedCounter(nonce: Nonce, i: nat, c: seq<bv8>)
    requires |c| == 16 && Bumped(c, Counter(nonce, i))
    ensures c == Counter(nonce, i + 1)
  {
    hide CounterBytes;
    CounterParts(nonce, i);
    NextBytes(i);
    assert c == c[..14] + [c[14], c[15]];
  }

  lemma NextBytes(i: nat)
    ensures var (h, l) := CounterBytes(i); CounterBytes(i + 1) == if l + 1 != 0 then (h, l + 1) else (h + 1, 0)
  {
  }

  lemma CounterParts(nonce: Nonce, i: nat)
    ensures var c := Counter(nonce, i);
            c[..14] == [1] + nonce && c[14] == CounterBytes(i).0 && c[15] == CounterBytes(i).1
  {
    hide CounterBytes;
  }

  /** Increments one octet; the result is the carry out of it. */
  method BumpOctet(ctr: array<bv8>, j: nat, ghost c0: seq<bv8>) returns (carry: bool)
    requires ctr.Length == |c0| == 16 && 13 < j <= 15 && Carried(ctr[..], c0, j)
    modifies ctr
    ensures if carry then Carried(ctr[..], c0, j - 1) else Bumped(ctr[..], c0)
  {
    hide Carried, Bumped;
    ghost var c1 := ctr[..];
    var x := ctr[j] + 1;
    CarryStep(c1, c0, j, x);
    ctr[j] := x;
    assert ctr[..] == c1[j := x];
    carry := x == 0;
  }

  /** Increments the two counter octets, carrying from the last into the one before. */
  method BumpCounter(ctr: array<bv8>, ghost nonce: Nonce, ghost i: nat)
    requires ctr.Length == 16 && ctr[..] == Counter(nonce, i)
    modifies ctr
    ensures ctr[..] == Counter(nonce, i + 1)
  {
    hide Counter, Carried, Bumped;
    ghost var c0 := ctr[..];
    var j := 15;
    NoCarryYet(c0);
    while j > 13
      invariant 13 <= j <= 15
      invariant Carried(ctr[..], c0, j)
    {
      var carry := BumpOctet(ctr, j, c0);
      if !carry {
        BumpedCounter(nonce, i, ctr[..]);
        return;
      }
      j := j - 1;
    }
    CarriedOut(ctr[..], c0);
    BumpedCounter(nonce, i, ctr[..]);
  }

  lemma NoCarryYet(c: seq<bv8>)
    requires |c| == 16
    ensures Carried(c, c, 15)
  {
  }

  lemma CarriedOut(c: seq<bv8>, c0: seq<bv8>)
    requires |c0| == 16 && Carried(c, c0, 13)
    ensures |c| == 16 && Bumped(c, c0)
  {
  }

  method WriteCounter0(ctr: array<bv8>, nonce: Nonce)
    requires ctr.Length == 16
    modifies ctr
    ensures ctr[..] == Counter(nonce, 0)
  {
    ctr[0] := 1;
    forall i | 0 <= i < 13 {
      ctr[1 + i] := nonce[i];
    }
    ctr[14], ctr[15] := 0, 0;
    assert ctr[..] == [ctr[0]] + nonce + [ctr[14], ctr[15]];
  }

  lemma PadIndex(w: Schedule, nonce: Nonce, i: nat, nb: nat, ctrlen: nat)
    requires nb > 0 && ctrlen < 16 && i + 16 == 16 * nb + ctrlen
    ensures KeyByteAt(w, nonce, i) == Encrypt(Counter(nonce, nb), w)[ctrlen]
  {
    hide Encrypt, Counter;
    DivModUnique(i, 16, nb - 1, ctrlen);
  }

  /** Counter block A_nb and its encryption, with ctrlen octets of it used after i payload octets. */
  ghost predicate PadReady(w: Schedule, nonce: Nonce, ctr: seq<bv8>, pad: seq<bv8>, nb: nat, ctrlen: nat, i: nat) {
    && ctr == Counter(nonce, nb)
    && ctrlen <= 16 && i + 16 == 16 * nb + ctrlen
    && (nb > 0 ==> pad == Encrypt(Counter(nonce, nb), w))
  }

  /** Moves to the next key-stream block when the current one is used up. */
  method NextPad(w: array<bv32>, nonce: Nonce, ctr: array<bv8>, pad: array<bv8>, ghost nb: nat, ctrlen: nat, ghost i: nat)
    returns (ghost nb': nat, ctrlen': nat)
    requires w.Length == 44 && ctr.Length == pad.Length == 16 && ctr != pad
    requires PadReady(w[..], nonce, ctr[..], pad[..], nb, ctrlen, i)
    modifies ctr, pad
    ensures ctrlen' < 16 && PadReady(w[..], nonce, ctr[..], pad[..], nb', ctrlen', i)
    ensures pad[ctrlen'] == KeyByteAt(w[..], nonce, i)
  {
    hide Encrypt, KeyByteAt, Counter;
    ctrlen', nb' := ctrlen, nb;
    if ctrlen' == 16 {
      BumpCounter(ctr, nonce, nb);
      nb' := nb + 1;
      EncryptBlock(w, ctr, pad);
      ctrlen' := 0;
    }
    PadIndex(w[..], nonce, i, nb', ctrlen');
  }

  /** m[p] ^= key; the result is the plaintext octet, before or after. */
  method CipherOctet(m: array<bv8>, p: nat, key: bv8, encrypt: bool) returns (pbyte: bv8)
    requires p < m.Length
    modifies m
    ensures m[p] == old(m[p]) ^ key
    ensures m[..p] == old(m[..p]) && m[p + 1..] == old(m[p + 1..])
    ensures pbyte == if encrypt then old(m[p]) else m[p]
  {
    if encrypt {
      pbyte := m[p];
      m[p] := pbyte ^ key;
    } else {
      pbyte := m[p] ^ key;
      m[p] := pbyte;
    }
  }

  /** The buffer after i octets of the pass: outp up to i, inp from there on. */
  ghost predicate PartDone(m: seq<bv8>, m0: seq<bv8>, off: nat, outp: seq<bv8>, i: nat)
    requires i <= |outp| && off + |outp| <= |m0|
  {
    m == m0[..off] + outp[..i] + m0[off + i..]
  }

  lemma Untouched(m: seq<bv8>, m0: seq<bv8>, off: nat, outp: seq<bv8>, i: nat)
    requires i < |outp| && off + |outp| <= |m0|
    requires PartDone(m, m0, off, outp, i)
    ensures |m| == |m0| && m[off + i] == m0[off + i]
  {
  }

  lemma OctetDone(m: seq<bv8>, m': seq<bv8>, m0: seq<bv8>, off: nat, outp: seq<bv8>, i: nat)
    requires i < |outp| && off + |outp| <= |m0|
    requires PartDone(m, m0, off, outp, i)
    requires |m'| == |m| && m'[..off + i] == m[..off + i] && m'[off + i + 1..] == m[off + i + 1..]
    requires m'[off + i] == outp[i]
    ensures PartDone(m', m0, off, outp, i + 1)
  {
  }

  lemma PassStarts(w: Schedule, nonce: Nonce, x: Block, ctr: seq<bv8>, pad: seq<bv8>,
                   m0: seq<bv8>, off: nat, outp: seq<bv8>, plain: seq<bv8>)
    requires ctr == Counter(nonce, 0) && off + |outp| <= |m0|
    ensures PadReady(w, nonce, ctr, pad, 0, 16, 0)
    ensures Stream(w, x, 0, plain[0..]) == MacBlocks(w, x, plain)
    ensures PartDone(m0, m0, off, outp, 0)
  {
    hide Encrypt, Counter;
    StreamFromBoundary(w, x, plain);
    assert plain[0..] == plain;
    assert m0 == m0[..off] + outp[..0] + m0[off..];
  }

  lemma PassEnds(w: Schedule, x: Block, blen: nat, m: seq<bv8>, m0: seq<bv8>, off: nat, outp: seq<bv8>, plain: seq<bv8>)
    requires blen <= 16 && off + |outp| <= |m0|
    requires PartDone(m, m0, off, outp, |outp|)
    ensures Stream(w, x, blen, plain[|plain|..]) == if blen != 0 then Encrypt(x, w) else x
    ensures m == m0[..off] + outp + m0[off + |outp|..]
  {
    hide Encrypt;
    assert outp[..|outp|] == outp;
    StreamEnds(w, x, blen, plain[|plain|..]);
  }

  lemma StreamEnds(w: Schedule, x: Block, blen: nat, rest: seq<bv8>)
    requires blen <= 16 && |rest| == 0
    ensures Stream(w, x, blen, rest) == if blen != 0 then Encrypt(x, w) else x
  {
    hide Encrypt;
  }

  lemma PadUsed(w: Schedule, nonce: Nonce, ctr: seq<bv8>, pad: seq<bv8>, nb: nat, ctrlen: nat, i: nat)
    requires PadReady(w, nonce, ctr, pad, nb, ctrlen, i) && ctrlen < 16
    ensures PadReady(w, nonce, ctr, pad, nb, ctrlen + 1, i + 1)
  {
  }

  lemma Split(s: seq<bv8>, i: nat)
    requires i < |s|
    ensures s[i..] == [s[i]] + s[i + 1..]
  {
  }

  lemma CtrAt(w: Schedule, nonce: Nonce, data: seq<bv8>, i: nat)
    requires i < |data|
    ensures Ctr(w, nonce, data)[i] == data[i] ^ KeyByteAt(w, nonce, i)
  {
    hide KeyByteAt;
  }

  /** Octet i of the pass; the result is the plaintext octet. */
  method PassOctet(w: array<bv32>, nonce: Nonce, m: array<bv8>, off: nat, i: nat, key: bv8, encrypt: bool,
                   ghost m0: seq<bv8>, ghost inp: seq<bv8>) returns (pbyte: bv8)
    requires w.Length == 44 && i < |inp| && off + |inp| <= |m0| == m.Length && inp == m0[off..off + |inp|]
    requires key == KeyByteAt(w[..], nonce, i)
    requires PartDone(m[..], m0, off, Ctr(w[..], nonce, inp), i)
    modifies m
    ensures PartDone(m[..], m0, off, Ctr(w[..], nonce, inp), i + 1)
    ensures pbyte == if encrypt then inp[i] else Ctr(w[..], nonce, inp)[i]
  {
    hide KeyByteAt, PartDone, Ctr;
    ghost var m1, outp := m[..], Ctr(w[..], nonce, inp);
    Untouched(m1, m0, off, outp, i);
    CtrAt(w[..], nonce, inp, i);
    pbyte := CipherOctet(m, off + i, key, encrypt);
    OctetDone(m1, m[..], m0, off, outp, i);
  }

  /**
   The payload pass: enciphers or deciphers m[off..off+len] in place while chaining the plaintext
   into the MAC block, which must be on a block boundary.
   */
  method Payload(w: array<bv32>, nonce: Nonce, block: array<bv8>, m: array<bv8>, off: nat, len: nat, encrypt: bool)
    requires w.Length == 44 && block.Length == 16 && off + len <= m.Length && m != block
    modifies block, m
    ensures m[..] == old(m[..off] + Ctr(w[..], nonce, m[off..off + len]) + m[off + len..])
    ensures block[..] == MacBlocks(w[..], old(block[..]),
                                   if encrypt then old(m[off..off + len]) else m[off..off + len])
  {
    hide Encrypt, KeyByteAt, Counter, PadReady, PartDone, Stream, Ctr;
    ghost var sched: Schedule, x: Block, m0, inp := w[..], block[..], m[..], m[off..off + len];
    ghost var outp := Ctr(sched, nonce, inp);
    ghost var plain := if encrypt then inp else outp;
    var ctr, ctrpad := new bv8[16], new bv8[16];
    WriteCounter0(ctr, nonce);
    var ctrlen, blen: nat := 16, 0;
    ghost var nb := 0;
    PassStarts(sched, nonce, x, ctr[..], ctrpad[..], m0, off, outp, plain);
    for i := 0 to len
      invariant w[..] == sched
      invariant PadReady(sched, nonce, ctr[..], ctrpad[..], nb, ctrlen, i)
      invariant blen <= 16
      invariant Stream(sched, block[..], blen, plain[i..]) == MacBlocks(sched, x, plain)
      invariant PartDone(m[..], m0, off, outp, i)
    {
      nb, ctrlen := NextPad(w, nonce, ctr, ctrpad, nb, ctrlen, i);
      var pbyte := PassOctet(w, nonce, m, off, i, ctrpad[ctrlen], encrypt, m0, inp);
      PadUsed(sched, nonce, ctr[..], ctrpad[..], nb, ctrlen, i);
      ctrlen := ctrlen + 1;
      Split(plain, i);
      blen := AbsorbByte(w, block, blen, pbyte, plain[i + 1..]);
    }
    PassEnds(sched, block[..], blen, m[..], m0, off, outp, plain);
    if blen != 0 {
      EncryptBlock(w, block, block);
    }
  }

  /** mic := first 8 octets of block XOR the encryption of A_0. */
  method MaskTag(w: array<bv32>, nonce: Nonce, block: array<bv8>, mic: array<bv8>)
    requires w.Length == 44 && block.Length == 16 && mic.Length == 8
    modifies mic
    ensures forall i :: 0 <= i < 8 ==> mic[i] == old(block[i]) ^ Encrypt(Counter(nonce, 0), w[..])[i]
  {
    hide Encrypt, Counter;
    var ctr, ctrpad := new bv8[16], new bv8[16];
    WriteCounter0(ctr, nonce);
    EncryptBlock(w, ctr, ctrpad);
    ghost var b, pad := block[..], ctrpad[..];
    for i := 0 to 8
      invariant block[..] == b && ctrpad[..] == pad
      invariant forall j :: 0 <= j < i ==> mic[j] == b[j] ^ pad[j]
    {
      mic[i] := block[i] ^ ctrpad[i];
    }
  }

  lemma TagIs(w: Schedule, nonce: Nonce, adata: seq<bv8>, mdata: seq<bv8>, mic: seq<bv8>)
    requires |mic| == 8
    requires forall i :: 0 <= i < 8 ==> mic[i] == Mac(w, nonce, adata, mdata)[i] ^ Encrypt(Counter(nonce, 0), w)[i]
    ensures mic == Tag(w, nonce, adata, mdata)
  {
    hide Encrypt, Counter, Mac;
  }

  /** The CBC-MAC chain up to the payload. */
  method MacStart(w: array<bv32>, nonce: Nonce, adata: seq<bv8>, mLen: nat, block: array<bv8>)
    requires w.Length == 44 && block.Length == 16
    modifies block
    ensures block[..] == MacHeader(w[..], nonce, adata, mLen)
  {
    hide Encrypt, Block0;
    WriteBlock0(block, nonce, |adata|, mLen);
    EncryptBlock(w, block, block);
    AbsorbHeader(w, block, adata);
  }

  /**
   CCM over m[off..off+len], in place: the data comes out enciphered or deciphered, and mic is the
   tag of the plaintext, whichever side of the pass that is.
   */
  method AesCcm(w: array<bv32>, nonce: Nonce, adata: seq<bv8>, m: array<bv8>, off: nat, len: nat,
                encrypt: bool, mic: array<bv8>)
    requires w.Length == 44 && off + len <= m.Length && mic.Length == 8 && m != mic
    modifies m, mic
    ensures m[..] == old(m[..off] + Ctr(w[..], nonce, m[off..off + len]) + m[off + len..])
    ensures mic[..] == Tag(w[..], nonce, adata, if encrypt then old(m[off..off + len]) else m[off..off + len])
  {
    hide Encrypt, KeyByteAt, Counter, MacHeader, MacBlocks, Ctr, Tag;
    ghost var inp := m[off..off + len];
    var block := new bv8[16];
    MacStart(w, nonce, adata, len, block);
    ghost var m0 := m[..];
    Payload(w, nonce, block, m, off, len, encrypt);
    ghost var m1, b1 := m[..], block[..];
    MiddlePart(m0, m[..], off, len, Ctr(w[..], nonce, inp));
    MaskTag(w, nonce, block, mic);
    TagIs(w[..], nonce, adata, if encrypt then inp else m[off..off + len], mic[..]);
  }

  lemma MiddlePart(m0: seq<bv8>, m: seq<bv8>, off: nat, len: nat, mid: seq<bv8>)
    requires off + len <= |m0| && |mid| == len && m == m0[..off] + mid + m0[off + len..]
    ensures |m| == |m0| && m[off..off + len] == mid
  {
  }
}
