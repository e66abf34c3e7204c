/**
 AES Key Wrap (section 2.2 of RFC 3394): the two nested in-place loops and the round trip between
 them, in both directions, for every key length the code accepts.
 */
module KeyWrap {
  import opened ModArith
  import opened Aes
  import opened AesBlock
  import opened Mem
  import opened Octets
  import opened Wrappers

  const IV: seq<bv8> := [0xA6, 0xA6, 0xA6, 0xA6, 0xA6, 0xA6, 0xA6, 0xA6]

  /** The integrity register A and the concatenated 64-bit blocks R. */
  datatype Registers = Registers(a: seq<bv8>, r: seq<bv8>) {
    ghost predicate Valid(n: nat) {
      |a| == 8 && |r| == 8 * n
    }
  }

  /** Octet i of the 64-bit big-endian step counter. */
  function CounterByte(t: nat, i: nat): bv8
    requires i < 8
  {
    Octet(t, 7 - i)
  }

  function XorCounter(a: seq<bv8>, t: nat): (r: seq<bv8>)
    requires |a| == 8
    ensures |r| == 8
  {
    seq(8, i requires 0 <= i < 8 => a[i] ^ CounterByte(t, i))
  }

  /** r with its 64-bit block i replaced. */
  function SetBlock(r: seq<bv8>, i: nat, b: seq<bv8>): (r': seq<bv8>)
    requires 8 * i + 8 <= |r| && |b| == 8
    ensures |r'| == |r|
  {
    r[..8 * i] + b + r[8 * i + 8..]
  }

  /** Step t of the wrapping, counted from 1 over the six passes; it treats block (t - 1) mod n. */
  function WrapStep(w: Schedule, s: Registers, n: nat, t: nat): (s': Registers)
    requires n > 0 && t > 0 && s.Valid(n)
    ensures s'.Valid(n)
  {
    var i := (t - 1) % n;
    var enc := Encrypt(s.a + s.r[8 * i..8 * i + 8], w);
    Registers(XorCounter(enc[..8], t), SetBlock(s.r, i, enc[8..]))
  }

  function UnwrapStep(w: Schedule, s: Registers, n: nat, t: nat): (s': Registers)
    requires n > 0 && t > 0 && s.Valid(n)
    ensures s'.Valid(n)
  {
    var i := (t - 1) % n;
    var dec := Decrypt(XorCounter(s.a, t) + s.r[8 * i..8 * i + 8], w);
    Registers(dec[..8], SetBlock(s.r, i, dec[8..]))
  }

  /** Wrapping steps 1 to m. */
  function WrapTo(w: Schedule, s: Registers, n: nat, m: nat): (s': Registers)
    requires n > 0 && s.Valid(n)
    ensures s'.Valid(n)
    decreases m
  {
    if m == 0 then s else WrapStep(w, WrapTo(w, s, n, m - 1), n, m)
  }

  /** Unwrapping steps m down to 1. */
  function UnwrapFrom(w: Schedule, s: Registers, n: nat, m: nat): (s': Registers)
    requires n > 0 && s.Valid(n)
    ensures s'.Valid(n)
    decreases m
  {
    if m == 0 then s else UnwrapFrom(w, UnwrapStep(w, s, n, m), n, m - 1)
  }

  /** The lengths that wrapping accepts. */
  predicate Wrappable(len: nat) {
    len >= 16 && len % 8 == 0
  }

  /** The lengths that unwrapping accepts. */
  predicate Unwrappable(len: nat) {
    len >= 24 && len % 8 == 0
  }

  function Wrap(w: Schedule, key: seq<bv8>): (c: seq<bv8>)
    requires Wrappable(|key|)
    ensures |c| == |key| + 8 && Unwrappable(|c|)
  {
    WholeBlocks(|key|);
    var n := |key| / 8;
    var s := WrapTo(w, Registers(IV, key), n, 6 * n);
    s.a + s.r
  }

  lemma WholeBlocks(len: nat)
    requires len % 8 == 0
    ensures len == 8 * (len / 8) && (len + 8) % 8 == 0
  {
  }

  function Unwrap(w: Schedule, c: seq<bv8>): (k: Option<seq<bv8>>)
    requires Unwrappable(|c|)
    ensures k.Some? ==> |k.value| == |c| - 8
  {
    WholeBlocks(|c|);
    var n := |c| / 8 - 1;
    var s := UnwrapFrom(w, Registers(c[..8], c[8..]), n, 6 * n);
    if s.a == IV then Some(s.r) else None
  }

  // ---------- the steps are inverse to each other ----------

  lemma XorCounterTwice(a: seq<bv8>, t: nat)
    requires |a| == 8
    ensures XorCounter(XorCounter(a, t), t) == a
  {
  }

  lemma SetBlockTwice(r: seq<bv8>, i: nat, b: seq<bv8>)
    requires 8 * i + 8 <= |r| && |b| == 8
    ensures SetBlock(r, i, b)[8 * i..8 * i + 8] == b
    ensures SetBlock(SetBlock(r, i, b), i, r[8 * i..8 * i + 8]) == r
  {
  }

  lemma StepInverse(w: Schedule, s: Registers, n: nat, t: nat)
    requires n > 0 && t > 0 && s.Valid(n)
    ensures UnwrapStep(w, WrapStep(w, s, n, t), n, t) == s
    ensures WrapStep(w, UnwrapStep(w, s, n, t), n, t) == s
  {
    hide Encrypt, Decrypt, XorCounter, SetBlock;
    var i := (t - 1) % n;
    var b := s.r[8 * i..8 * i + 8];
    var enc := Encrypt(s.a + b, w);
    AesInverse(s.a + b, w);
    XorCounterTwice(enc[..8], t);
    SetBlockTwice(s.r, i, enc[8..]);
    assert enc[..8] + enc[8..] == enc;
    assert (s.a + b)[..8] == s.a && (s.a + b)[8..] == b;
    var dec := Decrypt(XorCounter(s.a, t) + b, w);
    AesInverse(XorCounter(s.a, t) + b, w);
    XorCounterTwice(s.a, t);
    SetBlockTwice(s.r, i, dec[8..]);
    assert dec[..8] + dec[8..] == dec;
    assert (XorCounter(s.a, t) + b)[..8] == XorCounter(s.a, t) && (XorCounter(s.a, t) + b)[8..] == b;
  }

  lemma {:induction false} UnwrapUndoesWrap(w: Schedule, s: Registers, n: nat, m: nat)
    requires n > 0 && s.Valid(n)
    ensures UnwrapFrom(w, WrapTo(w, s, n, m), n, m) == s
  {
    hide WrapStep, UnwrapStep;
    if m > 0 {
      StepInverse(w, WrapTo(w, s, n, m - 1), n, m);
      UnwrapUndoesWrap(w, s, n, m - 1);
    }
  }

  lemma {:induction false} WrapUndoesUnwrap(w: Schedule, s: Registers, n: nat, m: nat)
    requires n > 0 && s.Valid(n)
    ensures WrapTo(w, UnwrapFrom(w, s, n, m), n, m) == s
    decreases m
  {
    hide WrapStep, UnwrapStep;
    if m > 0 {
      WrapUndoesUnwrap(w, UnwrapStep(w, s, n, m), n, m - 1);
      StepInverse(w, s, n, m);
    }
  }

  /** Unwrapping a wrapped key returns it, for every schedule and every accepted length. */
  lemma WrapRoundTrip(w: Schedule, key: seq<bv8>)
    requires Wrappable(|key|)
    ensures Unwrap(w, Wrap(w, key)) == Some(key)
  {
    hide WrapTo, UnwrapFrom;
    var n := |key| / 8;
    var s := WrapTo(w, Registers(IV, key), n, 6 * n);
    var c := Wrap(w, key);
    assert c[..8] == s.a && c[8..] == s.r;
    UnwrapUndoesWrap(w, Registers(IV, key), n, 6 * n);
  }

  /** Whatever unwraps is the wrapping of what it unwraps to, and nothing else is accepted. */
  lemma UnwrapRoundTrip(w: Schedule, c: seq<bv8>, key: seq<bv8>)
    requires Unwrappable(|c|)
    ensures Unwrap(w, c) == Some(key) <==> Wrappable(|key|) && Wrap(w, key) == c
  {
    hide WrapTo, UnwrapFrom;
    if Unwrap(w, c) == Some(key) {
      var n := |c| / 8 - 1;
      WrapUndoesUnwrap(w, Registers(c[..8], c[8..]), n, 6 * n);
      assert c[..8] + c[8..] == c;
    }
    if Wrappable(|key|) && Wrap(w, key) == c {
      WrapRoundTrip(w, key);
    }
  }

  // ---------- the in-place loops ----------

  /** The integrity register and the blocks as they lie in a register array and in b[off..]. */
  ghost function Held(a: array<bv8>, b: array<bv8>, off: nat, n: nat): (s: Registers)
    requires a.Length == 8 && off + 8 * n <= b.Length
    reads a, b
    ensures s.Valid(n)
  {
    Registers(a[..], b[off..off + 8 * n])
  }

  method XorCounterLoop(blk: array<bv8>, t: nat)
    requires blk.Length >= 8
    modifies blk
    ensures blk[..8] == XorCounter(old(blk[..8]), t) && blk[8..] == old(blk[8..])
  {
    hide CounterByte;
    ghost var b0 := blk[..];
    for k := 0 to 8
      invariant forall i :: 8 - k <= i < 8 ==> blk[i] == b0[i] ^ CounterByte(t, i)
      invariant forall i :: 0 <= i < 8 - k ==> blk[i] == b0[i]
      invariant forall i :: 8 <= i < blk.Length ==> blk[i] == b0[i]
    {
      blk[7 - k] := blk[7 - k] ^ CounterByte(t, 7 - k);
    }
  }

  /** b with v stored at p. */
  ghost function Stored(b: seq<bv8>, p: nat, v: seq<bv8>): (b': seq<bv8>)
    requires p + |v| <= |b|
    ensures |b'| == |b|
  {
    b[..p] + v + b[p + |v|..]
  }

  lemma StoredBlock(b0: seq<bv8>, off: nat, n: nat, i: nat, v: seq<bv8>)
    requires i < n && off + 8 * n <= |b0| && |v| == 8
    ensures Stored(b0, off + 8 * i, v)[off..off + 8 * n] == SetBlock(b0[off..off + 8 * n], i, v)
    ensures Stored(b0, off + 8 * i, v)[off + 8 * n..] == b0[off + 8 * n..]
  {
    var p, e := off + 8 * i, off + 8 * n;
    var low, mid, high, rest := b0[..off], b0[off..p], b0[p + 8..e], b0[e..];
    assert b0[..p] == low + mid && b0[p + 8..] == high + rest;
    assert b0[off..e][..8 * i] == mid && b0[off..e][8 * i + 8..] == high;
    var b := Stored(b0, p, v);
    assert b == (low + mid) + v + (high + rest);
    Associate(low, mid, v, high, rest);
    Middle(low, mid + v + high, rest);
  }

  lemma Associate(a: seq<bv8>, b: seq<bv8>, c: seq<bv8>, d: seq<bv8>, e: seq<bv8>)
    ensures (a + b) + c + (d + e) == a + (b + c + d) + e
  {
  }

  lemma Middle(x: seq<bv8>, y: seq<bv8>, z: seq<bv8>)
    ensures (x + y + z)[|x|..|x| + |y|] == y && (x + y + z)[|x| + |y|..] == z
  {
  }

  lemma BlockIndex(n: nat, j: nat, i: nat, t: nat)
    requires i < n && t == n * j + i + 1
    ensures (t - 1) % n == i
  {
    DivModUnique(t - 1, n, j, i);
  }

  /** A fresh block holding the register and the eight octets at b[p..]. */
  method LoadBlock(a: array<bv8>, b: array<bv8>, p: nat) returns (blk: array<bv8>)
    requires a.Length == 8 && p + 8 <= b.Length
    ensures fresh(blk) && blk.Length == 16 && blk[..] == a[..] + b[p..p + 8]
  {
    blk := new bv8[16];
    Copy(blk, 0, a, 0, 8);
    ghost var first := blk[0..8];
    Copy(blk, 8, b, p, 8);
    assert blk[..8] == first && blk[8..] == blk[8..16];
    assert blk[..] == blk[..8] + blk[8..];
    assert a[0..8] == a[..];
  }

  /** Block i of the registers held from offset off on. */
  lemma HeldBlock(b: seq<bv8>, off: nat, n: nat, i: nat)
    requires i < n && off + 8 * n <= |b|
    ensures b[off..off + 8 * n][8 * i..8 * i + 8] == b[off + 8 * i..off + 8 * i + 8]
  {
    SliceOfSlice(b, off, off + 8 * n, 8 * i, 8 * i + 8);
  }

  /** What one wrapping step leaves in the register and in the blocks. */
  lemma WrapStepStored(w: Schedule, a: seq<bv8>, b0: seq<bv8>, b: seq<bv8>, off: nat, n: nat, i: nat, t: nat, enc: seq<bv8>)
    requires |a| == 8 && i < n && off + 8 * n <= |b0| && t > 0 && (t - 1) % n == i
    requires |enc| == 16 && enc == Encrypt(a + b0[off + 8 * i..off + 8 * i + 8], w)
    requires b == Stored(b0, off + 8 * i, enc[8..])
    ensures Registers(XorCounter(enc[..8], t), b[off..off + 8 * n])
         == WrapStep(w, Registers(a, b0[off..off + 8 * n]), n, t)
    ensures b[off + 8 * n..] == b0[off + 8 * n..]
  {
    hide Encrypt, XorCounter, SetBlock, Stored;
    HeldBlock(b0, off, n, i);
    StoredBlock(b0, off, n, i, enc[8..]);
  }

  lemma UnwrapStepStored(w: Schedule, a: seq<bv8>, b0: seq<bv8>, b: seq<bv8>, off: nat, n: nat, i: nat, t: nat, dec: seq<bv8>)
    requires |a| == 8 && i < n && off + 8 * n <= |b0| && t > 0 && (t - 1) % n == i
    requires |dec| == 16 && dec == Decrypt(XorCounter(a, t) + b0[off + 8 * i..off + 8 * i + 8], w)
    requires b == Stored(b0, off + 8 * i, dec[8..])
    ensures Registers(dec[..8], b[off..off + 8 * n]) == UnwrapStep(w, Registers(a, b0[off..off + 8 * n]), n, t)
    ensures b[off + 8 * n..] == b0[off + 8 * n..]
  {
    hide Decrypt, XorCounter, SetBlock, Stored;
    HeldBlock(b0, off, n, i);
    StoredBlock(b0, off, n, i, dec[8..]);
  }

  /** b[p..p+8] := the second half of blk. */
  method StoreBlock(b: array<bv8>, p: nat, blk: array<bv8>)
    requires blk.Length == 16 && p + 8 <= b.Length && b != blk
    modifies b
    ensures b[..] == Stored(old(b[..]), p, blk[8..])
  {
    ghost var b0, v := b[..], blk[8..];
    Copy(b, p, blk, 8, 8);
    assert blk[8..16] == v;
    assert b[..] == b[..p] + b[p..p + 8] + b[p + 8..];
  }

  /** a := the first half of blk. */
  method StoreRegister(a: array<bv8>, blk: array<bv8>)
    requires a.Length == 8 && blk.Length == 16 && a != blk
    modifies a
    ensures a[..] == blk[..8]
  {
    Copy(a, 0, blk, 0, 8);
    assert a[0..8] == a[..] && blk[0..8] == blk[..8];
  }

  /** One step of the wrapping loop, on block i of pass j; the blocks lie at out[8..]. */
  method WrapOne(w: array<bv32>, a: array<bv8>, out: array<bv8>, n: nat, j: nat, i: nat)
    requires w.Length == 44 && a.Length == 8 && i < n && 8 + 8 * n <= out.Length && a != out
    modifies a, out
    ensures Held(a, out, 8, n) == WrapStep(w[..], old(Held(a, out, 8, n)), n, n * j + i + 1)
    ensures out[8 + 8 * n..] == old(out[8 + 8 * n..])
  {
    hide Encrypt, XorCounter, WrapStep, Stored;
    ghost var a0, out0 := a[..], out[..];
    var blk := LoadBlock(a, out, 8 + 8 * i);
    var enc := new bv8[16];
    EncryptBlock(w, blk, enc);
    ghost var c := enc[..];
    var t := n * j + i + 1;
    BlockIndex(n, j, i, t);
    StoreRegister(a, enc);
    assert a[..8] == a[..] && enc[..8] == c[..8] && enc[8..] == c[8..];
    XorCounterLoop(a, t);
    assert a[..8] == a[..];
    StoreBlock(out, 8 + 8 * i, enc);
    WrapStepStored(w[..], a0, out0, out[..], 8, n, i, t, c);
  }

  /** One step of the unwrapping loop, on block i of pass j; the blocks lie at out[0..]. */
  method UnwrapOne(w: array<bv32>, a: array<bv8>, out: array<bv8>, n: nat, j: nat, i: nat)
    requires w.Length == 44 && a.Length == 8 && i < n && 8 * n <= out.Length && a != out
    modifies a, out
    ensures Held(a, out, 0, n) == UnwrapStep(w[..], old(Held(a, out, 0, n)), n, n * j + i + 1)
    ensures out[8 * n..] == old(out[8 * n..])
  {
    hide Decrypt, XorCounter, UnwrapStep, Stored;
    ghost var a0, out0 := a[..], out[..];
    var blk := LoadBlock(a, out, 8 * i);
    ghost var b0 := blk[..];
    var t := n * j + i + 1;
    BlockIndex(n, j, i, t);
    XorCounterLoop(blk, t);
    assert b0[..8] == a0 && b0[8..] == out0[8 * i..8 * i + 8];
    assert blk[..] == blk[..8] + blk[8..];
    var dec := new bv8[16];
    DecryptBlock(w, blk, dec);
    ghost var c := dec[..];
    StoreRegister(a, dec);
    assert dec[..8] == c[..8] && dec[8..] == c[8..];
    StoreBlock(out, 8 * i, dec);
    UnwrapStepStored(w[..], a0, out0, out[..], 0, n, i, t, c);
  }

  /** The six passes of the wrapping, blocks upwards. */
  method WrapPasses(w: array<bv32>, a: array<bv8>, out: array<bv8>, n: nat)
    requires w.Length == 44 && a.Length == 8 && 0 < n && 8 + 8 * n <= out.Length && a != out
    modifies a, out
    ensures Held(a, out, 8, n) == WrapTo(w[..], old(Held(a, out, 8, n)), n, 6 * n)
    ensures out[8 + 8 * n..] == old(out[8 + 8 * n..])
  {
    hide WrapStep, Held;
    ghost var sched: Schedule, s0 := w[..], Held(a, out, 8, n);
    ghost var m := 0;
    for j := 0 to 6
      invariant m == n * j
      invariant w[..] == sched && out[8 + 8 * n..] == old(out[8 + 8 * n..])
      invariant Held(a, out, 8, n) == WrapTo(sched, s0, n, m)
    {
      for i := 1 to n + 1
        invariant m == n * j + (i - 1)
        invariant w[..] == sched && out[8 + 8 * n..] == old(out[8 + 8 * n..])
        invariant Held(a, out, 8, n) == WrapTo(sched, s0, n, m)
      {
        WrapOne(w, a, out, n, j, i - 1);
        m := m + 1;
      }
    }
  }

  /** The six passes of the unwrapping, last pass first and blocks downwards. */
  method UnwrapPasses(w: array<bv32>, a: array<bv8>, out: array<bv8>, n: nat)
    requires w.Length == 44 && a.Length == 8 && 0 < n && 8 * n <= out.Length && a != out
    modifies a, out
    ensures Held(a, out, 0, n) == UnwrapFrom(w[..], old(Held(a, out, 0, n)), n, 6 * n)
    ensures out[8 * n..] == old(out[8 * n..])
  {
    hide UnwrapStep, Held;
    ghost var sched: Schedule, s0 := w[..], Held(a, out, 0, n);
    ghost var m := 6 * n;
    for j := 6 downto 0
      invariant m == n * j
      invariant w[..] == sched && out[8 * n..] == old(out[8 * n..])
      invariant UnwrapFrom(sched, Held(a, out, 0, n), n, m) == UnwrapFrom(sched, s0, n, 6 * n)
    {
      for i := n downto 0
        invariant m == n * j + i
        invariant w[..] == sched && out[8 * n..] == old(out[8 * n..])
        invariant UnwrapFrom(sched, Held(a, out, 0, n), n, m) == UnwrapFrom(sched, s0, n, 6 * n)
      {
        UnwrapOne(w, a, out, n, j, i);
        m := m - 1;
      }
    }
  }

  /**
   Wraps the key into out and returns the wrapped length, or 0 when the key is shorter than two
   blocks, not a whole number of blocks, or too long for out.
   */
  method KeyWrapLoop(w: array<bv32>, input: array<bv8>, out: array<bv8>) returns (len: nat)
    requires w.Length == 44 && input != out
    modifies out
    ensures len == if input.Length >= 16 && input.Length % 8 == 0 && input.Length + 8 <= out.Length then input.Length + 8
                   else 0
    ensures len != 0 ==> Wrappable(input.Length) && out[..len] == Wrap(w[..], input[..])
    ensures out[len..] == old(out[len..])
  {
    if input.Length < 16 || input.Length % 8 != 0 || out.Length < input.Length + 8 {
      return 0;
    }
    WrapInto(w, input, out, input.Length / 8);
    len := input.Length + 8;
  }

  /** The wrapping proper, once the lengths are known to fit. */
  method WrapInto(w: array<bv32>, input: array<bv8>, out: array<bv8>, n: nat)
    requires w.Length == 44 && input != out
    requires input.Length == 8 * n >= 16 && 8 + 8 * n <= out.Length
    modifies out
    ensures out[..8 + 8 * n] == Wrap(w[..], input[..])
    ensures out[8 + 8 * n..] == old(out[8 + 8 * n..])
  {
    hide WrapTo;
    var a := new bv8[8](_ => 0xA6);
    assert a[..] == IV;
    Copy(out, 8, input, 0, 8 * n);
    assert input[0..8 * n] == input[..];
    assert Held(a, out, 8, n) == Registers(IV, input[..]);
    WrapPasses(w, a, out, n);
    ghost var s, out1 := Held(a, out, 8, n), out[..];
    Copy(out, 0, a, 0, 8);
    assert out[..8] == out[0..8] && a[0..8] == a[..] == s.a;
    Assembled(out[..], out1, s.a, n);
    assert out1[8..8 + 8 * n] == s.r;
  }

  lemma Assembled(out: seq<bv8>, out1: seq<bv8>, a: seq<bv8>, n: nat)
    requires 8 + 8 * n <= |out| == |out1| && |a| == 8
    requires out[..8] == a && out[8..] == out1[8..]
    ensures out[..8 + 8 * n] == a + out1[8..8 + 8 * n] && out[8 + 8 * n..] == out1[8 + 8 * n..]
  {
  }

  /**
   Unwraps input into out and returns the key length, or 0 when the length is wrong, out is too
   short or the integrity register does not come out as the initial value.
   */
  method KeyUnwrapLoop(w: array<bv32>, input: array<bv8>, out: array<bv8>) returns (len: nat)
    requires w.Length == 44 && input != out
    modifies out
    ensures input.Length < 24 || input.Length % 8 != 0 || out.Length < input.Length - 8 ==> len == 0
    ensures input.Length >= 24 && input.Length % 8 == 0 && out.Length >= input.Length - 8 ==>
              Unwrappable(input.Length) &&
              var k := Unwrap(w[..], input[..]);
              if k.Some? then len == input.Length - 8 && out[..len] == k.value else len == 0
  {
    if input.Length < 24 || input.Length % 8 != 0 {
      return 0;
    }
    var n := input.Length / 8 - 1;
    if out.Length < n * 8 {
      return 0;
    }
    var good := UnwrapInto(w, input, out, n);
    len := if good then n * 8 else 0;
  }

  /** The unwrapping proper, once the lengths are known to fit. */
  method UnwrapInto(w: array<bv32>, input: array<bv8>, out: array<bv8>, n: nat) returns (good: bool)
    requires w.Length == 44 && input != out
    requires input.Length == 8 * n + 8 >= 24 && 8 * n <= out.Length
    modifies out
    ensures good <==> Unwrap(w[..], input[..]).Some?
    ensures good ==> out[..8 * n] == Unwrap(w[..], input[..]).value
  {
    hide UnwrapFrom;
    ghost var c := input[..];
    var a := new bv8[8];
    Copy(a, 0, input, 0, 8);
    Copy(out, 0, input, 8, 8 * n);
    assert a[..] == a[0..8] == c[..8] && out[0..0 + 8 * n] == c[8..];
    UnwrapPasses(w, a, out, n);
    assert out[..8 * n] == out[0..0 + 8 * n];
    good := ConstantTimeEq(a, IV);
  }
}
