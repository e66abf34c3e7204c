/**
 Big-endian byte strings and limb arrays: the packing loops and the integers they preserve.
 */
module P256Bytes {
  import opened Words
  import opened Limbs
  import opened Octets

  /** The integer a big-endian byte string stands for. */
  function BeVal(s: seq<u8>): nat {
    if s == [] then 0 else BeVal(s[..|s| - 1]) * 0x100 + s[|s| - 1]
  }

  lemma BaseIsPow256(i: nat)
    ensures Pow256(4 * i) == Base(i)
  {
    if i > 0 {
      BaseIsPow256(i - 1);
      assert Pow256(4 * i) == 0x100 * Pow256(4 * i - 1);
      assert Pow256(4 * i - 1) == 0x100 * Pow256(4 * i - 2);
      assert Pow256(4 * i - 2) == 0x100 * Pow256(4 * i - 3);
      assert Pow256(4 * i - 3) == 0x100 * Pow256(4 * (i - 1));
    }
  }

  lemma {:induction false} BeAppend(x: seq<u8>, y: seq<u8>)
    ensures BeVal(x + y) == BeVal(x) * Pow256(|y|) + BeVal(y)
  {
    if y == [] {
      assert x + y == x;
    } else {
      var n := |y| - 1;
      BeAppend(x, y[..n]);
      assert (x + y)[..|x + y| - 1] == x + y[..n];
      BeShift(BeVal(x), Pow256(n), BeVal(y[..n]));
    }
  }

  lemma BeShift(x: int, w: int, y: int)
    ensures (x * w + y) * 0x100 == x * (0x100 * w) + y * 0x100
  {
  }

  lemma {:induction false} BeInjective(x: seq<u8>, y: seq<u8>)
    requires |x| == |y| && BeVal(x) == BeVal(y)
    ensures x == y
  {
    if x != [] {
      var n := |x| - 1;
      BeInjective(x[..n], y[..n]);
      assert x == x[..n] + [x[n]] && y == y[..n] + [y[n]];
    }
  }

  /** Leading zero bytes do not matter. */
  lemma {:induction false} BeZeros(s: seq<u8>)
    requires forall i :: 0 <= i < |s| ==> s[i] == 0
    ensures BeVal(s) == 0
  {
    if s != [] {
      BeZeros(s[..|s| - 1]);
    }
  }

  lemma BeWord(s: seq<u8>)
    requires |s| == 4
    ensures BeVal(s) == Pack(s[0], s[1], s[2], s[3])
  {
    assert s[..3][..2] == s[..2] && s[..2][..1] == s[..1] && s[..1][..0] == [];
    assert BeVal(s[..1]) == s[0];
    assert BeVal(s[..2]) == (s[0] as int) * 0x100 + s[1];
    assert BeVal(s[..3]) == (s[0] as int) * 0x1_0000 + (s[1] as int) * 0x100 + s[2];
  }

  /** One more limb in front: four bytes against one word. */
  lemma LimbBytes(s: seq<u8>, t: seq<u32>, i: nat)
    requires i < |t| && |s| == 4 * i + 4
    requires BeVal(s[..4]) == t[i] && BeVal(s[4..]) == Val(t[..i])
    ensures BeVal(s) == Val(t[..i + 1])
  {
    assert s == s[..4] + s[4..];
    BeAppend(s[..4], s[4..]);
    BaseIsPow256(i);
    ValSnoc(t, i);
  }

  /** Four bytes shifted into place; the fields are disjoint, so the or is a sum. */
  function Pack(b0: u8, b1: u8, b2: u8, b3: u8): u32 {
    (b0 as int) * 0x100_0000 + (b1 as int) * 0x1_0000 + (b2 as int) * 0x100 + b3
  }

  lemma NoBytes()
    ensures Val([]) == 0 && BeVal([]) == 0
  {
  }

  /** The first n limbs of r stand for the last n words of the byte string. */
  ghost predicate Packed(r: seq<u32>, s: seq<u8>, n: nat)
    requires n <= |r| && 4 * n <= |s|
  {
    Val(r[..n]) == BeVal(s[|s| - 4 * n..])
  }

  lemma PackedLimb(r: seq<u32>, s: seq<u8>, i: nat, x: u32)
    requires i < |r| && 4 * i + 4 <= |s| && Packed(r, s, i)
    requires var q := |s| - 4 * i - 4; x == Pack(s[q], s[q + 1], s[q + 2], s[q + 3])
    ensures Packed(r[i := x], s, i + 1)
  {
    hide Val, BeVal, Pack, Base;
    var q := |s| - 4 * i - 4;
    var t := s[q..];
    assert t[..4] == s[q..q + 4] && t[4..] == s[q + 4..];
    BeWord(t[..4]);
    LimbSet(r, i, x);
    LimbBytes(t, r[i := x], i);
  }

  lemma PackedAll(r: seq<u32>, s: seq<u8>)
    requires |r| == 8 && |s| == 32 && Packed(r, s, 8)
    ensures Val(r) == BeVal(s)
  {
    assert r[..8] == r && s[0..] == s;
  }

  lemma PackedNone(r: seq<u32>, s: seq<u8>)
    ensures Packed(r, s, 0)
  {
    NoBytes();
    assert r[..0] == [] && s[|s|..] == [];
  }

  /** r := the big-endian integer at b[off..off+32]. */
  method BeToFe(r: array<u32>, b: array<u8>, off: nat)
    requires r.Length == 8 && off + 32 <= b.Length
    modifies r
    ensures Val(r[..]) == BeVal(b[off..off + 32])
  {
    hide Val, BeVal, Pack, Packed;
    ghost var vb := b[off..off + 32];
    PackedNone(r[..], vb);
    for i := 0 to 8
      invariant b[off..off + 32] == vb
      invariant Packed(r[..], vb, i)
    {
      var q := off + (7 - i) * 4;
      assert vb[28 - 4 * i] == b[q] && vb[29 - 4 * i] == b[q + 1] && vb[30 - 4 * i] == b[q + 2] && vb[31 - 4 * i] == b[q + 3];
      ghost var r0 := r[..];
      r[i] := Pack(b[q], b[q + 1], b[q + 2], b[q + 3]);
      ghost var x: u32 := r[i];
      assert r[..] == r0[i := x];
      PackedLimb(r0, vb, i, x);
    }
    PackedAll(r[..], vb);
  }

  /** A word's octets, the most significant first. */
  function WordOctets(x: u32): (s: seq<u8>)
    ensures |s| == 4
  {
    [x / 0x100_0000, x / 0x1_0000 % 0x100, x / 0x100 % 0x100, x % 0x100]
  }

  lemma WordBytes(x: u32)
    ensures BeVal(WordOctets(x)) == x
  {
    hide BeVal;
    BeWord(WordOctets(x));
    WordDigits(x);
  }

  /** b[q..q+4] := the octets of x. */
  method UnpackWord(b: array<u8>, q: nat, x: u32)
    requires q + 4 <= b.Length
    modifies b
    ensures b[q..q + 4] == WordOctets(x)
    ensures forall k :: 0 <= k < b.Length && !(q <= k < q + 4) ==> b[k] == old(b[k])
  {
    b[q], b[q + 1], b[q + 2], b[q + 3] := x / 0x100_0000, x / 0x1_0000 % 0x100, x / 0x100 % 0x100, x % 0x100;
  }

  lemma WordDigits(x: u32)
    ensures x / 0x100_0000 * 0x100_0000 + x / 0x1_0000 % 0x100 * 0x1_0000 + x / 0x100 % 0x100 * 0x100 + x % 0x100 == x
  {
    var a, b := x / 0x100, x / 0x1_0000;
    assert b == a / 0x100 && x / 0x100_0000 == b / 0x100;
  }

  /** b[off..off+32] := a as a big-endian integer. */
  method FeToBe(b: array<u8>, off: nat, a: array<u32>)
    requires a.Length == 8 && off + 32 <= b.Length
    modifies b
    ensures BeVal(b[off..off + 32]) == Val(a[..])
    ensures b[..off] == old(b[..off]) && b[off + 32..] == old(b[off + 32..])
  {
    hide Val, BeVal, Packed, WordOctets;
    ghost var va := a[..];
    PackedNone(va, b[off..off + 32]);
    for i := 0 to 8
      invariant a[..] == va
      invariant forall k :: 0 <= k < b.Length && !(off <= k < off + 32) ==> b[k] == old(b[k])
      invariant Packed(va, b[off..off + 32], i)
    {
      var q := off + (7 - i) * 4;
      ghost var b0 := b[..];
      UnpackWord(b, q, a[i]);
      UnpackedAt(va, b0, b[..], off, i);
    }
    PackedAll(va, b[off..off + 32]);
  }

  lemma UnpackedAt(a: seq<u32>, b0: seq<u8>, b: seq<u8>, off: nat, i: nat)
    requires |a| == 8 && i < 8 && |b| == |b0| && off + 32 <= |b| && Packed(a, b0[off..off + 32], i)
    requires var q := off + 28 - 4 * i;
      b[q..q + 4] == WordOctets(a[i]) && forall k :: 0 <= k < |b| && !(q <= k < q + 4) ==> b[k] == b0[k]
    ensures Packed(a, b[off..off + 32], i + 1)
  {
    hide Packed, WordOctets;
    var s0, s1 := b0[off..off + 32], b[off..off + 32];
    SliceOfSlice(b, off, off + 32, 28 - 4 * i, 32 - 4 * i);
    assert s1[32 - 4 * i..] == s0[32 - 4 * i..];
    UnpackedLimb(a, s0, s1, i);
  }

  lemma UnpackedLimb(a: seq<u32>, s0: seq<u8>, s1: seq<u8>, i: nat)
    requires i < |a| && |s0| == |s1| == 32 && i < 8 && Packed(a, s0, i)
    requires s1[32 - 4 * i..] == s0[32 - 4 * i..]
    requires s1[28 - 4 * i..32 - 4 * i] == WordOctets(a[i])
    ensures Packed(a, s1, i + 1)
  {
    hide Val, BeVal, WordOctets;
    var t := s1[28 - 4 * i..];
    assert t[..4] == s1[28 - 4 * i..32 - 4 * i] && t[4..] == s1[32 - 4 * i..];
    WordBytes(a[i]);
    LimbBytes(t, a, i);
  }
}
