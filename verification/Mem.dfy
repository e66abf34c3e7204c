/**
 Byte buffers: copying between distinct arrays and the comparison without an early exit.
 */
module Mem {

  /** dst[d..d+n] := src[s..s+n], for distinct arrays. */
  method Copy(dst: array<bv8>, d: nat, src: array<bv8>, s: nat, n: nat)
    requires d + n <= dst.Length && s + n <= src.Length && dst != src
    modifies dst
    ensures dst[d..d + n] == src[s..s + n]
    ensures dst[..d] == old(dst[..d]) && dst[d + n..] == old(dst[d + n..])
  {
    forall i | 0 <= i < n {
      dst[d + i] := src[s + i];
    }
  }

  lemma OrXor(d: bv8, x: bv8, y: bv8)
    ensures d | (x ^ y) == 0 <==> d == 0 && x == y
  {
  }

  /** Compares n octets without an early exit. */
  method ConstantTimeEq(a: array<bv8>, b: seq<bv8>) returns (e: bool)
    requires a.Length == |b|
    ensures e <==> a[..] == b
  {
    var diff: bv8 := 0;
    for i := 0 to a.Length
      invariant diff == 0 <==> a[..i] == b[..i]
    {
      OrXor(diff, a[i], b[i]);
      diff := diff | (a[i] ^ b[i]);
      assert a[..i + 1] == a[..i] + [a[i]] && b[..i + 1] == b[..i] + [b[i]];
    }
    e := diff == 0;
    assert a[..a.Length] == a[..] && b[..a.Length] == b;
  }

  // ---------- buffers written at a moving offset ----------

  /** The buffer out after src has been laid down at offset o. */
  ghost predicate Laid(out: seq<bv8>, out0: seq<bv8>, src: seq<bv8>) {
    |src| <= |out0| && out == src + out0[|src|..]
  }

  /** One more copy at the current offset extends what has been laid down. */
  method Append(out: array<bv8>, o: nat, src: array<bv8>, s: nat, n: nat, ghost out0: seq<bv8>, ghost done: seq<bv8>)
    requires out != src && |done| == o && |out0| == out.Length && o + n <= out.Length && s + n <= src.Length
    requires Laid(out[..], out0, done)
    modifies out
    ensures Laid(out[..], out0, done + src[s..s + n])
  {
    Copy(out, o, src, s, n);
    assert out[..] == out[..o] + out[o..o + n] + out[o + n..];
  }

  method AppendByte(out: array<bv8>, o: nat, b: bv8, ghost out0: seq<bv8>, ghost done: seq<bv8>)
    requires |done| == o && |out0| == out.Length && o < out.Length
    requires Laid(out[..], out0, done)
    modifies out
    ensures Laid(out[..], out0, done + [b])
  {
    out[o] := b;
    assert out[..] == out[..o] + [out[o]] + out[o + 1..];
  }

  method AppendSeq(out: array<bv8>, o: nat, src: seq<bv8>, ghost out0: seq<bv8>, ghost done: seq<bv8>)
    requires |done| == o && |out0| == out.Length && o + |src| <= out.Length
    requires Laid(out[..], out0, done)
    modifies out
    ensures Laid(out[..], out0, done + src)
  {
    forall i | 0 <= i < |src| {
      out[o + i] := src[i];
    }
    assert out[..] == out[..o] + out[o..o + |src|] + out[o + |src|..];
  }

  lemma LaidNothing(a0: seq<bv8>)
    ensures Laid(a0, a0, [])
  {
  }

  lemma LaidPrefix(a: seq<bv8>, a0: seq<bv8>, d: seq<bv8>)
    requires Laid(a, a0, d)
    ensures |d| <= |a| == |a0| && a[..|d|] == d && a[|d|..] == a0[|d|..]
  {
  }
}
