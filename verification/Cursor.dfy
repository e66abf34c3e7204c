/**
 The sticky-error read cursor: once a read runs past the end, every later one fails too.
 */
module Cursor {
  import opened Wrappers

  function Le16(v: bv16): (b: seq<bv8>)
    ensures |b| == 2
  {
    [(v & 0xff) as bv8, (v >> 8) as bv8]
  }

  function FromLe16(b: seq<bv8>): bv16
    requires |b| == 2
  {
    (b[0] as bv16) | ((b[1] as bv16) << 8)
  }

  function Le32(v: bv32): (b: seq<bv8>)
    ensures |b| == 4
  {
    [(v & 0xff) as bv8, ((v >> 8) & 0xff) as bv8, ((v >> 16) & 0xff) as bv8, (v >> 24) as bv8]
  }

  function FromLe32(b: seq<bv8>): bv32
    requires |b| == 4
  {
    (b[0] as bv32) | ((b[1] as bv32) << 8) | ((b[2] as bv32) << 16) | ((b[3] as bv32) << 24)
  }

  lemma Le16RoundTrip(v: bv16)
    ensures FromLe16(Le16(v)) == v
  {
  }

  lemma Le32RoundTrip(v: bv32)
    ensures FromLe32(Le32(v)) == v
  {
  }

  /** The first octet weighs least; the sums do not overflow. */
  lemma LeValues(b: seq<bv8>, c: seq<bv8>)
    requires |b| == 2 && |c| == 4
    ensures FromLe16(b) == b[0] as bv16 + 0x100 * (b[1] as bv16)
    ensures FromLe32(c) == c[0] as bv32 + 0x100 * (c[1] as bv32) + 0x1_0000 * (c[2] as bv32) + 0x100_0000 * (c[3] as bv32)
  {
  }

  class Reader {
    const p: seq<bv8>
    var pos: nat
    var err: bool

    ghost predicate Valid()
      reads this
    {
      pos <= |p|
    }

    /** What is left to read. */
    ghost function Rest(): seq<bv8>
      requires Valid()
      reads this
    {
      p[pos..]
    }

    constructor (p: seq<bv8>)
      ensures Valid() && !err && pos == 0 && this.p == p
    {
      this.p, pos, err := p, 0, false;
    }

    method Remaining() returns (n: nat)
      requires Valid()
      ensures n == if err then 0 else |p| - pos
    {
      n := if err then 0 else |p| - pos;
    }

    /** The next n octets, or an error from here on. */
    method Bytes(n: nat) returns (q: Option<seq<bv8>>)
      requires Valid()
      modifies this
      ensures Valid() && err == (old(err) || old(pos) + n > |p|)
      ensures if err then q == None && pos == old(pos) else pos == old(pos) + n && q == Some(p[old(pos)..pos])
    {
      if err || n > |p| - pos {
        err := true;
        return None;
      }
      q := Some(p[pos..pos + n]);
      pos := pos + n;
    }

    method U8() returns (v: bv8)
      requires Valid()
      modifies this
      ensures Valid() && err == (old(err) || old(pos) + 1 > |p|)
      ensures if err then pos == old(pos) else pos == old(pos) + 1 && v == p[old(pos)]
    {
      var q := Bytes(1);
      v := if q.Some? then q.value[0] else 0;
    }

    method U16() returns (v: bv16)
      requires Valid()
      modifies this
      ensures Valid() && err == (old(err) || old(pos) + 2 > |p|)
      ensures if err then pos == old(pos) else pos == old(pos) + 2 && v == FromLe16(p[old(pos)..pos])
    {
      hide FromLe16;
      var q := Bytes(2);
      v := if q.Some? then FromLe16(q.value) else 0;
    }

    method U32() returns (v: bv32)
      requires Valid()
      modifies this
      ensures Valid() && err == (old(err) || old(pos) + 4 > |p|)
      ensures if err then pos == old(pos) else pos == old(pos) + 4 && v == FromLe32(p[old(pos)..pos])
    {
      hide FromLe32;
      var q := Bytes(4);
      v := if q.Some? then FromLe32(q.value) else 0;
    }
  }
}
