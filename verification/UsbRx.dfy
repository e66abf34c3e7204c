/**
 Receive transfers: the framing of one DMA segment, and the splitting of a transfer that carries
 several of them back to back.
 */
module UsbRx {
  import opened Words
  import opened Wrappers

  type Octets = seq<u8>

  const HDRS := 8
  const HDR_LEN := 4
  const RXWI_SIZE := 28
  const MIN_SEG := 40
  const LEN_MASK := 0x3fff
  const PKT_INFO_80211 := 0x0008_0000

  function RoundUp4(x: nat): (r: nat)
    ensures r % 4 == 0 && x <= r < x + 4
  {
    (x + 3) / 4 * 4
  }

  function Zeros(n: nat): (z: Octets)
    ensures |z| == n
  {
    seq(n, _ => 0)
  }

  function PutLe32(v: u32): (b: Octets)
    ensures |b| == 4
  {
    [v % 0x100, v / 0x100 % 0x100, v / 0x1_0000 % 0x100, v / 0x100_0000]
  }

  /** The first two octets, as the 16-bit length field. */
  function GetLe16(s: Octets): (v: nat)
    requires |s| >= 2
  {
    (s[0] as int) + 0x100 * (s[1] as int)
  }

  // ---------- one segment ----------

  function DmaLen(rxwi: Octets, payload: Octets): (n: nat)
    ensures n % 4 == 0 && |rxwi| + |payload| <= n
  {
    RoundUp4(|rxwi| + |payload|)
  }

  /** The flag and the 14-bit length share no bits, so joining them is adding them. */
  function WrapBytes(rxwi: Octets, payload: Octets): (s: Octets)
    requires DmaLen(rxwi, payload) <= LEN_MASK
    ensures |s| == HDRS + DmaLen(rxwi, payload)
  {
    var n := DmaLen(rxwi, payload);
    PutLe32(PKT_INFO_80211 + n) + rxwi + payload + Zeros(n - |rxwi| - |payload|) + Zeros(4)
  }

  function LittleEndian(a: int, b: int, c: int, d: int): int {
    a + 0x100 * b + 0x1_0000 * c + 0x100_0000 * d
  }

  /** A segment octet by octet: the length and a flag, least significant first; descriptor, payload, zeros. */
  lemma WrapLayout(rxwi: Octets, payload: Octets)
    requires DmaLen(rxwi, payload) <= LEN_MASK
    ensures var s, n := WrapBytes(rxwi, payload), DmaLen(rxwi, payload);
      && LittleEndian(s[0], s[1], s[2], s[3]) == 0x8_0000 + n
      && s[4..4 + |rxwi|] == rxwi && s[4 + |rxwi|..4 + |rxwi| + |payload|] == payload
      && forall i :: 4 + |rxwi| + |payload| <= i < |s| ==> s[i] == 0
  {
    hide DmaLen;
    var s, n := WrapBytes(rxwi, payload), DmaLen(rxwi, payload);
    LengthWord(PKT_INFO_80211 + n);
    assert s[..4] == PutLe32(PKT_INFO_80211 + n);
  }

  lemma LengthWord(v: u32)
    ensures var b := PutLe32(v); LittleEndian(b[0], b[1], b[2], b[3]) == v
  {
    var q := v / 0x100;
    var r := q / 0x100;
    assert v / 0x1_0000 == r && v / 0x100_0000 == r / 0x100;
    assert v == 0x100 * q + v % 0x100 && q == 0x100 * r + q % 0x100 && r == 0x100 * (r / 0x100) + r % 0x100;
  }

  function Wrap(rxwi: Octets, payload: Octets, cap: nat): Option<Octets> {
    if DmaLen(rxwi, payload) > LEN_MASK || HDRS + DmaLen(rxwi, payload) > cap then None
    else Some(WrapBytes(rxwi, payload))
  }

  /** Descriptor and payload of a segment, if its length field is sound. */
  function Unwrap(s: Octets): Option<(Octets, Octets)> {
    if |s| < MIN_SEG then None
    else
      var n := GetLe16(s);
      if n == 0 || n + HDRS > |s| || n % 4 != 0 || n < MIN_SEG then None
      else Some((s[HDR_LEN..HDR_LEN + RXWI_SIZE], s[HDR_LEN + RXWI_SIZE..HDR_LEN + n]))
  }

  lemma WrappedLen(rxwi: Octets, payload: Octets, rest: Octets)
    requires DmaLen(rxwi, payload) <= LEN_MASK
    ensures GetLe16(WrapBytes(rxwi, payload) + rest) == DmaLen(rxwi, payload)
  {
  }

  /** Unwrapping a wrapped segment returns the descriptor, and the payload padded to four octets. */
  lemma UnwrapUndoesWrap(rxwi: Octets, payload: Octets)
    requires |rxwi| == RXWI_SIZE && MIN_SEG <= DmaLen(rxwi, payload) <= LEN_MASK
    ensures Unwrap(WrapBytes(rxwi, payload))
         == Some((rxwi, payload + Zeros(DmaLen(rxwi, payload) - RXWI_SIZE - |payload|)))
  {
    hide PutLe32, GetLe16, Zeros, RoundUp4;
    var s, n := WrapBytes(rxwi, payload), DmaLen(rxwi, payload);
    WrappedLen(rxwi, payload, []);
    assert s + [] == s;
    assert s[4..32] == rxwi;
    assert s[32..4 + n] == payload + Zeros(n - RXWI_SIZE - |payload|);
  }

  // ---------- a transfer ----------

  /** The length of the segment at the front, if there is a whole one. */
  function FrontLen(s: Octets): (r: Option<nat>)
    ensures r.Some? ==> HDRS < r.value <= |s|
  {
    if |s| < HDRS then None
    else
      var n := GetLe16(s);
      if n == 0 || n % 4 != 0 || HDRS + n > |s| then None else Some(HDRS + n)
  }

  function SplitAll(s: Octets): seq<Octets>
    decreases |s|
  {
    var n := FrontLen(s);
    if n.None? then [] else [s[..n.value]] + SplitAll(s[n.value..])
  }

  /** The segments handed on; a transfer shorter than the smallest segment carries none. */
  function Split(s: Octets): seq<Octets> {
    if |s| < MIN_SEG then [] else SplitAll(s)
  }

  function Concat(segs: seq<Octets>): Octets {
    if segs == [] then [] else segs[0] + Concat(segs[1..])
  }

  datatype Packet = Packet(rxwi: Octets, payload: Octets)

  ghost predicate Framed(p: Packet) {
    |p.rxwi| == RXWI_SIZE && MIN_SEG <= DmaLen(p.rxwi, p.payload) <= LEN_MASK
  }

  /** The segments of a list of packets. */
  ghost function Segments(ps: seq<Packet>): (segs: seq<Octets>)
    requires forall i :: 0 <= i < |ps| ==> Framed(ps[i])
    ensures |segs| == |ps|
  {
    seq(|ps|, i requires 0 <= i < |ps| && Framed(ps[i]) => WrapBytes(ps[i].rxwi, ps[i].payload))
  }

  /** What may follow the last segment: less than a header, or a zero length. */
  ghost predicate Terminates(tail: Octets) {
    |tail| < HDRS || (tail[0] == 0 && tail[1] == 0)
  }

  lemma FrontIsSegment(p: Packet, rest: Octets)
    requires Framed(p)
    ensures FrontLen(WrapBytes(p.rxwi, p.payload) + rest) == Some(|WrapBytes(p.rxwi, p.payload)|)
  {
  }

  lemma {:induction false} SplitsAll(ps: seq<Packet>, tail: Octets)
    requires (forall i :: 0 <= i < |ps| ==> Framed(ps[i])) && Terminates(tail)
    ensures SplitAll(Concat(Segments(ps)) + tail) == Segments(ps)
  {
    hide WrapBytes, FrontLen, Framed;
    var segs := Segments(ps);
    if ps == [] {
      assert Concat(segs) + tail == tail;
      NothingMore(tail);
    } else {
      var rest := Concat(segs[1..]) + tail;
      assert segs[1..] == Segments(ps[1..]);
      assert Concat(segs) + tail == segs[0] + rest;
      FrontIsSegment(ps[0], rest);
      SplitsAll(ps[1..], tail);
      assert (segs[0] + rest)[..|segs[0]|] == segs[0] && (segs[0] + rest)[|segs[0]|..] == rest;
    }
  }

  lemma NothingMore(tail: Octets)
    requires Terminates(tail)
    ensures FrontLen(tail) == None
  {
  }

  lemma LongEnough(ps: seq<Packet>, tail: Octets)
    requires ps != [] && forall i :: 0 <= i < |ps| ==> Framed(ps[i])
    ensures |Concat(Segments(ps)) + tail| >= MIN_SEG
  {
  }

  /**
   Splitting a transfer undoes concatenation: for every non-empty list of packets and every
   terminating tail the segments come out in order, and each unwraps to its packet's descriptor and
   padded payload.
   */
  lemma SplitUndoesConcat(ps: seq<Packet>, tail: Octets)
    requires ps != [] && (forall i :: 0 <= i < |ps| ==> Framed(ps[i])) && Terminates(tail)
    ensures Split(Concat(Segments(ps)) + tail) == Segments(ps)
    ensures forall i :: 0 <= i < |ps| ==>
      Unwrap(Segments(ps)[i]) == Some((ps[i].rxwi,
        ps[i].payload + Zeros(DmaLen(ps[i].rxwi, ps[i].payload) - RXWI_SIZE - |ps[i].payload|)))
  {
    hide SplitAll, Concat, WrapBytes, Unwrap, RoundUp4;
    SplitsAll(ps, tail);
    LongEnough(ps, tail);
    forall i | 0 <= i < |ps|
      ensures Unwrap(Segments(ps)[i]) == Some((ps[i].rxwi,
        ps[i].payload + Zeros(DmaLen(ps[i].rxwi, ps[i].payload) - RXWI_SIZE - |ps[i].payload|)))
    {
      UnwrapUndoesWrap(ps[i].rxwi, ps[i].payload);
    }
  }

  // ---------- the routines ----------

  /** The segment in out and its length, or 0 when the length field or the buffer is too small. */
  method RxWrap(out: array<u8>, rxwi: Octets, payload: Octets) returns (total: nat)
    modifies out
    ensures match Wrap(rxwi, payload, out.Length)
      case None => total == 0 && out[..] == old(out[..])
      case Some(s) => total == |s| && out[..total] == s && out[total..] == old(out[total..])
  {
    hide RoundUp4, PutLe32;
    var n := RoundUp4(|rxwi| + |payload|);
    total := 0;
    if n > LEN_MASK {
      return;
    }
    if HDRS + n > out.Length {
      return;
    }
    total := HDRS + n;
    var head := PutLe32(PKT_INFO_80211 + n);
    var k := |rxwi|;
    forall i | 0 <= i < total {
      out[i] := if i < 4 then head[i]
                else if i < 4 + k then rxwi[i - 4]
                else if i < 4 + k + |payload| then payload[i - 4 - k]
                else 0;
    }
    WrittenOut(out[..total], rxwi, payload);
  }

  lemma WrittenOut(s: Octets, rxwi: Octets, payload: Octets)
    requires DmaLen(rxwi, payload) <= LEN_MASK && |s| == HDRS + DmaLen(rxwi, payload)
    requires forall i :: 0 <= i < 4 ==> s[i] == PutLe32(PKT_INFO_80211 + DmaLen(rxwi, payload))[i]
    requires forall i :: 4 <= i < 4 + |rxwi| ==> s[i] == rxwi[i - 4]
    requires forall i :: 4 + |rxwi| <= i < 4 + |rxwi| + |payload| ==> s[i] == payload[i - 4 - |rxwi|]
    requires forall i :: 4 + |rxwi| + |payload| <= i < |s| ==> s[i] == 0
    ensures s == WrapBytes(rxwi, payload)
  {
  }

  /** Walks the transfer and queues a copy of every segment. */
  method RxComplete(buf: Octets) returns (queue: seq<Octets>)
    ensures queue == Split(buf)
  {
    hide GetLe16;
    queue := [];
    if |buf| < MIN_SEG {
      return;
    }
    var off := 0;
    assert buf[0..] == buf;
    while off + HDRS <= |buf|
      invariant off <= |buf| && SplitAll(buf) == queue + SplitAll(buf[off..])
      decreases |buf| - off
    {
      var n := GetLe16(buf[off..]);
      var len := HDRS + n;
      if n == 0 || n % 4 != 0 || off + len > |buf| {
        break;
      }
      assert buf[off..][..len] == buf[off..off + len] && buf[off..][len..] == buf[off + len..];
      queue := queue + [buf[off..off + len]];
      off := off + len;
    }
    assert SplitAll(buf[off..]) == [];
  }
}
