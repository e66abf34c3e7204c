/**
 The CCMP routines: building the authenticated data and nonce at a moving offset, enciphering a
 frame into an output buffer, deciphering one, each shown to compute the framing of module Ccmp.
 */
module CcmpFrame {
  import opened Aes
  import opened Mem
  import opened Ccm
  import opened CcmLoop
  import opened Ccmp
  import opened Replay

  ghost function NoncePn(pn: bv64): seq<bv8> {
    [PnByte(pn, 5), PnByte(pn, 4), PnByte(pn, 3), PnByte(pn, 2), PnByte(pn, 1), PnByte(pn, 0)]
  }

  /** The packet number at octets 7 to 12, most significant first. */
  method WritePn(nonce: array<bv8>, pn: bv64)
    requires nonce.Length == 13
    modifies nonce
    ensures nonce[..] == old(nonce[..7]) + NoncePn(pn)
  {
    hide PnByte;
    ghost var front := nonce[..7];
    nonce[7], nonce[8], nonce[9] := PnByte(pn, 5), PnByte(pn, 4), PnByte(pn, 3);
    nonce[10], nonce[11], nonce[12] := PnByte(pn, 2), PnByte(pn, 1), PnByte(pn, 0);
    assert nonce[..7] == front;
    PnLaid(nonce[..], pn);
  }

  lemma PnLaid(n: seq<bv8>, pn: bv64)
    requires |n| == 13 && n[7] == PnByte(pn, 5) && n[8] == PnByte(pn, 4) && n[9] == PnByte(pn, 3)
    requires n[10] == PnByte(pn, 2) && n[11] == PnByte(pn, 1) && n[12] == PnByte(pn, 0)
    ensures n == n[..7] + NoncePn(pn)
  {
    hide PnByte;
  }

  method WriteNonce(nonce: array<bv8>, f: array<bv8>, pn: bv64)
    requires nonce.Length == 13 && f.Length >= 32 && nonce != f
    modifies nonce
    ensures nonce[..] == NonceOf(f[..], pn)
  {
    hide IsQosData, IsMgmt, HasA4, QosControl, PnByte, NoncePn, NonceOf;
    var prio: bv8 := 0;
    if IsQosData(f[..]) {
      prio := QosControl(f[..]);
    }
    nonce[0] := prio | (if IsMgmt(f[..]) then 0x10 else 0);
    ghost var b := nonce[0];
    Copy(nonce, 1, f, 10, 6);
    FrontSeven(nonce[..], b, f[10..16]);
    WritePn(nonce, pn);
    NonceParts(f[..], pn, b);
  }

  lemma FrontSeven(n: seq<bv8>, b: bv8, a2: seq<bv8>)
    requires |n| == 13 && |a2| == 6 && n[..1] == [b] && n[1..7] == a2
    ensures n[..7] == [b] + a2
  {
  }

  lemma NonceParts(f: seq<bv8>, pn: bv64, b: bv8)
    requires |f| >= 32 && b == (if IsQosData(f) then QosControl(f) else 0) | (if IsMgmt(f) then 0x10 else 0)
    ensures [b] + f[10..16] + NoncePn(pn) == NonceOf(f, pn)
  {
  }

  /** A1, A2 and A3, copied one after the other. */
  method AppendAddresses(aad: array<bv8>, f: array<bv8>, ghost a0: seq<bv8>, ghost d: seq<bv8>)
    requires aad.Length == |a0| == 30 && f.Length >= 32 && aad != f && |d| == 2 && Laid(aad[..], a0, d)
    modifies aad
    ensures Laid(aad[..], a0, d + f[4..22])
  {
    hide Laid;
    Append(aad, 2, f, 4, 6, a0, d);
    Append(aad, 8, f, 10, 6, a0, d + f[4..10]);
    Append(aad, 14, f, 16, 6, a0, d + f[4..10] + f[10..16]);
    ThreeSlices(d, f[..]);
  }

  lemma ThreeSlices(d: seq<bv8>, f: seq<bv8>)
    requires |f| >= 22
    ensures d + f[4..10] + f[10..16] + f[16..22] == d + f[4..22]
  {
  }

  method WriteFront(aad: array<bv8>, f: array<bv8>) returns (o: nat)
    requires aad.Length == 30 && f.Length >= 32 && aad != f
    modifies aad
    ensures o == 22 && Laid(aad[..], old(aad[..]), AadFront(f[..]))
  {
    hide IsMgmt, Laid, AadFront;
    ghost var a0 := aad[..];
    LaidNothing(a0);
    var fc0 := if IsMgmt(f[..]) then f[0] else f[0] & 0x8f;
    var fc1, sc := f[1] & 0xc7, f[22] & 0x0f;
    AppendByte(aad, 0, fc0, a0, []);
    AppendByte(aad, 1, fc1, a0, [] + [fc0]);
    AppendAddresses(aad, f, a0, [] + [fc0] + [fc1]);
    AppendByte(aad, 20, sc, a0, [] + [fc0] + [fc1] + f[4..22]);
    AppendByte(aad, 21, 0, a0, [] + [fc0] + [fc1] + f[4..22] + [sc]);
    FrontParts(f[..], fc0, fc1, sc);
    o := 22;
  }

  lemma FrontParts(f: seq<bv8>, fc0: bv8, fc1: bv8, sc: bv8)
    requires |f| >= 32 && fc0 == (if IsMgmt(f) then f[0] else f[0] & 0x8f) && fc1 == f[1] & 0xc7 && sc == f[22] & 0x0f
    ensures [] + [fc0] + [fc1] + f[4..22] + [sc] + [0] == AadFront(f)
  {
  }

  method BuildAadNonce(f: array<bv8>, pn: bv64, aad: array<bv8>, nonce: array<bv8>) returns (o: nat)
    requires f.Length >= 32 && aad.Length == 30 && nonce.Length == 13
    requires f != aad && f != nonce && aad != nonce
    modifies aad, nonce
    ensures o <= 30 && aad[..o] == AadOf(f[..]) && nonce[..] == NonceOf(f[..], pn)
  {
    hide IsQosData, IsMgmt, HasA4, QosControl, NonceOf, Laid, AadFront;
    WriteNonce(nonce, f, pn);
    ghost var n, a0 := nonce[..], aad[..];
    o := WriteFront(aad, f);
    ghost var d := AadFront(f[..]);
    if HasA4(f[..]) {
      Append(aad, o, f, 24, 6, a0, d);
      o, d := o + 6, d + f[24..30];
    }
    if IsQosData(f[..]) {
      AppendByte(aad, o, QosControl(f[..]), a0, d);
      AppendByte(aad, o + 1, 0, a0, d + [QosControl(f[..])]);
      o, d := o + 2, d + [QosControl(f[..])] + [0];
    }
    AadParts(f[..], d);
    LaidPrefix(aad[..], a0, d);
    assert nonce[..] == n;
  }

  lemma AadParts(f: seq<bv8>, d: seq<bv8>)
    requires |f| >= 32
    requires d == (if IsQosData(f) then (if HasA4(f) then AadFront(f) + f[24..30] else AadFront(f)) + [QosControl(f)] + [0]
                   else if HasA4(f) then AadFront(f) + f[24..30] else AadFront(f))
    ensures d == AadOf(f)
  {
  }

  // ---------- enciphering a frame ----------

  method WriteHeader(out: array<bv8>, hdr: array<bv8>, ghost out0: seq<bv8>)
    requires out != hdr && 24 <= hdr.Length <= out.Length && out[..] == out0
    modifies out
    ensures Laid(out[..], out0, Protect(hdr[..]))
  {
    Copy(out, 0, hdr, 0, hdr.Length);
    ghost var copied := out[..];
    out[1] := out[1] | 0x40;
    assert out[..] == copied[1 := copied[1] | 0x40];
    ProtectLaid(out[..], copied, out0, hdr[..]);
  }

  lemma ProtectLaid(out: seq<bv8>, copied: seq<bv8>, out0: seq<bv8>, hdr: seq<bv8>)
    requires 24 <= |hdr| <= |copied| == |out0| && copied[..|hdr|] == hdr && copied[|hdr|..] == out0[|hdr|..]
    requires out == copied[1 := copied[1] | 0x40]
    ensures Laid(out, out0, Protect(hdr))
  {
  }

  method WriteCcmpHeader(out: array<bv8>, o: nat, keyId: bv8, pn: bv64, ghost out0: seq<bv8>, ghost d: seq<bv8>)
    requires |d| == o && |out0| == out.Length && o + 8 <= out.Length && Laid(out[..], out0, d)
    modifies out
    ensures Laid(out[..], out0, d + CcmpHeader(pn, keyId))
  {
    hide Laid, PnByte, CcmpHeader;
    var ch := new bv8[8];
    ch[0], ch[1], ch[2], ch[3] := PnByte(pn, 0), PnByte(pn, 1), 0x00, 0x20 | ((keyId & 0x3) << 6);
    ch[4], ch[5], ch[6], ch[7] := PnByte(pn, 2), PnByte(pn, 3), PnByte(pn, 4), PnByte(pn, 5);
    CcmpHeaderIs(ch[..], pn, keyId);
    Append(out, o, ch, 0, 8, out0, d);
    assert ch[0..8] == ch[..];
  }

  lemma CcmpHeaderIs(ch: seq<bv8>, pn: bv64, keyId: bv8)
    requires |ch| == 8 && ch[0] == PnByte(pn, 0) && ch[1] == PnByte(pn, 1) && ch[2] == 0
    requires ch[3] == 0x20 | ((keyId & 0x3) << 6) && ch[4] == PnByte(pn, 2) && ch[5] == PnByte(pn, 3)
    requires ch[6] == PnByte(pn, 4) && ch[7] == PnByte(pn, 5)
    ensures ch == CcmpHeader(pn, keyId)
  {
  }

  lemma LaidFront(out: seq<bv8>, out0: seq<bv8>, front: seq<bv8>, pn: bv64)
    requires |front| >= 32 && Laid(out, out0, front)
    ensures |out| >= 32 && NonceOf(out, pn) == NonceOf(front, pn) && AadOf(out) == AadOf(front)
  {
    hide NonceOf, AadOf;
    assert out[..32] == front[..32];
    HeaderDecides(out, front, pn);
  }

  /** Replacing the middle of what is laid down. */
  lemma LaidMiddle(out: seq<bv8>, out': seq<bv8>, out0: seq<bv8>, front: seq<bv8>, p: seq<bv8>, c: seq<bv8>)
    requires Laid(out, out0, front + p) && |c| == |p|
    requires |out| >= |front| + |p| && out' == out[..|front|] + c + out[|front| + |p|..]
    ensures out[|front|..|front| + |p|] == p && Laid(out', out0, front + c)
  {
  }

  /** Enciphers and tags the payload that has been laid down after the front of the frame. */
  method SealInPlace(out: array<bv8>, w: array<bv32>, nonce: Nonce, aad: seq<bv8>, off: nat, len: nat,
                     ghost out0: seq<bv8>, ghost front: seq<bv8>, ghost payload: seq<bv8>)
    requires w.Length == 44 && |front| == off && |payload| == len && |out0| == out.Length && off + len + 8 <= out.Length
    requires Laid(out[..], out0, front + payload)
    modifies out
    ensures Laid(out[..], out0, front + Seal(w[..], nonce, aad, payload))
  {
    hide Laid, Ctr, Tag;
    var mic := new bv8[8];
    ghost var out1, c := out[..], Ctr(w[..], nonce, payload);
    LaidMiddle(out1, out1[..off] + c + out1[off + len..], out0, front, payload, c);
    AesCcm(w, nonce, aad, out, off, len, true, mic);
    Append(out, off + len, mic, 0, 8, out0, front + c);
    assert mic[0..8] == mic[..];
    assert front + c + mic[..] == front + (c + mic[..]);
  }

  /**
   Builds the protected frame in out: 0 and nothing written when the buffer is too small or the
   header too short, otherwise the encapsulation and its length, the rest of out being untouched.
   */
  method CcmpEncrypt(out: array<bv8>, hdr: array<bv8>, payload: array<bv8>, w: array<bv32>, keyId: bv8, pn: bv64)
    returns (total: nat)
    requires w.Length == 44 && out != hdr && out != payload
    modifies out
    ensures hdr.Length < 24 || hdr.Length + 8 + payload.Length + 8 > out.Length ==>
      total == 0 && out[..] == old(out[..])
    ensures !(hdr.Length < 24 || hdr.Length + 8 + payload.Length + 8 > out.Length) ==>
      && total == hdr.Length + 8 + payload.Length + 8
      && out[..total] == Encapsulate(w[..], hdr[..], payload[..], keyId, pn)
      && out[total..] == old(out[total..])
  {
    hide Laid, Protect, CcmpHeader, NonceOf, AadOf, Seal;
    total := hdr.Length + 8 + payload.Length + 8;
    if total > out.Length || hdr.Length < 24 {
      return 0;
    }
    ghost var out0, h, p := out[..], Protect(hdr[..]), payload[..];
    WriteHeader(out, hdr, out0);
    WriteCcmpHeader(out, hdr.Length, keyId, pn, out0, h);
    ghost var front := h + CcmpHeader(pn, keyId);
    LaidFront(out[..], out0, front, pn);
    var aad, nonce := new bv8[30], new bv8[13];
    var aadLen := BuildAadNonce(out, pn, aad, nonce);
    Append(out, hdr.Length + 8, payload, 0, payload.Length, out0, front);
    assert payload[0..payload.Length] == p;
    SealInPlace(out, w, nonce[..], aad[..aadLen], hdr.Length + 8, payload.Length, out0, front, p);
    LaidPrefix(out[..], out0, Encapsulate(w[..], hdr[..], p, keyId, pn));
  }

  // ---------- deciphering a frame ----------

  /** Deciphers the body of a frame into out and checks its tag; on failure the body is wiped. */
  method OpenBody(out: array<bv8>, w: array<bv32>, nonce: Nonce, aad: seq<bv8>, s: seq<bv8>, pn: bv64) returns (ok: bool)
    requires w.Length == 44 && 8 <= |s| <= out.Length + 8
    modifies out
    ensures ok <==> Unseal(w[..], nonce, aad, pn, s).Accepted?
    ensures ok ==> out[..|s| - 8] == Unseal(w[..], nonce, aad, pn, s).payload
    ensures !ok ==> forall i :: 0 <= i < |s| - 8 ==> out[i] == 0
    ensures out[|s| - 8..] == old(out[|s| - 8..])
  {
    hide Ctr, Tag;
    var n := |s| - 8;
    forall i | 0 <= i < n {
      out[i] := s[i];
    }
    ghost var sched: Schedule := w[..];
    ghost var out1, plain := out[..], Ctr(sched, nonce, s[..n]);
    assert out1[0..n] == s[..n] && out1[n..] == old(out[n..]);
    var mic := new bv8[8];
    AesCcm(w, nonce, aad, out, 0, n, false, mic);
    assert out[0..n] == plain == out[..n] && out[n..] == out1[n..] by {
      MiddlePart(out1, out[..], 0, n, plain);
    }
    ok := ConstantTimeEq(mic, s[n..]);
    if !ok {
      forall i | 0 <= i < n {
        out[i] := 0;
      }
    }
    assert w[..] == sched;
  }

  /**
   Deciphers a received frame into out.  The result is the payload's length, or -1 when the frame
   is too short, has no extended IV, does not fit or fails its tag; a rejected frame leaves every
   octet of out as it was or zero, so that no unauthenticated plaintext is handed on.
   */
  method CcmpDecrypt(input: array<bv8>, hdrLen: nat, w: array<bv32>, out: array<bv8>) returns (r: int, pn: bv64)
    requires w.Length == 44 && input != out
    modifies out
    ensures r >= 0 <==> var d := Decapsulate(w[..], input[..], hdrLen); d.Accepted? && |d.payload| <= out.Length
    ensures r >= 0 ==> var d := Decapsulate(w[..], input[..], hdrLen);
      r == |d.payload| && pn == d.pn && out[..r] == d.payload && out[r..] == old(out[r..])
    ensures pn == HeaderPn(input[..], hdrLen)
    ensures r < 0 ==> r == -1 && forall i :: 0 <= i < out.Length ==> out[i] == 0 || out[i] == old(out[i])
  {
    hide ReadPn, NonceOf, AadOf, Unseal;
    r, pn := -1, 0;
    if hdrLen < 24 || input.Length < hdrLen + 8 + 8 {
      return;
    }
    ghost var f := input[..];
    var ch := input[hdrLen..hdrLen + 8];
    assert ch == f[hdrLen..hdrLen + 8] && ch[3] == f[hdrLen + 3];
    if ch[3] & 0x20 == 0 {
      return;
    }
    pn := ReadPn(ch);
    var bodyLen := input.Length - hdrLen - 8 - 8;
    if bodyLen > out.Length {
      return;
    }
    var aad, nonce := new bv8[30], new bv8[13];
    var aadLen := BuildAadNonce(input, pn, aad, nonce);
    var ok := OpenBody(out, w, nonce[..], aad[..aadLen], input[hdrLen + 8..], pn);
    if ok {
      r := bodyLen;
    }
  }

  // ---------- deciphering with replay protection ----------

  const E_CRYPTO := -1
  const E_REPLAY := -2

  /** The replay slot of a frame: its QoS identifier, or the one that all other frames share. */
  function ReplayTid(f: seq<bv8>): nat
    requires |f| >= 32
  {
    if IsQosData(f) then QosControl(f) as nat else NON_QOS
  }

  /** What a received frame comes to: nothing, a replay, or a payload with its number. */
  datatype Reception = BadFrame | Replayed | Fresh(payload: seq<bv8>, tid: nat, pn: nat)

  function Classify(w: Schedule, f: seq<bv8>, hdrLen: nat, cap: nat, c: Counters): Reception {
    var d := Decapsulate(w, f, hdrLen);
    if d.Rejected? || |d.payload| > cap then BadFrame
    else
      assert |f| >= 32 by { AcceptedIsLong(w, f, hdrLen); }
      if Accepts(c, ReplayTid(f), d.pn as nat) then Fresh(d.payload, ReplayTid(f), d.pn as nat) else Replayed
  }

  lemma AcceptedIsLong(w: Schedule, f: seq<bv8>, hdrLen: nat)
    requires Decapsulate(w, f, hdrLen).Accepted?
    ensures |f| >= 40
  {
    hide Unseal, NonceOf, AadOf, ReadPn;
  }

  lemma ClassifyBad(w: Schedule, f: seq<bv8>, hdrLen: nat, cap: nat, c: Counters)
    requires var d := Decapsulate(w, f, hdrLen); d.Rejected? || |d.payload| > cap
    ensures Classify(w, f, hdrLen, cap, c) == BadFrame
  {
    hide Decapsulate;
  }

  lemma ClassifyGood(w: Schedule, f: seq<bv8>, hdrLen: nat, cap: nat, c: Counters)
    requires var d := Decapsulate(w, f, hdrLen); d.Accepted? && |d.payload| <= cap
    ensures |f| >= 40
    ensures var d := Decapsulate(w, f, hdrLen);
      Classify(w, f, hdrLen, cap, c) ==
        if Accepts(c, ReplayTid(f), d.pn as nat) then Fresh(d.payload, ReplayTid(f), d.pn as nat) else Replayed
  {
    hide Decapsulate, ReplayTid, Accepts;
    AcceptedIsLong(w, f, hdrLen);
  }

  /** The replay check of a genuine payload of r octets: it is wiped when its number is stale. */
  method ReplayGate(out: array<bv8>, r: nat, tid: nat, pn: nat, rp: PnReplay) returns (fresh': bool)
    requires r <= out.Length && rp.Valid() && out as object !in {rp.highest as object, rp.seen}
    modifies out, rp.highest, rp.seen
    ensures rp.Valid() && fresh' == Accepts(old(rp.View()), tid, pn)
    ensures rp.View() == if fresh' then Committed(old(rp.View()), tid, pn) else old(rp.View())
    ensures fresh' ==> out[..] == old(out[..])
    ensures !fresh' ==> forall i :: 0 <= i < out.Length ==> out[i] == if i < r then 0 else old(out[i])
  {
    hide Accepts, Committed;
    fresh' := rp.Check(tid, pn);
    if !fresh' {
      ghost var c := rp.View();
      forall i | 0 <= i < r {
        out[i] := 0;
      }
      assert rp.highest[..] == c.highest && rp.seen[..] == c.seen;
      return;
    }
    rp.Commit(tid, pn);
  }

  /**
   Integrity first, replay second: a frame that fails its tag leaves the replay counters as they
   were, a genuine frame with a stale number is rejected with its payload wiped, and only a fresh
   one moves its own counter.  Without counters the frame is only deciphered.
   */
  method CcmpDecryptRx(input: array<bv8>, hdrLen: nat, w: array<bv32>, out: array<bv8>, rp: PnReplay?)
    returns (r: int, pn: bv64)
    requires w.Length == 44 && input != out
    requires rp != null ==> rp.Valid() && out as object !in {rp.highest as object, rp.seen}
    requires rp != null ==> w as object !in {rp.highest as object, rp.seen} && input as object !in {rp.highest as object, rp.seen}
    modifies out, if rp == null then {} else {rp.highest as object, rp.seen}
    ensures pn == HeaderPn(input[..], hdrLen)
    ensures rp == null ==> var d := Decapsulate(w[..], input[..], hdrLen);
      if d.Accepted? && |d.payload| <= out.Length then r == |d.payload| && out[..r] == d.payload && pn == d.pn
      else r == E_CRYPTO
    ensures rp != null ==> rp.Valid()
    ensures rp != null ==> match old(Classify(w[..], input[..], hdrLen, out.Length, rp.View()))
      case BadFrame => r == E_CRYPTO && rp.View() == old(rp.View())
      case Replayed => r == E_REPLAY && rp.View() == old(rp.View())
      case Fresh(payload, tid, n) =>
        && r == |payload| <= out.Length && out[..r] == payload && n == pn as nat
        && rp.View() == Committed(old(rp.View()), tid, n)
    ensures r < 0 ==> forall i :: 0 <= i < out.Length ==> out[i] == 0 || out[i] == old(out[i])
  {
    hide Decapsulate, Accepts, Committed, ReplayTid, Classify, HeaderPn;
    ghost var f, sched: Schedule := input[..], w[..];
    r, pn := CcmpDecrypt(input, hdrLen, w, out);
    if rp == null {
      return;
    }
    ghost var c: Counters := old(rp.View());
    assert rp.highest[..] == c.highest && rp.seen[..] == c.seen;
    if r < 0 {
      ClassifyBad(sched, f, hdrLen, out.Length, c);
      return;
    }
    ClassifyGood(sched, f, hdrLen, out.Length, c);
    assert input[..] == f;
    var ok := ReplayGate(out, r, ReplayTid(input[..]), pn as nat, rp);
    if !ok {
      r := E_REPLAY;
    }
  }
}
