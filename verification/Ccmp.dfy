/**
 CCMP framing: the nonce and additional authenticated data taken from the frame header, the
 8-octet CCMP header with its packet number, and encapsulation against decapsulation.
 */
module Ccmp {
  import opened Aes
  import opened Ccm

  datatype Received = Rejected | Accepted(payload: seq<bv8>, pn: bv64)

  // ---------- what the header determines ----------

  predicate IsQosData(f: seq<bv8>)
    requires |f| >= 32
  {
    f[0] & 0x0c == 0x08 && f[0] & 0x80 != 0
  }

  predicate HasA4(f: seq<bv8>)
    requires |f| >= 32
  {
    f[1] & 0x03 == 0x03
  }

  predicate IsMgmt(f: seq<bv8>)
    requires |f| >= 32
  {
    f[0] & 0x0c == 0x00
  }

  function QosControl(f: seq<bv8>): bv8
    requires |f| >= 32
  {
    f[if HasA4(f) then 30 else 24] & 0x0f
  }

  /** Octet i of the packet number, the least significant being octet 0. */
  function PnByte(pn: bv64, i: nat): bv8
    requires i < 6
  {
    var shifted := if i == 0 then pn else if i == 1 then pn >> 8 else if i == 2 then pn >> 16
                   else if i == 3 then pn >> 24 else if i == 4 then pn >> 32 else pn >> 40;
    (shifted & 0xff) as bv8
  }

  /** Priority and management flag, transmitter address, packet number. */
  function NonceOf(f: seq<bv8>, pn: bv64): Nonce
    requires |f| >= 32
  {
    [(if IsQosData(f) then QosControl(f) else 0) | (if IsMgmt(f) then 0x10 else 0)]
    + f[10..16]
    + [PnByte(pn, 5), PnByte(pn, 4), PnByte(pn, 3), PnByte(pn, 2), PnByte(pn, 1), PnByte(pn, 0)]
  }

  /** The fields that every frame's authenticated data starts with. */
  function AadFront(f: seq<bv8>): (a: seq<bv8>)
    requires |f| >= 32
    ensures |a| == 22
  {
    [if IsMgmt(f) then f[0] else f[0] & 0x8f, f[1] & 0xc7] + f[4..22] + [f[22] & 0x0f, 0]
  }

  /** The masked header fields that the tag covers. */
  function AadOf(f: seq<bv8>): (a: seq<bv8>)
    requires |f| >= 32
    ensures 22 <= |a| <= 30
  {
    AadFront(f)
    + (if HasA4(f) then f[24..30] else [])
    + (if IsQosData(f) then [QosControl(f), 0] else [])
  }

  /** Only the first 32 octets of a frame matter to the nonce and the authenticated data. */
  lemma HeaderDecides(f: seq<bv8>, g: seq<bv8>, pn: bv64)
    requires |f| >= 32 && |g| >= 32 && f[..32] == g[..32]
    ensures NonceOf(f, pn) == NonceOf(g, pn) && AadOf(f) == AadOf(g)
  {
    hide NonceOf, AadOf;
    NonceDecided(f, g, pn);
    AadDecided(f, g);
  }

  lemma NonceDecided(f: seq<bv8>, g: seq<bv8>, pn: bv64)
    requires |f| >= 32 && |g| >= 32 && f[..32] == g[..32]
    ensures NonceOf(f, pn) == NonceOf(g, pn)
  {
    hide IsQosData, IsMgmt, HasA4, QosControl, PnByte;
    FlagsDecided(f, g);
    OctetsDecided(f, g);
  }

  lemma AadDecided(f: seq<bv8>, g: seq<bv8>)
    requires |f| >= 32 && |g| >= 32 && f[..32] == g[..32]
    ensures AadOf(f) == AadOf(g)
  {
    hide IsQosData, HasA4, QosControl, AadFront;
    FlagsDecided(f, g);
    OctetsDecided(f, g);
    FrontDecided(f, g);
  }

  lemma FrontDecided(f: seq<bv8>, g: seq<bv8>)
    requires |f| >= 32 && |g| >= 32 && f[..32] == g[..32]
    ensures AadFront(f) == AadFront(g)
  {
    hide IsMgmt;
    FlagsDecided(f, g);
    OctetsDecided(f, g);
  }

  lemma OctetsDecided(f: seq<bv8>, g: seq<bv8>)
    requires |f| >= 32 && |g| >= 32 && f[..32] == g[..32]
    ensures f[0] == g[0] && f[1] == g[1] && f[22] == g[22]
    ensures f[10..16] == g[10..16] && f[4..22] == g[4..22] && f[24..30] == g[24..30]
  {
    OctetDecided(f, g, 0);
    OctetDecided(f, g, 1);
    OctetDecided(f, g, 22);
    SliceDecided(f, g, 10, 16);
    SliceDecided(f, g, 4, 22);
    SliceDecided(f, g, 24, 30);
  }

  lemma SliceDecided(f: seq<bv8>, g: seq<bv8>, a: nat, b: nat)
    requires |f| >= 32 && |g| >= 32 && f[..32] == g[..32] && a <= b <= 32
    ensures f[a..b] == g[a..b]
  {
    var x, y := f[a..b], g[a..b];
    forall k | 0 <= k < b - a
      ensures x[k] == y[k]
    {
      OctetDecided(f, g, a + k);
    }
    assert x == y;
  }

  lemma OctetDecided(f: seq<bv8>, g: seq<bv8>, i: nat)
    requires |f| >= 32 && |g| >= 32 && f[..32] == g[..32] && i < 32
    ensures f[i] == g[i]
  {
    assert f[..32][i] == g[..32][i];
  }

  lemma FlagsDecided(f: seq<bv8>, g: seq<bv8>)
    requires |f| >= 32 && |g| >= 32 && f[..32] == g[..32]
    ensures IsQosData(f) == IsQosData(g) && IsMgmt(f) == IsMgmt(g) && HasA4(f) == HasA4(g)
    ensures QosControl(f) == QosControl(g)
  {
    OctetDecided(f, g, 0);
    OctetDecided(f, g, 1);
    OctetDecided(f, g, 24);
    OctetDecided(f, g, 30);
  }

  // ---------- the CCMP header ----------

  function CcmpHeader(pn: bv64, keyId: bv8): (h: seq<bv8>)
    ensures |h| == 8
  {
    [PnByte(pn, 0), PnByte(pn, 1), 0x00, 0x20 | ((keyId & 0x3) << 6),
     PnByte(pn, 2), PnByte(pn, 3), PnByte(pn, 4), PnByte(pn, 5)]
  }

  function FromOctets(p0: bv8, p1: bv8, p2: bv8, p3: bv8, p4: bv8, p5: bv8): bv64 {
    (p0 as bv64) | ((p1 as bv64) << 8) | ((p2 as bv64) << 16)
    | ((p3 as bv64) << 24) | ((p4 as bv64) << 32) | ((p5 as bv64) << 40)
  }

  /** The number with these octets, the least significant first. */
  function Weighted(a: bv8, b: bv8, c: bv8, d: bv8, e: bv8, f: bv8): bv64 {
    (a as bv64) + 0x100 * (b as bv64) + 0x1_0000 * (c as bv64)
    + 0x100_0000 * (d as bv64) + 0x1_0000_0000 * (e as bv64) + 0x100_0000_0000 * (f as bv64)
  }

  lemma WeightedIs(a: bv8, b: bv8, c: bv8, d: bv8, e: bv8, f: bv8)
    ensures Weighted(a, b, c, d, e, f) == FromOctets(a, b, c, d, e, f)
  {
  }

  /** The packet number that a CCMP header carries. */
  function ReadPn(ch: seq<bv8>): bv64
    requires |ch| == 8
  {
    FromOctets(ch[0], ch[1], ch[4], ch[5], ch[6], ch[7])
  }

  /** The packet number as the air carries it. */
  function Low48(pn: bv64): bv64 {
    pn & 0xffff_ffff_ffff
  }

  lemma SixOctets(pn: bv64)
    ensures FromOctets(PnByte(pn, 0), PnByte(pn, 1), PnByte(pn, 2), PnByte(pn, 3), PnByte(pn, 4), PnByte(pn, 5))
         == Low48(pn)
  {
  }

  lemma ReadPnOfHeader(pn: bv64, keyId: bv8)
    ensures ReadPn(CcmpHeader(pn, keyId)) == Low48(pn)
  {
  }

  lemma NonceUsesLow48(f: seq<bv8>, pn: bv64)
    requires |f| >= 32
    ensures NonceOf(f, Low48(pn)) == NonceOf(f, pn)
  {
  }

  // ---------- encapsulation and decapsulation ----------

  /** The header with the Protected bit forced. */
  function Protect(hdr: seq<bv8>): (h: seq<bv8>)
    requires |hdr| >= 24
    ensures |h| == |hdr|
  {
    hdr[1 := hdr[1] | 0x40]
  }

  /** Ciphertext followed by tag. */
  function Seal(w: Schedule, nonce: Nonce, aad: seq<bv8>, payload: seq<bv8>): (s: seq<bv8>)
    ensures |s| == |payload| + 8
  {
    Ctr(w, nonce, payload) + Tag(w, nonce, aad, payload)
  }

  /** The payload of ciphertext and tag, if the tag is right. */
  function Unseal(w: Schedule, nonce: Nonce, aad: seq<bv8>, pn: bv64, s: seq<bv8>): (r: Received)
    requires |s| >= 8
    ensures r.Accepted? ==> r.pn == pn && |r.payload| == |s| - 8
  {
    var payload := Ctr(w, nonce, s[..|s| - 8]);
    if Tag(w, nonce, aad, payload) == s[|s| - 8..] then Accepted(payload, pn) else Rejected
  }

  function Encapsulate(w: Schedule, hdr: seq<bv8>, payload: seq<bv8>, keyId: bv8, pn: bv64): (f: seq<bv8>)
    requires |hdr| >= 24
    ensures |f| == |hdr| + 8 + |payload| + 8
  {
    var front := Protect(hdr) + CcmpHeader(pn, keyId);
    front + Seal(w, NonceOf(front, pn), AadOf(front), payload)
  }

  /** The packet number reported for a frame: 0 when it has no CCMP header with an extended IV. */
  function HeaderPn(f: seq<bv8>, hdrLen: nat): bv64 {
    if hdrLen < 24 || |f| < hdrLen + 16 || f[hdrLen + 3] & 0x20 == 0 then 0 else ReadPn(f[hdrLen..hdrLen + 8])
  }

  function Decapsulate(w: Schedule, f: seq<bv8>, hdrLen: nat): (r: Received) {
    if hdrLen < 24 || |f| < hdrLen + 16 then Rejected
    else
      var ch := f[hdrLen..hdrLen + 8];
      if ch[3] & 0x20 == 0 then Rejected
      else Unseal(w, NonceOf(f, ReadPn(ch)), AadOf(f), ReadPn(ch), f[hdrLen + 8..])
  }

  /** Unsealing what was sealed returns the payload; what unseals was sealed. */
  lemma SealInverse(w: Schedule, nonce: Nonce, aad: seq<bv8>, pn: bv64, payload: seq<bv8>, s: seq<bv8>)
    requires |s| >= 8
    ensures Unseal(w, nonce, aad, pn, s) == Accepted(payload, pn) <==> s == Seal(w, nonce, aad, payload)
  {
    hide Ctr, Tag;
    var n := |s| - 8;
    assert s == s[..n] + s[n..];
    CtrTwice(w, nonce, payload);
    CtrTwice(w, nonce, s[..n]);
    var c, t := Ctr(w, nonce, payload), Tag(w, nonce, aad, payload);
    assert (c + t)[..|c|] == c && (c + t)[|c|..] == t;
  }

  lemma ExtIvSet(keyId: bv8)
    ensures (0x20 | ((keyId & 0x3) << 6)) & 0x20 != 0
  {
  }

  /** The CCMP header of a frame front + s and its first 32 octets come from the front. */
  lemma FrontParts(hdr: seq<bv8>, ch: seq<bv8>, s: seq<bv8>)
    requires |hdr| >= 24 && |ch| == 8
    ensures var f, n := hdr + ch + s, |hdr|;
            f[n..n + 8] == ch && f[n + 8..] == s && f[..32] == (hdr + ch)[..32]
  {
  }

  /**
   Decapsulating an encapsulated frame returns the payload and the packet number modulo 2^48, for
   every header of at least 24 octets, every payload and every key.
   */
  lemma CcmpRoundTrip(w: Schedule, hdr: seq<bv8>, payload: seq<bv8>, keyId: bv8, pn: bv64)
    requires |hdr| >= 24
    ensures Decapsulate(w, Encapsulate(w, hdr, payload, keyId, pn), |hdr|) == Accepted(payload, Low48(pn))
  {
    hide Protect, PnByte, ReadPn, Low48, NonceOf, AadOf, Seal, Unseal;
    var ch, pn' := CcmpHeader(pn, keyId), Low48(pn);
    var front := Protect(hdr) + ch;
    var s := Seal(w, NonceOf(front, pn), AadOf(front), payload);
    var f := Encapsulate(w, hdr, payload, keyId, pn);
    FrontParts(Protect(hdr), ch, s);
    ExtIvSet(keyId);
    ReadPnOfHeader(pn, keyId);
    HeaderDecides(f, front, pn');
    NonceUsesLow48(front, pn);
    SealInverse(w, NonceOf(front, pn), AadOf(front), pn', payload, s);
  }

  /**
   Conversely, a frame that decapsulates is the encapsulation of its result exactly when its Protected
   bit is set and its CCMP header, the reserved part included, is as the sender writes it.
   */
  lemma AcceptedIsEncapsulated(w: Schedule, f: seq<bv8>, hdrLen: nat, payload: seq<bv8>, keyId: bv8, pn: bv64)
    requires Decapsulate(w, f, hdrLen) == Accepted(payload, pn)
    ensures |f| >= hdrLen + 16 && hdrLen >= 24
    ensures f == Encapsulate(w, f[..hdrLen], payload, keyId, pn)
       <==> f[1] & 0x40 != 0 && f[hdrLen..hdrLen + 8] == CcmpHeader(pn, keyId)
  {
    hide PnByte, ReadPn, NonceOf, AadOf, Seal, Unseal, CcmpHeader;
    var hdr, ch, s := f[..hdrLen], f[hdrLen..hdrLen + 8], f[hdrLen + 8..];
    assert f == hdr + ch + s;
    if f[1] & 0x40 != 0 && ch == CcmpHeader(pn, keyId) {
      BitAlreadySet(f[1]);
      assert Protect(hdr) == hdr;
      FrontParts(hdr, ch, s);
      HeaderDecides(f, hdr + ch, pn);
      SealInverse(w, NonceOf(f, pn), AadOf(f), pn, payload, s);
    }
    if f == Encapsulate(w, hdr, payload, keyId, pn) {
      var front := Protect(hdr) + CcmpHeader(pn, keyId);
      FrontParts(Protect(hdr), CcmpHeader(pn, keyId), Seal(w, NonceOf(front, pn), AadOf(front), payload));
      assert f[1] == Protect(hdr)[1] == hdr[1] | 0x40;
      BitIsSet(hdr[1]);
    }
  }

  lemma BitIsSet(b: bv8)
    ensures (b | 0x40) & 0x40 != 0
  {
  }

  lemma BitAlreadySet(b: bv8)
    requires b & 0x40 != 0
    ensures b | 0x40 == b
  {
  }

  // ---------- what the tag binds ----------

  /** A transmitter that never repeats a packet number modulo 2^48 never repeats a nonce. */
  lemma NonceBinds(f: seq<bv8>, g: seq<bv8>, pn: bv64, pn': bv64)
    requires |f| >= 32 && |g| >= 32 && NonceOf(f, pn) == NonceOf(g, pn')
    ensures f[10..16] == g[10..16] && Low48(pn) == Low48(pn')
  {
    hide IsQosData, IsMgmt, QosControl, PnByte, FromOctets, Low48;
    var n, n' := NonceOf(f, pn), NonceOf(g, pn');
    assert n[1..7] == f[10..16] && n'[1..7] == g[10..16];
    assert n[7] == PnByte(pn, 5) && n[8] == PnByte(pn, 4) && n[9] == PnByte(pn, 3);
    assert n[10] == PnByte(pn, 2) && n[11] == PnByte(pn, 1) && n[12] == PnByte(pn, 0);
    assert n'[7] == PnByte(pn', 5) && n'[8] == PnByte(pn', 4) && n'[9] == PnByte(pn', 3);
    assert n'[10] == PnByte(pn', 2) && n'[11] == PnByte(pn', 1) && n'[12] == PnByte(pn', 0);
    SixOctets(pn);
    SixOctets(pn');
  }

  lemma FrontKept(f: seq<bv8>)
    requires |f| >= 32
    ensures AadOf(f)[..22] == AadFront(f)
    ensures |AadOf(f)| == 22 + (if HasA4(f) then 6 else 0) + (if IsQosData(f) then 2 else 0)
    ensures HasA4(f) ==> AadOf(f)[22..28] == f[24..30]
    ensures IsQosData(f) ==> AadOf(f)[|AadOf(f)| - 2] == QosControl(f)
  {
    hide AadFront, HasA4, IsQosData, QosControl;
  }

  lemma MaskedType(a: bv8, b: bv8)
    requires (if a & 0x0c == 0 then a else a & 0x8f) == (if b & 0x0c == 0 then b else b & 0x8f)
    ensures a & 0x0c == b & 0x0c && a & 0x8f == b & 0x8f
  {
  }

  lemma MaskedFlags(a: bv8, b: bv8)
    requires a & 0xc7 == b & 0xc7
    ensures a & 0x03 == b & 0x03
  {
  }

  lemma QosFlag(a: bv8, b: bv8)
    requires a & 0x8f == b & 0x8f
    ensures (a & 0x0c == 0x08 && a & 0x80 != 0) == (b & 0x0c == 0x08 && b & 0x80 != 0)
  {
  }

  /**
   Frames with the same authenticated data agree on everything that the tag is to protect: type,
   flags and addresses, the fragment number, the fourth address and the QoS identifier.
   */
  lemma AadBinds(f: seq<bv8>, g: seq<bv8>)
    requires |f| >= 32 && |g| >= 32 && AadOf(f) == AadOf(g)
    ensures f[0] & 0x8f == g[0] & 0x8f && f[1] & 0xc7 == g[1] & 0xc7 && f[22] & 0x0f == g[22] & 0x0f
    ensures f[4..22] == g[4..22] && HasA4(f) == HasA4(g) && IsQosData(f) == IsQosData(g)
    ensures HasA4(f) ==> f[24..30] == g[24..30]
    ensures IsQosData(f) ==> QosControl(f) == QosControl(g)
  {
    hide AadOf, AadFront, QosControl;
    FrontKept(f);
    FrontKept(g);
    FrontFields(f);
    FrontFields(g);
    MaskedType(f[0], g[0]);
    MaskedFlags(f[1], g[1]);
    QosFlag(f[0], g[0]);
  }

  lemma FrontFields(f: seq<bv8>)
    requires |f| >= 32
    ensures var a := AadFront(f);
      && a[0] == (if f[0] & 0x0c == 0 then f[0] else f[0] & 0x8f) && a[1] == f[1] & 0xc7 && a[20] == f[22] & 0x0f
      && a[2..20] == f[4..22]
  {
  }
}
