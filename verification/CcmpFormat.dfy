/**
 The CCMP header, nonce and authenticated data field by field, as section 12.5.2.3 of IEEE 802.11 lays them out.
 */
module CcmpFormat {
  import opened Aes
  import opened Ccmp
  import opened CcmpFrame
  import opened Replay

  /** Octets 0 and 1, then 4 to 7, hold the low 48 bits of the packet number; octet 3 the key and the format. */
  lemma HeaderLayout(pn: bv64, keyId: bv8)
    ensures var h := CcmpHeader(pn, keyId);
      && Weighted(h[0], h[1], h[4], h[5], h[6], h[7]) == pn & 0xffff_ffff_ffff
      && h[2] == 0 && h[3] & 0x3f == 0x20 && h[3] >> 6 == keyId & 3
  {
    hide PnByte, FromOctets, Weighted;
    var h := CcmpHeader(pn, keyId);
    WeightedIs(h[0], h[1], h[4], h[5], h[6], h[7]);
    SixOctets(pn);
    KeyBits(keyId);
  }

  lemma KeyBits(keyId: bv8)
    ensures var k := 0x20 | ((keyId & 0x3) << 6); k & 0x3f == 0x20 && k >> 6 == keyId & 3
  {
  }

  lemma NumberRead(ch: seq<bv8>)
    requires |ch| == 8
    ensures ReadPn(ch) == Weighted(ch[0], ch[1], ch[4], ch[5], ch[6], ch[7])
  {
    hide FromOctets, Weighted;
    WeightedIs(ch[0], ch[1], ch[4], ch[5], ch[6], ch[7]);
  }

  /** A data frame with a quality-of-service field; a management frame; a frame with four addresses. */
  predicate QosData(f: seq<bv8>)
    requires |f| >= 32
  {
    f[0] & 0x8c == 0x88
  }

  predicate Management(f: seq<bv8>)
    requires |f| >= 32
  {
    f[0] & 0x0c == 0
  }

  predicate FourAddresses(f: seq<bv8>)
    requires |f| >= 32
  {
    f[1] & 0x03 == 0x03
  }

  /** The user priority, after three or four addresses. */
  function Priority(f: seq<bv8>): bv8
    requires |f| >= 32
  {
    (if FourAddresses(f) then f[30] else f[24]) & 0x0f
  }

  lemma KindsAre(f: seq<bv8>)
    requires |f| >= 32
    ensures IsQosData(f) == QosData(f) && IsMgmt(f) == Management(f) && HasA4(f) == FourAddresses(f)
    ensures QosControl(f) == Priority(f)
  {
    TwoMasks(f[0]);
  }

  lemma TwoMasks(b: bv8)
    ensures (b & 0x0c == 0x08 && b & 0x80 != 0) == (b & 0x8c == 0x88)
  {
  }

  /** The nonce: priority and management flag, the transmitter, the low 48 bits of the number big-endian. */
  lemma NonceLayout(f: seq<bv8>, pn: bv64)
    requires |f| >= 32
    ensures var n := NonceOf(f, pn);
      && n[0] & 0x0f == (if QosData(f) then Priority(f) else 0) && n[0] & 0xf0 == (if Management(f) then 0x10 else 0)
      && n[1..7] == f[10..16]
      && Weighted(n[12], n[11], n[10], n[9], n[8], n[7]) == pn & 0xffff_ffff_ffff
  {
    hide PnByte, FromOctets, Weighted, IsQosData, IsMgmt, HasA4, QosControl, QosData, Management;
    var n := NonceOf(f, pn);
    KindsAre(f);
    assert n[1..7] == f[10..16];
    assert n[7] == PnByte(pn, 5) && n[8] == PnByte(pn, 4) && n[9] == PnByte(pn, 3);
    assert n[10] == PnByte(pn, 2) && n[11] == PnByte(pn, 1) && n[12] == PnByte(pn, 0);
    WeightedIs(n[12], n[11], n[10], n[9], n[8], n[7]);
    SixOctets(pn);
    FlagBits(if IsQosData(f) then QosControl(f) else 0, IsMgmt(f));
    PriorityBits(f);
  }

  lemma FlagBits(p: bv8, m: bool)
    requires p & 0x0f == p
    ensures var b := p | (if m then 0x10 else 0); b & 0x0f == p && b & 0xf0 == if m then 0x10 else 0
  {
  }

  lemma PriorityBits(f: seq<bv8>)
    requires |f| >= 32
    ensures QosControl(f) & 0x0f == QosControl(f)
  {
  }

  /** Agreement on what the tag protects. */
  predicate Agree(f: seq<bv8>, g: seq<bv8>)
    requires |f| >= 32 && |g| >= 32
  {
    && (if Management(f) then f[0] == g[0] else f[0] & 0x8f == g[0] & 0x8f)
    && f[1] & 0xc7 == g[1] & 0xc7 && f[4..22] == g[4..22] && f[22] & 0x0f == g[22] & 0x0f
    && (FourAddresses(f) ==> f[24..30] == g[24..30]) && (QosData(f) ==> Priority(f) == Priority(g))
  }

  /**
   Two frames have the same authenticated data exactly when they agree on type and subtype (of a data frame
   only on its quality-of-service bit), on the flags but retry, power and more-data, on the addresses, on the
   fragment number, and on the user priority if there is one.
   */
  lemma AadIff(f: seq<bv8>, g: seq<bv8>)
    requires |f| >= 32 && |g| >= 32
    ensures AadOf(f) == AadOf(g) <==> Agree(f, g)
  {
    hide AadOf, Agree;
    if AadOf(f) == AadOf(g) {
      AadShows(f, g);
    }
    if Agree(f, g) {
      AadBuilt(f, g);
    }
  }

  lemma AadShows(f: seq<bv8>, g: seq<bv8>)
    requires |f| >= 32 && |g| >= 32 && AadOf(f) == AadOf(g)
    ensures Agree(f, g)
  {
    hide AadOf, IsQosData, HasA4, QosControl, QosData, FourAddresses, Priority;
    KindsAre(f);
    KindsAre(g);
    AadBinds(f, g);
    FrontKept(f);
    FrontKept(g);
    assert AadFront(f) == AadOf(f)[..22] == AadFront(g);
    assert AadFront(f)[0] == AadFront(g)[0];
    MaskedType(f[0], g[0]);
  }

  lemma AgreeKinds(f: seq<bv8>, g: seq<bv8>)
    requires |f| >= 32 && |g| >= 32 && Agree(f, g)
    ensures QosData(f) == QosData(g) && Management(f) == Management(g) && FourAddresses(f) == FourAddresses(g)
  {
    hide Priority;
    SameKind(f[0], g[0]);
    MaskedFlags(f[1], g[1]);
  }

  lemma FrontBuilt(f: seq<bv8>, g: seq<bv8>)
    requires |f| >= 32 && |g| >= 32 && Agree(f, g)
    ensures AadFront(f) == AadFront(g)
  {
    hide QosData, FourAddresses, Priority, IsMgmt, Management;
    KindsAre(f);
    KindsAre(g);
    AgreeKinds(f, g);
  }

  lemma AadBuilt(f: seq<bv8>, g: seq<bv8>)
    requires |f| >= 32 && |g| >= 32 && Agree(f, g)
    ensures AadOf(f) == AadOf(g)
  {
    hide IsQosData, HasA4, QosControl, Priority, AadFront, QosData, FourAddresses;
    KindsAre(f);
    KindsAre(g);
    AgreeKinds(f, g);
    FrontBuilt(f, g);
  }

  lemma SameKind(a: bv8, b: bv8)
    ensures a & 0x8f == b & 0x8f ==> a & 0x0c == b & 0x0c && a & 0x8c == b & 0x8c
  {
  }

  // ---------- reception ----------

  /** The replay slot: the user priority of a quality-of-service frame, and slot 16 for everything else. */
  function SlotOf(f: seq<bv8>): nat
    requires |f| >= 32
  {
    if QosData(f) then Priority(f) as nat else 16
  }

  /** The number has at most 48 bits and exceeds whatever the slot has accepted. */
  predicate Open(c: Counters, slot: nat, n: nat) {
    slot < 17 && n < 0x1_0000_0000_0000 && (c.seen[slot] ==> c.highest[slot] < n)
  }

  /**
   What becomes of a received frame: one that does not decapsulate, or to more than the room there is, is an
   error; any other is taken exactly when the slot that its header names is still open for its number.
   */
  lemma ReceptionIs(w: Schedule, f: seq<bv8>, hdrLen: nat, cap: nat, c: Counters)
    ensures Decapsulate(w, f, hdrLen).Accepted? ==> |f| >= 40
    ensures var d := Decapsulate(w, f, hdrLen);
      Classify(w, f, hdrLen, cap, c) ==
        if d.Rejected? || |d.payload| > cap then BadFrame
        else if Open(c, SlotOf(f), d.pn as nat) then Fresh(d.payload, SlotOf(f), d.pn as nat)
        else Replayed
  {
    hide Decapsulate, QosData, Priority, IsQosData, QosControl, SlotOf, ReplayTid, Open, Accepts;
    var d := Decapsulate(w, f, hdrLen);
    if d.Accepted? {
      AcceptedIsLong(w, f, hdrLen);
      SlotIs(f);
      OpenIs(c, SlotOf(f), d.pn as nat);
    }
  }

  lemma SlotIs(f: seq<bv8>)
    requires |f| >= 32
    ensures SlotOf(f) == ReplayTid(f)
  {
    hide QosData, Priority, IsQosData, QosControl;
    KindsAre(f);
  }

  lemma OpenIs(c: Counters, slot: nat, n: nat)
    ensures Open(c, slot, n) <==> Accepts(c, slot, n)
  {
  }
}
