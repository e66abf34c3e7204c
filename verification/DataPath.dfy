/**
 One key epoch of the data plane: what a sender puts on the air, what a receiver hands on when the
 air loses, duplicates and reorders frames and adds frames with wrong integrity codes.
 */
module DataPath {
  import opened Wrappers
  import opened Replay
  import opened Sme

  // ---------- sending ----------

  /** The sender and the frames it has sent, after a list of sending requests. */
  function SendAll(p: Party, es: seq<Event>): (Party, seq<Frame>)
    decreases |es|
  {
    if es == [] then (p, [])
    else
      var (q, log) := SendAll(p, es[..|es| - 1]);
      var o := Step(q, es[|es| - 1], Random(0, 0));
      (o.next, log + o.out)
  }

  predicate SendsOnly(es: seq<Event>) {
    forall i :: 0 <= i < |es| ==> es[i].SendData? || es[i].SendQos? || es[i].SendTdls?
  }

  /** Frame i carries packet number i + 1 and the epoch's key. */
  ghost predicate Numbered(log: seq<Frame>, ptk: Ptk) {
    forall i :: 0 <= i < |log| ==> log[i].Data? && log[i].pn == WirePn(i + 1) && log[i].mic == By(ptk)
  }

  /** Every frame has a replay slot and passes the size gate. */
  ghost predicate WellSized(log: seq<Frame>, ptk: Ptk) {
    forall i :: 0 <= i < |log| ==> log[i].Data? && log[i].slot < SLOTS && Genuine(ptk, log[i])
  }

  lemma {:induction false} SentAreNumbered(p: Party, es: seq<Event>)
    requires SendsOnly(es) && p.key.txPn == 0 && |SendAll(p, es).1| < PN_MODULUS
    ensures var (q, log) := SendAll(p, es);
      q.ptk == p.ptk && q.state == p.state && q.key.txPn == |log| && Numbered(log, p.ptk) && WellSized(log, p.ptk)
    decreases |es|
  {
    hide Step, WirePn, Genuine;
    if es != [] {
      var e, es0 := es[|es| - 1], es[..|es| - 1];
      var (q, log) := SendAll(p, es0);
      SendRest(q, e, Random(0, 0));
      SentAreNumbered(p, es0);
    }
  }

  // ---------- receiving ----------

  /** The receiver after hearing frames, and those whose payload it handed on. */
  function HearAll(p: Party, fs: seq<Frame>): (Party, seq<Frame>)
    decreases |fs|
  {
    if fs == [] then (p, [])
    else
      var f := fs[|fs| - 1];
      var (q, got) := HearAll(p, fs[..|fs| - 1]);
      var o := Receive(q, f, Random(0, 0));
      (o.next, if o.delivered.Some? then got + [f] else got)
  }

  /** What the air may carry within the epoch: frames of the sender, or with no right code. */
  ghost predicate OnAir(f: Frame, log: seq<Frame>, ptk: Ptk) {
    && !f.Deauth? && !Refusal(f)
    && (f.Data? && f.mic == By(ptk) ==> f in log)
  }

  /** A frame that fails its integrity code changes nothing, the replay counters included. */
  lemma BadMicChangesNothing(p: Party, f: Frame, r: Random)
    requires f.Data? && f.mic != By(p.ptk)
    ensures Receive(p, f, r) == Stay(p)
  {
  }

  lemma ConnectedHears(p: Party, f: Frame, r: Random)
    requires p.state == State.Connected && !f.Deauth? && !Refusal(f)
    ensures Receive(p, f, r) == if f.Data? then OnData(p, f) else Stay(p)
  {
  }

  lemma DataStep(p: Party, f: Frame)
    requires p.state == State.Connected && f.Data?
    ensures var o := OnData(p, f);
      && o.next.state == State.Connected && o.next.ptk == p.ptk
      && (o.delivered.Some? ==> f.mic == By(p.ptk) && o.delivered == Some((f.slot, f.payload)))
      && (|| (o.next.key.rx == p.key.rx && o.delivered.None?)
          || (Accepts(p.key.rx, f.slot, f.pn) && o.next.key.rx == Committed(p.key.rx, f.slot, f.pn)))
  {
    hide Accepts, Committed, OnData, Fits;
    OnDataIs(p, f);
  }

  /** What hearing one frame does, for a connected receiver. */
  lemma HearStep(p: Party, f: Frame, r: Random)
    requires p.state == State.Connected && !f.Deauth? && !Refusal(f)
    ensures var o := Receive(p, f, r);
      && o.next.state == State.Connected && o.next.ptk == p.ptk
      && (o.delivered.Some? ==> f.Data? && f.mic == By(p.ptk) && o.delivered == Some((f.slot, f.payload)))
      && (|| (o.next.key.rx == p.key.rx && o.delivered.None?)
          || (f.Data? && Accepts(p.key.rx, f.slot, f.pn) && o.next.key.rx == Committed(p.key.rx, f.slot, f.pn)))
  {
    hide Accepts, Committed, OnData, Receive;
    ConnectedHears(p, f, r);
    if f.Data? {
      DataStep(p, f);
    }
  }

  /** The frames of one slot. */
  function At(fs: seq<Frame>, slot: nat): seq<Frame> {
    if fs == [] then []
    else
      var f := fs[|fs| - 1];
      var rest := At(fs[..|fs| - 1], slot);
      if f.Data? && f.slot == slot then rest + [f] else rest
  }

  lemma AtSnoc(fs: seq<Frame>, f: Frame, slot: nat)
    ensures At(fs + [f], slot) == if f.Data? && f.slot == slot then At(fs, slot) + [f] else At(fs, slot)
  {
  }

  ghost predicate Increasing(fs: seq<Frame>) {
    && (forall i :: 0 <= i < |fs| ==> fs[i].Data?)
    && (forall i, j :: 0 <= i < j < |fs| ==> fs[i].pn < fs[j].pn)
  }

  /** Delivered numbers increase, and the slot's counter has reached the last of them. */
  ghost predicate SlotInv(rx: Counters, got: seq<Frame>) {
    && Increasing(got)
    && (forall i :: 0 <= i < |got| ==>
          got[i].slot < SLOTS && rx.seen[got[i].slot] && got[i].pn <= rx.highest[got[i].slot])
  }

  lemma SlotInvCommit(rx: Counters, got: seq<Frame>, slot: nat, f: Frame)
    requires SlotInv(rx, got) && f.Data? && Accepts(rx, f.slot, f.pn)
    requires forall i :: 0 <= i < |got| ==> got[i].slot == slot
    ensures SlotInv(Committed(rx, f.slot, f.pn), got)
    ensures f.slot == slot ==> SlotInv(Committed(rx, f.slot, f.pn), got + [f])
  {
  }

  lemma AtSlot(fs: seq<Frame>, slot: nat)
    ensures forall i :: 0 <= i < |At(fs, slot)| ==> At(fs, slot)[i].Data? && At(fs, slot)[i].slot == slot
    ensures forall i :: 0 <= i < |At(fs, slot)| ==> At(fs, slot)[i] in fs
  {
  }

  lemma {:induction false} HeardInv(p: Party, fs: seq<Frame>, log: seq<Frame>, slot: nat)
    requires p.state == State.Connected && forall i :: 0 <= i < |fs| ==> OnAir(fs[i], log, p.ptk)
    ensures var (q, got) := HearAll(p, fs);
      && q.state == State.Connected && q.ptk == p.ptk
      && SlotInv(q.key.rx, At(got, slot))
      && (forall i :: 0 <= i < |got| ==> got[i].Data? && got[i] in log)
    decreases |fs|
  {
    hide Receive, SlotInv, At, Accepts, Committed;
    if fs == [] {
      NothingHeard(p, slot);
    } else {
      var f, fs0 := fs[|fs| - 1], fs[..|fs| - 1];
      HeardInv(p, fs0, log, slot);
      var (q, got) := HearAll(p, fs0);
      assert OnAir(f, log, p.ptk);
      HearStep(q, f, Random(0, 0));
      AtSlot(got, slot);
      if f.Data? && Accepts(q.key.rx, f.slot, f.pn) {
        SlotInvCommit(q.key.rx, At(got, slot), slot, f);
      }
      AtSnoc(got, f, slot);
    }
  }

  lemma NothingHeard(p: Party, slot: nat)
    ensures SlotInv(p.key.rx, At([], slot))
  {
  }

  // ---------- what is handed on, in terms of what is heard ----------

  ghost predicate QuietAir(fs: seq<Frame>) {
    forall i :: 0 <= i < |fs| ==> !fs[i].Deauth? && !Refusal(fs[i])
  }

  /** The frame is small enough, or it is a peer-link frame without an identifier. */
  predicate Sized(f: Frame)
    requires f.Data?
  {
    |f.payload| <= 64 || (f.slot == 16 && [0xAA, 0xAA, 0x03, 0x00, 0x00, 0x00, 0x89, 0x0D, 0x02] <= f.payload)
  }

  /** A frame of the slot under the right code, short if it has an identifier, with a number of at most 48 bits. */
  ghost predicate Counts(ptk: Ptk, f: Frame, slot: nat) {
    && f.Data? && f.slot == slot && f.mic == By(ptk) && (slot == 16 || |f.payload| <= 64)
    && f.pn < 0x1_0000_0000_0000
  }

  /** The slot exists, and nothing of it has reached the number n, which has at most 48 bits. */
  predicate Open(rx: Counters, slot: nat, n: nat) {
    slot < 17 && n < 0x1_0000_0000_0000 && (rx.seen[slot] ==> rx.highest[slot] < n)
  }

  /** The number n was not acceptable at first, or a genuine frame of the slot has reached it. */
  ghost predicate Stale(rx: Counters, ptk: Ptk, heard: seq<Frame>, slot: nat, n: nat) {
    !Open(rx, slot, n) || exists j :: 0 <= j < |heard| && Counts(ptk, heard[j], slot) && n <= heard[j].pn
  }

  predicate Deliverable(ptk: Ptk, f: Frame) {
    f.Data? && f.mic == By(ptk) && Sized(f)
  }

  lemma SizedIs(ptk: Ptk, f: Frame)
    requires f.Data?
    ensures Deliverable(ptk, f) <==> Genuine(ptk, f) && Fits(f)
  {
    var head: Payload := [0xAA, 0xAA, 0x03, 0x00, 0x00, 0x00, 0x89, 0x0D, 0x02];
    if |f.payload| >= 9 {
      assert head[..8] == TDLS_SNAP && head == head[..8] + [head[8]];
      assert f.payload[..9] == f.payload[..8] + [f.payload[8]];
      assert head <= f.payload <==> f.payload[..9] == head;
    }
  }

  /** Frame f, heard after the frames heard, is to be handed on. */
  ghost predicate Due(rx: Counters, ptk: Ptk, heard: seq<Frame>, f: Frame) {
    Deliverable(ptk, f) && !Stale(rx, ptk, heard, f.slot, f.pn)
  }

  ghost function DueFrames(rx: Counters, ptk: Ptk, fs: seq<Frame>): seq<Frame> {
    if fs == [] then []
    else
      var f, heard := fs[|fs| - 1], fs[..|fs| - 1];
      DueFrames(rx, ptk, heard) + (if Due(rx, ptk, heard, f) then [f] else [])
  }

  /** Hearing a frame rules out the numbers up to its own, if it counts, and no others. */
  lemma AcceptsAfter(p: Party, f: Frame, r: Random, slot: nat, n: nat)
    requires p.state == State.Connected && !f.Deauth? && !Refusal(f)
    ensures var q := Receive(p, f, r).next;
      && q.state == State.Connected && q.ptk == p.ptk
      && (Accepts(q.key.rx, slot, n) <==> Accepts(p.key.rx, slot, n) && (Counts(p.ptk, f, slot) ==> f.pn < n))
  {
    hide Receive, OnData, Committed;
    ConnectedHears(p, f, r);
    if f.Data? {
      OnDataIs(p, f);
      if Takes(p, f) {
        CommitRules(p.key.rx, f.slot, f.pn, slot, n);
      }
    }
  }

  lemma StaleMore(rx: Counters, ptk: Ptk, heard: seq<Frame>, f: Frame, slot: nat, n: nat)
    ensures Stale(rx, ptk, heard + [f], slot, n) <==> Stale(rx, ptk, heard, slot, n) || (Counts(ptk, f, slot) && n <= f.pn)
  {
    hide Open;
    var more := heard + [f];
    assert more[|heard|] == f;
    forall j | 0 <= j < |heard| ensures more[j] == heard[j] {
    }
    if Stale(rx, ptk, heard, slot, n) && Open(rx, slot, n) {
      var j :| 0 <= j < |heard| && Counts(ptk, heard[j], slot) && n <= heard[j].pn;
      assert Counts(ptk, more[j], slot);
    }
  }

  /** The numbers that a connected receiver accepts after any frames but a deauthentication or refusal. */
  lemma {:induction false} AcceptsIffNotStale(p: Party, fs: seq<Frame>, slot: nat, n: nat)
    requires p.state == State.Connected && QuietAir(fs)
    ensures var q := HearAll(p, fs).0;
      && q.state == State.Connected && q.ptk == p.ptk
      && (Accepts(q.key.rx, slot, n) <==> !Stale(p.key.rx, p.ptk, fs, slot, n))
    decreases |fs|
  {
    hide Receive, Stale, Accepts, Counts;
    if fs == [] {
      NothingStale(p.key.rx, p.ptk, slot, n);
    } else {
      var f, heard := fs[|fs| - 1], fs[..|fs| - 1];
      AcceptsIffNotStale(p, heard, slot, n);
      AcceptsAfter(HearAll(p, heard).0, f, Random(0, 0), slot, n);
      assert fs == heard + [f];
      StaleMore(p.key.rx, p.ptk, heard, f, slot, n);
    }
  }

  lemma NothingStale(rx: Counters, ptk: Ptk, slot: nat, n: nat)
    ensures Stale(rx, ptk, [], slot, n) <==> !Accepts(rx, slot, n)
  {
  }

  /**
   Whatever has been heard before, a frame is handed on exactly when its code and size are right and
   its number was acceptable at first and exceeds that of every genuine frame of its slot heard since.
   */
  lemma HandedOnIff(p: Party, heard: seq<Frame>, f: Frame, r: Random)
    requires p.state == State.Connected && QuietAir(heard) && !f.Deauth? && !Refusal(f)
    ensures Receive(HearAll(p, heard).0, f, r).delivered
         == if Due(p.key.rx, p.ptk, heard, f) then Some((f.slot, f.payload)) else None
  {
    hide HearAll, Receive, OnData, Accepts, Stale, Genuine, Fits, Sized;
    var q := HearAll(p, heard).0;
    AcceptsIffNotStale(p, heard, if f.Data? then f.slot else 0, if f.Data? then f.pn else 0);
    ConnectedHears(q, f, r);
    if f.Data? {
      OnDataIs(q, f);
      SizedIs(p.ptk, f);
    }
  }

  /** What a connected receiver hands on is what is due, frame by frame. */
  lemma {:induction false} HandsOnWhatIsDue(p: Party, fs: seq<Frame>)
    requires p.state == State.Connected && QuietAir(fs)
    ensures HearAll(p, fs).1 == DueFrames(p.key.rx, p.ptk, fs)
    decreases |fs|
  {
    hide Receive, Due;
    if fs != [] {
      var f, heard := fs[|fs| - 1], fs[..|fs| - 1];
      HandsOnWhatIsDue(p, heard);
      HandedOnIff(p, heard, f, Random(0, 0));
    }
  }

  lemma {:induction false} DueAreIn(rx: Counters, ptk: Ptk, fs: seq<Frame>, i: nat)
    requires i < |fs| && Due(rx, ptk, fs[..i], fs[i])
    ensures fs[i] in DueFrames(rx, ptk, fs)
    decreases |fs|
  {
    hide Due;
    var heard := fs[..|fs| - 1];
    if i < |fs| - 1 {
      assert heard[..i] == fs[..i] && heard[i] == fs[i];
      DueAreIn(rx, ptk, heard, i);
    }
  }

  lemma {:induction false} EachIsDue(rx: Counters, ptk: Ptk, fs: seq<Frame>, f: Frame) returns (i: nat)
    requires f in DueFrames(rx, ptk, fs)
    ensures i < |fs| && fs[i] == f && Due(rx, ptk, fs[..i], f)
    decreases |fs|
  {
    hide Due;
    var n := |fs| - 1;
    if Due(rx, ptk, fs[..n], fs[n]) && f == fs[n] {
      i := n;
    } else {
      i := EachIsDue(rx, ptk, fs[..n], f);
      assert fs[..n][..i] == fs[..i];
    }
  }

  // ---------- the epoch ----------

  /** d is what remains of s at the increasing positions idx. */
  ghost predicate PickedAt(d: seq<Frame>, s: seq<Frame>, idx: seq<nat>) {
    && |idx| == |d|
    && (forall i :: 0 <= i < |idx| ==> idx[i] < |s| && d[i] == s[idx[i]])
    && (forall i, j :: 0 <= i < j < |idx| ==> idx[i] < idx[j])
  }

  lemma NumberIsPlace(log: seq<Frame>, ptk: Ptk, f: Frame)
    requires Numbered(log, ptk) && |log| < PN_MODULUS && f in log
    ensures f.Data? && 1 <= f.pn <= |log| && log[f.pn - 1] == f
  {
  }

  /**
   Within one key epoch the frames handed on for a slot are an in-order, duplicate-free selection of
   those sent: each is the sender's frame at some place, and the places strictly increase.  None is
   held back without need: every frame is handed on whose number no genuine one has reached before.
   */
  lemma InOrderDelivery(sender: Party, es: seq<Event>, receiver: Party, fs: seq<Frame>, slot: nat)
    returns (idx: seq<nat>)
    requires SendsOnly(es) && sender.key.txPn == 0
    requires receiver.state == State.Connected && receiver.ptk == sender.ptk
    requires var log := SendAll(sender, es).1;
      |log| < PN_MODULUS && forall i :: 0 <= i < |fs| ==> OnAir(fs[i], log, receiver.ptk)
    ensures PickedAt(At(HearAll(receiver, fs).1, slot), SendAll(sender, es).1, idx)
    ensures HearAll(receiver, fs).1 == DueFrames(receiver.key.rx, receiver.ptk, fs)
  {
    hide SendAll, HearAll, At, OnAir, Numbered, WellSized, DueFrames;
    AirIsQuiet(fs, SendAll(sender, es).1, receiver.ptk);
    HandsOnWhatIsDue(receiver, fs);
    var log, got := SendAll(sender, es).1, HearAll(receiver, fs).1;
    var d := At(got, slot);
    SentAreNumbered(sender, es);
    HeardInv(receiver, fs, log, slot);
    AtSlot(got, slot);
    forall i | 0 <= i < |d|
      ensures 1 <= d[i].pn <= |log| && log[d[i].pn - 1] == d[i]
    {
      NumberIsPlace(log, sender.ptk, d[i]);
    }
    idx := seq(|d|, i requires 0 <= i < |d| => d[i].pn - 1);
  }

  lemma AirIsQuiet(fs: seq<Frame>, log: seq<Frame>, ptk: Ptk)
    requires forall i :: 0 <= i < |fs| ==> OnAir(fs[i], log, ptk)
    ensures QuietAir(fs)
  {
    forall i | 0 <= i < |fs|
      ensures !fs[i].Deauth? && !Refusal(fs[i])
    {
      assert OnAir(fs[i], log, ptk);
    }
  }

  /** The data frames that the receiver's size check lets through. */
  function Fitting(fs: seq<Frame>): seq<Frame> {
    if fs == [] then []
    else
      var f := fs[|fs| - 1];
      Fitting(fs[..|fs| - 1]) + (if f.Data? && Sized(f) then [f] else [])
  }

  lemma InOrderIsDue(log: seq<Frame>, ptk: Ptk, i: nat)
    requires Numbered(log, ptk) && WellSized(log, ptk) && |log| < PN_MODULUS && i < |log|
    ensures Due(Unused(), ptk, log[..i], log[i]) <==> Sized(log[i])
  {
    hide Genuine, Sized;
    forall j | 0 <= j < i
      ensures log[..i][j].Data? && log[..i][j].pn < log[i].pn
    {
      assert log[..i][j] == log[j];
    }
  }

  lemma {:induction false} InOrderAreDue(log: seq<Frame>, ptk: Ptk, n: nat)
    requires Numbered(log, ptk) && WellSized(log, ptk) && |log| < PN_MODULUS && n <= |log|
    ensures DueFrames(Unused(), ptk, log[..n]) == Fitting(log[..n])
  {
    hide Due, Sized, Numbered;
    if n > 0 {
      assert log[..n][..n - 1] == log[..n - 1];
      InOrderAreDue(log, ptk, n - 1);
      InOrderIsDue(log, ptk, n - 1);
    }
  }

  /** Over air that does nothing, a fresh receiver is handed everything sent that fits, in order. */
  lemma UndisturbedDelivery(sender: Party, es: seq<Event>, receiver: Party)
    requires SendsOnly(es) && sender.key.txPn == 0 && |SendAll(sender, es).1| < PN_MODULUS
    requires receiver.state == State.Connected && receiver.ptk == sender.ptk && receiver.key.rx == Unused()
    ensures HearAll(receiver, SendAll(sender, es).1).1 == Fitting(SendAll(sender, es).1)
  {
    hide SendAll, HearAll, DueFrames, Fitting, Genuine;
    var log := SendAll(sender, es).1;
    SentAreNumbered(sender, es);
    HandsOnWhatIsDue(receiver, log);
    InOrderAreDue(log, sender.ptk, |log|);
    assert log[..|log|] == log;
  }

  // ---------- from request to delivery ----------

  const PEER_LINK_HEADER: Payload := [0xAA, 0xAA, 0x03, 0x00, 0x00, 0x00, 0x89, 0x0D]

  /**
   What a sending request should deliver at the other end, with the slot it comes in: short data, with
   its user priority once quality of service is settled, and a peer-link body behind its header.
   */
  function Wanted(qos: bool, e: Event): seq<(nat, Payload)> {
    match e
    case SendData(d) => if |d| <= 64 then [(16, d)] else []
    case SendQos(d, up) => if |d| <= 64 then [(if qos then up % 8 else 16, d)] else []
    case SendTdls(b) =>
      if 0 < |b| <= 56 || (|b| <= 160 && b != [] && b[0] == 2) then [(16, PEER_LINK_HEADER + b)] else []
    case _ => []
  }

  function AllWanted(qos: bool, es: seq<Event>): seq<(nat, Payload)> {
    if es == [] then [] else AllWanted(qos, es[..|es| - 1]) + Wanted(qos, es[|es| - 1])
  }

  /** The payloads handed up for frames, each with its slot. */
  function HandedUp(fs: seq<Frame>): seq<(nat, Payload)> {
    if fs == [] then []
    else
      var f := fs[|fs| - 1];
      HandedUp(fs[..|fs| - 1]) + (if f.Data? then [(f.slot, f.payload)] else [])
  }

  lemma HeaderShows(b: Payload)
    requires b != []
    ensures [0xAA, 0xAA, 0x03, 0x00, 0x00, 0x00, 0x89, 0x0D, 0x02] <= PEER_LINK_HEADER + b <==> b[0] == 2
  {
    var head, f: Payload := [0xAA, 0xAA, 0x03, 0x00, 0x00, 0x00, 0x89, 0x0D, 0x02], PEER_LINK_HEADER + b;
    assert head == PEER_LINK_HEADER + [2] && f[..9] == PEER_LINK_HEADER + [b[0]];
    assert head <= f <==> f[..9] == head;
    assert f[8] == b[0] && head[8] == 2;
  }

  lemma NothingFits()
    ensures HandedUp(Fitting([])) == [] && Fitting([]) == [] && HandedUp([]) == []
  {
  }

  /** One request puts on the air what it wants delivered, or something too large to be. */
  lemma OneWanted(p: Party, e: Event, r: Random)
    requires Sends(e) && p.state == State.Connected
    ensures var o := Step(p, e, r);
      && |o.out| <= 1 && HandedUp(Fitting(o.out)) == Wanted(p.qos, e)
      && o.next.state == p.state && o.next.qos == p.qos
  {
    hide WirePn, Fitting, HandedUp, Protected;
    if Wants(p, e) {
      var slot, payload := Asked(p, e);
      ProtectedWants(p, slot, payload);
      if e.SendTdls? {
        HeaderShows(e.body);
      }
    } else {
      NothingFits();
    }
  }

  /** The request passes the sender's gate. */
  predicate Wants(p: Party, e: Event) {
    match e
    case SendData(d) => |d| <= 64
    case SendQos(d, up) => |d| <= 64
    case SendTdls(b) => 0 < |b| <= 160
    case _ => false
  }

  /** What it is then put on the air as. */
  lemma Asked(p: Party, e: Event) returns (slot: nat, payload: Payload)
    requires Wants(p, e) && p.state == State.Connected
    ensures forall r :: Step(p, e, r) == Protected(p, slot, payload)
    ensures slot == (if e.SendQos? && p.qos then e.up % 8 else 16)
    ensures payload == (if e.SendData? || e.SendQos? then e.payload else PEER_LINK_HEADER + e.body)
  {
    hide Protected;
    slot := if e.SendQos? && p.qos then e.up % 8 else 16;
    payload := if e.SendData? || e.SendQos? then e.payload else PEER_LINK_HEADER + e.body;
  }

  lemma ProtectedWants(p: Party, slot: nat, payload: Payload)
    ensures var o, f := Protected(p, slot, payload), Data(p.self, slot, 0, payload, By(p.ptk));
      && |o.out| <= 1 && o.next.state == p.state && o.next.qos == p.qos
      && HandedUp(Fitting(o.out)) == if Sized(f) then [(slot, payload)] else []
  {
    hide WirePn;
    var out := Protected(p, slot, payload).out;
    assert out[..0] == [];
    NothingFits();
    var f := out[0];
    if Sized(f) {
      assert Fitting(out) == [f] && [f][..0] == [];
    }
  }

  lemma FittingSnoc(fs: seq<Frame>, out: seq<Frame>)
    requires |out| <= 1
    ensures HandedUp(Fitting(fs + out)) == HandedUp(Fitting(fs)) + HandedUp(Fitting(out))
  {
    hide Sized;
    if out == [] {
      assert fs + out == fs;
    } else {
      var f := out[0];
      var g := if f.Data? && Sized(f) then [f] else [];
      assert (fs + out)[..|fs|] == fs && out[..0] == [];
      assert Fitting(fs + out) == Fitting(fs) + g && Fitting(out) == g;
      if g != [] {
        assert (Fitting(fs) + g)[..|Fitting(fs)|] == Fitting(fs) && g[..0] == [];
      } else {
        assert Fitting(fs) + g == Fitting(fs) && HandedUp(g) == [];
      }
    }
  }

  lemma {:induction false} SentIsWanted(p: Party, es: seq<Event>)
    requires SendsOnly(es) && p.state == State.Connected
    ensures var (q, log) := SendAll(p, es);
      q.state == p.state && q.qos == p.qos && HandedUp(Fitting(log)) == AllWanted(p.qos, es)
    decreases |es|
  {
    hide Step, Fitting, HandedUp, Wanted;
    if es == [] {
      NothingFits();
    } else {
      var es0 := es[..|es| - 1];
      SentIsWanted(p, es0);
      var (q, log) := SendAll(p, es0);
      OneWanted(q, es[|es| - 1], Random(0, 0));
      FittingSnoc(log, Step(q, es[|es| - 1], Random(0, 0)).out);
    }
  }

  lemma {:induction false} OneFrameEach(p: Party, es: seq<Event>)
    requires SendsOnly(es)
    ensures |SendAll(p, es).1| <= |es|
    decreases |es|
  {
    hide Step;
    if es != [] {
      OneFrameEach(p, es[..|es| - 1]);
      SendRest(SendAll(p, es[..|es| - 1]).0, es[|es| - 1], Random(0, 0));
    }
  }

  /**
   Over air that does nothing, a fresh receiver hands up exactly what the sender's requests asked for,
   in order, each payload in the slot of its user priority.
   */
  lemma RequestedIsDelivered(sender: Party, es: seq<Event>, receiver: Party)
    requires SendsOnly(es) && sender.state == State.Connected && sender.key.txPn == 0 && |es| < PN_MODULUS
    requires receiver.state == State.Connected && receiver.ptk == sender.ptk && receiver.key.rx == Unused()
    ensures HandedUp(HearAll(receiver, SendAll(sender, es).1).1) == AllWanted(sender.qos, es)
  {
    hide SendAll, HearAll, HandedUp, Fitting, AllWanted;
    OneFrameEach(sender, es);
    UndisturbedDelivery(sender, es, receiver);
    SentIsWanted(sender, es);
  }

  // ---------- a party's own frames fed back to it ----------

  /**
   A data frame names its transmitter, but the receiver does not look, and both ends use one key: a
   party's own frame, of whatever kind, played back to it at once is handed on exactly when its
   size is right and its number is one that the party still accepts.
   */
  lemma ReflectedFrame(p: Party, e: Event, r: Random, r': Random)
    requires Sends(e) && Step(p, e, r).out != []
    ensures var o := Step(p, e, r);
      && |o.out| == 1 && o.out[0].Data? && o.out[0].src == p.self
      && Receive(o.next, o.out[0], r').delivered ==
           (if Sized(o.out[0]) && Open(p.key.rx, o.out[0].slot, o.out[0].pn)
            then Some((o.out[0].slot, o.out[0].payload)) else None)
  {
    hide Step, Receive, OnData, Fits, Sized, Genuine, WirePn;
    SendRest(p, e, r);
    var o := Step(p, e, r);
    SizedIs(p.ptk, o.out[0]);
    ConnectedHears(o.next, o.out[0], r');
    OnDataIs(o.next, o.out[0]);
  }

  /** The first frame of an epoch is accepted back before anything has been received. */
  lemma FirstFrameReflected(p: Party, e: Event, r: Random, r': Random)
    requires Sends(e) && Step(p, e, r).out != [] && p.key.txPn == 0 && p.key.rx == Unused()
    ensures var o := Step(p, e, r);
      Sized(o.out[0]) ==> Receive(o.next, o.out[0], r').delivered == Some((o.out[0].slot, o.out[0].payload))
  {
    hide Step, Receive, Sized, Genuine;
    SendRest(p, e, r);
    ReflectedFrame(p, e, r, r');
  }

  /** d is taken from one or the other sequence, at increasing places common to both. */
  ghost predicate PickedFromEither(d: seq<Frame>, s: seq<Frame>, t: seq<Frame>, idx: seq<nat>) {
    && |idx| == |d|
    && (forall i :: 0 <= i < |idx| ==> (idx[i] < |s| && d[i] == s[idx[i]]) || (idx[i] < |t| && d[i] == t[idx[i]]))
    && (forall i, j :: 0 <= i < j < |idx| ==> idx[i] < idx[j])
  }

  /** Every frame of the slot that is not the peer's comes too late to be handed on. */
  ghost predicate OthersStale(rx: Counters, ptk: Ptk, fs: seq<Frame>, peer: seq<Frame>, slot: nat) {
    forall i :: 0 <= i < |fs| && Deliverable(ptk, fs[i]) && fs[i].slot == slot && fs[i] !in peer ==>
      Stale(rx, ptk, fs[..i], slot, fs[i].pn)
  }

  /**
   With the frames of both ends on the air, those handed on for a slot are at each number the peer's
   or the party's own, never both, in order and without duplicates.  They are a selection of the
   peer's frames exactly when each of the party's own comes back with a number that was not acceptable
   at first, or that a genuine frame of the slot has reached before it.
   */
  lemma DeliveryFromBoth(receiver: Party, fs: seq<Frame>, peer: seq<Frame>, own: seq<Frame>, slot: nat) returns (idx: seq<nat>)
    requires receiver.state == State.Connected && |peer| < PN_MODULUS && |own| < PN_MODULUS
    requires Numbered(peer, receiver.ptk) && Numbered(own, receiver.ptk)
    requires forall i :: 0 <= i < |fs| ==> OnAir(fs[i], peer + own, receiver.ptk)
    ensures var d := At(HearAll(receiver, fs).1, slot);
      && PickedFromEither(d, peer, own, idx)
      && ((exists places :: PickedAt(d, peer, places)) <==> OthersStale(receiver.key.rx, receiver.ptk, fs, peer, slot))
  {
    hide HearAll, At, OnAir, Numbered, PickedFromEither, PickedAt, DueFrames, OthersStale;
    var got := HearAll(receiver, fs).1;
    var d := At(got, slot);
    HeardInv(receiver, fs, peer + own, slot);
    AtSlot(got, slot);
    idx := PlacesInEither(d, peer, own, receiver.ptk);
    if places :| PickedAt(d, peer, places) {
      PickedAreIn(d, peer, places);
    }
    AirIsQuiet(fs, peer + own, receiver.ptk);
    HandsOnWhatIsDue(receiver, fs);
    AllFromPeer(receiver.key.rx, receiver.ptk, fs, peer, slot);
  }

  /** The frames due in a slot are all the peer's exactly when every other frame of the slot is stale. */
  lemma AllFromPeer(rx: Counters, ptk: Ptk, fs: seq<Frame>, peer: seq<Frame>, slot: nat)
    ensures (forall f :: f in At(DueFrames(rx, ptk, fs), slot) ==> f in peer) <==> OthersStale(rx, ptk, fs, peer, slot)
  {
    hide DueFrames, At, Stale, Sized;
    var d := At(DueFrames(rx, ptk, fs), slot);
    AtSlot(DueFrames(rx, ptk, fs), slot);
    if forall f :: f in d ==> f in peer {
      forall i | 0 <= i < |fs| && Deliverable(ptk, fs[i]) && fs[i].slot == slot && fs[i] !in peer
        ensures Stale(rx, ptk, fs[..i], slot, fs[i].pn)
      {
        if !Stale(rx, ptk, fs[..i], slot, fs[i].pn) {
          DueAreIn(rx, ptk, fs, i);
          AtHas(DueFrames(rx, ptk, fs), slot, fs[i]);
        }
      }
    }
    if OthersStale(rx, ptk, fs, peer, slot) {
      forall f | f in d
        ensures f in peer
      {
        var i := EachIsDue(rx, ptk, fs, f);
      }
    }
  }

  lemma {:induction false} AtHas(fs: seq<Frame>, slot: nat, f: Frame)
    requires f in fs && f.Data? && f.slot == slot
    ensures f in At(fs, slot)
  {
    var n := |fs| - 1;
    if f != fs[n] {
      AtHas(fs[..n], slot, f);
    }
  }

  lemma PlacesInEither(d: seq<Frame>, peer: seq<Frame>, own: seq<Frame>, ptk: Ptk) returns (idx: seq<nat>)
    requires |peer| < PN_MODULUS && |own| < PN_MODULUS && Numbered(peer, ptk) && Numbered(own, ptk)
    requires Increasing(d) && forall i :: 0 <= i < |d| ==> d[i] in peer + own
    ensures PickedFromEither(d, peer, own, idx) && (PickedAt(d, peer, idx) <==> forall f :: f in d ==> f in peer)
  {
    hide Numbered;
    forall i | 0 <= i < |d|
      ensures 1 <= d[i].pn && (d[i] in peer ==> Holds(peer, d[i])) && (d[i] in peer || Holds(own, d[i]))
    {
      HeldByEither(d[i], peer, own, ptk);
    }
    idx := seq(|d|, i requires 0 <= i < |d| => d[i].pn - 1);
    if forall f :: f in d ==> f in peer {
      assert PickedAt(d, peer, idx);
    }
    if PickedAt(d, peer, idx) {
      PickedAreIn(d, peer, idx);
    }
  }

  /** s holds the frame f at the place that its number says. */
  ghost predicate Holds(s: seq<Frame>, f: Frame) {
    f.Data? && 1 <= f.pn <= |s| && s[f.pn - 1] == f
  }

  lemma HeldByEither(f: Frame, peer: seq<Frame>, own: seq<Frame>, ptk: Ptk)
    requires |peer| < PN_MODULUS && |own| < PN_MODULUS && Numbered(peer, ptk) && Numbered(own, ptk) && f in peer + own
    ensures f.Data? && 1 <= f.pn && (f in peer ==> Holds(peer, f)) && (f in peer || Holds(own, f))
  {
    hide Numbered;
    if f in peer {
      NumberIsPlace(peer, ptk, f);
    } else {
      NumberIsPlace(own, ptk, f);
    }
  }

  lemma PickedAreIn(d: seq<Frame>, s: seq<Frame>, idx: seq<nat>)
    requires PickedAt(d, s, idx)
    ensures forall f :: f in d ==> f in s
  {
    forall f | f in d
      ensures f in s
    {
      var i :| 0 <= i < |d| && d[i] == f;
      assert s[idx[i]] == f;
    }
  }
}
