/**
 What every run of one party keeps, whatever frames it hears: being connected means keys are in
 place, and packet numbers are not reused with the same temporal key.
 */
module SmeSafety {
  import opened Words
  import opened Wrappers
  import opened Replay
  import opened Sme

  /**
   A party with its history: the keys installed so far, the (key, counter) pairs sent, and the
   (key, slot, packet number) triples of the frames accepted.
   */
  datatype History = History(p: Party, installed: set<Ptk>, sent: seq<(Ptk, nat)>, accepted: seq<(Ptk, nat, nat)>)

  function InitialHistory(role: Role, self: nat, pmk: nat, ocv: bool, oci: nat): History {
    History(InitialParty(role, self, pmk, ocv, oci), {}, [], [])
  }

  /** The key and counter value used by a step that sends data. */
  function SentBy(o: Result): seq<(Ptk, nat)> {
    if |o.out| == 1 && o.out[0].Data? && o.out[0].mic.By? then [(o.out[0].mic.key, o.next.key.txPn)] else []
  }

  /** The key that a step brings into use, if it is not the one in use already. */
  function InstalledBy(k: DataKey, k': DataKey): set<Ptk> {
    if k'.valid && !(k.valid && k.tk == k'.tk) then {k'.tk.ptk} else {}
  }

  /** The key in use, the slot and the number of a frame that the step takes. */
  function AcceptedBy(p: Party, e: Event): seq<(Ptk, nat, nat)> {
    if e.Hear? && e.f.Data? && Takes(p, e.f) then [(p.key.tk.ptk, e.f.slot, e.f.pn)] else []
  }

  function StepOf(h: History, e: Event, r: Random): History {
    var o := Step(h.p, e, r);
    History(o.next, h.installed + InstalledBy(h.p.key, o.next.key), h.sent + SentBy(o), h.accepted + AcceptedBy(h.p, e))
  }

  predicate Uses(k: Ptk, nonce: nat) {
    k.Kdf? && (k.nonceLo == nonce || k.nonceHi == nonce)
  }

  ghost predicate NotPartOf(installed: set<Ptk>, nonce: nat) {
    forall k :: k in installed ==> !Uses(k, nonce)
  }

  /** The histories of the runs in which no nonce drawn is part of a key already installed. */
  ghost predicate Reachable(h: History, es: seq<Event>, rs: seq<Random>)
    requires |es| == |rs|
    decreases |es|
  {
    if es == [] then
      exists role, self, pmk, ocv, oci :: h == InitialHistory(role, self, pmk, ocv, oci)
    else
      var n := |es| - 1;
      exists h0 :: Reachable(h0, es[..n], rs[..n]) && NotPartOf(h0.installed, rs[n].nonce) && h == StepOf(h0, es[n], rs[n])
  }

  // ---------- connected means keyed ----------

  /** Both keys in use, and the installed temporal key is the one derived. */
  ghost predicate Keyed(p: Party) {
    p.connected && p.ptkInstalled && p.gtkInstalled && p.key.valid && p.key.tk == TkOf(p.ptk)
  }

  ghost predicate ConnectedIsKeyed(p: Party) {
    p.state == State.Connected ==> Keyed(p)
  }

  // ---------- a key that comes into use is new ----------

  /** The nonce that this party contributes to the keys of the handshake in progress. */
  function OwnNonce(p: Party): nat {
    if p.role == Station then p.snonce else p.anonce
  }

  ghost predicate KeysFresh(p: Party, installed: set<Ptk>) {
    && (p.key.valid ==> p.key.tk.ptk in installed)
    && (p.ptk in installed ==> p.key.valid && p.key.tk == TkOf(p.ptk))
    && (p.state == FourWay ==> NotPartOf(installed, OwnNonce(p)))
  }

  ghost predicate PartyInv(p: Party, installed: set<Ptk>) {
    ConnectedIsKeyed(p) && KeysFresh(p, installed)
  }

  /** What a step does to the key in use, in the three ways it can. */
  ghost predicate KeyStep(p: Party, o: Result) {
    || (o.next.key.(rx := p.key.rx) == p.key && SentBy(o) == [])
    || (p.state == State.Connected && o.next.key == p.key.(txPn := (p.key.txPn + 1) % COUNTER_MODULUS)
        && SentBy(o) == [(p.ptk, o.next.key.txPn)])
    || (o.next.state == State.Connected && p.state == FourWay && o.next.ptk == p.ptk
        && o.next.key == InstalledKey(p.key, p.ptk) && SentBy(o) == [])
  }

  lemma DerivedUsesNonces(p: Party)
    ensures Uses(Derived(p).ptk, p.anonce) && Uses(Derived(p).ptk, p.snonce)
  {
  }

  /** A step keeps the party invariant, with the installed set growing by what it installs. */
  ghost predicate Good(p: Party, installed: set<Ptk>, o: Result) {
    KeyStep(p, o) && PartyInv(o.next, installed + InstalledBy(p.key, o.next.key))
  }

  /** Steps that leave the keys alone and neither connect nor enter the handshake. */
  lemma QuietGood(p: Party, installed: set<Ptk>, o: Result)
    requires PartyInv(p, installed)
    requires o.next.key == p.key && o.next.ptk == p.ptk && SentBy(o) == []
    requires o.next.state == State.Connected ==>
      && p.state == State.Connected && o.next.connected == p.connected
      && o.next.ptkInstalled == p.ptkInstalled && o.next.gtkInstalled == p.gtkInstalled
    requires o.next.state == FourWay ==> NotPartOf(installed, OwnNonce(o.next))
    ensures Good(p, installed, o)
  {
  }

  lemma CompletedGood(p: Party, installed: set<Ptk>, out: seq<Frame>)
    requires PartyInv(p, installed) && p.state == FourWay
    requires out == [] || (|out| == 1 && out[0].M4?)
    ensures Good(p, installed, Result(Completed(p), out, None))
  {
  }

  /** Steps that change neither the keys nor the handshake, or leave both states for another one. */
  lemma KeepsGood(p: Party, installed: set<Ptk>, o: Result)
    requires PartyInv(p, installed)
    requires o.next.key == p.key && o.next.ptk == p.ptk && SentBy(o) == []
    requires (o.next.state != State.Connected && o.next.state != FourWay)
      || (&& o.next.state == p.state && o.next.role == p.role && o.next.anonce == p.anonce && o.next.snonce == p.snonce
          && o.next.connected == p.connected && o.next.ptkInstalled == p.ptkInstalled && o.next.gtkInstalled == p.gtkInstalled)
    ensures Good(p, installed, o)
  {
    hide NotPartOf, Good, SentBy;
    QuietGood(p, installed, o);
  }

  lemma ApOnAssocReqGood(p: Party, installed: set<Ptk>, f: Frame, r: Random)
    requires PartyInv(p, installed) && NotPartOf(installed, r.nonce) && f.AssocReq? && p.role == AccessPoint
    requires p.state != State.Connected
    ensures Good(p, installed, ApOnAssocReq(p, f, r))
  {
    hide Good, PartyInv, NotPartOf, PolicyOf, Refused, FirstMessage;
    var p1 := PolicyOf(p, f.wmm, f.rsn);
    PolicyKeeps(p, f.wmm, f.rsn);
    if Refused(f.rsn) {
      KeepsGood(p, installed, Stay(p1.(state := Failed)));
    } else {
      FirstMessageGood(p, p1, installed, r);
    }
  }

  lemma FirstMessageGood(p: Party, p1: Party, installed: set<Ptk>, r: Random)
    requires PartyInv(p, installed) && NotPartOf(installed, r.nonce) && p1.role == AccessPoint
    requires p1.key == p.key && p1.ptk == p.ptk
    ensures Good(p, installed, FirstMessage(p1, r))
  {
    hide Good, PartyInv, NotPartOf;
    QuietGood(p, installed, FirstMessage(p1, r));
  }

  lemma PolicyKeeps(p: Party, qos: bool, rsn: Negotiation)
    ensures var q := PolicyOf(p, qos, rsn);
      && q.key == p.key && q.ptk == p.ptk && q.role == p.role && q.anonce == p.anonce && q.snonce == p.snonce
      && q.connected == p.connected
  {
  }

  /** Steps of the handshake that derive a key from this party's own nonce. */
  lemma RederivedGood(p: Party, installed: set<Ptk>, o: Result)
    requires PartyInv(p, installed) && p.state == FourWay && o.next.state == FourWay
    requires o.next.key == p.key && SentBy(o) == [] && OwnNonce(o.next) == OwnNonce(p) && Uses(o.next.ptk, OwnNonce(p))
    ensures Good(p, installed, o)
  {
    hide SentBy, OwnNonce;
  }

  lemma ApOnM2Good(p: Party, installed: set<Ptk>, f: Frame, r: Random)
    requires PartyInv(p, installed) && f.M2? && p.role == AccessPoint
    ensures Good(p, installed, ApOnM2(p, f, r))
  {
    hide Derived, OciRejected, OwnOci, Good, PartyInv;
    if p.state != FourWay || f.replay != p.replay {
      StayGood(p, installed);
    } else {
      DerivedUsesNonces(p.(snonce := f.snonce));
      DerivedKeeps(p.(snonce := f.snonce));
      RederivedGood(p, installed, ApOnM2(p, f, r));
    }
  }

  lemma DerivedKeeps(p: Party)
    ensures var q := Derived(p);
      && q.key == p.key && q.role == p.role && q.anonce == p.anonce && q.snonce == p.snonce && q.state == p.state
      && q.replay == p.replay && q.gtk == p.gtk
  {
  }

  lemma ApOnM4Good(p: Party, installed: set<Ptk>, f: Frame)
    requires PartyInv(p, installed) && f.M4?
    ensures Good(p, installed, ApOnM4(p, f))
  {
    hide Completed;
    if p.state == FourWay {
      CompletedGood(p, installed, []);
    }
  }

  lemma StaAnswerM1Good(p: Party, installed: set<Ptk>, f: Frame, r: Random)
    requires PartyInv(p, installed) && NotPartOf(installed, r.nonce) && f.M1? && p.role == Station
    requires p.state == Assoced || p.state == FourWay
    ensures Good(p, installed, StaAnswerM1(p, f, r))
  {
  }

  /** What the answer to a kept M1 starts from. */
  lemma AssocedInv(p: Party, installed: set<Ptk>, p': Party)
    requires PartyInv(p, installed)
    requires p'.state == Assoced && p'.key == p.key && p'.ptk == p.ptk
    ensures PartyInv(p', installed)
  {
  }

  lemma SameKeyGood(p: Party, p1: Party, installed: set<Ptk>, o: Result)
    requires Good(p1, installed, o) && p1.key == p.key && p1.state == Assoced
    ensures Good(p, installed, o)
  {
  }

  lemma AssociatedKeeps(p: Party, f: Frame)
    requires f.AssocResp?
    ensures var p1 := Associated(p, f);
      && p1.key == p.key && p1.ptk == p.ptk && p1.role == p.role && p1.connected == p.connected
      && (p1.state == Assoced || p1.state == Failed)
  {
  }

  lemma StaOnAssocRespGood(p: Party, installed: set<Ptk>, f: Frame, r: Random)
    requires PartyInv(p, installed) && NotPartOf(installed, r.nonce) && f.AssocResp? && p.role == Station
    requires p.state != State.Connected
    ensures Good(p, installed, StaOnAssocResp(p, f, r))
  {
    hide StaAnswerM1, Associated, Good, PartyInv, NotPartOf;
    AssociatedKeeps(p, f);
    var p1 := Associated(p, f);
    if p1.state == Assoced && p1.earlyM1.Some? && p1.earlyM1.value.M1? {
      var p2 := p1.(earlyM1 := None);
      AssocedInv(p, installed, p2);
      StaAnswerM1Good(p2, installed, p1.earlyM1.value, r);
      SameKeyGood(p, p2, installed, StaAnswerM1(p2, p1.earlyM1.value, r));
    } else {
      QuietGood(p, installed, Stay(p1));
    }
  }

  lemma StaOnM3Good(p: Party, installed: set<Ptk>, f: Frame)
    requires PartyInv(p, installed) && f.M3? && p.role == Station
    ensures Good(p, installed, StaOnM3(p, f))
  {
    hide Completed;
    if p.state == FourWay {
      var p0 := p.(replay := f.replay, gtk := f.gtk);
      CompletedGood(p0, installed, [M4(f.replay, By(p.ptk))]);
      assert Completed(p0).ptk == p.ptk && Completed(p0).replay == f.replay by { CompletedKeeps(p0); }
    }
  }

  lemma CompletedKeeps(p: Party)
    ensures Completed(p).ptk == p.ptk && Completed(p).replay == p.replay && Completed(p).role == p.role
  {
  }

  lemma OnDataGood(p: Party, installed: set<Ptk>, f: Frame)
    requires PartyInv(p, installed) && f.Data?
    ensures Good(p, installed, OnData(p, f))
  {
    hide OnData, Takes, Committed, NotPartOf, Good, PartyInv;
    OnDataIs(p, f);
    if Takes(p, f) {
      ReceivedGood(p, installed, OnData(p, f), Committed(p.key.rx, f.slot, f.pn));
    } else {
      StayGood(p, installed);
      SameGood(p, installed, OnData(p, f));
    }
  }

  lemma ReceivedGood(p: Party, installed: set<Ptk>, o: Result, rx: Counters)
    requires PartyInv(p, installed) && o.next == p.(key := p.key.(rx := rx)) && o.out == []
    ensures Good(p, installed, o)
  {
    assert installed + {} == installed;
  }

  lemma SameGood(p: Party, installed: set<Ptk>, o: Result)
    requires Good(p, installed, Stay(p)) && o.next == p && o.out == []
    ensures Good(p, installed, o)
  {
  }

  lemma ApReceiveGood(p: Party, installed: set<Ptk>, f: Frame, r: Random)
    requires PartyInv(p, installed) && NotPartOf(installed, r.nonce) && p.role == AccessPoint
    requires p.state != State.Connected || f.Data?
    ensures Good(p, installed, ApReceive(p, f, r))
  {
    hide OnData, ApOnM2, ApOnM4, ApOnAssocReq, Good, NotPartOf, PartyInv;
    match f
    case AssocReq(_, _) => ApOnAssocReqGood(p, installed, f, r);
    case M2(_, _, _, _) => ApOnM2Good(p, installed, f, r);
    case M4(_, _) => ApOnM4Good(p, installed, f);
    case Data(_, _, _, _, _) => OnDataGood(p, installed, f);
    case _ => KeepsGood(p, installed, ApReceive(p, f, r));
  }

  lemma StaReceiveGood(p: Party, installed: set<Ptk>, f: Frame, r: Random)
    requires PartyInv(p, installed) && NotPartOf(installed, r.nonce) && p.role == Station
    requires p.state != State.Connected || f.Data?
    ensures Good(p, installed, StaReceive(p, f, r))
  {
    hide OnData, StaOnM3, StaOnAssocResp, StaOnM1, StaOnProbeResp, Good, NotPartOf, PartyInv;
    match f
    case AssocResp(_, _, _) => StaOnAssocRespGood(p, installed, f, r);
    case M1(_, _) => StaOnM1Good(p, installed, f, r);
    case M3(_, _, _, _, _, _) => StaOnM3Good(p, installed, f);
    case Data(_, _, _, _, _) => OnDataGood(p, installed, f);
    case ProbeResp(_, _) => StaOnProbeRespGood(p, installed, f);
    case AuthResp(_) => KeepsGood(p, installed, StaReceive(p, f, r));
    case _ => StayGood(p, installed);
  }

  lemma StaOnM1Good(p: Party, installed: set<Ptk>, f: Frame, r: Random)
    requires PartyInv(p, installed) && NotPartOf(installed, r.nonce) && f.M1? && p.role == Station
    requires p.state != State.Connected
    ensures Good(p, installed, StaOnM1(p, f, r))
  {
    hide StaAnswerM1, Good, NotPartOf, PartyInv;
    if p.state == Assoced || p.state == FourWay {
      StaAnswerM1Good(p, installed, f, r);
    } else {
      KeepsGood(p, installed, StaOnM1(p, f, r));
    }
  }

  lemma StaOnProbeRespGood(p: Party, installed: set<Ptk>, f: Frame)
    requires PartyInv(p, installed) && f.ProbeResp? && p.state != State.Connected
    ensures Good(p, installed, StaOnProbeResp(p, f))
  {
    hide Good, NotPartOf, PartyInv;
    if p.state == Scanning {
      KeepsGood(p, installed, StaOnProbeResp(p, f));
    } else {
      StayGood(p, installed);
    }
  }

  lemma ReceiveGood(p: Party, installed: set<Ptk>, f: Frame, r: Random)
    requires PartyInv(p, installed) && NotPartOf(installed, r.nonce)
    ensures Good(p, installed, Receive(p, f, r))
  {
    hide Receive, ApReceive, StaReceive, Good, NotPartOf, PartyInv;
    GateIs(p, f, r);
    if Gated(p, f) {
      GateRest(p, f, r);
      KeepsGood(p, installed, Receive(p, f, r));
    } else if p.role == AccessPoint {
      ApReceiveGood(p, installed, f, r);
    } else {
      StaReceiveGood(p, installed, f, r);
    }
  }

  lemma ProtectedGood(p: Party, installed: set<Ptk>, slot: nat, payload: Payload)
    requires PartyInv(p, installed) && p.state == State.Connected
    ensures Good(p, installed, Protected(p, slot, payload))
  {
  }

  lemma StepGood(p: Party, installed: set<Ptk>, e: Event, r: Random)
    requires PartyInv(p, installed) && NotPartOf(installed, r.nonce)
    ensures Good(p, installed, Step(p, e, r))
  {
    hide Receive, Step, Good, NotPartOf, PartyInv;
    if Sends(e) {
      SendGood(p, installed, e, r);
    } else if e.Hear? {
      ReceiveGood(p, installed, e.f, r);
      assert Step(p, e, r) == Receive(p, e.f, r) by { HearIs(p, e.f, r); }
    } else {
      LocalGood(p, installed, e, r);
    }
  }

  lemma HearIs(p: Party, f: Frame, r: Random)
    ensures Step(p, Hear(f), r) == Receive(p, f, r)
  {
  }

  lemma LocalGood(p: Party, installed: set<Ptk>, e: Event, r: Random)
    requires PartyInv(p, installed) && (e.ConnectStart? || e.SetPeer?)
    ensures Good(p, installed, Step(p, e, r))
  {
    hide Good, NotPartOf, PartyInv;
    KeepsGood(p, installed, Step(p, e, r));
  }

  lemma StayGood(p: Party, installed: set<Ptk>)
    requires PartyInv(p, installed)
    ensures Good(p, installed, Stay(p))
  {
  }

  lemma SendGood(p: Party, installed: set<Ptk>, e: Event, r: Random)
    requires PartyInv(p, installed) && Sends(e)
    ensures Good(p, installed, Step(p, e, r))
  {
    hide Step, Protected, Good, PartyInv;
    StayGood(p, installed);
    var slot, payload := SendingStep(p, e, r);
    if p.state == State.Connected {
      ProtectedGood(p, installed, slot, payload);
    }
  }

  // ---------- the (key, counter) pairs sent ----------

  ghost predicate Wrapped(sent: seq<(Ptk, nat)>) {
    exists i :: 0 <= i < |sent| && sent[i].1 == 0
  }

  ghost predicate Distinct(sent: seq<(Ptk, nat)>) {
    forall i, j :: 0 <= i < j < |sent| ==> sent[i] != sent[j]
  }

  /** Under the key in use no counter value sent so far exceeds the counter. */
  ghost predicate UpTo(k: DataKey, sent: seq<(Ptk, nat)>) {
    forall i :: 0 <= i < |sent| && k.valid && sent[i].0 == k.tk.ptk ==> sent[i].1 <= k.txPn
  }

  /** The value before n, in the order in which the 64-bit counter runs. */
  function Previous(n: nat): nat {
    if n == 0 then COUNTER_MODULUS - 1 else n - 1
  }

  /** Every value sent but 1 has its predecessor sent under the same key. */
  ghost predicate Gapless(sent: seq<(Ptk, nat)>) {
    forall e :: e in sent ==> e.1 == 1 || (e.0, Previous(e.1)) in sent
  }

  ghost predicate LogInv(k: DataKey, installed: set<Ptk>, sent: seq<(Ptk, nat)>) {
    && (forall e :: e in sent ==> e.0 in installed)
    && (Wrapped(sent) || (Distinct(sent) && UpTo(k, sent)))
    && Gapless(sent)
    && (k.valid && k.txPn != 0 ==> (k.tk.ptk, k.txPn) in sent)
  }

  /** The counter value after n. */
  function Following(n: u64): u64 {
    (n + 1) % COUNTER_MODULUS
  }

  lemma FollowingIs(n: u64)
    ensures if n == COUNTER_MODULUS - 1 then Following(n) == 0 else Following(n) == n + 1
    ensures Following(n) != 1 || n == 0
    ensures n != 0 ==> Previous(Following(n)) == n
    ensures n == 0 ==> Following(n) == 1
  {
  }

  lemma SendKeepsLog(k: DataKey, k': DataKey, installed: set<Ptk>, sent: seq<(Ptk, nat)>)
    requires LogInv(k, installed, sent) && k.valid && k.tk.ptk in installed
    requires k' == k.(txPn := Following(k.txPn))
    ensures LogInv(k', installed, sent + [(k.tk.ptk, k'.txPn)])
  {
    hide Gapless, Following, Distinct, UpTo, Wrapped;
    FollowingIs(k.txPn);
    var e := (k.tk.ptk, k'.txPn);
    assert (sent + [e])[|sent|] == e;
    GaplessExtends(sent, e, k.txPn);
    SendKeepsDistinct(k, k', sent);
  }

  lemma SendKeepsDistinct(k: DataKey, k': DataKey, sent: seq<(Ptk, nat)>)
    requires k.valid && k' == k.(txPn := Following(k.txPn))
    requires Wrapped(sent) || (Distinct(sent) && UpTo(k, sent))
    ensures var sent' := sent + [(k.tk.ptk, k'.txPn)]; Wrapped(sent') || (Distinct(sent') && UpTo(k', sent'))
  {
    hide Following;
    FollowingIs(k.txPn);
    var e := (k.tk.ptk, k'.txPn);
    var sent' := sent + [e];
    assert sent'[|sent|] == e;
    if k'.txPn == 0 {
      assert Wrapped(sent');
    } else if Wrapped(sent) {
      var i :| 0 <= i < |sent| && sent[i].1 == 0;
      assert sent'[i].1 == 0;
    }
  }

  lemma GaplessExtends(sent: seq<(Ptk, nat)>, e: (Ptk, nat), n: u64)
    requires Gapless(sent) && e.1 == Following(n) && (n != 0 ==> (e.0, n) in sent)
    ensures Gapless(sent + [e])
  {
    hide Following, Previous;
    FollowingIs(n);
  }

  lemma InstallKeepsLog(k: DataKey, installed: set<Ptk>, sent: seq<(Ptk, nat)>, ptk: Ptk)
    requires LogInv(k, installed, sent) && (ptk in installed ==> k.valid && k.tk == TkOf(ptk))
    ensures LogInv(InstalledKey(k, ptk), installed + InstalledBy(k, InstalledKey(k, ptk)), sent)
  {
  }

  lemma StepKeepsLog(h: History, o: Result)
    requires LogInv(h.p.key, h.installed, h.sent) && PartyInv(h.p, h.installed) && KeyStep(h.p, o)
    ensures LogInv(o.next.key, h.installed + InstalledBy(h.p.key, o.next.key), h.sent + SentBy(o))
  {
    hide LogInv, SentBy, NotPartOf;
    var k, k' := h.p.key, o.next.key;
    if k'.(rx := k.rx) == k && SentBy(o) == [] {
      assert h.sent + [] == h.sent && h.installed + {} == h.installed;
      ReceivingKeepsLog(k, k', h.installed, h.sent);
    } else if k' == k.(txPn := (k.txPn + 1) % COUNTER_MODULUS) && h.p.state == State.Connected {
      assert h.installed + {} == h.installed;
      SendKeepsLog(k, k', h.installed, h.sent);
    } else {
      assert h.sent + [] == h.sent;
      InstallKeepsLog(k, h.installed, h.sent, h.p.ptk);
    }
  }

  lemma ReceivingKeepsLog(k: DataKey, k': DataKey, installed: set<Ptk>, sent: seq<(Ptk, nat)>)
    requires LogInv(k, installed, sent) && k'.(rx := k.rx) == k
    ensures LogInv(k', installed, sent)
  {
  }

  // ---------- the (key, slot, number) triples accepted ----------

  /** What a step does to the replay counters. */
  ghost predicate RxStep(p: Party, e: Event, k': DataKey) {
    || (AcceptedBy(p, e) == [] && k'.rx == p.key.rx && k'.valid == p.key.valid && k'.tk == p.key.tk)
    || (AcceptedBy(p, e) == [] && k' == InstalledKey(p.key, p.ptk))
    || (e.Hear? && e.f.Data? && Takes(p, e.f) && k' == p.key.(rx := Committed(p.key.rx, e.f.slot, e.f.pn)))
  }

  lemma ApKeyStep(p: Party, f: Frame, r: Random)
    requires !f.Data?
    ensures var k := ApReceive(p, f, r).next.key; k == p.key || k == InstalledKey(p.key, p.ptk)
  {
    hide ApOnAssocReq, ApOnM2, ApOnM4, InstalledKey;
    match f
    case AssocReq(_, _) => AssocReqKey(p, f, r);
    case M2(_, _, _, _) => M2Key(p, f, r);
    case M4(_, _) => M4Key(p, f);
    case _ =>
  }

  lemma AssocReqKey(p: Party, f: Frame, r: Random)
    requires f.AssocReq?
    ensures ApOnAssocReq(p, f, r).next.key == p.key
  {
    hide PolicyOf, FirstMessage, Refused;
    PolicyKeeps(p, f.wmm, f.rsn);
    FirstMessageKey(PolicyOf(p, f.wmm, f.rsn), r);
  }

  lemma FirstMessageKey(p: Party, r: Random)
    ensures var q := FirstMessage(p, r).next; q.key == p.key && q.state == FourWay && q.connected == p.connected
  {
  }

  lemma M2Key(p: Party, f: Frame, r: Random)
    requires f.M2?
    ensures ApOnM2(p, f, r).next.key == p.key
  {
    hide Derived, OciRejected, OwnOci;
    DerivedKeeps(p.(snonce := f.snonce));
  }

  lemma M4Key(p: Party, f: Frame)
    requires f.M4?
    ensures var k := ApOnM4(p, f).next.key; k == p.key || k == InstalledKey(p.key, p.ptk)
  {
    hide InstalledKey;
  }

  lemma StaKeyStep(p: Party, f: Frame, r: Random)
    requires !f.Data?
    ensures var k := StaReceive(p, f, r).next.key; k == p.key || k == InstalledKey(p.key, p.ptk)
  {
    hide InstalledKey, Associated, StaAnswerM1;
    match f
    case AssocResp(_, _, _) =>
      AssociatedKeeps(p, f);
      AnswerKey(Associated(p, f).(earlyM1 := None), r);
    case M1(_, _) => AnswerKey(p, r);
    case _ =>
  }

  lemma AnswerKey(p: Party, r: Random)
    ensures forall f: Frame :: f.M1? ==> StaAnswerM1(p, f, r).next.key == p.key
  {
    hide DerivePtk;
  }

  lemma RxEffect(p: Party, e: Event, r: Random)
    ensures RxStep(p, e, Step(p, e, r).next.key)
  {
    hide Step, Receive, ApReceive, StaReceive, Takes, InstalledKey, Committed, Gated;
    if Sends(e) {
      SendRest(p, e, r);
    } else if e.Hear? {
      HearIs(p, e.f, r);
      HearRxEffect(p, e.f, r);
    } else {
      assert Step(p, e, r).next.key == p.key by { LocalKey(p, e, r); }
    }
  }

  lemma LocalKey(p: Party, e: Event, r: Random)
    requires e.ConnectStart? || e.SetPeer?
    ensures Step(p, e, r).next.key == p.key
  {
  }

  lemma HearRxEffect(p: Party, f: Frame, r: Random)
    ensures RxStep(p, Hear(f), Receive(p, f, r).next.key)
  {
    hide Receive, ApReceive, StaReceive, OnData, Takes, InstalledKey, Committed;
    if f.Data? {
      DataIs(p, f, r);
      OnDataIs(p, f);
      FailedTakesNothing(p, f);
    } else {
      GateIs(p, f, r);
      if Gated(p, f) {
        GateRest(p, f, r);
      } else {
        ApKeyStep(p, f, r);
        StaKeyStep(p, f, r);
      }
    }
  }

  lemma FailedTakesNothing(p: Party, f: Frame)
    requires f.Data?
    ensures p.state == Failed ==> !Takes(p, f)
  {
  }

  /** For each key and slot, the numbers accepted increase. */
  ghost predicate Ascending(accepted: seq<(Ptk, nat, nat)>) {
    forall i, j :: 0 <= i < j < |accepted| && accepted[i].0 == accepted[j].0 && accepted[i].1 == accepted[j].1 ==>
      accepted[i].2 < accepted[j].2
  }

  /** Under the key in use, the counters have reached every number accepted. */
  ghost predicate Reached(k: DataKey, accepted: seq<(Ptk, nat, nat)>) {
    forall a :: a in accepted && k.valid && a.0 == k.tk.ptk ==> a.1 < SLOTS && k.rx.seen[a.1] && a.2 <= k.rx.highest[a.1]
  }

  ghost predicate AcceptInv(k: DataKey, installed: set<Ptk>, accepted: seq<(Ptk, nat, nat)>) {
    (forall a :: a in accepted ==> a.0 in installed) && Ascending(accepted) && Reached(k, accepted)
  }

  lemma TakingKeeps(k: DataKey, slot: nat, pn: nat, installed: set<Ptk>, accepted: seq<(Ptk, nat, nat)>)
    requires AcceptInv(k, installed, accepted) && k.valid && k.tk.ptk in installed && Accepts(k.rx, slot, pn)
    ensures AcceptInv(k.(rx := Committed(k.rx, slot, pn)), installed, accepted + [(k.tk.ptk, slot, pn)])
  {
    var a := (k.tk.ptk, slot, pn);
    var more := accepted + [a];
    forall i, j | 0 <= i < j < |more| && more[i].0 == more[j].0 && more[i].1 == more[j].1
      ensures more[i].2 < more[j].2
    {
      assert accepted[i] in accepted;
    }
  }

  lemma InstallingKeeps(k: DataKey, ptk: Ptk, installed: set<Ptk>, accepted: seq<(Ptk, nat, nat)>)
    requires AcceptInv(k, installed, accepted) && (ptk in installed ==> k.valid && k.tk == TkOf(ptk))
    ensures AcceptInv(InstalledKey(k, ptk), installed + InstalledBy(k, InstalledKey(k, ptk)), accepted)
  {
  }

  lemma StepKeepsAccepted(h: History, e: Event, k': DataKey)
    requires AcceptInv(h.p.key, h.installed, h.accepted) && PartyInv(h.p, h.installed) && RxStep(h.p, e, k')
    ensures AcceptInv(k', h.installed + InstalledBy(h.p.key, k'), h.accepted + AcceptedBy(h.p, e))
  {
    hide AcceptInv, NotPartOf, Committed, InstalledKey, InstalledBy;
    var k := h.p.key;
    if e.Hear? && e.f.Data? && Takes(h.p, e.f) {
      TakingKeeps(k, e.f.slot, e.f.pn, h.installed, h.accepted);
      SameKeyInstalls(k, k', h.installed);
    } else {
      assert h.accepted + [] == h.accepted;
      if k' == InstalledKey(k, h.p.ptk) {
        InstallingKeeps(k, h.p.ptk, h.installed, h.accepted);
      } else {
        SameKeyInstalls(k, k', h.installed);
        SameCountersKeep(k, k', h.installed, h.accepted);
      }
    }
  }

  lemma SameKeyInstalls(k: DataKey, k': DataKey, installed: set<Ptk>)
    requires k'.valid == k.valid && k'.tk == k.tk
    ensures installed + InstalledBy(k, k') == installed
  {
  }

  lemma SameCountersKeep(k: DataKey, k': DataKey, installed: set<Ptk>, accepted: seq<(Ptk, nat, nat)>)
    requires AcceptInv(k, installed, accepted) && k'.rx == k.rx && k'.valid == k.valid && k'.tk == k.tk
    ensures AcceptInv(k', installed, accepted)
  {
  }

  // ---------- over every run ----------

  ghost predicate HistoryInv(h: History) {
    && PartyInv(h.p, h.installed) && LogInv(h.p.key, h.installed, h.sent)
    && AcceptInv(h.p.key, h.installed, h.accepted)
  }

  lemma {:induction false} RunKeepsInv(h: History, es: seq<Event>, rs: seq<Random>)
    requires |es| == |rs| && Reachable(h, es, rs)
    ensures HistoryInv(h)
    decreases |es|
  {
    hide StepOf, NotPartOf, HistoryInv, InitialHistory;
    if es != [] {
      var n := |es| - 1;
      var h0 :| Reachable(h0, es[..n], rs[..n]) && NotPartOf(h0.installed, rs[n].nonce) && h == StepOf(h0, es[n], rs[n]);
      RunKeepsInv(h0, es[..n], rs[..n]);
      HistoryStep(h0, es[n], rs[n]);
    } else {
      InitialInv(h);
    }
  }

  lemma HistoryStep(h: History, e: Event, r: Random)
    requires HistoryInv(h) && NotPartOf(h.installed, r.nonce)
    ensures HistoryInv(StepOf(h, e, r))
  {
    hide Step, NotPartOf, PartyInv, LogInv, AcceptInv, KeyStep, RxStep, SentBy, InstalledBy, AcceptedBy;
    StepGood(h.p, h.installed, e, r);
    StepKeepsLog(h, Step(h.p, e, r));
    RxEffect(h.p, e, r);
    StepKeepsAccepted(h, e, Step(h.p, e, r).next.key);
  }

  lemma InitialInv(h: History)
    requires Reachable(h, [], [])
    ensures HistoryInv(h)
  {
  }

  /** In every run, in the connected state both keys are in use and the installed one is derived. */
  lemma ConnectedMeansKeyed(h: History, es: seq<Event>, rs: seq<Random>)
    requires |es| == |rs| && Reachable(h, es, rs) && h.p.state == State.Connected
    ensures h.p.connected && h.p.ptkInstalled && h.p.gtkInstalled
    ensures h.p.key.valid && h.p.key.tk == TkOf(h.p.ptk)
  {
    hide Reachable, LogInv, AcceptInv;
    RunKeepsInv(h, es, rs);
  }

  /**
   In every run no packet number is accepted twice in one slot under one key, even when the key is
   installed again: the numbers accepted increase for as long as the key is known.
   */
  lemma NothingAcceptedTwice(h: History, es: seq<Event>, rs: seq<Random>)
    requires |es| == |rs| && Reachable(h, es, rs)
    ensures Ascending(h.accepted)
    ensures forall i, j :: 0 <= i < j < |h.accepted| ==> h.accepted[i] != h.accepted[j]
  {
    hide Reachable, LogInv, PartyInv;
    RunKeepsInv(h, es, rs);
  }

  /** Whatever is handed on is in the record: under the party's key, with the frame's slot and number. */
  lemma DeliveredIsRecorded(h: History, e: Event, r: Random)
    requires PartyInv(h.p, h.installed) && Step(h.p, e, r).delivered.Some?
    ensures e.Hear? && e.f.Data? && e.f.mic == By(h.p.ptk)
    ensures StepOf(h, e, r).accepted == h.accepted + [(h.p.ptk, e.f.slot, e.f.pn)]
  {
    hide InstalledBy, SentBy, Accepts, Committed, KeysFresh, ApOnAssocReq, ApOnM2, ApOnM4, StaOnAssocResp, StaOnM1, StaOnM3;
    if Sends(e) {
      hide Step;
      SendRest(h.p, e, r);
    } else if e.Hear? {
      hide ApReceive, StaReceive, OnData;
      GateIs(h.p, e.f, r);
      OnlyDataDelivers(h.p, e.f, r);
      if e.f.Data? {
        OnDataIs(h.p, e.f);
      }
    }
  }

  lemma OnlyDataDelivers(p: Party, f: Frame, r: Random)
    ensures ApReceive(p, f, r).delivered == (if f.Data? then OnData(p, f).delivered else None)
    ensures StaReceive(p, f, r).delivered == (if f.Data? then OnData(p, f).delivered else None)
  {
    hide OnData, DerivePtk, InstalledKey;
  }

  /** The pair that goes out on the air: the key and the 48-bit packet number. */
  function Wire(e: (Ptk, nat)): (Ptk, nat) {
    (e.0, WirePn(e.1))
  }

  ghost predicate NoReuse(sent: seq<(Ptk, nat)>) {
    forall i, j :: 0 <= i < j < |sent| ==> Wire(sent[i]) != Wire(sent[j])
  }

  /** No key has carried more than 2^48 frames. */
  ghost predicate WithinLimit(sent: seq<(Ptk, nat)>) {
    forall i :: 0 <= i < |sent| ==> 1 <= sent[i].1 <= PN_MODULUS
  }

  lemma {:induction false} AllBelowSent(sent: seq<(Ptk, nat)>, k: Ptk, n: nat, m: nat)
    requires Gapless(sent) && (k, n) in sent && 1 <= m <= n
    ensures (k, m) in sent
    decreases n
  {
    if m < n {
      assert (k, Previous(n)) in sent;
      AllBelowSent(sent, k, n - 1, m);
    }
  }

  lemma PastLimitReuses(sent: seq<(Ptk, nat)>, k: Ptk, n: nat)
    requires Gapless(sent) && (k, n) in sent && PN_MODULUS < n
    ensures !NoReuse(sent)
  {
    hide Gapless;
    AllBelowSent(sent, k, n, 1);
    AllBelowSent(sent, k, n, PN_MODULUS + 1);
    var i :| 0 <= i < |sent| && sent[i] == (k, 1);
    var j :| 0 <= j < |sent| && sent[j] == (k, PN_MODULUS + 1);
    assert Wire(sent[i]) == Wire(sent[j]);
    if i < j {
      assert Wire(sent[i]) == Wire(sent[j]);
    } else {
      assert Wire(sent[j]) == Wire(sent[i]);
    }
  }

  lemma SameWire(m: nat, n: nat)
    requires 1 <= m <= PN_MODULUS && 1 <= n <= PN_MODULUS && WirePn(m) == WirePn(n)
    ensures m == n
  {
  }

  /**
   Exactly when no key has been used for more than 2^48 frames, no (temporal key, packet number)
   pair has been sent twice: re-installing a key keeps its counter, and a key that comes into use
   was never in use before.
   */
  lemma NoReuseIffWithinLimit(h: History, es: seq<Event>, rs: seq<Random>)
    requires |es| == |rs| && Reachable(h, es, rs)
    ensures NoReuse(h.sent) <==> WithinLimit(h.sent)
  {
    hide Reachable, PartyInv, AcceptInv, Gapless, Previous;
    RunKeepsInv(h, es, rs);
    var sent := h.sent;
    if WithinLimit(sent) {
      forall i, j | 0 <= i < j < |sent|
        ensures Wire(sent[i]) != Wire(sent[j])
      {
        assert sent[i] != sent[j];
        if Wire(sent[i]) == Wire(sent[j]) {
          SameWire(sent[i].1, sent[j].1);
        }
      }
    } else {
      var i :| 0 <= i < |sent| && !(1 <= sent[i].1 <= PN_MODULUS);
      var k, n := sent[i].0, sent[i].1;
      assert (k, n) in sent;
      if n == 0 {
        ZeroHasPredecessor(sent, k);
        PastLimitReuses(sent, k, COUNTER_MODULUS - 1);
      } else {
        PastLimitReuses(sent, k, n);
      }
    }
  }

  lemma ZeroHasPredecessor(sent: seq<(Ptk, nat)>, k: Ptk)
    requires Gapless(sent) && (k, 0) in sent
    ensures (k, COUNTER_MODULUS - 1) in sent
  {
  }

  /** The frame of a sending step carries the pair that the history records. */
  lemma SentIsOnAir(p: Party, e: Event, r: Random)
    requires SentBy(Step(p, e, r)) != []
    ensures var o := Step(p, e, r);
      SentBy(o) == [(o.out[0].mic.key, o.next.key.txPn)] && o.out[0].pn == WirePn(o.next.key.txPn)
  {
    hide Receive, Step, WirePn;
    if e.Hear? {
      HearIs(p, e.f, r);
      HearingSendsNoData(p, e.f, r);
    } else if Sends(e) {
      SendRest(p, e, r);
    } else {
      LocalSendsNoData(p, e, r);
    }
  }

  lemma LocalSendsNoData(p: Party, e: Event, r: Random)
    requires e.ConnectStart? || e.SetPeer?
    ensures SentBy(Step(p, e, r)) == [] && NoData(Step(p, e, r).out)
  {
  }

  predicate NoData(out: seq<Frame>) {
    forall m :: m in out ==> !m.Data?
  }

  lemma HearingSendsNoData(p: Party, f: Frame, r: Random)
    ensures SentBy(Receive(p, f, r)) == [] && NoData(Receive(p, f, r).out)
  {
    hide Receive, Gated, OnlyStateDiffers, ApReceive, StaReceive;
    GateIs(p, f, r);
    if Gated(p, f) {
      GateRest(p, f, r);
    } else if p.role == AccessPoint {
      ApSendsNoData(p, f, r);
    } else {
      StaSendsNoData(p, f, r);
    }
  }

  lemma ApSendsNoData(p: Party, f: Frame, r: Random)
    ensures NoData(ApReceive(p, f, r).out)
  {
    hide PolicyOf, Derived, Completed, OnData;
    if f.Data? {
      OnDataRest(p, f);
    }
  }

  lemma StaSendsNoData(p: Party, f: Frame, r: Random)
    ensures NoData(StaReceive(p, f, r).out)
  {
    hide Associated, Derived, Completed, OnData;
    if f.Data? {
      OnDataRest(p, f);
    }
  }

  predicate Leaves(p: Party, e: Event) {
    (e.Hear? && (e.f.Deauth? || Refusal(e.f))) || (e.ConnectStart? && p.role == Station)
  }

  lemma DataKeepsFlags(p: Party, e: Event, r: Random)
    requires Sends(e) || (e.Hear? && e.f.Data?)
    ensures var q := Step(p, e, r).next; q.state == p.state && q.connected == p.connected
  {
    hide Step, Receive, OnData;
    if Sends(e) {
      SendRest(p, e, r);
    } else {
      HearIs(p, e.f, r);
      DataIs(p, e.f, r);
      OnDataRest(p, e.f);
    }
  }

  /** A data frame is handled or ignored. */
  lemma DataIs(p: Party, f: Frame, r: Random)
    requires f.Data?
    ensures Receive(p, f, r) == if p.state == Failed then Stay(p) else OnData(p, f)
  {
    hide OnData;
  }

  /**
   The `connected` flag is not the connected state: of the three ways out of that state only a
   deauthentication clears it; a refusal or a new scan leaves it set.
   */
  lemma LeavingConnected(p: Party, e: Event, r: Random)
    requires p.state == State.Connected && p.connected
    ensures var q := Step(p, e, r).next;
      (q.state != State.Connected <==> Leaves(p, e)) && (q.connected <==> !(e.Hear? && e.f.Deauth?))
  {
    hide ApReceive, StaReceive, DataTx, DataTxQos, TdlsEncapTx;
    if Sends(e) || (e.Hear? && e.f.Data?) {
      DataKeepsFlags(p, e, r);
    }
  }

  // ---------- the flag over runs ----------

  /** The history of a run from h, every event with what the generator returns in it. */
  function After(h: History, es: seq<Event>, rs: seq<Random>): History
    requires |es| == |rs|
    decreases |es|
  {
    if es == [] then h else StepOf(After(h, es[..|es| - 1], rs[..|es| - 1]), es[|es| - 1], rs[|es| - 1])
  }

  /** No nonce drawn in the run is part of a key installed before. */
  ghost predicate FreshDraws(h: History, es: seq<Event>, rs: seq<Random>)
    requires |es| == |rs|
  {
    forall i :: 0 <= i < |es| ==> NotPartOf(After(h, es[..i], rs[..i]).installed, rs[i].nonce)
  }

  lemma {:induction false} AfterIsReachable(role: Role, self: nat, pmk: nat, ocv: bool, oci: nat, es: seq<Event>, rs: seq<Random>)
    requires |es| == |rs|
    requires var h := InitialHistory(role, self, pmk, ocv, oci); FreshDraws(h, es, rs)
    ensures Reachable(After(InitialHistory(role, self, pmk, ocv, oci), es, rs), es, rs)
    decreases |es|
  {
    hide StepOf, InitialHistory, NotPartOf;
    var h := InitialHistory(role, self, pmk, ocv, oci);
    if es != [] {
      var n := |es| - 1;
      forall i | 0 <= i < n
        ensures NotPartOf(After(h, es[..n][..i], rs[..n][..i]).installed, rs[..n][i].nonce)
      {
        assert es[..n][..i] == es[..i] && rs[..n][..i] == rs[..i];
        assert NotPartOf(After(h, es[..i], rs[..i]).installed, rs[i].nonce);
      }
      AfterIsReachable(role, self, pmk, ocv, oci, es[..n], rs[..n]);
      assert NotPartOf(After(h, es[..n], rs[..n]).installed, rs[n].nonce);
    }
  }

  /** A deauthentication that is acted on. */
  predicate Clears(p: Party, e: Event) {
    e.Hear? && e.f.Deauth? && p.state != Failed && !(p.role == Station && Before(p.state))
  }

  lemma FlagStep(p: Party, e: Event, r: Random)
    ensures var q := Step(p, e, r).next;
      q.connected == (!Clears(p, e) && (p.connected || (q.state == State.Connected && p.state != State.Connected)))
    ensures Clears(p, e) ==> Step(p, e, r).next.state == Init
  {
    hide Step, Receive;
    if Sends(e) {
      SendRest(p, e, r);
    } else if e.Hear? {
      HearIs(p, e.f, r);
      HearFlag(p, e.f, r);
    } else {
      LocalFlag(p, e, r);
    }
  }

  lemma LocalFlag(p: Party, e: Event, r: Random)
    requires e.ConnectStart? || e.SetPeer?
    ensures var q := Step(p, e, r).next; q.connected == p.connected && (q.state == p.state || q.state == Scanning)
  {
  }

  lemma HearFlag(p: Party, f: Frame, r: Random)
    ensures var q := Receive(p, f, r).next;
      && q.connected == (!Clears(p, Hear(f)) && (p.connected || (q.state == State.Connected && p.state != State.Connected)))
      && (Clears(p, Hear(f)) ==> q.state == Init)
  {
    hide ApReceive, StaReceive, OnData;
    if f.Data? {
      DataIs(p, f, r);
      OnDataRest(p, f);
    } else {
      ApFlag(p, f, r);
      StaFlag(p, f, r);
    }
  }

  lemma ApFlag(p: Party, f: Frame, r: Random)
    requires !f.Data?
    ensures var q := ApReceive(p, f, r).next;
      p.state != State.Connected ==> q.connected == (p.connected || q.state == State.Connected)
  {
    hide ApOnAssocReq, ApOnM2, ApOnM4;
    match f
    case AssocReq(_, _) => AssocReqState(p, f, r);
    case M2(_, _, _, _) => M2State(p, f, r);
    case M4(_, _) => M4Flag(p, f);
    case _ =>
  }

  lemma M4Flag(p: Party, f: Frame)
    requires f.M4?
    ensures var q := ApOnM4(p, f).next; p.state != State.Connected ==> q.connected == (p.connected || q.state == State.Connected)
  {
    hide InstalledKey;
  }

  lemma StaFlag(p: Party, f: Frame, r: Random)
    requires !f.Data?
    ensures var q := StaReceive(p, f, r).next;
      p.state != State.Connected ==> q.connected == (p.connected || q.state == State.Connected)
  {
    hide StaOnM3, StaAnswerM1, Associated, StaOnProbeResp;
    match f
    case AssocResp(_, _, _) =>
      AssociatedKeeps(p, f);
      AnswerFlag(Associated(p, f).(earlyM1 := None), r);
    case M1(_, _) => AnswerFlag(p, r);
    case M3(_, _, _, _, _, _) => M3Flag(p, f);
    case ProbeResp(_, _) => ProbeRespState(p, f);
    case _ =>
  }

  lemma M3Flag(p: Party, f: Frame)
    requires f.M3?
    ensures var q := StaOnM3(p, f).next; p.state != State.Connected ==> q.connected == (p.connected || q.state == State.Connected)
  {
    hide InstalledKey, OciRejected;
  }

  lemma AnswerFlag(p: Party, r: Random)
    ensures forall f: Frame :: f.M1? ==>
      StaAnswerM1(p, f, r).next.state == FourWay && StaAnswerM1(p, f, r).next.connected == p.connected
  {
    hide DerivePtk;
  }

  /** The run was in the connected state after i of its events, and nothing since then cleared the flag. */
  ghost predicate UpSince(h: History, es: seq<Event>, rs: seq<Random>, i: nat)
    requires |es| == |rs| && i <= |es|
  {
    && After(h, es[..i], rs[..i]).p.state == State.Connected
    && forall j :: i <= j < |es| ==> !Clears(After(h, es[..j], rs[..j]).p, es[j])
  }

  /**
   In every run the `connected` flag says exactly that the party has been in the connected state and
   has acted on no deauthentication since.  A refusal or a new scan, and whatever comes after it, moves
   the state on and leaves the flag.
   */
  lemma {:induction false} FlagIffUp(h: History, es: seq<Event>, rs: seq<Random>)
    requires |es| == |rs| && !h.p.connected && h.p.state != State.Connected
    ensures var q := After(h, es, rs).p;
      && (q.connected <==> exists i :: 0 <= i <= |es| && UpSince(h, es, rs, i))
      && (q.state == State.Connected ==> q.connected)
    decreases |es|
  {
    hide StepOf, Clears;
    assert es[..|es|] == es && rs[..|es|] == rs;
    if es == [] {
      assert forall i :: 0 <= i <= |es| ==> After(h, es[..i], rs[..i]).p.state != State.Connected;
    } else {
      var n := |es| - 1;
      var es0, rs0 := es[..n], rs[..n];
      var p := After(h, es0, rs0).p;
      FlagIffUp(h, es0, rs0);
      StepParty(After(h, es0, rs0), es[n], rs[n]);
      FlagStep(p, es[n], rs[n]);
      forall i | 0 <= i <= n
        ensures UpSince(h, es, rs, i) <==> UpSince(h, es0, rs0, i) && !Clears(p, es[n])
      {
        UpLonger(h, es, rs, i);
      }
      if After(h, es, rs).p.state == State.Connected {
        assert UpSince(h, es, rs, n + 1);
      }
      UpNow(h, es, rs);
      if After(h, es, rs).p.connected && p.connected {
        var i :| 0 <= i <= |es0| && UpSince(h, es0, rs0, i);
        assert UpSince(h, es, rs, i);
      }
    }
  }

  lemma StepParty(h: History, e: Event, r: Random)
    ensures StepOf(h, e, r).p == Step(h.p, e, r).next
  {
  }

  lemma UpNow(h: History, es: seq<Event>, rs: seq<Random>)
    requires |es| == |rs|
    ensures UpSince(h, es, rs, |es|) <==> After(h, es, rs).p.state == State.Connected
  {
    assert es[..|es|] == es && rs[..|es|] == rs;
  }

  lemma UpLonger(h: History, es: seq<Event>, rs: seq<Random>, i: nat)
    requires |es| == |rs| && i < |es|
    ensures var n := |es| - 1;
      UpSince(h, es, rs, i) <==> UpSince(h, es[..n], rs[..n], i) && !Clears(After(h, es[..n], rs[..n]).p, es[n])
  {
    hide StepOf, Clears, After;
    var n := |es| - 1;
    assert es[..n][..i] == es[..i] && rs[..n][..i] == rs[..i];
    forall j | i <= j < n
      ensures es[..n][..j] == es[..j] && rs[..n][..j] == rs[..j] && es[..n][j] == es[j]
    {
    }
  }

  // ---------- the gates of the handshake ----------

  /** What a station must hear, and when, to finish the handshake. */
  predicate Finishes(p: Party, f: Frame) {
    && p.state == FourWay
    && (if p.role == Station then
          && f.M3? && f.replay > p.replay && f.mic == By(p.ptk) && f.kek == p.ptk
          && (p.ocv && p.mfp ==> f.oci == Some(p.oci))
        else f.M4? && f.replay == p.replay && f.mic == By(p.ptk))
  }

  /** A party becomes connected exactly on the message that finishes its handshake. */
  lemma EntersConnected(p: Party, e: Event, r: Random)
    requires p.state != State.Connected
    ensures Step(p, e, r).next.state == State.Connected <==> e.Hear? && Finishes(p, e.f)
  {
    hide Receive, DataTx, DataTxQos, TdlsEncapTx, Finishes;
    if e.Hear? {
      HearingConnects(p, e.f, r);
    } else if Sends(e) {
      DataKeepsFlags(p, e, r);
    }
  }

  lemma HearingConnects(p: Party, f: Frame, r: Random)
    requires p.state != State.Connected
    ensures Receive(p, f, r).next.state == State.Connected <==> Finishes(p, f)
  {
    hide Receive, ApReceive, StaReceive, Finishes, Gated;
    GateIs(p, f, r);
    if Gated(p, f) {
      GateRest(p, f, r);
      NoFinish(p, f);
    } else if p.role == AccessPoint {
      ApConnects(p, f, r);
    } else {
      StaConnects(p, f, r);
    }
  }

  lemma NoFinish(p: Party, f: Frame)
    requires Gated(p, f) && p.state != State.Connected
    ensures !Finishes(p, f)
  {
  }

  lemma ApConnects(p: Party, f: Frame, r: Random)
    requires p.state != State.Connected && p.role == AccessPoint
    ensures ApReceive(p, f, r).next.state == State.Connected <==> Finishes(p, f)
  {
    hide OnData, ApOnM2, ApOnAssocReq;
    match f
    case AssocReq(_, _) => AssocReqState(p, f, r);
    case M2(_, _, _, _) => M2State(p, f, r);
    case Data(_, _, _, _, _) => DataKeepsState(p, f);
    case M4(_, _) => M4State(p, f);
    case _ =>
  }

  lemma AssocReqState(p: Party, f: Frame, r: Random)
    requires f.AssocReq?
    ensures var q := ApOnAssocReq(p, f, r).next; q.state != State.Connected && q.connected == p.connected
  {
    hide PolicyOf, FirstMessage, Refused;
    PolicyKeeps(p, f.wmm, f.rsn);
    FirstMessageKey(PolicyOf(p, f.wmm, f.rsn), r);
  }

  lemma M2State(p: Party, f: Frame, r: Random)
    requires f.M2?
    ensures var q := ApOnM2(p, f, r).next; q.state == p.state && q.connected == p.connected
  {
    hide DerivePtk, OciRejected, OwnOci;
  }

  lemma M4State(p: Party, f: Frame)
    requires f.M4? && p.state != State.Connected && p.role == AccessPoint
    ensures ApOnM4(p, f).next.state == State.Connected <==> Finishes(p, f)
  {
    hide InstalledKey;
  }

  lemma M3State(p: Party, f: Frame)
    requires f.M3? && p.state != State.Connected && p.role == Station
    ensures StaOnM3(p, f).next.state == State.Connected <==> Finishes(p, f)
  {
    hide InstalledKey;
  }

  lemma StaConnects(p: Party, f: Frame, r: Random)
    requires p.state != State.Connected && p.role == Station
    ensures StaReceive(p, f, r).next.state == State.Connected <==> Finishes(p, f)
  {
    hide OnData, StaAnswerM1, Associated, StaOnM3, StaOnProbeResp;
    match f
    case AssocResp(_, _, _) =>
      AssociatedKeeps(p, f);
      AnswerState(Associated(p, f).(earlyM1 := None), r);
    case M1(_, _) => AnswerState(p, r);
    case M3(_, _, _, _, _, _) => M3State(p, f);
    case ProbeResp(_, _) => ProbeRespState(p, f);
    case Data(_, _, _, _, _) => DataKeepsState(p, f);
    case _ =>
  }

  lemma ProbeRespState(p: Party, f: Frame)
    requires f.ProbeResp?
    ensures var q := StaOnProbeResp(p, f).next; q.state == p.state && q.connected == p.connected
  {
  }

  lemma AnswerState(p: Party, r: Random)
    ensures forall f: Frame :: f.M1? ==> StaAnswerM1(p, f, r).next.state == FourWay
  {
    hide DerivePtk, M1Taken;
  }

  lemma DataKeepsState(p: Party, f: Frame)
    requires f.Data?
    ensures OnData(p, f).next.state == p.state
  {
    hide OnData;
    OnDataRest(p, f);
  }
}
