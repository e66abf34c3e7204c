/**
 One station and one access point over a network that loses, duplicates, delays and reorders
 frames.  The network may also make up any frame that carries no valid integrity code: management
 frames, the first handshake message, anything with a wrong code.  Whenever both parties are
 connected, they hold the same keys.
 */
module Handshake {
  import opened Wrappers
  import opened Sme
  import opened SmeSafety

  /** The parties, every frame sent so far, and every nonce drawn or heard so far. */
  datatype System = System(sta: History, ap: History, air: set<Frame>, nonces: set<nat>)

  function FramesOf(out: seq<Frame>): set<Frame> {
    set f | f in out
  }

  function NoncesOf(e: Event): set<nat> {
    if !e.Hear? then {}
    else if e.f.M1? || e.f.M3? then {e.f.anonce}
    else if e.f.M2? then {e.f.snonce}
    else {}
  }

  /** Whether a frame needs no valid integrity code to exist. */
  predicate Fabricable(f: Frame) {
    (f.M2? || f.M3? || f.M4? || f.Data?) ==> f.mic.Forged?
  }

  ghost predicate Possible(y: System, e: Event, r: Random) {
    && (e.Hear? ==> e.f in y.air || Fabricable(e.f))
    && r.nonce !in y.nonces
  }

  function StaStep(y: System, e: Event, r: Random): System {
    System(StepOf(y.sta, e, r), y.ap, y.air + FramesOf(Step(y.sta.p, e, r).out), y.nonces + NoncesOf(e) + {r.nonce})
  }

  function ApStep(y: System, e: Event, r: Random): System {
    System(y.sta, StepOf(y.ap, e, r), y.air + FramesOf(Step(y.ap.p, e, r).out), y.nonces + NoncesOf(e) + {r.nonce})
  }

  ghost predicate Start(y: System) {
    && (exists self, pmk, ocv, oci :: y.sta == InitialHistory(Station, self, pmk, ocv, oci))
    && (exists self, pmk, ocv, oci :: y.ap == InitialHistory(AccessPoint, self, pmk, ocv, oci))
    && y.air == {} && y.nonces == {0}
  }

  ghost predicate Next(y: System, y': System) {
    exists e, r :: Possible(y, e, r) && (y' == StaStep(y, e, r) || y' == ApStep(y, e, r))
  }

  /** The runs of the system. */
  ghost predicate Behaviour(run: seq<System>) {
    run != [] && Start(run[0]) && forall i :: 0 < i < |run| ==> Next(run[i - 1], run[i])
  }

  // ---------- nonces ----------

  ghost predicate KeyWithin(k: Ptk, nonces: set<nat>) {
    k.Kdf? ==> k.nonceLo in nonces && k.nonceHi in nonces
  }

  // ---------- what each party's steps amount to ----------

  predicate Quiet(out: seq<Frame>) {
    forall f :: f in out ==> !f.M3? && !f.M4?
  }

  ghost predicate StaIdle(p: Party, q: Party, out: seq<Frame>) {
    && Quiet(out)
    && (q.state == FourWay ==> p.state == FourWay && q.snonce == p.snonce)
    && (q.state == State.Connected ==> p.state == State.Connected && q.replay == p.replay && q.gtk == p.gtk && q.ptk == p.ptk)
  }

  ghost predicate StaAnswers(p: Party, q: Party, out: seq<Frame>, r: Random) {
    Quiet(out) && q.state == FourWay && (q.snonce == r.nonce || (p.state == FourWay && q.snonce == p.snonce))
  }

  ghost predicate StaFinishes(p: Party, q: Party, out: seq<Frame>, e: Event) {
    && p.state == FourWay && q.state == State.Connected
    && e.Hear? && e.f.M3? && e.f.mic == By(p.ptk) && q.ptk == p.ptk && q.replay == e.f.replay && q.gtk == e.f.gtk
    && out == [M4(q.replay, By(q.ptk))]
    && q.snonce == p.snonce
  }

  ghost predicate StaEffect(p: Party, q: Party, out: seq<Frame>, e: Event, r: Random) {
    StaIdle(p, q, out) || StaAnswers(p, q, out, r) || StaFinishes(p, q, out, e)
  }

  /** In the handshake, the station's key contains the station's nonce. */
  ghost predicate StaKeyOwn(p: Party) {
    p.state == FourWay ==> Uses(p.ptk, p.snonce)
  }

  lemma StaAnswerEffect(p: Party, f: Frame, e: Event, r: Random)
    requires p.role == Station && f.M1? && (p.state == Assoced || p.state == FourWay)
    ensures var o := StaAnswerM1(p, f, r); StaAnswers(p, o.next, o.out, r) && StaKeyOwn(o.next) && o.next.role == Station
  {
  }

  ghost predicate StaGood(p: Party, o: Result, e: Event, r: Random) {
    o.next.role == Station && StaKeyOwn(o.next) && StaEffect(p, o.next, o.out, e, r)
  }

  /** A step that sends no handshake message and changes none of the handshake's variables. */
  lemma StaIdleGood(p: Party, o: Result, e: Event, r: Random)
    requires p.role == Station && StaKeyOwn(p) && o.next.role == Station
    requires o.out == [] || (|o.out| == 1 && !o.out[0].M3? && !o.out[0].M4?)
    requires o.next.ptk == p.ptk && o.next.snonce == p.snonce && o.next.replay == p.replay && o.next.gtk == p.gtk
    requires o.next.state == p.state || (o.next.state != FourWay && o.next.state != State.Connected)
    ensures StaGood(p, o, e, r)
  {
  }

  lemma StaAssocRespGood(p: Party, f: Frame, e: Event, r: Random)
    requires p.role == Station && StaKeyOwn(p) && f.AssocResp?
    ensures StaGood(p, StaOnAssocResp(p, f, r), e, r)
  {
  }

  lemma StaM3Good(p: Party, f: Frame, r: Random)
    requires p.role == Station && StaKeyOwn(p) && f.M3?
    ensures StaGood(p, StaOnM3(p, f), Hear(f), r)
  {
  }

  lemma StaReceiveEffect(p: Party, f: Frame, r: Random)
    requires p.role == Station && StaKeyOwn(p)
    ensures StaGood(p, StaReceive(p, f, r), Hear(f), r)
  {
    hide StaGood, StaKeyOwn, StaOnM3, StaOnAssocResp, StaOnM1, OnData, StaOnProbeResp;
    match f
    case AssocResp(_, _, _) => StaAssocRespGood(p, f, Hear(f), r);
    case M1(_, _) => StaM1Good(p, f, r);
    case M3(_, _, _, _, _, _) => StaM3Good(p, f, r);
    case ProbeResp(_, _) => StaProbeRespGood(p, f, r);
    case Data(_, _, _, _, _) =>
      OnDataRest(p, f);
      StaIdleGood(p, OnData(p, f), Hear(f), r);
    case _ => StaIdleGood(p, StaReceive(p, f, r), Hear(f), r);
  }

  lemma StaM1Good(p: Party, f: Frame, r: Random)
    requires p.role == Station && StaKeyOwn(p) && f.M1?
    ensures StaGood(p, StaOnM1(p, f, r), Hear(f), r)
  {
    hide StaGood, StaKeyOwn, StaAnswerM1;
    if p.state == Assoced || p.state == FourWay {
      StaAnswerEffect(p, f, Hear(f), r);
      StaAnswersGood(p, StaAnswerM1(p, f, r), Hear(f), r);
    } else {
      StaIdleGood(p, StaOnM1(p, f, r), Hear(f), r);
    }
  }

  lemma StaProbeRespGood(p: Party, f: Frame, r: Random)
    requires p.role == Station && StaKeyOwn(p) && f.ProbeResp?
    ensures StaGood(p, StaOnProbeResp(p, f), Hear(f), r)
  {
    hide StaGood, StaKeyOwn;
    StaIdleGood(p, StaOnProbeResp(p, f), Hear(f), r);
  }

  lemma StaAnswersGood(p: Party, o: Result, e: Event, r: Random)
    requires StaAnswers(p, o.next, o.out, r) && StaKeyOwn(o.next) && o.next.role == Station
    ensures StaGood(p, o, e, r)
  {
  }

  lemma StaStepGood(p: Party, e: Event, r: Random)
    requires p.role == Station && StaKeyOwn(p)
    ensures StaGood(p, Step(p, e, r), e, r)
  {
    hide StaGood, StaKeyOwn, Receive, Step;
    if Sends(e) {
      SendRest(p, e, r);
      StaIdleGood(p, Step(p, e, r), e, r);
    } else if e.Hear? {
      HearIs(p, e.f, r);
      StaHearGood(p, e.f, r);
    } else {
      StaLocalGood(p, e, r);
    }
  }

  lemma StaLocalGood(p: Party, e: Event, r: Random)
    requires p.role == Station && StaKeyOwn(p) && (e.ConnectStart? || e.SetPeer?)
    ensures StaGood(p, Step(p, e, r), e, r)
  {
    hide StaGood, StaKeyOwn;
    StaIdleGood(p, Step(p, e, r), e, r);
  }

  lemma StaHearGood(p: Party, f: Frame, r: Random)
    requires p.role == Station && StaKeyOwn(p)
    ensures StaGood(p, Receive(p, f, r), Hear(f), r)
  {
    hide StaGood, StaKeyOwn, Receive, StaReceive, Gated;
    GateIs(p, f, r);
    if Gated(p, f) {
      GateRest(p, f, r);
      StaIdleGood(p, Receive(p, f, r), Hear(f), r);
    } else {
      StaReceiveEffect(p, f, r);
    }
  }

  // ---------- the access point's steps ----------

  /** Nothing sent but the first message; a higher counter value, if any, starts a handshake. */
  ghost predicate ApIdle(p: Party, q: Party, out: seq<Frame>) {
    && Quiet(out) && q.gtk == p.gtk && p.replay <= q.replay
    && (q.state == State.Connected ==> p.state == State.Connected && q.replay == p.replay && q.ptk == p.ptk)
  }

  ghost predicate ApOffers(p: Party, q: Party, out: seq<Frame>) {
    && p.state == FourWay && q.state == FourWay && q.replay == p.replay + 1
    && out == [M3(q.replay, q.anonce, q.ptk, q.gtk, OwnOci(q), By(q.ptk))]
  }

  ghost predicate ApFinishes(p: Party, q: Party, out: seq<Frame>, e: Event) {
    && e == Hear(M4(p.replay, By(p.ptk))) && out == []
    && q.replay == p.replay && q.ptk == p.ptk && q.gtk == p.gtk && q.state == State.Connected
  }

  ghost predicate ApGood(p: Party, o: Result, e: Event) {
    && o.next.role == AccessPoint
    && (ApIdle(p, o.next, o.out) || ApOffers(p, o.next, o.out) || ApFinishes(p, o.next, o.out, e))
  }

  lemma ApIdleGood(p: Party, o: Result, e: Event)
    requires o.next.role == AccessPoint && o.next.gtk == p.gtk && p.replay <= o.next.replay
    requires forall f :: f in o.out ==> !f.M3? && !f.M4?
    requires o.next.state == State.Connected ==>
      p.state == State.Connected && o.next.replay == p.replay && o.next.ptk == p.ptk
    ensures ApGood(p, o, e)
  {
  }

  lemma ApM2Good(p: Party, f: Frame, e: Event, r: Random)
    requires p.role == AccessPoint && f.M2?
    ensures ApGood(p, ApOnM2(p, f, r), e)
  {
  }

  lemma ApM4Good(p: Party, f: Frame)
    requires p.role == AccessPoint && f.M4?
    ensures ApGood(p, ApOnM4(p, f), Hear(f))
  {
  }

  lemma ApAssocReqGood(p: Party, f: Frame, e: Event, r: Random)
    requires p.role == AccessPoint && f.AssocReq?
    ensures ApGood(p, ApOnAssocReq(p, f, r), e)
  {
  }

  lemma ApReceiveEffect(p: Party, f: Frame, r: Random)
    requires p.role == AccessPoint
    ensures ApGood(p, ApReceive(p, f, r), Hear(f))
  {
    hide ApGood, ApOnAssocReq, ApOnM2, ApOnM4, OnData;
    match f
    case AssocReq(_, _) => ApAssocReqGood(p, f, Hear(f), r);
    case M2(_, _, _, _) => ApM2Good(p, f, Hear(f), r);
    case M4(_, _) => ApM4Good(p, f);
    case Data(_, _, _, _, _) =>
      OnDataRest(p, f);
      ApIdleGood(p, OnData(p, f), Hear(f));
    case _ => ApIdleGood(p, ApReceive(p, f, r), Hear(f));
  }

  lemma ApStepGood(p: Party, e: Event, r: Random)
    requires p.role == AccessPoint
    ensures ApGood(p, Step(p, e, r), e)
  {
    hide ApGood, Receive, Step;
    if Sends(e) {
      SendRest(p, e, r);
      ApIdleGood(p, Step(p, e, r), e);
    } else if e.Hear? {
      HearIs(p, e.f, r);
      ApHearGood(p, e.f, r);
    } else {
      ApLocalGood(p, e, r);
    }
  }

  lemma ApLocalGood(p: Party, e: Event, r: Random)
    requires p.role == AccessPoint && (e.ConnectStart? || e.SetPeer?)
    ensures ApGood(p, Step(p, e, r), e)
  {
    hide ApGood;
    ApIdleGood(p, Step(p, e, r), e);
  }

  lemma ApHearGood(p: Party, f: Frame, r: Random)
    requires p.role == AccessPoint
    ensures ApGood(p, Receive(p, f, r), Hear(f))
  {
    hide ApGood, Receive, ApReceive, Gated;
    GateIs(p, f, r);
    if Gated(p, f) {
      GateRest(p, f, r);
      ApIdleGood(p, Receive(p, f, r), Hear(f));
    } else {
      ApReceiveEffect(p, f, r);
    }
  }

  /** What makes an access point offer a third message. */
  predicate Offers(p: Party, f: Frame) {
    && f.M2? && p.state == FourWay && f.replay == p.replay
    && f.mic == By(DerivePtk(p.pmk, p.self, p.peer, p.anonce, f.snonce))
    && (p.ocv && p.mfp ==> f.oci == Some(p.oci))
  }

  lemma M2OffersIff(p: Party, f: Frame, r: Random)
    requires f.M2?
    ensures var o := Sme.ApOnM2(p, f, r);
      (o.out != [] <==> Offers(p, f)) && (o.out == [] || (|o.out| == 1 && o.out[0].M3?))
  {
    hide DerivePtk, OwnOci;
  }

  /** An access point sends a third message exactly on a second one for its current value and key. */
  lemma OffersIff(p: Party, e: Event, r: Random)
    requires p.role == AccessPoint && p.state != State.Connected
    ensures (exists m :: m in Step(p, e, r).out && m.M3?) <==> e.Hear? && Offers(p, e.f)
  {
    hide Sme.ApOnM2, Sme.ApOnM4, Sme.ApOnAssocReq, OnData, Offers, DataTx, DataTxQos, TdlsEncapTx;
    if Sends(e) {
      SendRest(p, e, r);
    } else if e.Hear? && e.f.M2? {
      M2OffersIff(p, e.f, r);
      if p.state == Failed {
        NoOffer(p, e.f);
      } else if Offers(p, e.f) {
        assert Step(p, e, r).out[0] in Step(p, e, r).out;
      }
    } else if e.Hear? {
      NoOffer(p, e.f);
      OthersOffer(p, e.f, r);
    }
  }

  lemma NoOffer(p: Party, f: Frame)
    requires !f.M2? || p.state != FourWay
    ensures !Offers(p, f)
  {
  }

  lemma OthersOffer(p: Party, f: Frame, r: Random)
    requires !f.M2? && p.role == AccessPoint
    ensures forall m :: m in Receive(p, f, r).out ==> !m.M3?
  {
    hide InstalledKey, PolicyOf, Sme.ApOnM2;
    if f.Data? {
      OnDataRest(p, f);
    }
  }

  // ---------- the system's invariant ----------

  /** Each counter value tags at most one third message, and none beyond the access point's own. */
  ghost predicate OneOffer(ap: Party, air: set<Frame>) {
    && (forall f, g :: f in air && g in air && f.M3? && g.M3? && f.replay == g.replay ==> f == g)
    && (forall f :: f in air && f.M3? ==> f.replay <= ap.replay)
  }

  /** The latest third message, if its value is current, carries the access point's group key. */
  ghost predicate OfferIsCurrent(ap: Party, air: set<Frame>) {
    forall f :: f in air && f.M3? && f.replay == ap.replay ==> f.gtk == ap.gtk
  }

  ghost predicate Answers(f: Frame, g: Frame) {
    f.M4? && g.M3? && g.replay == f.replay && g.mic == f.mic
  }

  /** Every fourth message answers a third one under the same key. */
  ghost predicate EveryAnswer(air: set<Frame>) {
    forall f :: f in air && f.M4? ==> exists g :: g in air && Answers(f, g)
  }

  ghost predicate ApConfirmed(ap: Party, air: set<Frame>) {
    ap.state == State.Connected ==> M4(ap.replay, By(ap.ptk)) in air
  }

  /** Third messages that the station could still accept come after everything it has answered. */
  ghost predicate NothingToReplay(sta: Party, air: set<Frame>) {
    sta.state == FourWay ==>
      forall f, g :: f in air && g in air && f.M4? && g.M3? && g.mic.By? && Uses(g.mic.key, sta.snonce) ==> f.replay < g.replay
  }

  ghost predicate StaConfirmed(sta: Party, air: set<Frame>) {
    sta.state == State.Connected ==>
      && (exists g :: g in air && g.M3? && g.replay == sta.replay && g.gtk == sta.gtk && g.mic == By(sta.ptk))
      && (forall f :: f in air && f.M4? ==> f.replay <= sta.replay)
  }

  /** The keys of third messages are made of nonces drawn or heard. */
  ghost predicate OffersWithin(air: set<Frame>, nonces: set<nat>) {
    forall g :: g in air && g.M3? && g.mic.By? ==> KeyWithin(g.mic.key, nonces)
  }

  ghost predicate AirInv(sta: Party, ap: Party, air: set<Frame>, nonces: set<nat>) {
    && OneOffer(ap, air) && OfferIsCurrent(ap, air) && EveryAnswer(air) && ApConfirmed(ap, air)
    && NothingToReplay(sta, air) && StaConfirmed(sta, air) && OffersWithin(air, nonces)
  }

  /** Two connected parties hold the same pairwise key and the same group key. */
  lemma AgreementFromInv(sta: Party, ap: Party, air: set<Frame>, nonces: set<nat>)
    requires AirInv(sta, ap, air, nonces) && sta.state == State.Connected && ap.state == State.Connected
    ensures sta.ptk == ap.ptk && sta.gtk == ap.gtk && sta.replay == ap.replay
  {
  }

  // ---------- station steps keep it ----------

  /** Third and fourth messages are the same in both sets. */
  ghost predicate SameOffers(air: set<Frame>, air': set<Frame>) {
    forall f: Frame :: f.M3? || f.M4? ==> (f in air <==> f in air')
  }

  lemma QuietAir(air: set<Frame>, out: seq<Frame>)
    requires Quiet(out)
    ensures SameOffers(air, air + FramesOf(out))
  {
  }

  /** Nothing in the invariant but the parties' own state looks past third and fourth messages. */
  lemma SameOffersInv(sta: Party, ap: Party, air: set<Frame>, air': set<Frame>, nonces: set<nat>, nonces': set<nat>)
    requires AirInv(sta, ap, air, nonces) && SameOffers(air, air') && nonces <= nonces'
    ensures AirInv(sta, ap, air', nonces')
  {
  }

  lemma StaFinishesKeeps(sta: Party, q: Party, ap: Party, air: set<Frame>, nonces: set<nat>, out: seq<Frame>, e: Event)
    requires AirInv(sta, ap, air, nonces) && StaFinishes(sta, q, out, e) && StaKeyOwn(sta)
    requires e.f in air
    ensures AirInv(q, ap, air + FramesOf(out), nonces)
  {
    hide OneOffer, OfferIsCurrent, EveryAnswer, NothingToReplay, StaConfirmed, OffersWithin, Uses;
    var air' := air + FramesOf(out);
    assert forall f :: f in air' && f.M3? ==> f in air;
    assert OneOffer(ap, air') && OfferIsCurrent(ap, air') && OffersWithin(air', nonces) by {
      FewerOffers(ap, air, air', nonces);
    }
    AnswerAdded(air, air', e.f, out);
    StaNowConfirmed(sta, q, air, air', out, e);
    assert NothingToReplay(q, air') by { NotInHandshake(q, air'); }
  }

  lemma NotInHandshake(q: Party, air: set<Frame>)
    requires q.state != FourWay
    ensures NothingToReplay(q, air)
  {
  }

  lemma FewerOffers(ap: Party, air: set<Frame>, air': set<Frame>, nonces: set<nat>)
    requires OneOffer(ap, air) && OfferIsCurrent(ap, air) && OffersWithin(air, nonces)
    requires forall f :: f in air' && f.M3? ==> f in air
    ensures OneOffer(ap, air') && OfferIsCurrent(ap, air') && OffersWithin(air', nonces)
  {
  }

  lemma AnswerAdded(air: set<Frame>, air': set<Frame>, m3: Frame, out: seq<Frame>)
    requires EveryAnswer(air) && m3 in air && m3.M3? && out == [M4(m3.replay, m3.mic)] && air' == air + FramesOf(out)
    ensures EveryAnswer(air')
  {
  }

  lemma StaNowConfirmed(sta: Party, q: Party, air: set<Frame>, air': set<Frame>, out: seq<Frame>, e: Event)
    requires NothingToReplay(sta, air) && StaFinishes(sta, q, out, e) && StaKeyOwn(sta) && e.f in air
    requires air' == air + FramesOf(out)
    ensures StaConfirmed(q, air')
  {
  }

  // ---------- access-point steps keep it ----------

  lemma ApIdleKeeps(sta: Party, ap: Party, q: Party, air: set<Frame>, nonces: set<nat>, out: seq<Frame>)
    requires AirInv(sta, ap, air, nonces) && ApIdle(ap, q, out)
    ensures AirInv(sta, q, air, nonces)
  {
  }

  lemma OfferAdded(ap: Party, q: Party, air: set<Frame>, nonces: set<nat>, out: seq<Frame>)
    requires OneOffer(ap, air) && OffersWithin(air, nonces) && ApOffers(ap, q, out) && KeyWithin(q.ptk, nonces)
    ensures var air' := air + FramesOf(out); OneOffer(q, air') && OfferIsCurrent(q, air') && OffersWithin(air', nonces)
  {
  }

  lemma OfferKeepsAnswers(sta: Party, air: set<Frame>, air': set<Frame>)
    requires EveryAnswer(air) && StaConfirmed(sta, air)
    requires air <= air' && forall f :: f in air' && f.M4? ==> f in air
    ensures EveryAnswer(air') && StaConfirmed(sta, air')
  {
  }

  lemma OfferNotReplayed(sta: Party, ap: Party, q: Party, air: set<Frame>, out: seq<Frame>)
    requires OneOffer(ap, air) && EveryAnswer(air) && NothingToReplay(sta, air) && ApOffers(ap, q, out)
    ensures NothingToReplay(sta, air + FramesOf(out))
  {
  }

  lemma ApOffersKeeps(sta: Party, ap: Party, q: Party, air: set<Frame>, nonces: set<nat>, out: seq<Frame>)
    requires AirInv(sta, ap, air, nonces) && ApOffers(ap, q, out) && KeyWithin(q.ptk, nonces)
    ensures AirInv(sta, q, air + FramesOf(out), nonces)
  {
    hide EveryAnswer, NothingToReplay, StaConfirmed, OffersWithin, OneOffer, OfferIsCurrent, KeyWithin, OwnOci;
    OfferAdded(ap, q, air, nonces, out);
    OfferNotReplayed(sta, ap, q, air, out);
    OfferKeepsAnswers(sta, air, air + FramesOf(out));
  }

  lemma ApFinishesKeeps(sta: Party, ap: Party, q: Party, air: set<Frame>, nonces: set<nat>, out: seq<Frame>, e: Event)
    requires AirInv(sta, ap, air, nonces) && ApFinishes(ap, q, out, e) && e.f in air
    ensures AirInv(sta, q, air, nonces)
  {
  }

  // ---------- nonces stay accounted for ----------

  /** Every nonce that a party holds, alone or inside its key, has been drawn or heard. */
  ghost predicate PartyOk(p: Party, nonces: set<nat>) {
    && p.anonce in nonces && p.snonce in nonces && KeyWithin(p.ptk, nonces)
    && (p.earlyM1.Some? && p.earlyM1.value.M1? ==> p.earlyM1.value.anonce in nonces)
  }

  lemma MoreNonces(p: Party, q: Party, nonces: set<nat>, nonces': set<nat>)
    requires PartyOk(p, nonces) && nonces <= nonces'
    requires q.anonce == p.anonce && q.snonce == p.snonce && q.ptk == p.ptk && q.earlyM1 == p.earlyM1
    ensures PartyOk(q, nonces')
  {
  }

  lemma StaAnswerWithin(p: Party, f: Frame, r: Random, nonces: set<nat>)
    requires f.M1? && PartyOk(p, nonces) && f.anonce in nonces && r.nonce in nonces
    ensures PartyOk(StaAnswerM1(p, f, r).next, nonces)
  {
  }

  lemma ApM2Within(p: Party, f: Frame, r: Random, nonces: set<nat>)
    requires f.M2? && PartyOk(p, nonces) && f.snonce in nonces
    ensures PartyOk(ApOnM2(p, f, r).next, nonces)
  {
    hide OciRejected, OwnOci, PartyOk, Derived, ThirdMessage;
    var p1 := Derived(p.(snonce := f.snonce));
    DerivedWithin(p.(snonce := f.snonce), nonces) by { SnonceWithin(p, f.snonce, nonces); }
    ThirdHolds(p1, r);
    SameHoldingsIf(p1, ThirdMessage(p1, r).next, nonces);
  }

  lemma SnonceWithin(p: Party, n: nat, nonces: set<nat>)
    requires PartyOk(p, nonces) && n in nonces
    ensures PartyOk(p.(snonce := n), nonces)
  {
  }

  lemma DerivedWithin(p: Party, nonces: set<nat>)
    requires PartyOk(p, nonces)
    ensures PartyOk(Derived(p), nonces)
  {
  }

  lemma ThirdHolds(p: Party, r: Random)
    ensures var q := ThirdMessage(p, r).next;
      q.anonce == p.anonce && q.snonce == p.snonce && q.ptk == p.ptk && q.earlyM1 == p.earlyM1
  {
    hide OwnOci;
  }

  lemma ApAssocReqWithin(p: Party, f: Frame, r: Random, nonces: set<nat>)
    requires f.AssocReq? && PartyOk(p, nonces) && r.nonce in nonces
    ensures PartyOk(ApOnAssocReq(p, f, r).next, nonces)
  {
    hide KeyWithin;
  }

  lemma AssociatedHolds(p: Party, f: Frame)
    requires f.AssocResp?
    ensures var q := Associated(p, f);
      q.anonce == p.anonce && q.snonce == p.snonce && q.ptk == p.ptk && q.earlyM1 == p.earlyM1
  {
  }

  lemma StaAssocRespWithin(p: Party, f: Frame, r: Random, nonces: set<nat>)
    requires f.AssocResp? && PartyOk(p, nonces) && r.nonce in nonces
    ensures PartyOk(StaOnAssocResp(p, f, r).next, nonces)
  {
    hide KeyWithin, Associated, StaAnswerM1;
    AssociatedHolds(p, f);
    var p1 := Associated(p, f);
    if p1.state == Assoced && p1.earlyM1.Some? && p1.earlyM1.value.M1? {
      StaAnswerWithin(p1.(earlyM1 := None), p1.earlyM1.value, r, nonces);
    }
  }

  lemma ReceiveWithin(p: Party, f: Frame, r: Random, nonces: set<nat>)
    requires PartyOk(p, nonces) && r.nonce in nonces && NoncesOf(Hear(f)) <= nonces
    ensures PartyOk(Receive(p, f, r).next, nonces)
  {
    hide PartyOk, Receive, ApReceive, StaReceive, Gated;
    GateIs(p, f, r);
    if Gated(p, f) {
      GateRest(p, f, r);
      SameHoldingsIf(p, Receive(p, f, r).next, nonces);
    } else if p.role == AccessPoint {
      ApReceiveWithin(p, f, r, nonces);
    } else {
      StaReceiveWithin(p, f, r, nonces);
    }
  }

  lemma ApReceiveWithin(p: Party, f: Frame, r: Random, nonces: set<nat>)
    requires PartyOk(p, nonces) && r.nonce in nonces && NoncesOf(Hear(f)) <= nonces
    ensures PartyOk(ApReceive(p, f, r).next, nonces)
  {
    hide PartyOk, OnData, ApOnAssocReq, ApOnM2, ApOnM4;
    match f
    case AssocReq(_, _) => ApAssocReqWithin(p, f, r, nonces);
    case M2(_, _, _, _) => ApM2Within(p, f, r, nonces);
    case M4(_, _) => LateWithin(p, f, nonces);
    case Data(_, _, _, _, _) => LateWithin(p, f, nonces);
    case _ => SameHoldingsIf(p, ApReceive(p, f, r).next, nonces);
  }

  lemma StaReceiveWithin(p: Party, f: Frame, r: Random, nonces: set<nat>)
    requires PartyOk(p, nonces) && r.nonce in nonces && NoncesOf(Hear(f)) <= nonces
    ensures PartyOk(StaReceive(p, f, r).next, nonces)
  {
    hide PartyOk, OnData, StaOnAssocResp, StaOnM1, StaOnM3;
    match f
    case AssocResp(_, _, _) => StaAssocRespWithin(p, f, r, nonces);
    case M1(_, _) => StaM1Within(p, f, r, nonces);
    case M3(_, _, _, _, _, _) => LateWithin(p, f, nonces);
    case Data(_, _, _, _, _) => LateWithin(p, f, nonces);
    case _ => SameHoldingsIf(p, StaReceive(p, f, r).next, nonces);
  }

  lemma SameHoldingsIf(p: Party, q: Party, nonces: set<nat>)
    requires PartyOk(p, nonces)
    ensures q.anonce == p.anonce && q.snonce == p.snonce && q.ptk == p.ptk && q.earlyM1 == p.earlyM1 ==> PartyOk(q, nonces)
  {
  }

  lemma StaM1Within(p: Party, f: Frame, r: Random, nonces: set<nat>)
    requires f.M1? && PartyOk(p, nonces) && f.anonce in nonces && r.nonce in nonces
    ensures PartyOk(StaOnM1(p, f, r).next, nonces)
  {
    hide KeyWithin, StaAnswerM1;
    if p.state == Assoced || p.state == FourWay {
      StaAnswerWithin(p, f, r, nonces);
    }
  }

  /** Third and fourth messages and data leave every nonce and key as it was. */
  lemma LateWithin(p: Party, f: Frame, nonces: set<nat>)
    requires PartyOk(p, nonces) && (f.M3? || f.M4? || f.Data?)
    ensures f.M3? ==> PartyOk(StaOnM3(p, f).next, nonces)
    ensures f.M4? ==> PartyOk(ApOnM4(p, f).next, nonces)
    ensures f.Data? ==> PartyOk(OnData(p, f).next, nonces)
  {
    hide PartyOk, Completed, OnData, OciRejected;
    if f.Data? {
      OnDataRest(p, f);
      SameHoldingsIf(p, OnData(p, f).next, nonces);
    } else if f.M3? {
      CompletedHolds(p.(replay := f.replay, gtk := f.gtk), nonces);
      SameHoldingsIf(p, p.(replay := f.replay, gtk := f.gtk), nonces);
    } else {
      CompletedHolds(p, nonces);
    }
  }

  lemma CompletedHolds(p: Party, nonces: set<nat>)
    ensures PartyOk(p, nonces) ==> PartyOk(Completed(p), nonces)
  {
  }

  lemma StepWithin(p: Party, e: Event, r: Random, nonces: set<nat>)
    requires PartyOk(p, nonces) && r.nonce in nonces && NoncesOf(e) <= nonces
    ensures PartyOk(Step(p, e, r).next, nonces)
  {
    hide PartyOk, Receive, Step, NoncesOf;
    if e.Hear? {
      HearIs(p, e.f, r);
      ReceiveWithin(p, e.f, r, nonces);
    } else if Sends(e) {
      SendRest(p, e, r);
      SameHoldingsIf(p, Step(p, e, r).next, nonces);
    } else {
      LocalWithin(p, e, r, nonces);
    }
  }

  lemma LocalWithin(p: Party, e: Event, r: Random, nonces: set<nat>)
    requires PartyOk(p, nonces) && (e.ConnectStart? || e.SetPeer?)
    ensures PartyOk(Step(p, e, r).next, nonces)
  {
    hide PartyOk;
    SameHoldingsIf(p, Step(p, e, r).next, nonces);
  }

  /** A party's keys, history and nonces. */
  ghost predicate HistoryOk(h: History, nonces: set<nat>) {
    PartyInv(h.p, h.installed) && PartyOk(h.p, nonces) && forall k :: k in h.installed ==> KeyWithin(k, nonces)
  }

  lemma UnusedNonce(installed: set<Ptk>, nonces: set<nat>, nonce: nat)
    requires (forall k :: k in installed ==> KeyWithin(k, nonces)) && nonce !in nonces
    ensures NotPartOf(installed, nonce)
  {
  }

  lemma InstalledWithin(p: Party, o: Result, nonces: set<nat>)
    requires KeyStep(p, o) && KeyWithin(p.ptk, nonces)
    ensures forall k :: k in InstalledBy(p.key, o.next.key) ==> KeyWithin(k, nonces)
  {
  }

  /** Installed keys are among those handed in or the party's own. */
  lemma HistoryStepOk(h: History, e: Event, r: Random, nonces: set<nat>)
    requires HistoryOk(h, nonces) && r.nonce !in nonces
    ensures HistoryOk(StepOf(h, e, r), nonces + NoncesOf(e) + {r.nonce})
  {
    hide PartyOk, PartyInv, KeyStep, Step, KeyWithin, NoncesOf, NotPartOf, SentBy, InstalledBy;
    var nonces' := nonces + NoncesOf(e) + {r.nonce};
    UnusedNonce(h.installed, nonces, r.nonce);
    StepGood(h.p, h.installed, e, r);
    MoreNonces(h.p, h.p, nonces, nonces');
    StepWithin(h.p, e, r, nonces');
    InstalledWithin(h.p, Step(h.p, e, r), nonces') by { OwnKeyWithin(h.p, nonces'); }
    forall k | k in h.installed
      ensures KeyWithin(k, nonces')
    {
      WithinMore(k, nonces, nonces');
    }
  }

  lemma OwnKeyWithin(p: Party, nonces: set<nat>)
    requires PartyOk(p, nonces)
    ensures KeyWithin(p.ptk, nonces)
  {
  }

  lemma WithinMore(k: Ptk, nonces: set<nat>, nonces': set<nat>)
    requires KeyWithin(k, nonces) && nonces <= nonces'
    ensures KeyWithin(k, nonces')
  {
  }

  // ---------- the whole system ----------

  ghost predicate SystemInv(y: System) {
    && y.sta.p.role == Station && y.ap.p.role == AccessPoint && StaKeyOwn(y.sta.p)
    && HistoryOk(y.sta, y.nonces) && HistoryOk(y.ap, y.nonces)
    && AirInv(y.sta.p, y.ap.p, y.air, y.nonces)
  }

  lemma StartInv(y: System)
    requires Start(y)
    ensures SystemInv(y)
  {
  }

  lemma HistoryMore(h: History, nonces: set<nat>, nonces': set<nat>)
    requires HistoryOk(h, nonces) && nonces <= nonces'
    ensures HistoryOk(h, nonces')
  {
  }

  lemma GenuineM3(y: System, e: Event, r: Random)
    requires Possible(y, e, r) && e.Hear? && (e.f.M3? || e.f.M4?) && e.f.mic.By?
    ensures e.f in y.air
  {
  }

  lemma StaStepAir(y: System, e: Event, r: Random)
    requires SystemInv(y) && Possible(y, e, r)
    ensures var y' := StaStep(y, e, r); AirInv(y'.sta.p, y.ap.p, y'.air, y'.nonces)
    ensures StaKeyOwn(StaStep(y, e, r).sta.p) && StaStep(y, e, r).sta.p.role == Station
  {
    hide AirInv, Step, HistoryOk, StaKeyOwn, StaIdle, StaAnswers, NoncesOf, SentBy, InstalledBy;
    var p, o, nonces' := y.sta.p, Step(y.sta.p, e, r), y.nonces + NoncesOf(e) + {r.nonce};
    StaStepGood(p, e, r);
    if StaFinishes(p, o.next, o.out, e) {
      GenuineM3(y, e, r);
      StaFinishesKeeps(p, o.next, y.ap.p, y.air, y.nonces, o.out, e);
      var air' := y.air + FramesOf(o.out);
      SameOffersInv(o.next, y.ap.p, air', air', y.nonces, nonces');
    } else {
      StaQuietAir(y, o, e, r);
      SameOffersInv(o.next, y.ap.p, y.air, y.air + FramesOf(o.out), y.nonces, nonces');
    }
  }

  lemma StaQuietAir(y: System, o: Result, e: Event, r: Random)
    requires AirInv(y.sta.p, y.ap.p, y.air, y.nonces) && r.nonce !in y.nonces
    requires StaIdle(y.sta.p, o.next, o.out) || StaAnswers(y.sta.p, o.next, o.out, r)
    ensures AirInv(o.next, y.ap.p, y.air, y.nonces) && SameOffers(y.air, y.air + FramesOf(o.out))
  {
  }

  lemma ApStepAir(y: System, e: Event, r: Random)
    requires SystemInv(y) && Possible(y, e, r)
    ensures var y' := ApStep(y, e, r); AirInv(y.sta.p, y'.ap.p, y'.air, y'.nonces)
    ensures ApStep(y, e, r).ap.p.role == AccessPoint
  {
    hide AirInv, Step, HistoryOk, StaKeyOwn, ApIdle, ApOffers, NoncesOf, SentBy, InstalledBy, PartyOk;
    var p, o, nonces' := y.ap.p, Step(y.ap.p, e, r), y.nonces + NoncesOf(e) + {r.nonce};
    var air' := y.air + FramesOf(o.out);
    ApStepGood(p, e, r);
    if ApIdle(p, o.next, o.out) {
      ApIdleKeeps(y.sta.p, p, o.next, y.air, y.nonces, o.out);
      QuietAir(y.air, o.out) by { IdleIsQuiet(p, o); }
      SameOffersInv(y.sta.p, o.next, y.air, air', y.nonces, nonces');
    } else if ApFinishes(p, o.next, o.out, e) {
      GenuineM3(y, e, r);
      ApFinishesKeeps(y.sta.p, p, o.next, y.air, y.nonces, o.out, e);
      QuietAir(y.air, o.out);
      SameOffersInv(y.sta.p, o.next, y.air, air', y.nonces, nonces');
    } else {
      HistoryStepOk(y.ap, e, r, y.nonces);
      NextKeyWithin(StepOf(y.ap, e, r), nonces');
      QuietAir(y.air, []);
      SameOffersInv(y.sta.p, p, y.air, y.air + FramesOf([]), y.nonces, nonces');
      assert y.air + FramesOf([]) == y.air;
      ApOffersKeeps(y.sta.p, p, o.next, y.air, nonces', o.out);
    }
  }

  lemma IdleIsQuiet(p: Party, o: Result)
    requires ApIdle(p, o.next, o.out)
    ensures Quiet(o.out)
  {
  }

  lemma NextKeyWithin(h: History, nonces: set<nat>)
    requires HistoryOk(h, nonces)
    ensures KeyWithin(h.p.ptk, nonces)
  {
  }

  lemma StepInv(y: System, y': System)
    requires SystemInv(y) && Next(y, y')
    ensures SystemInv(y')
  {
    hide AirInv, StepOf, Step, HistoryOk, StaKeyOwn, NoncesOf;
    var e, r :| Possible(y, e, r) && (y' == StaStep(y, e, r) || y' == ApStep(y, e, r));
    if y' == StaStep(y, e, r) {
      StaStepAir(y, e, r);
      HistoryStepOk(y.sta, e, r, y.nonces);
      HistoryMore(y.ap, y.nonces, y'.nonces);
    } else {
      ApStepAir(y, e, r);
      HistoryStepOk(y.ap, e, r, y.nonces);
      HistoryMore(y.sta, y.nonces, y'.nonces);
    }
  }

  lemma {:induction false} EveryStateInv(run: seq<System>, i: nat)
    requires Behaviour(run) && i < |run|
    ensures SystemInv(run[i])
  {
    hide SystemInv, Next, Start;
    if i == 0 {
      StartInv(run[0]);
    } else {
      EveryStateInv(run, i - 1);
      assert Next(run[i - 1], run[i]);
      StepInv(run[i - 1], run[i]);
    }
  }

  /**
   In every run, whenever both parties are connected they hold the same pairwise key and the same
   group key, and the temporal key that each has installed is that of the common pairwise key.
   */
  lemma Agreement(run: seq<System>, i: nat)
    requires Behaviour(run) && i < |run|
    requires run[i].sta.p.state == State.Connected && run[i].ap.p.state == State.Connected
    ensures var sta, ap := run[i].sta.p, run[i].ap.p;
      && sta.ptk == ap.ptk && sta.gtk == ap.gtk
      && sta.key.valid && ap.key.valid && sta.key.tk == ap.key.tk == TkOf(sta.ptk)
  {
    hide Behaviour, AirInv, PartyOk, KeysFresh, StaKeyOwn;
    EveryStateInv(run, i);
    AgreementFromInv(run[i].sta.p, run[i].ap.p, run[i].air, run[i].nonces);
  }

  // ---------- what a counter value tags ----------

  /** The messages that carry a value of the access point's counter as their own. */
  predicate Tagged(f: Frame) {
    f.M1? || f.M3?
  }

  predicate Untagged(out: seq<Frame>) {
    forall f :: f in out ==> !Tagged(f)
  }

  ghost predicate OneTag(ap: Party, air: set<Frame>) {
    && (forall f, g :: f in air && g in air && Tagged(f) && Tagged(g) && f.replay == g.replay ==> f == g)
    && (forall f :: f in air && Tagged(f) ==> f.replay <= ap.replay)
  }

  /** Sends nothing tagged, or one message tagged with the next value. */
  ghost predicate ApTags(p: Party, q: Party, out: seq<Frame>) {
    || (Untagged(out) && p.replay <= q.replay)
    || (q.replay == p.replay + 1 && exists m :: m in out && Tagged(m) && m.replay == q.replay
                                                && forall f :: f in out && Tagged(f) ==> f == m)
  }

  lemma ApReceiveTags(p: Party, f: Frame, r: Random)
    requires p.role == AccessPoint
    ensures ApTags(p, Sme.ApReceive(p, f, r).next, Sme.ApReceive(p, f, r).out)
  {
    hide OnData, Sme.ApOnAssocReq, Sme.ApOnM2, Sme.ApOnM4;
    match f
    case AssocReq(_, _) => ApAssocReqTags(p, f, r);
    case M2(_, _, _, _) => ApM2Tags(p, f, r);
    case M4(_, _) => ApM4Tags(p, f);
    case Data(_, _, _, _, _) => OnDataRest(p, f);
    case _ =>
  }

  lemma ApAssocReqTags(p: Party, f: Frame, r: Random)
    requires f.AssocReq?
    ensures var o := Sme.ApOnAssocReq(p, f, r); ApTags(p, o.next, o.out)
  {
  }

  lemma ApM2Tags(p: Party, f: Frame, r: Random)
    requires f.M2?
    ensures var o := Sme.ApOnM2(p, f, r); ApTags(p, o.next, o.out)
  {
    hide OciRejected, Derived, ThirdMessage, ApTags;
    DerivedKeeps(p.(snonce := f.snonce));
    var p1 := Derived(p.(snonce := f.snonce));
    if p.state != FourWay || f.replay != p.replay || f.mic != By(p1.ptk) || OciRejected(p1, f.oci) {
      NothingTagged(p, Sme.ApOnM2(p, f, r));
    } else {
      ThirdTags(p, Derived(p.(snonce := f.snonce)), r);
    }
  }

  lemma ThirdTags(p: Party, p1: Party, r: Random)
    requires p1.replay == p.replay
    ensures var o := ThirdMessage(p1, r); o.out != [] && ApTags(p, o.next, o.out)
  {
    hide OwnOci;
    var o := ThirdMessage(p1, r);
    assert o.out[0] in o.out;
  }

  lemma ApM4Tags(p: Party, f: Frame)
    requires f.M4?
    ensures var o := Sme.ApOnM4(p, f); ApTags(p, o.next, o.out)
  {
  }

  lemma ApStepTags(p: Party, e: Event, r: Random)
    requires p.role == AccessPoint
    ensures ApTags(p, Step(p, e, r).next, Step(p, e, r).out)
  {
    hide Receive, Step, ApTags;
    if Sends(e) {
      SendRest(p, e, r);
      NothingTagged(p, Step(p, e, r));
    } else if e.Hear? {
      HearIs(p, e.f, r);
      ApHearTags(p, e.f, r);
    } else {
      ApLocalTags(p, e, r);
    }
  }

  lemma ApLocalTags(p: Party, e: Event, r: Random)
    requires p.role == AccessPoint && (e.ConnectStart? || e.SetPeer?)
    ensures ApTags(p, Step(p, e, r).next, Step(p, e, r).out)
  {
    hide ApTags;
    NothingTagged(p, Step(p, e, r));
  }

  lemma ApHearTags(p: Party, f: Frame, r: Random)
    requires p.role == AccessPoint
    ensures ApTags(p, Receive(p, f, r).next, Receive(p, f, r).out)
  {
    hide Sme.ApReceive, Receive, ApTags, Gated;
    GateIs(p, f, r);
    if Gated(p, f) {
      GateRest(p, f, r);
      NothingTagged(p, Receive(p, f, r));
    } else {
      ApReceiveTags(p, f, r);
    }
  }

  lemma NothingTagged(p: Party, o: Result)
    requires o.next.replay == p.replay && (o.out == [] || (|o.out| == 1 && !Tagged(o.out[0])))
    ensures ApTags(p, o.next, o.out)
  {
  }

  /** A station sends no tagged message. */
  lemma StaStepUntagged(p: Party, e: Event, r: Random)
    requires p.role == Station
    ensures Untagged(Step(p, e, r).out)
  {
  }

  lemma TagsKept(p: Party, q: Party, air: set<Frame>, out: seq<Frame>)
    requires OneTag(p, air) && ApTags(p, q, out)
    ensures OneTag(q, air + FramesOf(out))
  {
  }

  lemma OtherTagsKept(ap: Party, air: set<Frame>, out: seq<Frame>)
    requires OneTag(ap, air) && Untagged(out)
    ensures OneTag(ap, air + FramesOf(out))
  {
  }

  lemma {:induction false} EveryStateTags(run: seq<System>, i: nat)
    requires Behaviour(run) && i < |run|
    ensures OneTag(run[i].ap.p, run[i].air)
  {
    hide Next, Start, OneTag, SystemInv;
    if i == 0 {
      StartTags(run[0]);
    } else {
      EveryStateTags(run, i - 1);
      EveryStateInv(run, i - 1);
      assert Next(run[i - 1], run[i]);
      NextTags(run[i - 1], run[i]);
    }
  }

  lemma StartTags(y: System)
    requires Start(y)
    ensures OneTag(y.ap.p, y.air)
  {
  }

  lemma NextTags(y: System, y': System)
    requires SystemInv(y) && OneTag(y.ap.p, y.air) && Next(y, y')
    ensures OneTag(y'.ap.p, y'.air)
  {
    hide AirInv, Step, HistoryOk, StaKeyOwn, NoncesOf, OneTag, ApTags, Untagged, SentBy, InstalledBy;
    var e, r :| Possible(y, e, r) && (y' == StaStep(y, e, r) || y' == ApStep(y, e, r));
    if y' == StaStep(y, e, r) {
      StaStepUntagged(y.sta.p, e, r);
      OtherTagsKept(y.ap.p, y.air, Step(y.sta.p, e, r).out);
    } else {
      ApStepTags(y.ap.p, e, r);
      TagsKept(y.ap.p, Step(y.ap.p, e, r).next, y.air, Step(y.ap.p, e, r).out);
    }
  }

  /** In every run, each value of the access point's counter tags at most one first or third message. */
  lemma OneMessagePerValue(run: seq<System>, i: nat, f: Frame, g: Frame)
    requires Behaviour(run) && i < |run| && f in run[i].air && g in run[i].air
    requires Tagged(f) && Tagged(g) && f.replay == g.replay
    ensures f == g
  {
    hide Behaviour;
    EveryStateTags(run, i);
  }

  // ---------- an undisturbed exchange ----------

  /** The last frame of a step's output, handed to the other party. */
  function Relay(o: Result, other: Party, r: Random): Result {
    if o.out == [] then Stay(other) else Receive(other, o.out[|o.out| - 1], r)
  }

  lemma FirstAnswered(sta: Party, ap: Party, f: Frame, r1: Random, r2: Random)
    requires sta.role == Station && sta.state == Assoced
    requires ap.role == AccessPoint && ap.state != State.Connected && ap.state != Failed
    requires f.AssocReq? && !Refused(f.rsn)
    ensures var a1 := Receive(ap, f, r1); var s1 := Relay(a1, sta, r2);
      && a1 == Sme.ApOnAssocReq(ap, f, r1) && a1.out == [AssocResp(true, true, Silent), M1(ap.replay + 1, r1.nonce)]
      && s1 == Sme.StaAnswerM1(sta, M1(ap.replay + 1, r1.nonce), r2)
  {
  }

  /** What an offer under way looks like from both ends. */
  ghost predicate Paired(sta: Party, ap: Party) {
    && sta.role == Station && ap.role == AccessPoint && sta.state == FourWay && ap.state == FourWay
    && sta.pmk == ap.pmk && sta.self == ap.peer && sta.peer == ap.self && OwnOci(sta) == OwnOci(ap)
    && sta.anonce == ap.anonce && sta.replay == ap.replay
  }

  lemma SameKeys(sta: Party, ap: Party)
    requires Paired(sta, ap) && sta.snonce == ap.snonce && sta.ptk == Derived(sta).ptk
    ensures Derived(ap).ptk == sta.ptk
  {
  }

  lemma SecondAnswered(sta: Party, ap: Party, r: Random)
    requires Paired(sta, ap) && sta.ptk == Derived(sta).ptk
    ensures var a2 := Receive(ap, M2(sta.replay, sta.snonce, OwnOci(sta), By(sta.ptk)), r);
      && a2.next.ptk == sta.ptk && a2.next.gtk == r.gtk && a2.next.replay == ap.replay + 1 && a2.next.state == FourWay
      && a2.next.role == AccessPoint
      && a2.out == [M3(ap.replay + 1, ap.anonce, sta.ptk, r.gtk, OwnOci(ap), By(sta.ptk))]
  {
  }

  lemma ThirdAnswered(sta: Party, f: Frame, r: Random)
    requires sta.role == Station && sta.state == FourWay && f.M3? && f.replay > sta.replay
    requires f.mic == By(sta.ptk) && f.kek == sta.ptk && f.oci == OwnOci(sta)
    ensures var s2 := Receive(sta, f, r);
      && s2.next.state == State.Connected && s2.next.ptk == sta.ptk && s2.next.gtk == f.gtk
      && s2.out == [M4(f.replay, By(sta.ptk))]
  {
  }

  lemma FourthAccepted(ap: Party, r: Random)
    requires ap.role == AccessPoint && ap.state == FourWay
    ensures var a3 := Receive(ap, M4(ap.replay, By(ap.ptk)), r);
      a3.next.state == State.Connected && a3.next.ptk == ap.ptk && a3.next.gtk == ap.gtk
  {
  }

  /** The policies that the association leaves both ends with admit each other's channel. */
  ghost predicate Compatible(sta: Party, ap: Party, f: Frame)
    requires f.AssocReq?
  {
    && sta.pmk == ap.pmk && sta.self == ap.peer && sta.peer == ap.self
    && OwnOci(sta) == OwnOci(PolicyOf(ap, f.wmm, f.rsn))
  }

  lemma BothPaired(sta: Party, ap: Party, f: Frame, r1: Random, r2: Random)
    requires sta.role == Station && sta.state == Assoced && ap.role == AccessPoint
    requires f.AssocReq? && !Refused(f.rsn) && Compatible(sta, ap, f)
    ensures var a := Sme.ApOnAssocReq(ap, f, r1).next;
      var s := Sme.StaAnswerM1(sta, M1(ap.replay + 1, r1.nonce), r2);
      && Paired(s.next, a) && s.next.ptk == Derived(s.next).ptk
      && s.out == [M2(s.next.replay, s.next.snonce, OwnOci(s.next), By(s.next.ptk))]
  {
  }

  /**
   A compatible pair whose four messages all arrive, once and in order, ends up connected with the
   same keys.
   */
  lemma FourMessagesConnect(sta: Party, ap: Party, f: Frame, r1: Random, r2: Random, r3: Random, r4: Random, r5: Random)
    requires sta.role == Station && sta.state == Assoced
    requires ap.role == AccessPoint && ap.state != State.Connected && ap.state != Failed
    requires f.AssocReq? && !Refused(f.rsn) && Compatible(sta, ap, f)
    ensures var a1 := Receive(ap, f, r1); var s1 := Relay(a1, sta, r2); var a2 := Relay(s1, a1.next, r3);
      var s2 := Relay(a2, s1.next, r4); var a3 := Relay(s2, a2.next, r5);
      && s2.next.state == State.Connected && a3.next.state == State.Connected
      && s2.next.ptk == a3.next.ptk && s2.next.gtk == a3.next.gtk == r3.gtk
  {
    hide Receive, Sme.ApOnAssocReq, Sme.StaAnswerM1, Compatible, DerivePtk;
    FirstAnswered(sta, ap, f, r1, r2);
    BothPaired(sta, ap, f, r1, r2);
    var a1, s1 := Receive(ap, f, r1), Sme.StaAnswerM1(sta, M1(ap.replay + 1, r1.nonce), r2);
    SecondAnswered(s1.next, a1.next, r3);
    var a2 := Receive(a1.next, s1.out[0], r3);
    ThirdAnswered(s1.next, a2.out[0], r4);
    FourthAccepted(a2.next, r5);
  }
}
