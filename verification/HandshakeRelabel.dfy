/**
 The handshake over a network that may also pass a message off as another one.  In the code's own
 framing the kind of a handshake message is an octet that its integrity code does not cover, so a
 message made with the right key may arrive under another kind.  Agreement does not survive that: the
 access point takes its own third message for the station's fourth.  It holds exactly when the station
 has sent the fourth message for the access point's current value and key.
 */
module HandshakeRelabel {
  import opened Sme
  import opened SmeSafety
  import opened Handshake
  import opened HandshakeRuns

  /**
   f is the message m under another kind: counter value and code are the same.  What the receiver
   reads of a nonce, a channel or a key beside them is left open, but only a third message holds key
   data wrapped under a key.
   */
  predicate Relabels(m: Frame, f: Frame) {
    && (m.M2? || m.M3? || m.M4?)
    && (|| (f.M2? && f.replay == m.replay && f.mic == m.mic)
        || (f.M3? && !m.M3? && f.replay == m.replay && f.mic == m.mic && f.kek == Zero)
        || f == M4(m.replay, m.mic))
  }

  ghost predicate Arrives(y: System, f: Frame) {
    f in y.air || Fabricable(f) || exists m :: m in y.air && Relabels(m, f)
  }

  ghost predicate RelPossible(y: System, e: Event, r: Random) {
    (e.Hear? ==> Arrives(y, e.f)) && r.nonce !in y.nonces
  }

  ghost predicate RelNext(y: System, y': System) {
    exists e, r :: RelPossible(y, e, r) && (y' == StaStep(y, e, r) || y' == ApStep(y, e, r))
  }

  /** The runs over the relabelling network. */
  ghost predicate RelBehaviour(run: seq<System>) {
    run != [] && Start(run[0]) && forall i :: 0 < i < |run| ==> RelNext(run[i - 1], run[i])
  }

  // ---------- the invariant ----------

  /** The access point as if still in the handshake, which nothing has to have confirmed. */
  function Unconfirmed(ap: Party): Party {
    ap.(state := FourWay)
  }

  ghost predicate StaSaid(sta: Party, air: set<Frame>) {
    sta.state == State.Connected ==> M4(sta.replay, By(sta.ptk)) in air
  }

  ghost predicate RelInv(y: System) {
    && y.sta.p.role == Station && y.ap.p.role == AccessPoint && StaKeyOwn(y.sta.p)
    && HistoryOk(y.sta, y.nonces) && HistoryOk(y.ap, y.nonces)
    && AirInv(y.sta.p, Unconfirmed(y.ap.p), y.air, y.nonces) && StaSaid(y.sta.p, y.air)
  }

  lemma StartRelInv(y: System)
    requires Start(y)
    ensures RelInv(y)
  {
    hide AirInv, HistoryOk, StaKeyOwn;
    StartInv(y);
    Unconfirm(y.sta.p, y.ap.p, y.air, y.nonces);
  }

  lemma Unconfirm(sta: Party, ap: Party, air: set<Frame>, nonces: set<nat>)
    requires AirInv(sta, ap, air, nonces)
    ensures AirInv(sta, Unconfirmed(ap), air, nonces)
  {
    hide EveryAnswer, NothingToReplay, StaConfirmed, OffersWithin;
  }

  lemma Confirm(sta: Party, ap: Party, air: set<Frame>, nonces: set<nat>)
    requires AirInv(sta, Unconfirmed(ap), air, nonces) && M4(ap.replay, By(ap.ptk)) in air
    ensures AirInv(sta, ap, air, nonces)
  {
    hide EveryAnswer, NothingToReplay, StaConfirmed, OffersWithin;
  }

  // ---------- station steps ----------

  /** A station finishes on a third message that an access point has sent, and on no other. */
  lemma FinishedOnReal(y: System, e: Event, r: Random)
    requires RelPossible(y, e, r) && StaKeyOwn(y.sta.p) && y.sta.p.role == Station
    requires StaFinishes(y.sta.p, Step(y.sta.p, e, r).next, Step(y.sta.p, e, r).out, e)
    ensures e.f in y.air
  {
    hide Step, Uses;
    EntersConnected(y.sta.p, e, r);
    UsesIsKdf(y.sta.p.ptk, y.sta.p.snonce);
  }

  lemma UsesIsKdf(k: Ptk, nonce: nat)
    ensures Uses(k, nonce) ==> k != Zero
  {
  }

  lemma StaRelAir(y: System, e: Event, r: Random)
    requires RelInv(y) && RelPossible(y, e, r)
    ensures var y' := StaStep(y, e, r);
      AirInv(y'.sta.p, Unconfirmed(y.ap.p), y'.air, y'.nonces) && StaSaid(y'.sta.p, y'.air)
    ensures StaKeyOwn(StaStep(y, e, r).sta.p) && StaStep(y, e, r).sta.p.role == Station
  {
    hide AirInv, Step, HistoryOk, StaKeyOwn, StaIdle, StaAnswers, NoncesOf, SentBy, InstalledBy, RelPossible;
    var p, ap, o := y.sta.p, Unconfirmed(y.ap.p), Step(y.sta.p, e, r);
    var air', nonces' := y.air + FramesOf(o.out), y.nonces + NoncesOf(e) + {r.nonce};
    StaStepGood(p, e, r);
    if StaFinishes(p, o.next, o.out, e) {
      FinishedOnReal(y, e, r);
      StaFinishesKeeps(p, o.next, ap, y.air, y.nonces, o.out, e);
      SameOffersInv(o.next, ap, air', air', y.nonces, nonces');
    } else {
      UnusedDraw(y, e, r);
      StaQuietAir(y.(ap := y.ap.(p := ap)), o, e, r);
      SameOffersInv(o.next, ap, y.air, air', y.nonces, nonces');
      QuietSaid(p, o, r, y.air);
    }
  }

  lemma UnusedDraw(y: System, e: Event, r: Random)
    requires RelPossible(y, e, r)
    ensures r.nonce !in y.nonces
  {
  }

  lemma QuietSaid(p: Party, o: Result, r: Random, air: set<Frame>)
    requires StaSaid(p, air) && (StaIdle(p, o.next, o.out) || StaAnswers(p, o.next, o.out, r))
    ensures StaSaid(o.next, air + FramesOf(o.out))
  {
  }

  // ---------- access-point steps ----------

  lemma UnconfirmedIdle(p: Party, q: Party, out: seq<Frame>, e: Event)
    requires ApIdle(p, q, out) || ApFinishes(p, q, out, e)
    ensures ApIdle(Unconfirmed(p), Unconfirmed(q), out)
  {
  }

  lemma OfferUnconfirmed(p: Party, q: Party, out: seq<Frame>)
    requires ApOffers(p, q, out)
    ensures Unconfirmed(p) == p && Unconfirmed(q) == q
  {
    hide OwnOci;
  }

  lemma ApRelAir(y: System, e: Event, r: Random)
    requires RelInv(y) && RelPossible(y, e, r)
    ensures var y' := ApStep(y, e, r);
      AirInv(y.sta.p, Unconfirmed(y'.ap.p), y'.air, y'.nonces) && StaSaid(y.sta.p, y'.air)
    ensures ApStep(y, e, r).ap.p.role == AccessPoint
  {
    hide AirInv, Step, HistoryOk, StaKeyOwn, ApIdle, ApFinishes, NoncesOf, SentBy, InstalledBy, PartyOk, ApOffers,
         RelPossible, Unconfirmed;
    var p, o, nonces' := y.ap.p, Step(y.ap.p, e, r), y.nonces + NoncesOf(e) + {r.nonce};
    var air' := y.air + FramesOf(o.out);
    ApStepGood(p, e, r);
    UnusedDraw(y, e, r);
    if ApOffers(p, o.next, o.out) {
      OfferUnconfirmed(p, o.next, o.out);
      HistoryStepOk(y.ap, e, r, y.nonces);
      NextKeyWithin(StepOf(y.ap, e, r), nonces');
      SameAir(y.air);
      SameOffersInv(y.sta.p, p, y.air, y.air, y.nonces, nonces');
      ApOffersKeeps(y.sta.p, p, o.next, y.air, nonces', o.out);
    } else {
      UnconfirmedIdle(p, o.next, o.out, e);
      ApIdleKeeps(y.sta.p, Unconfirmed(p), Unconfirmed(o.next), y.air, y.nonces, o.out);
      IdleSays(Unconfirmed(p), Unconfirmed(o.next), o.out);
      QuietAir(y.air, o.out);
      SameOffersInv(y.sta.p, Unconfirmed(o.next), y.air, air', y.nonces, nonces');
    }
  }

  lemma SameAir(air: set<Frame>)
    ensures SameOffers(air, air)
  {
  }

  lemma IdleSays(p: Party, q: Party, out: seq<Frame>)
    requires ApIdle(p, q, out)
    ensures Quiet(out)
  {
  }

  lemma RelStepInv(y: System, y': System)
    requires RelInv(y) && RelNext(y, y')
    ensures RelInv(y')
  {
    hide AirInv, StepOf, Step, HistoryOk, StaKeyOwn, NoncesOf, Unconfirmed, RelPossible;
    var e, r :| RelPossible(y, e, r) && (y' == StaStep(y, e, r) || y' == ApStep(y, e, r));
    UnusedDraw(y, e, r);
    if y' == StaStep(y, e, r) {
      StaRelAir(y, e, r);
      HistoryStepOk(y.sta, e, r, y.nonces);
      HistoryMore(y.ap, y.nonces, y'.nonces);
    } else {
      ApRelAir(y, e, r);
      HistoryStepOk(y.ap, e, r, y.nonces);
      HistoryMore(y.sta, y.nonces, y'.nonces);
    }
  }

  lemma {:induction false} EveryRelState(run: seq<System>, i: nat)
    requires RelBehaviour(run) && i < |run|
    ensures RelInv(run[i])
  {
    hide RelInv, RelNext, Start;
    if i == 0 {
      StartRelInv(run[0]);
    } else {
      EveryRelState(run, i - 1);
      assert RelNext(run[i - 1], run[i]);
      RelStepInv(run[i - 1], run[i]);
    }
  }

  // ---------- when agreement survives ----------

  /**
   In every run over the relabelling network, when both parties are connected they agree on counter
   value and pairwise key exactly when the station has sent the fourth message for the access point's
   value and key, and then they agree on the group key and the installed temporal key too.
   */
  lemma RelabelledAgreement(run: seq<System>, i: nat)
    requires RelBehaviour(run) && i < |run|
    requires run[i].sta.p.state == State.Connected && run[i].ap.p.state == State.Connected
    ensures var sta, ap := run[i].sta.p, run[i].ap.p;
      && (sta.replay == ap.replay && sta.ptk == ap.ptk <==> M4(ap.replay, By(ap.ptk)) in run[i].air)
      && (M4(ap.replay, By(ap.ptk)) in run[i].air ==> sta.gtk == ap.gtk && sta.key.tk == ap.key.tk == TkOf(sta.ptk))
      && sta.key.valid && ap.key.valid
  {
    hide RelBehaviour, AirInv, PartyOk, KeysFresh, StaKeyOwn, Unconfirmed;
    EveryRelState(run, i);
    var y := run[i];
    if M4(y.ap.p.replay, By(y.ap.p.ptk)) in y.air {
      Confirm(y.sta.p, y.ap.p, y.air, y.nonces);
      AgreementFromInv(y.sta.p, y.ap.p, y.air, y.nonces);
    }
  }

  // ---------- a run without agreement ----------

  lemma {:induction false} AlsoRelabelling(run: seq<System>)
    requires Behaviour(run)
    ensures RelBehaviour(run)
  {
    hide Start, StaStep, ApStep;
    forall i | 0 < i < |run|
      ensures RelNext(run[i - 1], run[i])
    {
      assert Next(run[i - 1], run[i]);
      var e, r :| Possible(run[i - 1], e, r) && (run[i] == StaStep(run[i - 1], e, r) || run[i] == ApStep(run[i - 1], e, r));
      assert RelPossible(run[i - 1], e, r);
    }
  }

  /** A first message that repeats the nonce of the handshake only moves the station's counter value. */
  lemma AnsweredAgain(sta: Party, n: nat, r: Random)
    requires sta.role == Station && sta.state == FourWay && sta.ptk == Derived(sta).ptk
    ensures var o := Receive(sta, M1(n, sta.anonce), r);
      && o.next == sta.(replay := n) && o.out == [M2(n, sta.snonce, OwnOci(sta), By(sta.ptk))]
  {
    hide DerivePtk;
  }

  lemma PairedAt(sta: Party, ap: Party, ap': Party, n: nat)
    requires Paired(sta, ap) && n == ap'.replay
    requires ap'.role == AccessPoint && ap'.state == FourWay && ap'.pmk == ap.pmk && ap'.self == ap.self && ap'.peer == ap.peer
    requires ap'.anonce == ap.anonce && OwnOci(ap') == OwnOci(ap)
    ensures Paired(sta.(replay := n), ap') && OwnOci(sta.(replay := n)) == OwnOci(sta)
    ensures Derived(sta.(replay := n)).ptk == Derived(sta).ptk
  {
  }

  /** An offer keeps everything that a further second message is checked against. */
  lemma OfferKeeps(sta: Party, ap: Party, r: Random)
    requires Paired(sta, ap) && sta.ptk == Derived(sta).ptk
    ensures var q := Receive(ap, M2(sta.replay, sta.snonce, OwnOci(sta), By(sta.ptk)), r).next;
      q.pmk == ap.pmk && q.self == ap.self && q.peer == ap.peer && q.anonce == ap.anonce && OwnOci(q) == OwnOci(ap)
  {
  }

  /** Two offers for one key, the station answering and not yet having taken either. */
  lemma TwoOffers(run0: seq<System>, f: Frame, g: nat, g': nat) returns (run: seq<System>, m3: Frame, m3': Frame)
    requires run0 != [] && Behaviour(run0) && Last(run0).sta.p.state == Assoced
    requires Last(run0).ap.p.state != State.Connected && Last(run0).ap.p.state != Failed
    requires f.AssocReq? && !Refused(f.rsn) && Compatible(Last(run0).sta.p, Last(run0).ap.p, f)
    ensures run != [] && Behaviour(run) && m3 in Last(run).air && m3' in Last(run).air
    ensures var sta, ap := Last(run).sta.p, Last(run).ap.p;
      && sta.role == Station && sta.state == FourWay && sta.ptk == Derived(sta).ptk
      && ap.role == AccessPoint && ap.state == FourWay && ap.ptk == sta.ptk && ap.gtk == g'
      && m3.M3? && m3.gtk == g && m3.mic == By(sta.ptk) && m3.kek == sta.ptk && m3.oci == OwnOci(sta) && m3.replay > 0
      && m3'.M3? && m3'.replay == ap.replay && m3'.mic == By(ap.ptk)
  {
    hide Behaviour, Receive, Compatible, Paired, OwnOci, Derived;
    var run2 := CanPair(run0, f);
    var sta, ap := Last(run2).sta.p, Last(run2).ap.p;
    PairedAgree(sta, ap);
    var m2 := M2(sta.replay, sta.snonce, OwnOci(sta), By(sta.ptk));
    var run3, r3 := ApHears(run2, m2, g);
    SecondAnswered(sta, ap, r3);
    OfferKeeps(sta, ap, r3);
    m3 := M3(ap.replay + 1, ap.anonce, sta.ptk, g, OwnOci(ap), By(sta.ptk));
    assert m3 in Receive(ap, m2, r3).out;
    var ap1 := Last(run3).ap.p;
    var run4, r4 := StaHears(run3, M1(ap1.replay, sta.anonce));
    AnsweredAgain(sta, ap1.replay, r4);
    PairedAt(sta, ap, ap1, ap1.replay);
    var sta1 := Last(run4).sta.p;
    var m2' := M2(sta1.replay, sta1.snonce, OwnOci(sta1), By(sta1.ptk));
    assert m2' in Receive(sta, M1(ap1.replay, sta.anonce), r4).out;
    var run5, r5 := ApHears(run4, m2', g');
    SecondAnswered(sta1, ap1, r5);
    m3' := M3(ap1.replay + 1, ap1.anonce, sta1.ptk, g', OwnOci(ap1), By(sta1.ptk));
    assert m3' in Receive(ap1, m2', r5).out;
    run := run5;
  }

  /**
   Over the relabelling network two connected parties may hold different group keys: the station takes
   an earlier offer, and the access point's own later offer comes back to it as the fourth message.
   */
  lemma RelabellingBreaksAgreement(selfS: nat, selfA: nat, pmk: nat, ocv: bool, oci: nat) returns (run: seq<System>)
    ensures RelBehaviour(run) && run != [] && BothConnected(Last(run))
    ensures Last(run).sta.p.ptk == Last(run).ap.p.ptk && Last(run).sta.p.gtk != Last(run).ap.p.gtk
  {
    hide Behaviour, RelBehaviour, Receive, OwnOci, Derived, InitialHistory;
    var run0 := StartsAssociated(selfS, selfA, pmk, ocv, oci);
    StartCompatible(Last(run0).sta.p, Last(run0).ap.p, selfS, selfA, pmk, ocv, oci);
    var run5, m3, m3' := TwoOffers(run0, AssocReq(true, Silent), 1, 2);
    var sta, ap := Last(run5).sta.p, Last(run5).ap.p;
    var run6, r6 := StaHears(run5, M1(0, sta.anonce));
    AnsweredAgain(sta, 0, r6);
    SameChannel(sta);
    var run7, r7 := StaHears(run6, m3);
    ThirdAnswered(Last(run6).sta.p, m3, r7);
    AlsoRelabelling(run7);
    var m4 := M4(ap.replay, By(ap.ptk));
    var r8 := RelGoesOn(run7, m3', m4);
    FourthAccepted(ap, r8);
    HeardParty(Last(run7).ap, m4, r8);
    run := run7 + [ApStep(Last(run7), Hear(m4), r8)];
  }

  lemma SameChannel(sta: Party)
    ensures OwnOci(sta.(replay := 0)) == OwnOci(sta)
  {
  }

  lemma StartCompatible(sta: Party, ap: Party, selfS: nat, selfA: nat, pmk: nat, ocv: bool, oci: nat)
    requires sta == InitialParty(Station, selfS, pmk, ocv, oci).(peer := selfA, state := Assoced, qos := true)
    requires ap == InitialParty(AccessPoint, selfA, pmk, ocv, oci).(peer := selfS, state := Authed)
    ensures Compatible(sta, ap, AssocReq(true, Silent)) && !Refused(Silent)
  {
  }

  lemma RelGoesOn(run: seq<System>, m: Frame, f: Frame) returns (r: Random)
    requires run != [] && RelBehaviour(run) && m in Last(run).air && Relabels(m, f)
    ensures RelBehaviour(run + [ApStep(Last(run), Hear(f), r)])
  {
    hide Start, StaStep, ApStep;
    var n := UnusedNonceExists(Last(run).nonces);
    r := Random(n, 0);
    var y' := ApStep(Last(run), Hear(f), r);
    assert RelPossible(Last(run), Hear(f), r);
    assert RelNext(Last(run), y');
    var run' := run + [y'];
    forall i | 0 < i < |run'|
      ensures RelNext(run'[i - 1], run'[i])
    {
      if i < |run| {
        assert RelNext(run[i - 1], run[i]);
      }
    }
  }
}
