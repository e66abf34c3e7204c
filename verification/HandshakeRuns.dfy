/**
 Runs of the handshake that get somewhere: from every state with an associated station and a
 compatible access point the run can go on until both are connected, and such states are reachable.
 */
module HandshakeRuns {
  import opened Sme
  import opened SmeSafety
  import opened Handshake

  function Last(run: seq<System>): System
    requires run != []
  {
    run[|run| - 1]
  }

  lemma StaGoesOn(run: seq<System>, e: Event, r: Random)
    requires Behaviour(run) && Possible(Last(run), e, r)
    ensures Behaviour(run + [StaStep(Last(run), e, r)])
  {
    hide Start, StaStep, ApStep, Possible;
    var y' := StaStep(Last(run), e, r);
    assert Next(Last(run), y');
    StillBehaves(run, y');
  }

  lemma ApGoesOn(run: seq<System>, e: Event, r: Random)
    requires Behaviour(run) && Possible(Last(run), e, r)
    ensures Behaviour(run + [ApStep(Last(run), e, r)])
  {
    hide Start, StaStep, ApStep, Possible;
    var y' := ApStep(Last(run), e, r);
    assert Next(Last(run), y');
    StillBehaves(run, y');
  }

  lemma StillBehaves(run: seq<System>, y': System)
    requires Behaviour(run) && Next(Last(run), y')
    ensures Behaviour(run + [y'])
  {
    hide Start, Next;
    var run' := run + [y'];
    forall i | 0 < i < |run'|
      ensures Next(run'[i - 1], run'[i])
    {
      if i < |run| {
        assert Next(run[i - 1], run[i]);
      }
    }
  }

  /** A nonce that nobody has drawn or heard. */
  lemma {:induction false} UnusedNonceExists(nonces: set<nat>) returns (n: nat)
    ensures n !in nonces && forall m :: m in nonces ==> m < n
    decreases |nonces|
  {
    if nonces == {} {
      n := 0;
    } else {
      var m :| m in nonces;
      var n0 := UnusedNonceExists(nonces - {m});
      n := if n0 <= m then m + 1 else n0;
      forall k | k in nonces
        ensures k < n
      {
        assert k == m || k in nonces - {m};
      }
    }
  }

  lemma HeardParty(h: History, f: Frame, r: Random)
    ensures StepOf(h, Hear(f), r).p == Receive(h.p, f, r).next && Step(h.p, Hear(f), r).out == Receive(h.p, f, r).out
  {
    hide Receive;
  }

  /** The access point hears a frame: the run one state longer. */
  lemma ApHears(run: seq<System>, f: Frame, gtk: nat) returns (run': seq<System>, r: Random)
    requires run != [] && Behaviour(run) && (f in Last(run).air || Fabricable(f))
    ensures Behaviour(run') && run <= run' && run' != [] && r.gtk == gtk
    ensures var y, y' := Last(run), Last(run');
      && y'.sta == y.sta && y'.ap.p == Receive(y.ap.p, f, r).next && y.air <= y'.air
      && forall m :: m in Receive(y.ap.p, f, r).out ==> m in y'.air
  {
    hide Behaviour, Receive, StepOf, Step;
    var n := UnusedNonceExists(Last(run).nonces);
    r := Random(n, gtk);
    ApGoesOn(run, Hear(f), r);
    HeardParty(Last(run).ap, f, r);
    run' := run + [ApStep(Last(run), Hear(f), r)];
  }

  lemma StaHears(run: seq<System>, f: Frame) returns (run': seq<System>, r: Random)
    requires run != [] && Behaviour(run) && (f in Last(run).air || Fabricable(f))
    ensures Behaviour(run') && run <= run' && run' != []
    ensures var y, y' := Last(run), Last(run');
      && y'.ap == y.ap && y'.sta.p == Receive(y.sta.p, f, r).next && y.air <= y'.air
      && forall m :: m in Receive(y.sta.p, f, r).out ==> m in y'.air
  {
    hide Behaviour, Receive, StepOf, Step;
    var n := UnusedNonceExists(Last(run).nonces);
    r := Random(n, 0);
    StaGoesOn(run, Hear(f), r);
    HeardParty(Last(run).sta, f, r);
    run' := run + [StaStep(Last(run), Hear(f), r)];
  }

  ghost predicate BothConnected(y: System) {
    y.sta.p.state == State.Connected && y.ap.p.state == State.Connected
  }

  /**
   Whatever has happened before, once a station is associated and an access point neither connected
   nor failed, and their policies are compatible, the run can go on to where both are connected.
   */
  lemma CanConnect(run: seq<System>, f: Frame) returns (run': seq<System>)
    requires run != [] && Behaviour(run) && Last(run).sta.p.state == Assoced
    requires Last(run).ap.p.state != State.Connected && Last(run).ap.p.state != Failed
    requires f.AssocReq? && !Refused(f.rsn) && Compatible(Last(run).sta.p, Last(run).ap.p, f)
    ensures Behaviour(run') && run <= run' && run' != [] && BothConnected(Last(run'))
    ensures Last(run').sta.p.ptk == Last(run').ap.p.ptk && Last(run').sta.p.gtk == Last(run').ap.p.gtk
  {
    hide Behaviour, Receive, Compatible, Paired, OwnOci, Derived;
    var run2 := CanPair(run, f);
    var sta1, ap1 := Last(run2).sta.p, Last(run2).ap.p;
    PairedAgree(sta1, ap1);
    var m2 := M2(sta1.replay, sta1.snonce, OwnOci(sta1), By(sta1.ptk));
    var run3, r3 := ApHears(run2, m2, 0);
    SecondAnswered(sta1, ap1, r3);
    var m3 := M3(ap1.replay + 1, ap1.anonce, sta1.ptk, r3.gtk, OwnOci(ap1), By(sta1.ptk));
    assert m3 in Receive(ap1, m2, r3).out;
    run' := CanFinish(run3, m3);
  }

  /** Up to the second message. */
  lemma CanPair(run: seq<System>, f: Frame) returns (run': seq<System>)
    requires run != [] && Behaviour(run) && Last(run).sta.p.state == Assoced
    requires Last(run).ap.p.state != State.Connected && Last(run).ap.p.state != Failed
    requires f.AssocReq? && !Refused(f.rsn) && Compatible(Last(run).sta.p, Last(run).ap.p, f)
    ensures Behaviour(run') && run <= run' && run' != []
    ensures var sta, ap := Last(run').sta.p, Last(run').ap.p;
      && Paired(sta, ap) && sta.ptk == Derived(sta).ptk
      && M2(sta.replay, sta.snonce, OwnOci(sta), By(sta.ptk)) in Last(run').air
  {
    hide Behaviour, Receive, Sme.ApOnAssocReq, Sme.StaAnswerM1, Compatible, Paired, OwnOci, Derived, SystemInv;
    var sta, ap := Last(run).sta.p, Last(run).ap.p;
    BehaviourInv(run);
    RolesFixed(Last(run));
    var run1, r1 := ApHears(run, f, 0);
    var m1 := M1(ap.replay + 1, r1.nonce);
    var run2, r2 := StaHears(run1, m1);
    FirstAnswered(sta, ap, f, r1, r2);
    BothPaired(sta, ap, f, r1, r2);
    run' := run2;
    var q := Last(run').sta.p;
    assert M2(q.replay, q.snonce, OwnOci(q), By(q.ptk)) in Receive(sta, m1, r2).out;
  }

  /** From the third message on. */
  lemma CanFinish(run: seq<System>, m3: Frame) returns (run': seq<System>)
    requires run != [] && Behaviour(run) && m3 in Last(run).air
    requires var sta, ap := Last(run).sta.p, Last(run).ap.p;
      && sta.role == Station && sta.state == FourWay && ap.role == AccessPoint && ap.state == FourWay
      && m3.M3? && m3.replay > sta.replay && m3.mic == By(sta.ptk) && m3.kek == sta.ptk && m3.oci == OwnOci(sta)
      && ap.ptk == sta.ptk && ap.gtk == m3.gtk && ap.replay == m3.replay
    ensures Behaviour(run') && run <= run' && run' != [] && BothConnected(Last(run'))
    ensures Last(run').sta.p.ptk == Last(run').ap.p.ptk && Last(run').sta.p.gtk == Last(run').ap.p.gtk
  {
    hide Behaviour, Receive, OwnOci;
    var sta, ap := Last(run).sta.p, Last(run).ap.p;
    var run4, r4 := StaHears(run, m3);
    ThirdAnswered(sta, m3, r4);
    var m4 := M4(m3.replay, By(sta.ptk));
    assert m4 in Receive(sta, m3, r4).out;
    var run5, r5 := ApHears(run4, m4, 0);
    FourthAccepted(ap, r5);
    run' := run5;
  }

  lemma BehaviourInv(run: seq<System>)
    requires run != [] && Behaviour(run)
    ensures SystemInv(Last(run))
  {
    EveryStateInv(run, |run| - 1);
  }

  lemma PairedAgree(sta: Party, ap: Party)
    requires Paired(sta, ap)
    ensures sta.role == Station && sta.state == FourWay && sta.replay == ap.replay && OwnOci(sta) == OwnOci(ap)
  {
  }

  lemma RolesFixed(y: System)
    requires SystemInv(y)
    ensures y.sta.p.role == Station && y.ap.p.role == AccessPoint
  {
    hide AirInv, HistoryOk, StaKeyOwn;
  }

  // ---------- from the start ----------

  lemma StartsAssociated(selfS: nat, selfA: nat, pmk: nat, ocv: bool, oci: nat) returns (run: seq<System>)
    ensures Behaviour(run) && run != []
    ensures run[0].sta == InitialHistory(Station, selfS, pmk, ocv, oci)
    ensures run[0].ap == InitialHistory(AccessPoint, selfA, pmk, ocv, oci)
    ensures Last(run).sta.p == InitialParty(Station, selfS, pmk, ocv, oci).(peer := selfA, state := Assoced, qos := true)
    ensures Last(run).ap.p == InitialParty(AccessPoint, selfA, pmk, ocv, oci).(peer := selfS, state := Authed)
  {
    hide Receive, Behaviour, StepOf, Step, InitialHistory;
    var s0 := InitialHistory(Station, selfS, pmk, ocv, oci);
    var y0 := System(s0, InitialHistory(AccessPoint, selfA, pmk, ocv, oci), {}, {0});
    InitialParties(selfS, selfA, pmk, ocv, oci);
    StartIs(y0);
    var run0 := [y0];
    var n := UnusedNonceExists(y0.nonces);
    StaGoesOn(run0, SetPeer(selfA), Random(n, 0));
    var run1 := run0 + [StaStep(y0, SetPeer(selfA), Random(n, 0))];
    PeerSet(s0, selfA, Random(n, 0));
    var run2, r2 := StaHears(run1, AuthResp(true));
    Authenticated(Last(run1).sta.p, r2);
    var run3, r3 := StaHears(run2, AssocResp(true, true, Silent));
    AssociatedFrom(Last(run2).sta.p, r3);
    var run4, r4 := ApHears(run3, AuthReq(selfS), 0);
    AuthAnswered(Last(run3).ap.p, selfS, r4);
    run := run4;
  }

  lemma InitialParties(selfS: nat, selfA: nat, pmk: nat, ocv: bool, oci: nat)
    ensures InitialHistory(Station, selfS, pmk, ocv, oci).p == InitialParty(Station, selfS, pmk, ocv, oci)
    ensures InitialHistory(AccessPoint, selfA, pmk, ocv, oci).p == InitialParty(AccessPoint, selfA, pmk, ocv, oci)
    ensures Start(System(InitialHistory(Station, selfS, pmk, ocv, oci),
                         InitialHistory(AccessPoint, selfA, pmk, ocv, oci), {}, {0}))
  {
  }

  lemma StartIs(y: System)
    requires Start(y)
    ensures Behaviour([y])
  {
  }

  lemma PeerSet(h: History, peer: nat, r: Random)
    ensures StepOf(h, SetPeer(peer), r).p == h.p.(peer := peer)
  {
  }

  lemma Authenticated(p: Party, r: Random)
    requires p.role == Station && p.state == Init
    ensures Receive(p, AuthResp(true), r).next == p.(state := Authed)
  {
  }

  lemma AssociatedFrom(p: Party, r: Random)
    requires p.role == Station && p.state == Authed && p.earlyM1.None?
    ensures Receive(p, AssocResp(true, true, Silent), r).next == p.(qos := true, state := Assoced)
  {
  }

  lemma AuthAnswered(p: Party, src: nat, r: Random)
    requires p.role == AccessPoint && p.state == Init
    ensures Receive(p, AuthReq(src), r).next == p.(peer := src, state := Authed)
  {
  }

  /** Any two parties with one pairwise master key have a run, from the very start, that connects them. */
  lemma SomeRunConnects(selfS: nat, selfA: nat, pmk: nat, ocv: bool, oci: nat) returns (run: seq<System>)
    ensures Behaviour(run) && run != [] && BothConnected(Last(run))
    ensures run[0].sta == InitialHistory(Station, selfS, pmk, ocv, oci)
    ensures run[0].ap == InitialHistory(AccessPoint, selfA, pmk, ocv, oci)
    ensures Last(run).sta.p.ptk == Last(run).ap.p.ptk && Last(run).sta.p.gtk == Last(run).ap.p.gtk
  {
    hide Behaviour, InitialHistory;
    var run0 := StartsAssociated(selfS, selfA, pmk, ocv, oci);
    run := CanConnect(run0, AssocReq(true, Silent));
    assert run[0] == run0[0];
  }
}
