/**
 A whole association over air that delivers: from a request to connect through probing, authentication,
 association and the four handshake messages to data passing both ways.
 */
module Association {
  import opened Wrappers
  import opened Replay
  import opened Sme
  import opened SmeRules
  import opened DataPath

  /** A party after hearing frames in turn, and all that it sends meanwhile. */
  function Replies(p: Party, fs: seq<Frame>, r: Random): (Party, seq<Frame>)
    decreases |fs|
  {
    if fs == [] then (p, [])
    else
      var (q, out) := Replies(p, fs[..|fs| - 1], r);
      var o := Receive(q, fs[|fs| - 1], r);
      (o.next, out + o.out)
  }

  /** The access point's answer to an association request, as the air may swap its two frames. */
  function Swapped(fs: seq<Frame>, swap: bool): seq<Frame> {
    if swap && |fs| == 2 then [fs[1], fs[0]] else fs
  }

  /** Probing, authentication and association: the two parties, and the answer to the request. */
  function Introduced(sta: Party, ap: Party, rA: Random): (Party, Party, seq<Frame>) {
    var start := Step(sta, ConnectStart, rA);
    var (a1, probed) := Replies(ap, start.out, rA);
    var (s1, auth) := Replies(start.next, probed, rA);
    var (a2, authed) := Replies(a1, auth, rA);
    var (s2, assoc) := Replies(s1, authed, rA);
    var (a3, answer) := Replies(a2, assoc, rA);
    (s2, a3, answer)
  }

  /** The handshake from there on. */
  function Shaken(sta: Party, ap: Party, answer: seq<Frame>, rS: Random, rG: Random): (Party, Party) {
    var (s3, second) := Replies(sta, answer, rS);
    var (a4, third) := Replies(ap, second, rG);
    var (s4, fourth) := Replies(s3, third, rS);
    (s4, Replies(a4, fourth, rG).0)
  }

  lemma ReplyToOne(p: Party, f: Frame, r: Random)
    ensures Replies(p, [f], r) == (Receive(p, f, r).next, Receive(p, f, r).out)
  {
    hide Receive;
    var fs := [f];
    assert fs[..|fs| - 1] == [];
    assert Replies(p, [], r) == (p, []);
    assert [] + Receive(p, f, r).out == Receive(p, f, r).out;
  }

  lemma ReplyToTwo(p: Party, f: Frame, g: Frame, r: Random)
    ensures var o := Receive(p, f, r); var o' := Receive(o.next, g, r);
      Replies(p, [f, g], r) == (o'.next, o.out + o'.out)
  {
    hide Receive;
    var fs := [f, g];
    assert fs[..|fs| - 1] == [f];
    ReplyToOne(p, f, r);
  }

  lemma HearIs(p: Party, f: Frame, r: Random)
    ensures Step(p, Hear(f), r) == Receive(p, f, r)
  {
    hide Receive;
  }

  /** Probing and authentication, one exchange each. */
  lemma Probed(sta: Party, ap: Party, r: Random)
    requires sta.role == Station && sta.state == Scanning && ap.role == AccessPoint && ap.state == Init
    ensures Replies(ap, [ProbeReq], r) == (ap, [ProbeResp(ap.self, Silent)])
    ensures Replies(sta, [ProbeResp(ap.self, Silent)], r) == (sta.(peer := ap.self), [AuthReq(sta.self)])
  {
    hide Receive, Replies;
    ReplyToOne(ap, ProbeReq, r);
    ApSmallIs(ap, Hear(ProbeReq), r);
    HearIs(ap, ProbeReq, r);
    ReplyToOne(sta, ProbeResp(ap.self, Silent), r);
    StaSmallIs(sta, Hear(ProbeResp(ap.self, Silent)), r);
    HearIs(sta, ProbeResp(ap.self, Silent), r);
  }

  lemma Authenticated(sta: Party, ap: Party, r: Random)
    requires sta.role == Station && sta.state == Scanning && ap.role == AccessPoint && ap.state == Init
    ensures Replies(ap, [AuthReq(sta.self)], r) == (ap.(peer := sta.self, state := Authed), [AuthResp(true)])
    ensures Replies(sta, [AuthResp(true)], r) == (sta.(state := Authed), [AssocReq(true, Silent)])
  {
    hide Receive, Replies;
    ReplyToOne(ap, AuthReq(sta.self), r);
    ApSmallIs(ap, Hear(AuthReq(sta.self)), r);
    HearIs(ap, AuthReq(sta.self), r);
    ReplyToOne(sta, AuthResp(true), r);
    StaSmallIs(sta, Hear(AuthResp(true)), r);
    HearIs(sta, AuthResp(true), r);
  }

  lemma Granted(ap: Party, r: Random)
    requires ap.role == AccessPoint && ap.state == Authed
    ensures Replies(ap, [AssocReq(true, Silent)], r)
         == (ap.(qos := true, anonce := r.nonce, replay := ap.replay + 1, state := FourWay),
             [AssocResp(true, true, Silent), M1(ap.replay + 1, r.nonce)])
  {
    hide Receive, Replies;
    ReplyToOne(ap, AssocReq(true, Silent), r);
    AssocReqIs(ap, Hear(AssocReq(true, Silent)), r);
    HearIs(ap, AssocReq(true, Silent), r);
  }

  /** Up to association: the station knows the access point's address and the other way round. */
  lemma Introduction(selfS: nat, selfA: nat, pmk: nat, ocvS: bool, ociS: nat, ocvA: bool, ociA: nat, rA: Random)
    ensures var sta := InitialParty(Station, selfS, pmk, ocvS, ociS);
      var ap := InitialParty(AccessPoint, selfA, pmk, ocvA, ociA);
      Introduced(sta, ap, rA) ==
        (sta.(peer := selfA, state := Authed),
         ap.(peer := selfS, qos := true, anonce := rA.nonce, replay := 1, state := FourWay),
         [AssocResp(true, true, Silent), M1(1, rA.nonce)])
  {
    hide Step, Replies;
    var sta := InitialParty(Station, selfS, pmk, ocvS, ociS);
    var ap := InitialParty(AccessPoint, selfA, pmk, ocvA, ociA);
    LocalIs(sta, ConnectStart, rA);
    var s1 := sta.(state := Scanning);
    Probed(s1, ap, rA);
    Authenticated(s1.(peer := selfA), ap, rA);
    Granted(ap.(peer := selfS, state := Authed), rA);
  }

  /** The keys of an epoch that has just begun. */
  predicate Fresh(p: Party, ptk: Ptk, gtk: nat) {
    p.state == State.Connected && p.connected && p.ptk == ptk && p.gtk == gtk
    && p.key == DataKey(true, TkOf(ptk), 0, Unused())
  }

  lemma KeysMatch(pmk: nat, selfS: nat, selfA: nat, anonce: nat, snonce: nat)
    ensures DerivePtk(pmk, selfA, selfS, anonce, snonce) == DerivePtk(pmk, selfS, selfA, anonce, snonce)
  {
  }

  /** The station's second message, whichever of the two frames comes first. */
  lemma StationAnswers(sta: Party, nonce: nat, swap: bool, rS: Random)
    requires sta.role == Station && sta.state == Authed && sta.earlyM1.None? && !sta.mfp
    ensures var k := DerivePtk(sta.pmk, sta.self, sta.peer, nonce, rS.nonce);
      Replies(sta, Swapped([AssocResp(true, true, Silent), M1(1, nonce)], swap), rS) ==
        (sta.(qos := true, anonce := nonce, replay := 1, snonce := rS.nonce, ptk := k, state := FourWay),
         [M2(1, rS.nonce, None, By(k))])
  {
    hide Receive, Replies, DerivePtk;
    var joined, first := AssocResp(true, true, Silent), M1(1, nonce);
    ReplyToTwo(sta, joined, first, rS);
    ReplyToTwo(sta, first, joined, rS);
    JoinedIs(sta, Hear(joined), rS);
    HearIs(sta, joined, rS);
    FirstStepIs(sta, Hear(first), rS);
    HearIs(sta, first, rS);
    var s1, s2 := sta.(qos := true, state := Assoced), sta.(earlyM1 := Some(first));
    FirstStepIs(s1, Hear(first), rS);
    HearIs(s1, first, rS);
    JoinedIs(s2, Hear(joined), rS);
    HearIs(s2, joined, rS);
    var second := [M2(1, rS.nonce, None, By(DerivePtk(sta.pmk, sta.self, sta.peer, nonce, rS.nonce)))];
    assert [] + second == second;
  }

  /** The third and fourth messages. */
  lemma HandshakeEnds(s3: Party, a3: Party, k: Ptk, snonce: nat, rS: Random, rG: Random)
    requires s3.role == Station && s3.state == FourWay && s3.replay == 1 && s3.ptk == k && !s3.mfp && !s3.key.valid
    requires a3.role == AccessPoint && a3.state == FourWay && a3.replay == 1 && !a3.mfp && !a3.key.valid
    requires DerivePtk(a3.pmk, a3.self, a3.peer, a3.anonce, snonce) == k
    ensures var (a4, third) := Replies(a3, [M2(1, snonce, None, By(k))], rG);
      var (s4, fourth) := Replies(s3, third, rS);
      var a5 := Replies(a4, fourth, rG).0;
      Fresh(s4, k, rG.gtk) && Fresh(a5, k, rG.gtk) && s4.qos == s3.qos && a5.qos == a3.qos
  {
    hide Receive, Replies, DerivePtk;
    var second := M2(1, snonce, None, By(k));
    ReplyToOne(a3, second, rG);
    SecondIs(a3, Hear(second), rG);
    HearIs(a3, second, rG);
    var a4 := a3.(snonce := snonce, ptk := k, gtk := rG.gtk, replay := 2);
    var third := M3(2, a3.anonce, k, rG.gtk, None, By(k));
    ReplyToOne(s3, third, rS);
    ThirdIs(s3, Hear(third), rS);
    HearIs(s3, third, rS);
    var fourth := M4(2, By(k));
    ReplyToOne(a4, fourth, rG);
    FourthIs(a4, Hear(fourth), rG);
    HearIs(a4, fourth, rG);
  }

  /**
   Any station and any access point with one pairwise master key come up, whatever their addresses,
   channels and channel validation, and even when the first message overtakes the association response:
   both are connected with one pairwise key, made of both nonces, and one group key, in a fresh epoch.
   */
  lemma EverybodyConnects(selfS: nat, selfA: nat, pmk: nat, ocvS: bool, ociS: nat, ocvA: bool, ociA: nat,
                          rA: Random, rS: Random, rG: Random, swap: bool)
    ensures var (sta, ap, answer) :=
        Introduced(InitialParty(Station, selfS, pmk, ocvS, ociS),
                   InitialParty(AccessPoint, selfA, pmk, ocvA, ociA), rA);
      var (s, a) := Shaken(sta, ap, Swapped(answer, swap), rS, rG);
      var k := DerivePtk(pmk, selfS, selfA, rA.nonce, rS.nonce);
      Fresh(s, k, rG.gtk) && Fresh(a, k, rG.gtk) && s.qos && a.qos
  {
    hide Introduced, Replies, Swapped, DerivePtk, Fresh;
    Introduction(selfS, selfA, pmk, ocvS, ociS, ocvA, ociA, rA);
    var sta := InitialParty(Station, selfS, pmk, ocvS, ociS).(peer := selfA, state := Authed);
    StationAnswers(sta, rA.nonce, swap, rS);
    KeysMatch(pmk, selfS, selfA, rA.nonce, rS.nonce);
    var k := DerivePtk(pmk, selfS, selfA, rA.nonce, rS.nonce);
    var s3 := sta.(qos := true, anonce := rA.nonce, replay := 1, snonce := rS.nonce, ptk := k, state := FourWay);
    var a3 := InitialParty(AccessPoint, selfA, pmk, ocvA, ociA).
      (peer := selfS, qos := true, anonce := rA.nonce, replay := 1, state := FourWay);
    HandshakeEnds(s3, a3, k, rS.nonce, rS, rG);
  }

  /** And then data passes, in either direction, exactly as requested. */
  lemma DataPasses(sender: Party, receiver: Party, k: Ptk, gtk: nat, es: seq<Event>)
    requires Fresh(sender, k, gtk) && Fresh(receiver, k, gtk) && sender.qos && SendsOnly(es) && |es| < PN_MODULUS
    ensures HandedUp(HearAll(receiver, SendAll(sender, es).1).1) == AllWanted(true, es)
  {
    hide HandedUp, HearAll, SendAll, AllWanted;
    RequestedIsDelivered(sender, es, receiver);
  }
}
