/**
 The state machine read the other way round: not what each handler does, but for each field of a party
 and for each kind of frame when it changes or is sent, in terms of the fields and the frame heard alone.
 */
module SmeRules {
  import opened Wrappers
  import opened Replay
  import opened Sme

  /** A party that is neither failed nor connected hears a frame that is no refusal and no deauthentication. */
  predicate Attends(p: Party, e: Event, role: Role) {
    && p.role == role && p.state != Failed && p.state != State.Connected && e.Hear? && !e.f.Deauth?
    && (e.f.AuthResp? || e.f.AssocResp? ==> e.f.success)
  }

  predicate Denies(rsn: Negotiation) {
    rsn.Outcome? && !rsn.accepted
  }

  /** The association request that an access point grants. */
  predicate Grants(p: Party, e: Event) {
    Attends(p, e, AccessPoint) && e.f.AssocReq? && !Denies(e.f.rsn)
  }

  /** The association response that a station acts on. */
  predicate Joins(p: Party, e: Event) {
    Attends(p, e, Station) && e.f.AssocResp? && !Denies(e.f.rsn)
  }

  predicate Keeps(p: Party) {
    p.earlyM1.Some? && p.earlyM1.value.M1?
  }

  /** The first message that a station answers now: the one heard, or the one kept from before. */
  function AnsweredM1(p: Party, e: Event): Option<Frame> {
    if Attends(p, e, Station) && e.f.M1? && (p.state == Assoced || p.state == FourWay) then Some(e.f)
    else if Joins(p, e) && Keeps(p) then p.earlyM1
    else None
  }

  /** A second message that answers the access point's current first message, with whatever code. */
  predicate Current(p: Party, e: Event) {
    Attends(p, e, AccessPoint) && e.f.M2? && p.state == FourWay && e.f.replay == p.replay
  }

  /** With channel validation and protected management frames, the channel named is the party's own. */
  predicate SameChannel(p: Party, oci: Option<nat>) {
    p.ocv && p.mfp ==> oci == Some(p.oci)
  }

  /** The second message that draws a third. */
  predicate DrawsThird(p: Party, e: Event) {
    && Current(p, e) && SameChannel(p, e.f.oci)
    && e.f.mic == By(DerivePtk(p.pmk, p.self, p.peer, p.anonce, e.f.snonce))
  }

  /** The third message that connects a station. */
  predicate ConnectsStation(p: Party, e: Event) {
    && Attends(p, e, Station) && e.f.M3? && p.state == FourWay && e.f.replay > p.replay
    && e.f.mic == By(p.ptk) && e.f.kek == p.ptk && SameChannel(p, e.f.oci)
  }

  /** The fourth message that connects an access point. */
  predicate ConnectsAp(p: Party, e: Event) {
    Attends(p, e, AccessPoint) && p.state == FourWay && e.f == M4(p.replay, By(p.ptk))
  }

  /** The channel that a party names in its own messages. */
  function NamedChannel(p: Party): Option<nat> {
    if p.ocv && p.mfp then Some(p.oci) else None
  }

  /** The parties that a deauthentication sends back to the start. */
  predicate FallsBack(p: Party) {
    p.state != Failed && (p.role == Station ==> p.state == Assoced || p.state == FourWay || p.state == State.Connected)
  }

  /** Each state, and exactly what makes a party enter it from another. */
  predicate StateRule(p: Party, e: Event, s: State, connected: bool) {
    && (connected <==> || ConnectsStation(p, e) || ConnectsAp(p, e)
                       || (p.connected && !(e == Hear(Deauth) && FallsBack(p))))
    && (s == Init && p.state != Init <==> e == Hear(Deauth) && p.state != Init && FallsBack(p))
    && (s == Scanning && p.state != Scanning <==> e.ConnectStart? && p.role == Station && p.state != Scanning)
    && (s == Authed && p.state != Authed <==>
          || (Attends(p, e, AccessPoint) && e.f.AuthReq? && p.state != Authed)
          || (Attends(p, e, Station) && e.f.AuthResp? && (p.state == Init || p.state == Scanning)))
    && (s == Assoced && p.state != Assoced <==> Joins(p, e) && !Keeps(p) && p.state != Assoced)
    && (s == FourWay && p.state != FourWay <==> (Grants(p, e) || AnsweredM1(p, e).Some?) && p.state != FourWay)
    && (s == State.Connected && p.state != State.Connected <==> ConnectsStation(p, e) || ConnectsAp(p, e))
    && (s == Failed && p.state != Failed <==>
          && p.state != Failed && e.Hear?
          && (|| ((e.f.AuthResp? || e.f.AssocResp?) && !e.f.success)
              || (Attends(p, e, AccessPoint) && e.f.AssocReq? && Denies(e.f.rsn))
              || (Attends(p, e, Station) && e.f.AssocResp? && Denies(e.f.rsn))))
  }

  /** What the two ends settle before any key: whom they talk to and with what policy. */
  predicate PolicyRule(p: Party, e: Event, q: Party) {
    && q.role == p.role && q.self == p.self && q.pmk == p.pmk && q.ocv == p.ocv && q.oci == p.oci
    && q.peer == (if e.SetPeer? then e.peer
                  else if Attends(p, e, AccessPoint) && e.f.AuthReq? then e.f.src
                  else if Attends(p, e, Station) && e.f.ProbeResp? && p.state == Scanning then e.f.src
                  else p.peer)
    && (q.qos <==> || p.qos || (Attends(p, e, AccessPoint) && e.f.AssocReq? && e.f.wmm)
                   || (Attends(p, e, Station) && e.f.AssocResp? && e.f.edca))
    && (q.mfp == if (|| (Attends(p, e, AccessPoint) && e.f.AssocReq?) || (Attends(p, e, Station) && e.f.AssocResp?)
                     || (Attends(p, e, Station) && e.f.ProbeResp? && p.state == Scanning))
                    && e.f.rsn.Outcome? then e.f.rsn.active else p.mfp)
    && q.earlyM1 == (if Attends(p, e, Station) && e.f.M1? && p.state != Assoced && p.state != FourWay then Some(e.f)
                     else if Joins(p, e) && Keeps(p) then None
                     else p.earlyM1)
  }

  /** Nonces, counter and keys.  A current second message moves the pairwise key even when its code is wrong. */
  predicate KeyingRule(p: Party, e: Event, r: Random, q: Party) {
    var m := AnsweredM1(p, e);
    && q.anonce == (if Grants(p, e) then r.nonce else if m.Some? then m.value.anonce else p.anonce)
    && q.snonce == (if Current(p, e) then e.f.snonce
                    else if m.Some? && (e.f.AssocResp? || p.state == Assoced) then r.nonce
                    else p.snonce)
    && q.replay == (if Grants(p, e) || DrawsThird(p, e) then p.replay + 1
                    else if m.Some? then m.value.replay
                    else if ConnectsStation(p, e) then e.f.replay
                    else p.replay)
    && q.ptk == (if Current(p, e) || m.Some? then DerivePtk(p.pmk, p.self, p.peer, q.anonce, q.snonce) else p.ptk)
    && q.gtk == (if DrawsThird(p, e) then r.gtk else if ConnectsStation(p, e) then e.f.gtk else p.gtk)
    && (q.ptkInstalled <==> p.ptkInstalled || ConnectsStation(p, e) || ConnectsAp(p, e))
    && (q.gtkInstalled <==> p.gtkInstalled || ConnectsStation(p, e) || ConnectsAp(p, e))
    && (!Sends(e) && !(e.Hear? && e.f.Data?) ==>
          q.key == if !ConnectsStation(p, e) && !ConnectsAp(p, e) then p.key
                   else if p.key.valid && p.key.tk == TkOf(p.ptk) then p.key
                   else DataKey(true, TkOf(p.ptk), 0, Unused()))
  }

  /** Every handshake and management frame sent, and exactly when. */
  predicate OutputRule(p: Party, e: Event, r: Random, q: Party, out: seq<Frame>) {
    var m := AnsweredM1(p, e);
    !Sends(e) ==>
      out == if e.ConnectStart? && p.role == Station then [ProbeReq]
             else if Attends(p, e, AccessPoint) && e.f.ProbeReq? then [ProbeResp(p.self, Silent)]
             else if Attends(p, e, Station) && e.f.ProbeResp? && p.state == Scanning then [AuthReq(p.self)]
             else if Attends(p, e, AccessPoint) && e.f.AuthReq? then [AuthResp(true)]
             else if Attends(p, e, Station) && e.f.AuthResp? && (p.state == Init || p.state == Scanning) then
               [AssocReq(true, Silent)]
             else if Grants(p, e) then [AssocResp(true, true, Silent), M1(p.replay + 1, r.nonce)]
             else if m.Some? then [M2(m.value.replay, q.snonce, NamedChannel(q), By(q.ptk))]
             else if DrawsThird(p, e) then [M3(p.replay + 1, p.anonce, q.ptk, r.gtk, NamedChannel(p), By(q.ptk))]
             else if ConnectsStation(p, e) then [M4(e.f.replay, By(p.ptk))]
             else []
  }

  predicate Rules(p: Party, e: Event, r: Random, o: Result) {
    && StateRule(p, e, o.next.state, o.next.connected) && PolicyRule(p, e, o.next)
    && KeyingRule(p, e, r, o.next) && OutputRule(p, e, r, o.next, o.out)
  }

  // ---------- each step as one update ----------

  lemma SentOnly(p: Party, e: Event, r: Random)
    requires Sends(e)
    ensures var q := Step(p, e, r).next; q == p.(key := q.key)
  {
    hide Step, WirePn;
    var slot, payload := SendingStep(p, e, r);
  }

  lemma DataOnly(p: Party, f: Frame)
    requires f.Data?
    ensures OnData(p, f).out == [] && OnData(p, f).next == p.(key := OnData(p, f).next.key)
  {
    hide OnData, Takes, Fits, Committed;
    OnDataIs(p, f);
  }

  lemma GatedIs(p: Party, f: Frame, r: Random)
    requires !Attends(p, Hear(f), p.role) && !f.Data?
    ensures Receive(p, f, r) ==
      if p.state == Failed then Stay(p)
      else if (f.AuthResp? || f.AssocResp?) && !f.success then Stay(p.(state := Failed))
      else if f.Deauth? then OnDeauth(p)
      else Stay(p)
  {
    hide ApReceive, StaReceive, OnDeauth;
  }

  lemma GatedOnly(p: Party, f: Frame, r: Random)
    requires !Attends(p, Hear(f), p.role) && !f.Data?
    ensures var o := Receive(p, f, r);
      && o.next == p.(state := o.next.state, connected := o.next.connected) && o.out == []
      && o.next.connected == (p.connected && !(f.Deauth? && FallsBack(p)))
      && o.next.state == if p.state == Failed then Failed
                         else if (f.AuthResp? || f.AssocResp?) && !f.success then Failed
                         else if !f.Deauth? || (p.role == Station && Before(p.state)) then p.state
                         else Init
  {
    hide Receive;
    GatedIs(p, f, r);
  }

  /** What is not attended touches the state, the flag and the data key only. */
  lemma Unattended(p: Party, e: Event, r: Random)
    requires Sends(e) || (e.Hear? && (e.f.Data? || !Attends(p, e, p.role)))
    ensures var o := Step(p, e, r);
      && o.next == p.(state := o.next.state, connected := o.next.connected, key := o.next.key)
      && (e.Hear? ==> o.out == []) && (e.Hear? && !e.f.Data? ==> o.next.key == p.key)
      && o.next.connected == (p.connected && !(e == Hear(Deauth) && FallsBack(p)))
      && o.next.state == if !e.Hear? || p.state == Failed then p.state
                         else if (e.f.AuthResp? || e.f.AssocResp?) && !e.f.success then Failed
                         else if !e.f.Deauth? || (p.role == Station && Before(p.state)) then p.state
                         else Init
  {
    if Sends(e) {
      hide Step;
      SentOnly(p, e, r);
    } else if e.f.Data? {
      hide OnData, ApOnAssocReq, ApOnM2, ApOnM4, StaOnAssocResp, StaOnM1, StaOnM3;
      DataOnly(p, e.f);
    } else {
      hide Receive;
      GatedOnly(p, e.f, r);
    }
  }

  lemma ApAttends(p: Party, e: Event, r: Random)
    requires Attends(p, e, AccessPoint)
    ensures Step(p, e, r) == ApReceive(p, e.f, r)
  {
    hide ApReceive;
  }

  lemma StaAttends(p: Party, e: Event, r: Random)
    requires Attends(p, e, Station)
    ensures Step(p, e, r) == StaReceive(p, e.f, r)
  {
    hide StaReceive;
  }

  lemma ApHandles(p: Party, e: Event, r: Random)
    requires Attends(p, e, AccessPoint)
    ensures e.f.AssocReq? ==> Step(p, e, r) == ApOnAssocReq(p, e.f, r)
    ensures e.f.M2? ==> Step(p, e, r) == ApOnM2(p, e.f, r)
    ensures e.f.M4? ==> Step(p, e, r) == ApOnM4(p, e.f)
  {
    hide Step, ApOnAssocReq, ApOnM2, ApOnM4, OnData;
    ApAttends(p, e, r);
  }

  lemma StaHandles(p: Party, e: Event, r: Random)
    requires Attends(p, e, Station)
    ensures e.f.AssocResp? ==> Step(p, e, r) == StaOnAssocResp(p, e.f, r)
    ensures e.f.M1? ==> Step(p, e, r) == StaOnM1(p, e.f, r)
    ensures e.f.M3? ==> Step(p, e, r) == StaOnM3(p, e.f)
  {
    hide Step, StaOnAssocResp, StaOnM1, StaOnM3, StaOnProbeResp, OnData;
    StaAttends(p, e, r);
  }

  lemma AssocReqIs(p: Party, e: Event, r: Random)
    requires Attends(p, e, AccessPoint) && e.f.AssocReq?
    ensures var q := p.(qos := p.qos || e.f.wmm, mfp := if e.f.rsn.Outcome? then e.f.rsn.active else p.mfp);
      Step(p, e, r) == if Denies(e.f.rsn) then Result(q.(state := Failed), [], None)
        else Result(q.(anonce := r.nonce, replay := p.replay + 1, state := FourWay),
                    [AssocResp(true, true, Silent), M1(p.replay + 1, r.nonce)], None)
  {
    hide Step;
    ApHandles(p, e, r);
  }

  lemma SecondIs(p: Party, e: Event, r: Random)
    requires Attends(p, e, AccessPoint) && e.f.M2?
    ensures var k := DerivePtk(p.pmk, p.self, p.peer, p.anonce, e.f.snonce);
      Step(p, e, r) ==
        if !Current(p, e) then Stay(p)
        else if !DrawsThird(p, e) then Stay(p.(snonce := e.f.snonce, ptk := k))
        else Result(p.(snonce := e.f.snonce, ptk := k, gtk := r.gtk, replay := p.replay + 1),
                    [M3(p.replay + 1, p.anonce, k, r.gtk, NamedChannel(p), By(k))], None)
  {
    hide Step, DerivePtk;
    ApHandles(p, e, r);
  }

  /** The answer to a first message, with a nonce drawn unless one is already in use. */
  function Answer(p: Party, m: Frame, r: Random): Result
    requires m.M1?
  {
    var n := if p.state == Assoced then r.nonce else p.snonce;
    var k := DerivePtk(p.pmk, p.self, p.peer, m.anonce, n);
    Result(p.(anonce := m.anonce, replay := m.replay, snonce := n, ptk := k, state := FourWay),
           [M2(m.replay, n, NamedChannel(p), By(k))], None)
  }

  lemma FirstIs(p: Party, m: Frame, r: Random)
    requires m.M1?
    ensures StaAnswerM1(p, m, r) == Answer(p, m, r)
  {
    hide DerivePtk;
  }

  lemma FirstStepIs(p: Party, e: Event, r: Random)
    requires Attends(p, e, Station) && e.f.M1?
    ensures Step(p, e, r) == if p.state != Assoced && p.state != FourWay then Stay(p.(earlyM1 := Some(e.f)))
                             else Answer(p, e.f, r)
  {
    hide Step, StaAnswerM1, Answer;
    StaHandles(p, e, r);
    FirstIs(p, e.f, r);
  }

  lemma AssociatedIs(p: Party, f: Frame)
    requires f.AssocResp?
    ensures Associated(p, f) == p.(qos := p.qos || f.edca, mfp := if f.rsn.Outcome? then f.rsn.active else p.mfp,
                                   state := if Denies(f.rsn) then Failed else Assoced)
  {
  }

  lemma JoinedIs(p: Party, e: Event, r: Random)
    requires Attends(p, e, Station) && e.f.AssocResp?
    ensures var q := p.(qos := p.qos || e.f.edca, mfp := if e.f.rsn.Outcome? then e.f.rsn.active else p.mfp);
      Step(p, e, r) == if Denies(e.f.rsn) then Stay(q.(state := Failed))
        else if !Keeps(p) then Stay(q.(state := Assoced))
        else Answer(q.(state := Assoced, earlyM1 := None), p.earlyM1.value, r)
  {
    hide Step, StaAnswerM1, Answer, Associated;
    StaHandles(p, e, r);
    AssociatedIs(p, e.f);
    if Keeps(p) {
      FirstIs(Associated(p, e.f).(earlyM1 := None), p.earlyM1.value, r);
    }
  }

  lemma ThirdIs(p: Party, e: Event, r: Random)
    requires Attends(p, e, Station) && e.f.M3?
    ensures Step(p, e, r) ==
      if !ConnectsStation(p, e) then Stay(p)
      else Result(p.(replay := e.f.replay, gtk := e.f.gtk, ptkInstalled := true, gtkInstalled := true,
                     key := InstalledKey(p.key, p.ptk), connected := true, state := State.Connected),
                  [M4(e.f.replay, By(p.ptk))], None)
  {
    hide Step, InstalledKey;
    StaHandles(p, e, r);
  }

  lemma FourthIs(p: Party, e: Event, r: Random)
    requires Attends(p, e, AccessPoint) && e.f.M4?
    ensures Step(p, e, r) ==
      if !ConnectsAp(p, e) then Stay(p)
      else Stay(p.(ptkInstalled := true, gtkInstalled := true, key := InstalledKey(p.key, p.ptk),
                   connected := true, state := State.Connected))
  {
    hide Step, InstalledKey;
    ApHandles(p, e, r);
  }

  lemma LocalIs(p: Party, e: Event, r: Random)
    requires e.ConnectStart? || e.SetPeer?
    ensures Step(p, e, r) == if e.SetPeer? then Stay(p.(peer := e.peer))
                             else if p.role == Station then Result(p.(state := Scanning), [ProbeReq], None)
                             else Stay(p)
  {
  }

  lemma ApSmallIs(p: Party, e: Event, r: Random)
    requires Attends(p, e, AccessPoint) && !e.f.AssocReq? && !e.f.M2? && !e.f.M4? && !e.f.Data?
    ensures Step(p, e, r) == if e.f.ProbeReq? then Result(p, [ProbeResp(p.self, Silent)], None)
                             else if e.f.AuthReq? then
                               Result(p.(peer := e.f.src, state := Authed), [AuthResp(true)], None)
                             else Stay(p)
  {
    hide ApOnAssocReq, ApOnM2, ApOnM4, OnData;
    ApAttends(p, e, r);
  }

  lemma StaSmallIs(p: Party, e: Event, r: Random)
    requires Attends(p, e, Station) && !e.f.AssocResp? && !e.f.M1? && !e.f.M3? && !e.f.Data?
    ensures Step(p, e, r) ==
      if e.f.ProbeResp? && p.state == Scanning then
        Result(p.(peer := e.f.src, mfp := if e.f.rsn.Outcome? then e.f.rsn.active else p.mfp), [AuthReq(p.self)], None)
      else if e.f.AuthResp? && (p.state == Init || p.state == Scanning) then
        Result(p.(state := Authed), [AssocReq(true, Silent)], None)
      else Stay(p)
  {
    hide StaOnAssocResp, StaOnM1, StaOnM3, OnData;
    StaAttends(p, e, r);
  }

  // ---------- each update keeps the rules ----------

  lemma NothingHappens(p: Party, e: Event)
    requires Sends(e) || (e.Hear? && (e.f.Data? || !Attends(p, e, p.role)))
    ensures !Grants(p, e) && !Joins(p, e) && !ConnectsStation(p, e) && !ConnectsAp(p, e) && AnsweredM1(p, e).None?
    ensures forall role :: Attends(p, e, role) ==> e.f.Data?
  {
  }

  lemma UnattendedState(p: Party, e: Event, r: Random)
    requires Sends(e) || (e.Hear? && (e.f.Data? || !Attends(p, e, p.role)))
    ensures StateRule(p, e, Step(p, e, r).next.state, Step(p, e, r).next.connected)
  {
    hide Step, DerivePtk, InstalledKey;
    Unattended(p, e, r);
    NothingHappens(p, e);
    hide Attends, Grants, Joins, ConnectsStation, ConnectsAp, AnsweredM1;
  }

  lemma UnattendedPolicy(p: Party, e: Event, r: Random)
    requires Sends(e) || (e.Hear? && (e.f.Data? || !Attends(p, e, p.role)))
    ensures PolicyRule(p, e, Step(p, e, r).next)
  {
    hide Step, DerivePtk, InstalledKey;
    Unattended(p, e, r);
    if !e.Hear? || !e.f.Data? {
      assert !Attends(p, e, AccessPoint) && !Attends(p, e, Station);
      hide Attends;
    }
  }

  lemma UnattendedKeys(p: Party, e: Event, r: Random)
    requires Sends(e) || (e.Hear? && (e.f.Data? || !Attends(p, e, p.role)))
    ensures var o := Step(p, e, r); KeyingRule(p, e, r, o.next) && OutputRule(p, e, r, o.next, o.out)
  {
    hide Step, DerivePtk, InstalledKey;
    Unattended(p, e, r);
    if !e.Hear? || !e.f.Data? {
      assert !Attends(p, e, AccessPoint) && !Attends(p, e, Station);
      hide Attends;
    }
  }

  lemma LocalSettles(p: Party, e: Event, r: Random)
    requires e.ConnectStart? || e.SetPeer?
    ensures var q := Step(p, e, r).next; StateRule(p, e, q.state, q.connected) && PolicyRule(p, e, q)
  {
    hide Step, DerivePtk, InstalledKey;
    LocalIs(p, e, r);
    assert !Attends(p, e, Station) && !Attends(p, e, AccessPoint);
    assert !ConnectsStation(p, e) && !ConnectsAp(p, e);
    hide Attends, ConnectsStation, ConnectsAp;
  }

  lemma LocalKeys(p: Party, e: Event, r: Random)
    requires e.ConnectStart? || e.SetPeer?
    ensures var o := Step(p, e, r); KeyingRule(p, e, r, o.next) && OutputRule(p, e, r, o.next, o.out)
  {
    hide Step, DerivePtk, InstalledKey;
    LocalIs(p, e, r);
  }

  lemma AssocReqSettles(p: Party, e: Event, r: Random)
    requires Attends(p, e, AccessPoint) && e.f.AssocReq?
    ensures var q := Step(p, e, r).next; StateRule(p, e, q.state, q.connected) && PolicyRule(p, e, q)
  {
    hide Step, DerivePtk, InstalledKey;
    AssocReqIs(p, e, r);
    assert !Attends(p, e, Station) && !Joins(p, e) && !ConnectsStation(p, e) && !ConnectsAp(p, e);
    hide Attends, Joins, ConnectsStation, ConnectsAp;
  }

  lemma AssocReqKeys(p: Party, e: Event, r: Random)
    requires Attends(p, e, AccessPoint) && e.f.AssocReq?
    ensures var o := Step(p, e, r); KeyingRule(p, e, r, o.next) && OutputRule(p, e, r, o.next, o.out)
  {
    hide Step, DerivePtk, InstalledKey;
    AssocReqIs(p, e, r);
    assert !Attends(p, e, Station);
    hide Attends;
  }

  lemma SecondSettles(p: Party, e: Event, r: Random)
    requires Attends(p, e, AccessPoint) && e.f.M2?
    ensures var q := Step(p, e, r).next; StateRule(p, e, q.state, q.connected) && PolicyRule(p, e, q)
  {
    hide Step, DerivePtk, InstalledKey;
    SecondIs(p, e, r);
    assert !Attends(p, e, Station) && !Grants(p, e) && !Joins(p, e) && !ConnectsStation(p, e) && !ConnectsAp(p, e);
    hide Attends, Grants, Joins, ConnectsStation, ConnectsAp;
  }

  lemma SecondKeying(p: Party, e: Event, r: Random)
    requires Attends(p, e, AccessPoint) && e.f.M2?
    ensures KeyingRule(p, e, r, Step(p, e, r).next)
  {
    hide Step, DerivePtk, InstalledKey;
    SecondIs(p, e, r);
    assert !Attends(p, e, Station) && !Grants(p, e) && !Joins(p, e) && !ConnectsStation(p, e) && !ConnectsAp(p, e);
    hide Attends, Grants, Joins, ConnectsStation, ConnectsAp;
  }

  lemma SecondOutput(p: Party, e: Event, r: Random)
    requires Attends(p, e, AccessPoint) && e.f.M2?
    ensures OutputRule(p, e, r, Step(p, e, r).next, Step(p, e, r).out)
  {
    hide Step, DerivePtk, InstalledKey;
    SecondIs(p, e, r);
    assert !Attends(p, e, Station);
    hide Attends;
  }

  lemma FourthRules(p: Party, e: Event, r: Random)
    requires Attends(p, e, AccessPoint) && e.f.M4?
    ensures Rules(p, e, r, Step(p, e, r))
  {
    hide Step, DerivePtk;
    FourthIs(p, e, r);
  }

  lemma ApSmallSettles(p: Party, e: Event, r: Random)
    requires Attends(p, e, AccessPoint) && !e.f.AssocReq? && !e.f.M2? && !e.f.M4? && !e.f.Data?
    ensures var q := Step(p, e, r).next; StateRule(p, e, q.state, q.connected) && PolicyRule(p, e, q)
  {
    hide Step, DerivePtk, InstalledKey;
    ApSmallIs(p, e, r);
    assert !Attends(p, e, Station);
    hide Attends;
  }

  lemma ApSmallKeys(p: Party, e: Event, r: Random)
    requires Attends(p, e, AccessPoint) && !e.f.AssocReq? && !e.f.M2? && !e.f.M4? && !e.f.Data?
    ensures var o := Step(p, e, r); KeyingRule(p, e, r, o.next) && OutputRule(p, e, r, o.next, o.out)
  {
    hide Step, DerivePtk, InstalledKey;
    ApSmallIs(p, e, r);
    assert !Attends(p, e, Station);
    hide Attends;
  }

  lemma JoinedState(p: Party, e: Event, r: Random)
    requires Attends(p, e, Station) && e.f.AssocResp?
    ensures StateRule(p, e, Step(p, e, r).next.state, Step(p, e, r).next.connected)
  {
    hide Step, DerivePtk, InstalledKey;
    JoinedIs(p, e, r);
    assert !Attends(p, e, AccessPoint);
    hide Attends;
  }

  lemma JoinedPolicy(p: Party, e: Event, r: Random)
    requires Attends(p, e, Station) && e.f.AssocResp?
    ensures PolicyRule(p, e, Step(p, e, r).next)
  {
    hide Step, DerivePtk, InstalledKey;
    JoinedIs(p, e, r);
    assert !Attends(p, e, AccessPoint);
    hide Attends;
  }

  lemma JoinedKeying(p: Party, e: Event, r: Random)
    requires Attends(p, e, Station) && e.f.AssocResp?
    ensures KeyingRule(p, e, r, Step(p, e, r).next)
  {
    hide Step, DerivePtk, InstalledKey;
    JoinedIs(p, e, r);
    assert !Attends(p, e, AccessPoint) && !Grants(p, e) && !Current(p, e) && !DrawsThird(p, e);
    assert !ConnectsStation(p, e) && !ConnectsAp(p, e);
    hide Attends, Grants, Current, DrawsThird, ConnectsStation, ConnectsAp;
  }

  lemma JoinedOutput(p: Party, e: Event, r: Random)
    requires Attends(p, e, Station) && e.f.AssocResp?
    ensures OutputRule(p, e, r, Step(p, e, r).next, Step(p, e, r).out)
  {
    hide Step, DerivePtk, InstalledKey;
    JoinedIs(p, e, r);
    assert !Attends(p, e, AccessPoint);
    hide Attends;
  }

  lemma FirstSettles(p: Party, e: Event, r: Random)
    requires Attends(p, e, Station) && e.f.M1?
    ensures var q := Step(p, e, r).next; StateRule(p, e, q.state, q.connected) && PolicyRule(p, e, q)
  {
    hide Step, DerivePtk, InstalledKey;
    FirstStepIs(p, e, r);
    assert !Attends(p, e, AccessPoint) && !Grants(p, e) && !Joins(p, e) && !ConnectsStation(p, e) && !ConnectsAp(p, e);
    hide Attends, Grants, Joins, ConnectsStation, ConnectsAp;
  }

  lemma FirstKeying(p: Party, e: Event, r: Random)
    requires Attends(p, e, Station) && e.f.M1?
    ensures KeyingRule(p, e, r, Step(p, e, r).next)
  {
    hide Step, DerivePtk, InstalledKey;
    FirstStepIs(p, e, r);
    assert !Attends(p, e, AccessPoint) && !Grants(p, e) && !Joins(p, e) && !Current(p, e);
    assert !DrawsThird(p, e) && !ConnectsStation(p, e) && !ConnectsAp(p, e);
    hide Attends, Grants, Joins, Current, DrawsThird, ConnectsStation, ConnectsAp;
  }

  lemma FirstOutput(p: Party, e: Event, r: Random)
    requires Attends(p, e, Station) && e.f.M1?
    ensures OutputRule(p, e, r, Step(p, e, r).next, Step(p, e, r).out)
  {
    hide Step, DerivePtk, InstalledKey;
    FirstStepIs(p, e, r);
    assert !Attends(p, e, AccessPoint);
    hide Attends;
  }

  lemma ThirdRules(p: Party, e: Event, r: Random)
    requires Attends(p, e, Station) && e.f.M3?
    ensures Rules(p, e, r, Step(p, e, r))
  {
    hide Step, DerivePtk;
    ThirdIs(p, e, r);
  }

  lemma StaSmallState(p: Party, e: Event, r: Random)
    requires Attends(p, e, Station) && !e.f.AssocResp? && !e.f.M1? && !e.f.M3? && !e.f.Data?
    ensures StateRule(p, e, Step(p, e, r).next.state, Step(p, e, r).next.connected)
  {
    hide Step, DerivePtk, InstalledKey;
    StaSmallIs(p, e, r);
    assert !Attends(p, e, AccessPoint);
    hide Attends;
  }

  lemma StaSmallPolicy(p: Party, e: Event, r: Random)
    requires Attends(p, e, Station) && !e.f.AssocResp? && !e.f.M1? && !e.f.M3? && !e.f.Data?
    ensures PolicyRule(p, e, Step(p, e, r).next)
  {
    hide Step, DerivePtk, InstalledKey;
    StaSmallIs(p, e, r);
    assert !Attends(p, e, AccessPoint);
    hide Attends;
  }

  lemma StaSmallKeying(p: Party, e: Event, r: Random)
    requires Attends(p, e, Station) && !e.f.AssocResp? && !e.f.M1? && !e.f.M3? && !e.f.Data?
    ensures KeyingRule(p, e, r, Step(p, e, r).next)
  {
    hide Step, DerivePtk, InstalledKey;
    StaSmallIs(p, e, r);
    assert !Attends(p, e, AccessPoint);
    hide Attends;
  }

  lemma StaSmallOutput(p: Party, e: Event, r: Random)
    requires Attends(p, e, Station) && !e.f.AssocResp? && !e.f.M1? && !e.f.M3? && !e.f.Data?
    ensures OutputRule(p, e, r, Step(p, e, r).next, Step(p, e, r).out)
  {
    hide Step, DerivePtk, InstalledKey;
    StaSmallIs(p, e, r);
    assert !Attends(p, e, AccessPoint);
    hide Attends;
  }

  /** Every step of every party keeps to the rules. */
  lemma StepRules(p: Party, e: Event, r: Random)
    ensures Rules(p, e, r, Step(p, e, r))
  {
    hide Step, StateRule, PolicyRule, KeyingRule, OutputRule, Attends;
    if Sends(e) || (e.Hear? && (e.f.Data? || !Attends(p, e, p.role))) {
      UnattendedState(p, e, r);
      UnattendedPolicy(p, e, r);
      UnattendedKeys(p, e, r);
    } else if !e.Hear? {
      LocalSettles(p, e, r);
      LocalKeys(p, e, r);
    } else if p.role == AccessPoint {
      if e.f.AssocReq? {
        AssocReqSettles(p, e, r);
        AssocReqKeys(p, e, r);
      } else if e.f.M2? {
        SecondSettles(p, e, r);
        SecondKeying(p, e, r);
        SecondOutput(p, e, r);
      } else if e.f.M4? {
        FourthRules(p, e, r);
      } else {
        ApSmallSettles(p, e, r);
        ApSmallKeys(p, e, r);
      }
    } else {
      if e.f.AssocResp? {
        JoinedState(p, e, r);
        JoinedPolicy(p, e, r);
        JoinedKeying(p, e, r);
        JoinedOutput(p, e, r);
      } else if e.f.M1? {
        FirstSettles(p, e, r);
        FirstKeying(p, e, r);
        FirstOutput(p, e, r);
      } else if e.f.M3? {
        ThirdRules(p, e, r);
      } else {
        StaSmallState(p, e, r);
        StaSmallPolicy(p, e, r);
        StaSmallKeying(p, e, r);
        StaSmallOutput(p, e, r);
      }
    }
  }

  /** One and the same pair, in either order. */
  predicate SamePair(a: nat, b: nat, c: nat, d: nat) {
    (a == c && b == d) || (a == d && b == c)
  }

  /** A key is settled by exactly three things: the master key, the two addresses and the two nonces. */
  lemma KeyBinds(pmk: nat, self: nat, peer: nat, anonce: nat, snonce: nat,
                 pmk': nat, self': nat, peer': nat, anonce': nat, snonce': nat)
    ensures DerivePtk(pmk, self, peer, anonce, snonce) == DerivePtk(pmk', self', peer', anonce', snonce')
       <==> pmk == pmk' && SamePair(self, peer, self', peer') && SamePair(anonce, snonce, anonce', snonce')
  {
    UnorderedIff(self, peer, self', peer');
    UnorderedIff(anonce, snonce, anonce', snonce');
  }

  lemma UnorderedIff(a: nat, b: nat, c: nat, d: nat)
    ensures Min(a, b) == Min(c, d) && Max(a, b) == Max(c, d) <==> SamePair(a, b, c, d)
  {
  }

  /**
   A first message that overtakes the association response is not lost: however many other frames come in
   between, as long as the station stays unassociated, the response makes it answer the last one heard.
   */
  lemma EarlyM1Answered(p: Party, m: Frame, f: Frame, r: Random, r': Random)
    requires p.role == Station && (p.state == Init || p.state == Scanning || p.state == Authed) && m.M1?
    requires f.AssocResp? && f.success && !Denies(f.rsn)
    ensures var q := Receive(p, m, r).next;
      var o, k := Receive(q, f, r'), DerivePtk(p.pmk, p.self, p.peer, m.anonce, r'.nonce);
      && q == p.(earlyM1 := Some(m)) && Receive(p, m, r).out == []
      && o.next.state == FourWay && o.next.ptk == k && o.next.earlyM1.None?
      && o.out == [M2(m.replay, r'.nonce, NamedChannel(o.next), By(k))]
  {
    hide Receive, DerivePtk;
    assert Step(p, Hear(m), r) == Receive(p, m, r);
    FirstStepIs(p, Hear(m), r);
    var q := p.(earlyM1 := Some(m));
    assert Step(q, Hear(f), r') == Receive(q, f, r');
    JoinedIs(q, Hear(f), r');
  }
}
