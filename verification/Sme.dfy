/**
 The station and access-point state machine: open authentication, association, the 4-way
 handshake, key installation and the protected data plane.  One step consumes a received frame or
 a local request and produces the next state and the frames sent.  Fast transition is disabled.

 Cryptography is symbolic: a derived key is the term naming its inputs, and an integrity code is
 valid exactly under the key it was made with.
 */
module Sme {
  import opened Words
  import opened Wrappers
  import opened Replay

  type Payload = seq<u8>

  datatype Role = Station | AccessPoint
  datatype State = Init | Scanning | Authed | Assoced | FourWay | Connected | Failed

  /** The pairwise transient key; Zero is the buffer before any derivation. */
  datatype Ptk = Zero | Kdf(pmk: nat, addrLo: nat, addrHi: nat, nonceLo: nat, nonceHi: nat)

  /** The temporal-key part of a pairwise key. */
  datatype Tk = TkOf(ptk: Ptk)

  /** An integrity code: made with a key, or not made with any. */
  datatype Mic = Forged | By(key: Ptk)

  function Min(x: nat, y: nat): nat { if y < x then y else x }
  function Max(x: nat, y: nat): nat { if y < x then x else y }

  function DerivePtk(pmk: nat, self: nat, peer: nat, anonce: nat, snonce: nat): Ptk {
    Kdf(pmk, Min(self, peer), Max(self, peer), Min(anonce, snonce), Max(anonce, snonce))
  }

  /** What the RSN element of a frame makes of management-frame protection. */
  datatype Negotiation = Silent | Outcome(active: bool, accepted: bool)

  datatype Frame =
    | ProbeReq
    | ProbeResp(src: nat, rsn: Negotiation)
    | AuthReq(src: nat)
    | AuthResp(success: bool)
    | AssocReq(wmm: bool, rsn: Negotiation)
    | AssocResp(success: bool, edca: bool, rsn: Negotiation)
    | Deauth
    | M1(replay: nat, anonce: nat)
    | M2(replay: nat, snonce: nat, oci: Option<nat>, mic: Mic)
    | M3(replay: nat, anonce: nat, kek: Ptk, gtk: nat, oci: Option<nat>, mic: Mic)
    | M4(replay: nat, mic: Mic)
    | Data(src: nat, slot: nat, pn: nat, payload: Payload, mic: Mic)

  /** The data-plane key: whether one is installed, which, the last number sent, those received. */
  datatype DataKey = DataKey(valid: bool, tk: Tk, txPn: u64, rx: Counters)

  datatype Party = Party(
    role: Role, self: nat, peer: nat, pmk: nat, state: State, connected: bool,
    anonce: nat, snonce: nat, replay: nat, ptk: Ptk, gtk: nat,
    ptkInstalled: bool, gtkInstalled: bool, key: DataKey,
    earlyM1: Option<Frame>, mfp: bool, ocv: bool, oci: nat, qos: bool)

  /** What the generator returns in a step, should the step draw a nonce or a group key. */
  datatype Random = Random(nonce: nat, gtk: nat)

  datatype Result = Result(next: Party, out: seq<Frame>, delivered: Option<(nat, Payload)>)

  function Stay(p: Party): Result {
    Result(p, [], None)
  }

  function Sending(p: Party, f: Frame): Result {
    Result(p, [f], None)
  }

  function InitialParty(role: Role, self: nat, pmk: nat, ocv: bool, oci: nat): Party {
    Party(role, self, 0, pmk, Init, false, 0, 0, 0, Zero, 0, false, false,
          DataKey(false, TkOf(Zero), 0, Unused()), None, false, ocv, oci, false)
  }

  // ---------- key installation ----------

  /** The same temporal key again keeps the counters; another one starts them over. */
  function InstalledKey(k: DataKey, ptk: Ptk): DataKey {
    if k.valid && k.tk == TkOf(ptk) then k else DataKey(true, TkOf(ptk), 0, Unused())
  }

  /** Both keys in use and the connection up. */
  function Completed(p: Party): Party {
    p.(ptkInstalled := true, gtkInstalled := true, key := InstalledKey(p.key, p.ptk),
       connected := true, state := Connected)
  }

  function Derived(p: Party): Party {
    p.(ptk := DerivePtk(p.pmk, p.self, p.peer, p.anonce, p.snonce))
  }

  function OwnOci(p: Party): Option<nat> {
    if p.ocv && p.mfp then Some(p.oci) else None
  }

  /** Whether the peer's operating channel fails validation. */
  predicate OciRejected(p: Party, oci: Option<nat>) {
    p.ocv && p.mfp && oci != Some(p.oci)
  }

  function Negotiated(p: Party, rsn: Negotiation): Party {
    if rsn.Outcome? then p.(mfp := rsn.active) else p
  }

  /** What an association exchange settles: the quality-of-service and protection policy. */
  function PolicyOf(p: Party, qos: bool, rsn: Negotiation): Party {
    Negotiated(p.(qos := p.qos || qos), rsn)
  }

  predicate Refused(rsn: Negotiation) {
    rsn.Outcome? && !rsn.accepted
  }

  // ---------- access point ----------

  function ApOnAssocReq(p: Party, f: Frame, r: Random): Result
    requires f.AssocReq?
  {
    var p1 := PolicyOf(p, f.wmm, f.rsn);
    if Refused(f.rsn) then Stay(p1.(state := Failed)) else FirstMessage(p1, r)
  }

  /** The association's answer and the first message, with a fresh nonce and the next counter value. */
  function FirstMessage(p: Party, r: Random): Result {
    Result(p.(anonce := r.nonce, replay := p.replay + 1, state := FourWay),
           [AssocResp(true, true, Silent), M1(p.replay + 1, r.nonce)], None)
  }

  function ApOnM2(p: Party, f: Frame, r: Random): Result
    requires f.M2?
  {
    if p.state != FourWay || f.replay != p.replay then Stay(p)
    else
      var p1 := Derived(p.(snonce := f.snonce));
      if f.mic != By(p1.ptk) || OciRejected(p1, f.oci) then Stay(p1) else ThirdMessage(p1, r)
  }

  /** The third message, with a fresh group key and the next counter value. */
  function ThirdMessage(p: Party, r: Random): Result {
    Sending(p.(gtk := r.gtk, replay := p.replay + 1),
            M3(p.replay + 1, p.anonce, p.ptk, r.gtk, OwnOci(p), By(p.ptk)))
  }

  function ApOnM4(p: Party, f: Frame): Result
    requires f.M4?
  {
    if p.state != FourWay || f.replay != p.replay || f.mic != By(p.ptk) then Stay(p)
    else Stay(Completed(p))
  }

  function ApReceive(p: Party, f: Frame, r: Random): Result {
    match f
    case ProbeReq => Sending(p, ProbeResp(p.self, Silent))
    case AuthReq(src) => Sending(p.(peer := src, state := Authed), AuthResp(true))
    case AssocReq(_, _) => ApOnAssocReq(p, f, r)
    case M2(_, _, _, _) => ApOnM2(p, f, r)
    case M4(_, _) => ApOnM4(p, f)
    case Data(_, _, _, _, _) => OnData(p, f)
    case _ => Stay(p)
  }

  // ---------- station ----------

  /** A nonce is drawn only for the first M1 after association. */
  function M1Taken(p: Party, f: Frame, r: Random): Party
    requires f.M1?
  {
    p.(anonce := f.anonce, replay := f.replay, snonce := if p.state == Assoced then r.nonce else p.snonce)
  }

  function StaAnswerM1(p: Party, f: Frame, r: Random): Result
    requires f.M1?
  {
    var p2 := Derived(M1Taken(p, f, r)).(state := FourWay);
    Sending(p2, M2(p2.replay, p2.snonce, OwnOci(p2), By(p2.ptk)))
  }

  /** An M1 before association is kept for later. */
  function StaOnM1(p: Party, f: Frame, r: Random): Result
    requires f.M1?
  {
    if p.state != Assoced && p.state != FourWay then Stay(p.(earlyM1 := Some(f)))
    else StaAnswerM1(p, f, r)
  }

  function Associated(p: Party, f: Frame): Party
    requires f.AssocResp?
  {
    PolicyOf(p, f.edca, f.rsn).(state := if Refused(f.rsn) then Failed else Assoced)
  }

  /** Entered from any state that still listens; an M1 kept from before is answered at once. */
  function StaOnAssocResp(p: Party, f: Frame, r: Random): Result
    requires f.AssocResp?
  {
    var p1 := Associated(p, f);
    if p1.state == Assoced && p1.earlyM1.Some? && p1.earlyM1.value.M1? then
      StaAnswerM1(p1.(earlyM1 := None), p1.earlyM1.value, r)
    else Stay(p1)
  }

  function StaOnM3(p: Party, f: Frame): Result
    requires f.M3?
  {
    if p.state != FourWay || f.replay <= p.replay || f.mic != By(p.ptk) || f.kek != p.ptk
       || OciRejected(p, f.oci) then Stay(p)
    else
      var p1 := Completed(p.(replay := f.replay, gtk := f.gtk));
      Sending(p1, M4(p1.replay, By(p1.ptk)))
  }

  function StaOnProbeResp(p: Party, f: Frame): Result
    requires f.ProbeResp?
  {
    if p.state != Scanning then Stay(p)
    else Sending(Negotiated(p.(peer := f.src), f.rsn), AuthReq(p.self))
  }

  function StaReceive(p: Party, f: Frame, r: Random): Result {
    match f
    case ProbeResp(_, _) => StaOnProbeResp(p, f)
    case AuthResp(_) =>
      if p.state != Scanning && p.state != Init then Stay(p)
      else Sending(p.(state := Authed), AssocReq(true, Silent))
    case AssocResp(_, _, _) => StaOnAssocResp(p, f, r)
    case M1(_, _) => StaOnM1(p, f, r)
    case M3(_, _, _, _, _, _) => StaOnM3(p, f)
    case Data(_, _, _, _, _) => OnData(p, f)
    case _ => Stay(p)
  }

  // ---------- both roles ----------

  predicate Before(s: State) {
    s.Init? || s.Scanning? || s.Authed?
  }

  /** A station that is not yet associated ignores it; everybody else falls back to Init. */
  function OnDeauth(p: Party): Result {
    if p.role == Station && Before(p.state) then Stay(p)
    else Stay(p.(connected := false, state := Init))
  }

  predicate Refusal(f: Frame) {
    (f.AuthResp? && !f.success) || (f.AssocResp? && !f.success)
  }

  /**
   A failed party hears nothing.  Refusals and deauthentication act in every other state; once
   connected, no other frame but data reaches the state machine.
   */
  function Receive(p: Party, f: Frame, r: Random): Result {
    if p.state == Failed then Stay(p)
    else if Refusal(f) then Stay(p.(state := Failed))
    else if f.Deauth? then OnDeauth(p)
    else if p.state == Connected && !f.Data? then Stay(p)
    else if p.role == AccessPoint then ApReceive(p, f, r)
    else StaReceive(p, f, r)
  }

  // ---------- data plane ----------

  const DATA_MAX := 64
  const TDLS_BODY_MAX := 160
  const PN_MODULUS := 0x1_0000_0000_0000
  const COUNTER_MODULUS := 0x1_0000_0000_0000_0000
  const TDLS_SNAP: Payload := [0xAA, 0xAA, 0x03, 0x00, 0x00, 0x00, 0x89, 0x0D]

  /** The packet number of the counter value n, as the 6-octet field carries it. */
  function WirePn(n: nat): nat {
    n % PN_MODULUS
  }

  function Protected(p: Party, slot: nat, payload: Payload): Result {
    var n := (p.key.txPn + 1) % COUNTER_MODULUS;
    Sending(p.(key := p.key.(txPn := n)), Data(p.self, slot, WirePn(n), payload, By(p.ptk)))
  }

  function DataTx(p: Party, payload: Payload): Result {
    if p.state != Connected || |payload| > DATA_MAX then Stay(p) else Protected(p, NON_QOS, payload)
  }

  function DataTxQos(p: Party, payload: Payload, up: u8): Result {
    if p.state != Connected || |payload| > DATA_MAX then Stay(p)
    else if !p.qos then DataTx(p, payload)
    else Protected(p, up % 8, payload)
  }

  function TdlsEncapTx(p: Party, body: Payload): Result {
    if p.state != Connected || |body| == 0 || |body| > TDLS_BODY_MAX then Stay(p)
    else Protected(p, NON_QOS, TDLS_SNAP + body)
  }

  predicate IsTdls(payload: Payload) {
    |payload| >= 9 && payload[..8] == TDLS_SNAP && payload[8] == 0x02
  }

  /** The frame passes the size gate and its integrity code is right; who sent it is not looked at. */
  predicate Genuine(ptk: Ptk, f: Frame)
    requires f.Data?
  {
    !(f.slot != NON_QOS && |f.payload| > DATA_MAX) && f.mic == By(ptk)
  }

  /** A genuine frame whose number has not been accepted before. */
  predicate Takes(p: Party, f: Frame)
    requires f.Data?
  {
    p.state == Connected && Genuine(p.ptk, f) && Accepts(p.key.rx, f.slot, f.pn)
  }

  /** A frame without an identifier is dropped after all when it is neither short nor a peer-link frame. */
  predicate Fits(f: Frame)
    requires f.Data?
  {
    !(f.slot == NON_QOS && !IsTdls(f.payload) && |f.payload| > DATA_MAX)
  }

  /** Integrity first, then replay; only then is anything recorded or handed on. */
  function OnData(p: Party, f: Frame): Result
    requires f.Data?
  {
    if !Takes(p, f) then Stay(p)
    else
      var p1 := p.(key := p.key.(rx := Committed(p.key.rx, f.slot, f.pn)));
      if !Fits(f) then Stay(p1) else Result(p1, [], Some((f.slot, f.payload)))
  }

  // ---------- steps ----------

  datatype Event =
    | Hear(f: Frame)
    | ConnectStart
    | SetPeer(peer: nat)
    | SendData(payload: Payload)
    | SendQos(payload: Payload, up: u8)
    | SendTdls(body: Payload)

  function ConnectStartOf(p: Party): Result {
    if p.role != Station then Stay(p) else Sending(p.(state := Scanning), ProbeReq)
  }

  function Step(p: Party, e: Event, r: Random): Result {
    match e
    case Hear(f) => Receive(p, f, r)
    case ConnectStart => ConnectStartOf(p)
    case SetPeer(a) => Stay(p.(peer := a))
    case SendData(d) => DataTx(p, d)
    case SendQos(d, up) => DataTxQos(p, d, up)
    case SendTdls(b) => TdlsEncapTx(p, b)
  }

  // ---------- what passes the handlers by ----------

  /** The frames that never reach a handler. */
  predicate Gated(p: Party, f: Frame) {
    p.state == Failed || Refusal(f) || f.Deauth? || (p.state == Connected && !f.Data?)
  }

  lemma GateIs(p: Party, f: Frame, r: Random)
    ensures !Gated(p, f) ==> Receive(p, f, r) == if p.role == AccessPoint then ApReceive(p, f, r) else StaReceive(p, f, r)
    ensures Gated(p, f) ==> var o := Receive(p, f, r);
      && o.out == [] && o.delivered.None?
      && (o.next == p || o.next == p.(state := Failed) || o.next == p.(connected := false, state := Init))
  {
    hide ApReceive, StaReceive;
  }

  /** p in the same state, or out of the handshake and of the connection. */
  ghost predicate OnlyStateDiffers(p: Party, q: Party) {
    && q.role == p.role && q.self == p.self && q.peer == p.peer && q.pmk == p.pmk && q.anonce == p.anonce
    && q.snonce == p.snonce && q.replay == p.replay && q.ptk == p.ptk && q.gtk == p.gtk && q.key == p.key
    && q.ptkInstalled == p.ptkInstalled && q.gtkInstalled == p.gtkInstalled && q.earlyM1 == p.earlyM1 && q.mfp == p.mfp
    && ((q.state == p.state && q.connected == p.connected) || q.state == Failed || q.state == Init)
  }

  lemma GateRest(p: Party, f: Frame, r: Random)
    requires Gated(p, f)
    ensures var o := Receive(p, f, r); o.out == [] && o.delivered.None? && OnlyStateDiffers(p, o.next)
  {
    hide Receive, Gated;
    GateIs(p, f, r);
  }

  // ---------- the data plane touches nothing but the data key ----------

  predicate Sends(e: Event) {
    e.SendData? || e.SendQos? || e.SendTdls?
  }

  /** A sending request does nothing or puts one protected frame on the air. */
  lemma SendingStep(p: Party, e: Event, r: Random) returns (slot: nat, payload: Payload)
    requires Sends(e)
    ensures Step(p, e, r) == Stay(p) || (p.state == Connected && Step(p, e, r) == Protected(p, slot, payload))
    ensures slot < SLOTS && (slot == NON_QOS || p.state != Connected || Step(p, e, r) == Stay(p) || |payload| <= DATA_MAX)
  {
    hide Protected, Stay;
    match e
    case SendData(d) => slot, payload := NON_QOS, d;
    case SendQos(d, up) => slot, payload := if p.qos then up % 8 else NON_QOS, d;
    case SendTdls(b) => slot, payload := NON_QOS, TDLS_SNAP + b;
  }

  lemma OnDataIs(p: Party, f: Frame)
    requires f.Data?
    ensures var o := OnData(p, f);
      && o.out == []
      && o.next == (if Takes(p, f) then p.(key := p.key.(rx := Committed(p.key.rx, f.slot, f.pn))) else p)
      && o.delivered == (if Takes(p, f) && Fits(f) then Some((f.slot, f.payload)) else None)
  {
    hide Takes, Fits, Committed;
  }

  /** p with another data key. */
  ghost predicate OnlyKeyDiffers(p: Party, q: Party) {
    && q.role == p.role && q.self == p.self && q.peer == p.peer && q.pmk == p.pmk && q.state == p.state
    && q.connected == p.connected && q.anonce == p.anonce && q.snonce == p.snonce && q.replay == p.replay
    && q.ptk == p.ptk && q.gtk == p.gtk && q.ptkInstalled == p.ptkInstalled && q.gtkInstalled == p.gtkInstalled
    && q.earlyM1 == p.earlyM1 && q.mfp == p.mfp && q.qos == p.qos
  }

  lemma KeyChanged(p: Party, k: DataKey)
    ensures OnlyKeyDiffers(p, p.(key := k)) && p.(key := k).key == k
  {
  }

  lemma OnDataRest(p: Party, f: Frame)
    requires f.Data?
    ensures OnData(p, f).out == [] && OnlyKeyDiffers(p, OnData(p, f).next)
  {
    hide OnData, Takes, Committed, OnlyKeyDiffers;
    OnDataIs(p, f);
    KeyChanged(p, p.key);
    KeyChanged(p, p.key.(rx := Committed(p.key.rx, f.slot, f.pn)));
  }

  lemma SendRest(p: Party, e: Event, r: Random)
    requires Sends(e)
    ensures var o := Step(p, e, r);
      && OnlyKeyDiffers(p, o.next) && o.delivered.None?
      && (|| (o.out == [] && o.next == p)
          || (&& p.state == Connected && |o.out| == 1 && o.out[0].Data? && o.out[0].mic == By(p.ptk)
              && o.out[0].src == p.self && o.out[0].slot < SLOTS && Genuine(p.ptk, o.out[0])
              && o.next.key == p.key.(txPn := (p.key.txPn + 1) % COUNTER_MODULUS) && o.out[0].pn == WirePn(o.next.key.txPn)))
  {
    hide Step, OnlyKeyDiffers, WirePn;
    var slot, payload := SendingStep(p, e, r);
    KeyChanged(p, p.key);
    KeyChanged(p, p.key.(txPn := (p.key.txPn + 1) % COUNTER_MODULUS));
  }
}
