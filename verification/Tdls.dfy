/**
 The TDLS peer link: the setup frames and their elements, the peer key and the frame integrity
 code, and the handlers of the peer-link state machine as steps on the peer record.  The hash, the
 key derivation function and the block-cipher code are parameters.
 */
module Tdls {
  import opened Wrappers
  import opened Cursor
  import opened Octets

  type Mac = s: seq<bv8> | |s| == 6 witness seq(6, _ => 0)
  type Block16 = s: seq<bv8> | |s| == 16 witness seq(16, _ => 0)
  type Nonce = s: seq<bv8> | |s| == 32 witness seq(32, _ => 0)

  datatype Primitives = Primitives(
    sha256: seq<bv8> -> Nonce, kdf: (Nonce, seq<bv8>) -> Nonce, cmac: (Block16, seq<bv8>) -> Block16)

  datatype LinkId = LinkId(bssid: Mac, initAddr: Mac, respAddr: Mac)
  datatype Ftie = Ftie(mic: Block16, anonce: Nonce, snonce: Nonce)

  // ---------- elements ----------

  function LinkIdBytes(l: LinkId): (b: seq<bv8>)
    ensures |b| == 20
  {
    [101, 18] + l.bssid + l.initAddr + l.respAddr
  }

  function TieBytes(lifetime: bv32): (b: seq<bv8>)
    ensures |b| == 7
  {
    [56, 5, 2] + Le32(lifetime)
  }

  function FtieBytes(f: Ftie): (b: seq<bv8>)
    ensures |b| == 84
  {
    [55, 82, 0, 0] + f.mic + f.anonce + f.snonce
  }

  function ParseLinkId(s: seq<bv8>): Option<LinkId> {
    if |s| < 20 || s[0] != 101 || s[1] != 18 then None
    else Some(LinkId(s[2..8], s[8..14], s[14..20]))
  }

  function ParseTie(s: seq<bv8>): Option<bv32> {
    if |s| < 7 || s[0] != 56 || s[1] != 5 || s[2] != 2 then None else Some(FromLe32(s[3..7]))
  }

  /** The element may carry more than the fixed fields; the second component is its whole length. */
  function ParseFtie(s: seq<bv8>): (r: Option<(Ftie, nat)>)
    ensures r.Some? ==> 84 <= r.value.1 <= |s|
  {
    if |s| < 2 || s[0] != 55 || s[1] < 82 then None
    else
      var n := 2 + s[1] as nat;
      if n > |s| then None else Some((Ftie(s[4..20], s[20..52], s[52..84]), n))
  }

  /** The three elements that end every setup frame. */
  datatype Elements = Elements(ftie: Ftie, lifetime: bv32, lid: LinkId)

  function ElementBytes(e: Elements): (b: seq<bv8>)
    ensures |b| == 111
  {
    FtieBytes(e.ftie) + TieBytes(e.lifetime) + LinkIdBytes(e.lid)
  }

  function ParseElements(s: seq<bv8>): Option<Elements> {
    var f := ParseFtie(s);
    if f.None? then None
    else
      var rest := s[f.value.1..];
      var t := ParseTie(rest);
      if t.None? then None
      else
        var l := ParseLinkId(rest[7..]);
        if l.None? then None else Some(Elements(f.value.0, t.value, l.value))
  }

  lemma FtieRoundTrip(f: Ftie, suffix: seq<bv8>)
    ensures ParseFtie(FtieBytes(f) + suffix) == Some((f, 84))
  {
    var b := FtieBytes(f) + suffix;
    assert b[0] == 55 && b[1] == 82;
    assert b[4..20] == f.mic && b[20..52] == f.anonce && b[52..84] == f.snonce;
  }

  lemma TieRoundTrip(lifetime: bv32, suffix: seq<bv8>)
    ensures ParseTie(TieBytes(lifetime) + suffix) == Some(lifetime)
  {
  }

  lemma LinkIdRoundTrip(l: LinkId, suffix: seq<bv8>)
    ensures ParseLinkId(LinkIdBytes(l) + suffix) == Some(l)
  {
    var b := LinkIdBytes(l) + suffix;
    assert b[2..8] == l.bssid && b[8..14] == l.initAddr && b[14..20] == l.respAddr;
  }

  lemma ElementsRoundTrip(e: Elements, suffix: seq<bv8>)
    ensures ParseElements(ElementBytes(e) + suffix) == Some(e)
  {
    hide FtieBytes, TieBytes, LinkIdBytes, ParseFtie, ParseTie, ParseLinkId;
    var s := ElementBytes(e) + suffix;
    var afterFtie := TieBytes(e.lifetime) + (LinkIdBytes(e.lid) + suffix);
    assert s == FtieBytes(e.ftie) + afterFtie;
    FtieRoundTrip(e.ftie, afterFtie);
    assert s[84..] == afterFtie;
    TieRoundTrip(e.lifetime, LinkIdBytes(e.lid) + suffix);
    assert afterFtie[7..] == LinkIdBytes(e.lid) + suffix;
    LinkIdRoundTrip(e.lid, suffix);
  }

  // ---------- frames ----------

  datatype SetupReq = SetupReq(token: bv8, cap: bv16, e: Elements)
  datatype SetupResp = SetupResp(status: bv16, token: bv8, cap: bv16, e: Elements)
  datatype SetupConfirm = SetupConfirm(status: bv16, token: bv8, e: Elements)
  datatype Teardown = Teardown(reason: bv16, ftie: Option<Ftie>, lid: LinkId)

  predicate Header(s: seq<bv8>, action: bv8) {
    |s| >= 3 && s[0] == 2 && s[1] == 12 && s[2] == action
  }

  function ParseSetupReq(s: seq<bv8>): Option<SetupReq> {
    if |s| < 6 || !Header(s, 0) then None
    else
      var e := ParseElements(s[6..]);
      if e.None? then None else Some(SetupReq(s[3], FromLe16(s[4..6]), e.value))
  }

  function SetupRespBytes(r: SetupResp): (b: seq<bv8>)
    ensures |b| == 119
  {
    [2, 12, 1] + Le16(r.status) + [r.token] + Le16(r.cap) + ElementBytes(r.e)
  }

  function ParseSetupResp(s: seq<bv8>): Option<SetupResp> {
    if |s| < 8 || !Header(s, 1) then None
    else
      var e := ParseElements(s[8..]);
      if e.None? then None else Some(SetupResp(FromLe16(s[3..5]), s[5], FromLe16(s[6..8]), e.value))
  }

  function SetupConfirmBytes(r: SetupConfirm): (b: seq<bv8>)
    ensures |b| == 117
  {
    [2, 12, 2] + Le16(r.status) + [r.token] + ElementBytes(r.e)
  }

  function ParseSetupConfirm(s: seq<bv8>): Option<SetupConfirm> {
    if |s| < 6 || !Header(s, 2) then None
    else
      var e := ParseElements(s[6..]);
      if e.None? then None else Some(SetupConfirm(FromLe16(s[3..5]), s[5], e.value))
  }

  /** An optional fast-transition element makes the teardown a secure one. */
  function ParseTeardown(s: seq<bv8>): Option<Teardown> {
    if |s| < 5 || !Header(s, 3) then None
    else if |s| >= 6 && s[5] == 55 then
      var f := ParseFtie(s[5..]);
      if f.None? then None
      else
        var l := ParseLinkId(s[5 + f.value.1..]);
        if l.None? then None else Some(Teardown(FromLe16(s[3..5]), Some(f.value.0), l.value))
    else
      var l := ParseLinkId(s[5..]);
      if l.None? then None else Some(Teardown(FromLe16(s[3..5]), None, l.value))
  }

  lemma SetupRespRoundTrip(r: SetupResp)
    ensures ParseSetupResp(SetupRespBytes(r)) == Some(r)
  {
    hide Le16, FromLe16, ElementBytes, ParseElements;
    var s := SetupRespBytes(r);
    Le16RoundTrip(r.status);
    Le16RoundTrip(r.cap);
    ElementsRoundTrip(r.e, []);
    assert s[3..5] == Le16(r.status) && s[6..8] == Le16(r.cap);
    assert s[8..] == ElementBytes(r.e) == ElementBytes(r.e) + [];
  }

  lemma SetupConfirmRoundTrip(r: SetupConfirm)
    ensures ParseSetupConfirm(SetupConfirmBytes(r)) == Some(r)
  {
    hide Le16, FromLe16, ElementBytes, ParseElements;
    var s := SetupConfirmBytes(r);
    Le16RoundTrip(r.status);
    ElementsRoundTrip(r.e, []);
    assert s[3..5] == Le16(r.status);
    assert s[6..] == ElementBytes(r.e) == ElementBytes(r.e) + [];
  }

  // ---------- keys and integrity codes ----------

  function MinMax(a: seq<bv8>, b: seq<bv8>): seq<bv8>
    requires |a| == |b|
  {
    if Precedes(a, b) then a + b else b + a
  }

  /** The peer key; its first half keys the integrity codes. */
  function DeriveTpk(c: Primitives, snonce: Nonce, anonce: Nonce, lid: LinkId, bssid: Mac): Nonce {
    c.kdf(c.sha256(MinMax(snonce, anonce)), MinMax(lid.initAddr, lid.respAddr) + bssid)
  }

  const ZERO_MIC: Block16 := [0, 0, 0, 0, 0, 0, 0, 0, 0, 0, 0, 0, 0, 0, 0, 0]

  /** The code over addresses, step number and elements, its own field counting as zero. */
  function FrameMic(c: Primitives, tpk: Nonce, lid: LinkId, e: Elements, step: bv8): Block16 {
    c.cmac(tpk[..16], MicInput(lid, e, step))
  }

  function MicInput(lid: LinkId, e: Elements, step: bv8): seq<bv8> {
    lid.initAddr + lid.respAddr + [step]
    + (LinkIdBytes(e.lid) + TieBytes(e.lifetime) + FtieBytes(e.ftie.(mic := ZERO_MIC)))
  }

  lemma Cut(a: seq<bv8>, b: seq<bv8>, a': seq<bv8>, b': seq<bv8>)
    requires |a| == |a'| && a + b == a' + b'
    ensures a == a' && b == b'
  {
    assert a == (a + b)[..|a|] && b == (a + b)[|a|..];
    assert a' == (a' + b')[..|a|] && b' == (a' + b')[|a|..];
  }

  /** The code covers both addresses, the step and every field of the elements but itself. */
  lemma MicCoversFrame(lid: LinkId, e: Elements, step: bv8, lid': LinkId, e': Elements, step': bv8)
    requires MicInput(lid, e, step) == MicInput(lid', e', step')
    ensures lid.initAddr == lid'.initAddr && lid.respAddr == lid'.respAddr && step == step'
    ensures e.(ftie := e.ftie.(mic := ZERO_MIC)) == e'.(ftie := e'.ftie.(mic := ZERO_MIC))
  {
    hide LinkIdBytes, TieBytes, FtieBytes, ParseLinkId, ParseTie, ParseFtie;
    var f, f' := e.ftie.(mic := ZERO_MIC), e'.ftie.(mic := ZERO_MIC);
    var l, t, b := LinkIdBytes(e.lid), TieBytes(e.lifetime), FtieBytes(f);
    var l', t', b' := LinkIdBytes(e'.lid), TieBytes(e'.lifetime), FtieBytes(f');
    Cut(lid.initAddr + lid.respAddr + [step], l + t + b, lid'.initAddr + lid'.respAddr + [step'], l' + t' + b');
    Cut(lid.initAddr + lid.respAddr, [step], lid'.initAddr + lid'.respAddr, [step']);
    Cut(lid.initAddr, lid.respAddr, lid'.initAddr, lid'.respAddr);
    Cut(l + t, b, l' + t', b');
    Cut(l, t, l', t');
    assert [step][0] == [step'][0];
    LinkIdRoundTrip(e.lid, []);
    LinkIdRoundTrip(e'.lid, []);
    TieRoundTrip(e.lifetime, []);
    TieRoundTrip(e'.lifetime, []);
    FtieRoundTrip(f, []);
    FtieRoundTrip(f', []);
  }

  /** Both ends derive the same key, whichever nonce and whichever address each calls its own. */
  lemma TpkSymmetric(c: Primitives, snonce: Nonce, anonce: Nonce, lid: LinkId, bssid: Mac)
    ensures DeriveTpk(c, snonce, anonce, lid, bssid)
         == DeriveTpk(c, anonce, snonce, LinkId(lid.bssid, lid.respAddr, lid.initAddr), bssid)
  {
    hide Precedes;
    PrecedesOneWay(snonce, anonce);
    PrecedesOneWay(lid.initAddr, lid.respAddr);
  }

  function Sealed(c: Primitives, tpk: Nonce, lid: LinkId, e: Elements, step: bv8): Elements {
    e.(ftie := e.ftie.(mic := FrameMic(c, tpk, lid, e, step)))
  }

  lemma SealedVerifies(c: Primitives, tpk: Nonce, lid: LinkId, e: Elements, step: bv8)
    ensures var s := Sealed(c, tpk, lid, e, step); s.ftie.mic == FrameMic(c, tpk, lid, s, step)
  {
  }

  // ---------- the peer record ----------

  datatype State = Idle | ReqSent | Setup | Established | TornDown

  datatype Peer = Peer(
    state: State, isInitiator: bool, bssid: Mac, lid: LinkId, snonce: Nonce, anonce: Nonce,
    tpk: Nonce, haveTpk: bool, token: bv8, lifetime: bv32)

  function ZeroNonce(): Nonce {
    seq(32, _ => 0)
  }

  function InitPeer(self: Mac, peer: Mac, bssid: Mac, isInitiator: bool, token: bv8, lifetime: bv32): Peer {
    var lid := if isInitiator then LinkId(bssid, self, peer) else LinkId(bssid, peer, self);
    Peer(Idle, isInitiator, bssid, lid, ZeroNonce(), ZeroNonce(), ZeroNonce(), false, token, lifetime)
  }

  function Keyed(c: Primitives, p: Peer): Peer {
    p.(tpk := DeriveTpk(c, p.snonce, p.anonce, p.lid, p.bssid), haveTpk := true)
  }

  function ResponseOf(c: Primitives, p: Peer): SetupResp {
    SetupResp(0, p.token, 0, Sealed(c, p.tpk, p.lid, Elements(Ftie(ZERO_MIC, p.anonce, p.snonce), p.lifetime, p.lid), 2))
  }

  function ConfirmOf(c: Primitives, p: Peer): SetupConfirm {
    SetupConfirm(0, p.token, Sealed(c, p.tpk, p.lid, Elements(Ftie(ZERO_MIC, p.anonce, p.snonce), p.lifetime, p.lid), 3))
  }

  /** The responder's answer to a request, and the frame sent, if it fits the buffer. */
  function OnSetupReq(c: Primitives, p: Peer, input: seq<bv8>, anonce: Nonce, cap: nat): (Peer, Option<seq<bv8>>) {
    if p.state != Idle || p.isInitiator then (p, None)
    else
      var req := ParseSetupReq(input);
      if req.None? || req.value.e.lid != p.lid then (p, None)
      else
        var p1 := Keyed(c, p.(snonce := req.value.e.ftie.snonce, anonce := anonce)).(token := req.value.token);
        if cap < 119 then (p1, None) else (p1.(state := Setup), Some(SetupRespBytes(ResponseOf(c, p1))))
  }

  /** Whether a response is ours and its code verifies under the key that it leads to. */
  predicate RespAccepted(c: Primitives, p: Peer, r: SetupResp) {
    && r.status == 0 && r.token == p.token && r.e.lid == p.lid && r.e.ftie.snonce == p.snonce
    && r.e.ftie.mic == FrameMic(c, DeriveTpk(c, p.snonce, r.e.ftie.anonce, p.lid, p.bssid), p.lid, r.e, 2)
  }

  function OnSetupResp(c: Primitives, p: Peer, input: seq<bv8>, cap: nat): (Peer, Option<seq<bv8>>) {
    if p.state != ReqSent then (p, None)
    else
      var resp := ParseSetupResp(input);
      if resp.None? || !RespAccepted(c, p, resp.value) then (p, None)
      else
        var p1 := Keyed(c, p.(anonce := resp.value.e.ftie.anonce));
        if cap < 117 then (p1, None) else (p1.(state := Established), Some(SetupConfirmBytes(ConfirmOf(c, p1))))
  }

  function OnSetupConfirm(c: Primitives, p: Peer, input: seq<bv8>): (Peer, bool) {
    if p.state != Setup || !p.haveTpk then (p, false)
    else
      var conf := ParseSetupConfirm(input);
      if conf.None? || conf.value.status != 0 || conf.value.token != p.token || conf.value.e.lid != p.lid
         || conf.value.e.ftie.mic != FrameMic(c, p.tpk, p.lid, conf.value.e, 3) then (p, false)
      else (p.(state := Established), true)
  }

  function OnTeardown(c: Primitives, p: Peer, input: seq<bv8>): (Peer, bool) {
    var td := ParseTeardown(input);
    if td.None? || td.value.lid != p.lid then (p, false)
    else if p.haveTpk
            && (td.value.ftie.None?
                || td.value.ftie.value.mic
                   != FrameMic(c, p.tpk, p.lid, Elements(td.value.ftie.value, p.lifetime, td.value.lid), 4)) then (p, false)
    else (p.(state := TornDown), true)
  }

  // ---------- what every run keeps ----------

  datatype Event =
    | Request(input: seq<bv8>, anonce: Nonce, cap: nat)
    | Response(input: seq<bv8>, cap: nat)
    | Confirm(input: seq<bv8>)
    | Tear(input: seq<bv8>)

  function Step(c: Primitives, p: Peer, e: Event): Peer {
    match e
    case Request(input, anonce, cap) => OnSetupReq(c, p, input, anonce, cap).0
    case Response(input, cap) => OnSetupResp(c, p, input, cap).0
    case Confirm(input) => OnSetupConfirm(c, p, input).0
    case Tear(input) => OnTeardown(c, p, input).0
  }

  function Run(c: Primitives, p: Peer, es: seq<Event>): Peer
    decreases |es|
  {
    if es == [] then p else Step(c, Run(c, p, es[..|es| - 1]), es[|es| - 1])
  }

  /** A key is the one derived from the stored nonces and link; setting up and established need one. */
  ghost predicate PeerInv(c: Primitives, p: Peer) {
    && (p.haveTpk ==> p.tpk == DeriveTpk(c, p.snonce, p.anonce, p.lid, p.bssid))
    && (p.state == Setup || p.state == Established ==> p.haveTpk)
  }

  lemma StepKeepsInv(c: Primitives, p: Peer, e: Event)
    requires PeerInv(c, p)
    ensures PeerInv(c, Step(c, p, e))
  {
  }

  /** In every run of the handlers, from an idle peer or an initiator that has sent its request. */
  lemma {:induction false} RunKeepsInv(c: Primitives, p: Peer, es: seq<Event>)
    requires !p.haveTpk && (p.state == Idle || p.state == ReqSent)
    ensures PeerInv(c, Run(c, p, es))
    decreases |es|
  {
    hide DeriveTpk, Step;
    if es != [] {
      RunKeepsInv(c, p, es[..|es| - 1]);
      StepKeepsInv(c, Run(c, p, es[..|es| - 1]), es[|es| - 1]);
    }
  }

  /** A response that the initiator takes for its own, and whose code verifies. */
  predicate TakesResponse(c: Primitives, p: Peer, input: seq<bv8>) {
    p.state == ReqSent && ParseSetupResp(input).Some? && RespAccepted(c, p, ParseSetupResp(input).value)
  }

  /**
   Only a response whose code verifies under the key then stored changes the initiator.  That nothing
   is stored unless a confirm goes out fails exactly when an accepted response, not seen before,
   meets a buffer too small for the confirm: the key is kept and the state is not advanced.
   */
  lemma RejectedResponse(c: Primitives, p: Peer, input: seq<bv8>, cap: nat)
    ensures var (q, out) := OnSetupResp(c, p, input, cap);
      && (out.Some? <==> TakesResponse(c, p, input) && cap >= 117)
      && (q.state == p.state <==> out.None?)
      && (q != p ==> TakesResponse(c, p, input) && q.haveTpk
                     && FrameMic(c, q.tpk, q.lid, ParseSetupResp(input).value.e, 2) == ParseSetupResp(input).value.e.ftie.mic)
      && ((out.None? ==> q == p) <==>
            !TakesResponse(c, p, input) || cap >= 117 || p == Keyed(c, p.(anonce := ParseSetupResp(input).value.e.ftie.anonce)))
  {
    hide ParseSetupResp, FrameMic, DeriveTpk, SetupConfirmBytes, ConfirmOf;
  }

  // ---------- establishment ----------

  lemma ResponderAnswers(c: Primitives, i: Peer, r: Peer, input: seq<bv8>, anonce: Nonce, cap: nat)
    requires r.state == Idle && !r.isInitiator && cap >= 119 && i.lid == r.lid && i.bssid == r.bssid
    requires var q := ParseSetupReq(input);
      q.Some? && q.value.e.lid == r.lid && q.value.e.ftie.snonce == i.snonce && q.value.token == i.token
    ensures var (r1, out) := OnSetupReq(c, r, input, anonce, cap);
      && out == Some(SetupRespBytes(ResponseOf(c, r1.(state := Idle)))) && r1.state == Setup && r1.haveTpk
      && r1.lid == r.lid && r1.bssid == r.bssid && r1.token == i.token && r1.snonce == i.snonce && r1.anonce == anonce
      && r1.tpk == DeriveTpk(c, i.snonce, anonce, i.lid, i.bssid)
  {
  }

  lemma InitiatorConfirms(c: Primitives, i: Peer, r: Peer, cap: nat)
    requires i.state == ReqSent && cap >= 117 && i.lid == r.lid && i.bssid == r.bssid
    requires r.token == i.token && r.snonce == i.snonce && r.tpk == DeriveTpk(c, i.snonce, r.anonce, i.lid, i.bssid)
    ensures var (i1, out) := OnSetupResp(c, i, SetupRespBytes(ResponseOf(c, r)), cap);
      && out == Some(SetupConfirmBytes(ConfirmOf(c, i1.(state := ReqSent)))) && i1.state == Established
      && i1.tpk == r.tpk && i1.anonce == r.anonce && i1.snonce == r.snonce && i1.token == r.token && i1.lid == r.lid
  {
    hide DeriveTpk, FrameMic, SetupRespBytes, SetupConfirmBytes, ParseSetupResp;
    SetupRespRoundTrip(ResponseOf(c, r));
    SealedVerifies(c, r.tpk, r.lid, Elements(Ftie(ZERO_MIC, r.anonce, r.snonce), r.lifetime, r.lid), 2);
  }

  lemma ResponderAccepts(c: Primitives, i: Peer, r: Peer)
    requires r.state == Setup && r.haveTpk && i.tpk == r.tpk && i.token == r.token && i.lid == r.lid
    ensures var (r1, ok) := OnSetupConfirm(c, r, SetupConfirmBytes(ConfirmOf(c, i)));
      ok && r1 == r.(state := Established)
  {
    hide FrameMic, SetupConfirmBytes, ParseSetupConfirm;
    SetupConfirmRoundTrip(ConfirmOf(c, i));
    SealedVerifies(c, i.tpk, i.lid, Elements(Ftie(ZERO_MIC, i.anonce, i.snonce), i.lifetime, i.lid), 3);
  }

  /**
   From an initiator whose request carries its nonce, token and link, and an idle responder of the
   same link, handing over the generated response and confirm establishes both ends with the same
   key.  The two key lifetimes need not agree: each frame carries its sender's.
   */
  lemma LinkEstablishes(c: Primitives, i: Peer, r: Peer, request: seq<bv8>, anonce: Nonce, capR: nat, capI: nat)
    requires i.state == ReqSent && r.state == Idle && !r.isInitiator && i.lid == r.lid && i.bssid == r.bssid
    requires capR >= 119 && capI >= 117
    requires var q := ParseSetupReq(request);
      q.Some? && q.value.e.lid == r.lid && q.value.e.ftie.snonce == i.snonce && q.value.token == i.token
    ensures var (r1, response) := OnSetupReq(c, r, request, anonce, capR);
      response.Some? &&
      var (i1, confirm) := OnSetupResp(c, i, response.value, capI);
      confirm.Some? &&
      var (r2, ok) := OnSetupConfirm(c, r1, confirm.value);
      ok && i1.state == Established && r2.state == Established && i1.tpk == r2.tpk
      && r2.tpk == DeriveTpk(c, i.snonce, anonce, i.lid, i.bssid)
  {
    hide DeriveTpk, ParseSetupReq, SetupRespBytes, SetupConfirmBytes, OnSetupReq, OnSetupResp, OnSetupConfirm;
    hide ResponseOf, ConfirmOf;
    ResponderAnswers(c, i, r, request, anonce, capR);
    var r1 := OnSetupReq(c, r, request, anonce, capR).0;
    var r0 := r1.(state := Idle);
    InitiatorConfirms(c, i, r0, capI);
    var i1 := OnSetupResp(c, i, SetupRespBytes(ResponseOf(c, r0)), capI).0;
    ResponderAccepts(c, i1.(state := ReqSent), r1);
  }

  // ---------- tearing down ----------

  /** The code takes apart the inputs that differ in the lifetime only. */
  ghost predicate TellsApart(c: Primitives, tpk: Nonce, lid: LinkId, e: Elements, lifetime: bv32) {
    MicInput(lid, e, 4) != MicInput(lid, e.(lifetime := lifetime), 4) ==>
      FrameMic(c, tpk, lid, e, 4) != FrameMic(c, tpk, lid, e.(lifetime := lifetime), 4)
  }

  lemma LifetimeCovered(lid: LinkId, e: Elements, lifetime: bv32)
    ensures MicInput(lid, e, 4) == MicInput(lid, e.(lifetime := lifetime), 4) <==> e.lifetime == lifetime
  {
    hide MicInput;
    if e.lifetime == lifetime {
      assert e.(lifetime := lifetime) == e;
    } else if MicInput(lid, e, 4) == MicInput(lid, e.(lifetime := lifetime), 4) {
      MicCoversFrame(lid, e, 4, lid, e.(lifetime := lifetime), 4);
    }
  }

  /**
   A link is established whatever the two lifetimes, but a teardown carries none: its code is checked
   under the receiver's own.  A teardown of the link, sealed with the link's key under the sender's
   lifetime, is accepted exactly when the two lifetimes agree, and is ignored otherwise.
   */
  lemma TeardownNeedsLifetime(c: Primitives, p: Peer, input: seq<bv8>, lifetime: bv32)
    requires p.haveTpk && ParseTeardown(input).Some? && ParseTeardown(input).value.ftie.Some?
    requires ParseTeardown(input).value.lid == p.lid
    requires var f := ParseTeardown(input).value.ftie.value; var e := Elements(f, lifetime, p.lid);
      f.mic == FrameMic(c, p.tpk, p.lid, e, 4) && TellsApart(c, p.tpk, p.lid, e, p.lifetime)
    ensures OnTeardown(c, p, input) == if lifetime == p.lifetime then (p.(state := TornDown), true) else (p, false)
  {
    hide ParseTeardown, FrameMic, MicInput;
    var f := ParseTeardown(input).value.ftie.value;
    var e := Elements(f, lifetime, p.lid);
    LifetimeCovered(p.lid, e, p.lifetime);
    assert e.(lifetime := p.lifetime) == Elements(f, p.lifetime, p.lid);
  }
}
