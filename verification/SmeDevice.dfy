/**
 The state machine as the code runs it: one record whose fields the handlers assign in turn.  Each
 handler is shown to take the record's value to what the corresponding function of module Sme says.
 */
module SmeDevice {
  import opened Words
  import opened Wrappers
  import opened Replay
  import opened Sme

  // What the handlers with several assignments come to, as one update of the party.

  lemma PolicyUpdate(p: Party, qos: bool, rsn: Negotiation)
    ensures PolicyOf(p, qos, rsn) == p.(qos := p.qos || qos, mfp := if rsn.Outcome? then rsn.active else p.mfp)
  {
  }

  lemma M1Update(p: Party, f: Frame, r: Random)
    requires f.M1?
    ensures var n := if p.state == Assoced then r.nonce else p.snonce;
      var k := DerivePtk(p.pmk, p.self, p.peer, f.anonce, n);
      Sme.StaAnswerM1(p, f, r) == Result(p.(anonce := f.anonce, replay := f.replay, snonce := n, ptk := k, state := FourWay),
                                         [M2(f.replay, n, OwnOci(p), By(k))], None)
  {
    hide DerivePtk;
  }

  lemma M3Update(p: Party, f: Frame)
    requires f.M3?
    ensures Sme.StaOnM3(p, f) ==
      if p.state != FourWay || f.replay <= p.replay || f.mic != By(p.ptk) || f.kek != p.ptk || OciRejected(p, f.oci) then Stay(p)
      else Result(CompletedParty(p, f.replay, f.gtk), [M4(f.replay, By(p.ptk))], None)
  {
    hide InstalledKey, OciRejected;
  }

  function CompletedParty(p: Party, replay: nat, gtk: nat): Party {
    p.(replay := replay, gtk := gtk, ptkInstalled := true, gtkInstalled := true, key := InstalledKey(p.key, p.ptk),
       connected := true, state := State.Connected)
  }

  class Device {
    const role: Role
    const self: nat
    const ocv: bool
    const oci: nat
    const pmk: nat
    var peer: nat
    var state: State
    var connected: bool
    var anonce: nat
    var snonce: nat
    var replay: nat
    var ptk: Ptk
    var gtk: nat
    var ptkInstalled: bool
    var gtkInstalled: bool
    var dataKeyValid: bool
    var installedTk: Tk
    var dataTxPn: u64
    const dataRxReplay: PnReplay
    var earlyM1: Option<Frame>
    var mfpActive: bool
    var qosEnabled: bool

    ghost predicate Valid()
      reads dataRxReplay
    {
      dataRxReplay.Valid()
    }

    ghost function Key(): DataKey
      requires Valid()
      reads this`dataKeyValid, this`installedTk, this`dataTxPn, dataRxReplay, dataRxReplay.highest, dataRxReplay.seen
    {
      DataKey(dataKeyValid, installedTk, dataTxPn, dataRxReplay.View())
    }

    /** The value of the record. */
    ghost function View(): Party
      requires Valid()
      reads this, dataRxReplay, dataRxReplay.highest, dataRxReplay.seen
    {
      Party(role, self, peer, pmk, state, connected, anonce, snonce, replay, ptk, gtk,
            ptkInstalled, gtkInstalled, Key(), earlyM1, mfpActive, ocv, oci, qosEnabled)
    }

    constructor (role: Role, self: nat, pmk: nat, ocv: bool, oci: nat)
      ensures Valid() && fresh(dataRxReplay) && fresh(dataRxReplay.highest) && fresh(dataRxReplay.seen)
      ensures View() == InitialParty(role, self, pmk, ocv, oci)
    {
      this.role, this.self, this.pmk, this.ocv, this.oci := role, self, pmk, ocv, oci;
      peer, state, connected, anonce, snonce, replay := 0, Init, false, 0, 0, 0;
      ptk, gtk, ptkInstalled, gtkInstalled := Zero, 0, false, false;
      dataKeyValid, installedTk, dataTxPn := false, TkOf(Zero), 0;
      earlyM1, mfpActive, qosEnabled := None, false, false;
      dataRxReplay := new PnReplay();
    }

    // ---------- keys ----------

    method InstallDataKey()
      requires Valid()
      modifies this`dataKeyValid, this`installedTk, this`dataTxPn, dataRxReplay.highest, dataRxReplay.seen
      ensures Valid() && Key() == InstalledKey(old(Key()), ptk)
    {
      var tk := TkOf(ptk);
      if dataKeyValid && installedTk == tk {
        return;
      }
      dataRxReplay.Reset();
      dataTxPn := 0;
      installedTk := tk;
      dataKeyValid := true;
    }

    method DeriveKeys()
      requires Valid()
      modifies this`ptk
      ensures ptk == DerivePtk(pmk, self, peer, anonce, snonce)
    {
      hide Key, DerivePtk;
      ptk := DerivePtk(pmk, self, peer, anonce, snonce);
    }

    method Complete()
      requires Valid()
      modifies this`ptkInstalled, this`gtkInstalled, this`connected, this`state
      modifies this`dataKeyValid, this`installedTk, this`dataTxPn, dataRxReplay.highest, dataRxReplay.seen
      ensures Valid() && View() == Completed(old(View()))
    {
      hide Key, InstalledKey;
      ghost var k := Key();
      ptkInstalled, gtkInstalled := true, true;
      assert Key() == k;
      InstallDataKey();
      ghost var k' := Key();
      connected := true;
      state := State.Connected;
      assert Key() == k' == InstalledKey(k, ptk);
    }

    method Negotiate(rsn: Negotiation)
      requires Valid()
      modifies this`mfpActive
      ensures mfpActive == if rsn.Outcome? then rsn.active else old(mfpActive)
    {
      if rsn.Outcome? {
        mfpActive := rsn.active;
      }
    }

    method SettlePolicy(qos: bool, rsn: Negotiation)
      requires Valid()
      modifies this`qosEnabled, this`mfpActive
      ensures View() == PolicyOf(old(View()), qos, rsn)
    {
      hide PolicyOf, Key;
      PolicyUpdate(View(), qos, rsn);
      if qos {
        qosEnabled := true;
      }
      Negotiate(rsn);
    }

    method LocalOci() returns (o: Option<nat>)
      requires Valid()
      ensures o == if ocv && mfpActive then Some(oci) else None
    {
      o := if ocv && mfpActive then Some(oci) else None;
    }

    // ---------- access point ----------

    method ApOnAuthReq(src: nat) returns (out: seq<Frame>)
      requires Valid()
      modifies this`peer, this`state
      ensures Valid() && Result(View(), out, None) == Sending(old(View()).(peer := src, state := Authed), AuthResp(true))
    {
      hide Key;
      peer := src;
      out := [AuthResp(true)];
      state := Authed;
    }

    method ApOnAssocReq(f: Frame, r: Random) returns (out: seq<Frame>)
      requires Valid() && f.AssocReq?
      modifies this
      ensures Valid() && Result(View(), out, None) == Sme.ApOnAssocReq(old(View()), f, r)
    {
      hide PolicyOf, Key, FirstMessage, Refused;
      SettlePolicy(f.wmm, f.rsn);
      if Refused(f.rsn) {
        state := Failed;
        return [];
      }
      out := SendFirst(r);
    }

    method SendFirst(r: Random) returns (out: seq<Frame>)
      requires Valid()
      modifies this`anonce, this`replay, this`state
      ensures Valid() && Result(View(), out, None) == FirstMessage(old(View()), r)
    {
      hide Key;
      out := [AssocResp(true, true, Silent)];
      anonce := r.nonce;
      replay := replay + 1;
      out := out + [M1(replay, anonce)];
      state := FourWay;
    }

    method ApOnM2(f: Frame, r: Random) returns (out: seq<Frame>)
      requires Valid() && f.M2?
      modifies this`snonce, this`ptk, this`gtk, this`replay
      ensures Valid() && Result(View(), out, None) == Sme.ApOnM2(old(View()), f, r)
    {
      hide ThirdMessage, DerivePtk, Key;
      out := [];
      if state != FourWay || f.replay != replay {
        return;
      }
      snonce := f.snonce;
      DeriveKeys();
      if f.mic != By(ptk) {
        return;
      }
      var expected := LocalOci();
      if expected.Some? && f.oci != expected {
        return;
      }
      out := SendThird(r);
    }

    method SendThird(r: Random) returns (out: seq<Frame>)
      requires Valid()
      modifies this`gtk, this`replay
      ensures Valid() && Result(View(), out, None) == ThirdMessage(old(View()), r)
    {
      hide Key;
      gtk := r.gtk;
      replay := replay + 1;
      var own := LocalOci();
      out := [M3(replay, anonce, ptk, gtk, own, By(ptk))];
    }

    method ApOnM4(f: Frame)
      requires Valid() && f.M4?
      modifies this`ptkInstalled, this`gtkInstalled, this`connected, this`state
      modifies this`dataKeyValid, this`installedTk, this`dataTxPn, dataRxReplay.highest, dataRxReplay.seen
      ensures Valid() && View() == Sme.ApOnM4(old(View()), f).next
    {
      hide Completed, Key;
      if state != FourWay || f.replay != replay {
        return;
      }
      if f.mic != By(ptk) {
        return;
      }
      Complete();
    }

    // ---------- station ----------

    method TakeM1(f: Frame, r: Random)
      requires Valid() && f.M1?
      modifies this`anonce, this`replay, this`snonce
      ensures anonce == f.anonce && replay == f.replay && snonce == if state == Assoced then r.nonce else old(snonce)
    {
      anonce := f.anonce;
      replay := f.replay;
      if state == Assoced {
        snonce := r.nonce;
      }
    }

    method StaAnswerM1(f: Frame, r: Random) returns (out: seq<Frame>)
      requires Valid() && f.M1?
      modifies this`anonce, this`replay, this`snonce, this`ptk, this`state
      ensures Valid() && Result(View(), out, None) == Sme.StaAnswerM1(old(View()), f, r)
    {
      hide Sme.StaAnswerM1, DerivePtk, Key;
      M1Update(View(), f, r);
      ghost var p := View();
      TakeM1(f, r);
      DeriveKeys();
      state := FourWay;
      var own := LocalOci();
      out := [M2(replay, snonce, own, By(ptk))];
    }

    method StaOnM1(f: Frame, r: Random) returns (out: seq<Frame>)
      requires Valid() && f.M1?
      modifies this`anonce, this`replay, this`snonce, this`ptk, this`state, this`earlyM1
      ensures Valid() && Result(View(), out, None) == Sme.StaOnM1(old(View()), f, r)
    {
      hide Sme.StaAnswerM1, Key;
      if state != Assoced && state != FourWay {
        earlyM1 := Some(f);
        return [];
      }
      out := StaAnswerM1(f, r);
    }

    method StaOnAssocResp(f: Frame, r: Random) returns (out: seq<Frame>)
      requires Valid() && f.AssocResp?
      modifies this
      ensures Valid() && Result(View(), out, None) == Sme.StaOnAssocResp(old(View()), f, r)
    {
      hide Sme.StaAnswerM1, Associated, Key;
      Associate(f);
      out := [];
      if state == Assoced && earlyM1.Some? && earlyM1.value.M1? {
        var m1 := earlyM1.value;
        earlyM1 := None;
        out := StaAnswerM1(m1, r);
      }
    }

    method Associate(f: Frame)
      requires Valid() && f.AssocResp?
      modifies this`qosEnabled, this`mfpActive, this`state
      ensures Valid() && View() == Associated(old(View()), f)
    {
      hide Key, PolicyOf, Refused;
      SettlePolicy(f.edca, f.rsn);
      if Refused(f.rsn) {
        state := Failed;
      } else {
        state := Assoced;
      }
    }

    method StaOnM3(f: Frame) returns (out: seq<Frame>)
      requires Valid() && f.M3?
      modifies this, dataRxReplay.highest, dataRxReplay.seen
      ensures Valid() && Result(View(), out, None) == Sme.StaOnM3(old(View()), f)
    {
      hide Sme.StaOnM3, Key, InstalledKey;
      M3Update(View(), f);
      out := [];
      if state != FourWay {
        return;
      }
      if f.replay <= replay {
        return;
      }
      if f.mic != By(ptk) || f.kek != ptk {
        return;
      }
      var expected := LocalOci();
      if expected.Some? && f.oci != expected {
        return;
      }
      replay := f.replay;
      gtk := f.gtk;
      Complete();
      out := [M4(replay, By(ptk))];
    }

    method StaOnProbeResp(f: Frame) returns (out: seq<Frame>)
      requires Valid() && f.ProbeResp?
      modifies this`peer, this`mfpActive
      ensures Valid() && Result(View(), out, None) == Sme.StaOnProbeResp(old(View()), f)
    {
      hide Key;
      if state != Scanning {
        return [];
      }
      peer := f.src;
      Negotiate(f.rsn);
      out := [AuthReq(self)];
    }

    method OnDeauth()
      requires Valid()
      modifies this`connected, this`state
      ensures Valid() && View() == Sme.OnDeauth(old(View())).next
    {
      hide Key;
      if role == Station && Before(state) {
        return;
      }
      connected := false;
      state := Init;
    }

    method ConnectStart() returns (out: seq<Frame>)
      requires Valid()
      modifies this`state
      ensures Valid() && Result(View(), out, None) == ConnectStartOf(old(View()))
    {
      hide Key;
      if role != Station {
        return [];
      }
      state := Scanning;
      out := [ProbeReq];
    }

    // ---------- data plane ----------

    method SendProtected(slot: nat, payload: Payload) returns (out: seq<Frame>)
      requires Valid()
      modifies this`dataTxPn
      ensures Valid() && Result(View(), out, None) == Protected(old(View()), slot, payload)
    {
      dataTxPn := (dataTxPn + 1) % COUNTER_MODULUS;
      out := [Data(self, slot, WirePn(dataTxPn), payload, By(ptk))];
    }

    method SendData(payload: Payload) returns (out: seq<Frame>)
      requires Valid()
      modifies this`dataTxPn
      ensures Valid() && Result(View(), out, None) == DataTx(old(View()), payload)
    {
      hide Protected;
      if state != State.Connected || |payload| > DATA_MAX {
        return [];
      }
      out := SendProtected(NON_QOS, payload);
    }

    method SendQos(payload: Payload, up: u8) returns (out: seq<Frame>)
      requires Valid()
      modifies this`dataTxPn
      ensures Valid() && Result(View(), out, None) == DataTxQos(old(View()), payload, up)
    {
      hide Protected, DataTx;
      if state != State.Connected || |payload| > DATA_MAX {
        return [];
      }
      if !qosEnabled {
        out := SendData(payload);
        return;
      }
      out := SendProtected(up % 8, payload);
    }

    method SendTdls(body: Payload) returns (out: seq<Frame>)
      requires Valid()
      modifies this`dataTxPn
      ensures Valid() && Result(View(), out, None) == TdlsEncapTx(old(View()), body)
    {
      hide Protected;
      if state != State.Connected || |body| == 0 || |body| > TDLS_BODY_MAX {
        return [];
      }
      out := SendProtected(NON_QOS, TDLS_SNAP + body);
    }

    method OnData(f: Frame) returns (delivered: Option<(nat, Payload)>)
      requires Valid() && f.Data?
      modifies dataRxReplay.highest, dataRxReplay.seen
      ensures Valid() && Result(View(), [], delivered) == Sme.OnData(old(View()), f)
    {
      hide Accepts, Committed, Fits;
      delivered := None;
      if state != State.Connected || (f.slot != NON_QOS && |f.payload| > DATA_MAX) {
        return;
      }
      if f.mic != By(ptk) {
        return;
      }
      var ok := dataRxReplay.Check(f.slot, f.pn);
      if !ok {
        return;
      }
      dataRxReplay.Commit(f.slot, f.pn);
      if !Fits(f) {
        return;
      }
      delivered := Some((f.slot, f.payload));
    }

    // ---------- dispatch ----------

    method ApReceive(f: Frame, r: Random) returns (out: seq<Frame>, delivered: Option<(nat, Payload)>)
      requires Valid()
      modifies this, dataRxReplay.highest, dataRxReplay.seen
      ensures Valid() && Result(View(), out, delivered) == Sme.ApReceive(old(View()), f, r)
    {
      hide Sme.ApOnAssocReq, Sme.ApOnM2, Sme.ApOnM4, Sme.OnData, Key;
      out, delivered := [], None;
      match f
      case ProbeReq => out := [ProbeResp(self, Silent)];
      case AuthReq(src) => out := ApOnAuthReq(src);
      case AssocReq(_, _) => out := ApOnAssocReq(f, r);
      case M2(_, _, _, _) => out := ApOnM2(f, r);
      case M4(_, _) =>
        M4SendsNothing(View(), f);
        ApOnM4(f);
      case Data(_, _, _, _, _) =>
        DataSendsNothing(View(), f);
        delivered := OnData(f);
      case _ =>
    }

    lemma M4SendsNothing(p: Party, f: Frame)
      requires f.M4?
      ensures Sme.ApOnM4(p, f).out == [] && Sme.ApOnM4(p, f).delivered == None
    {
    }

    lemma DataSendsNothing(p: Party, f: Frame)
      requires f.Data?
      ensures Sme.OnData(p, f).out == []
    {
    }

    method StaReceive(f: Frame, r: Random) returns (out: seq<Frame>, delivered: Option<(nat, Payload)>)
      requires Valid()
      modifies this, dataRxReplay.highest, dataRxReplay.seen
      ensures Valid() && Result(View(), out, delivered) == Sme.StaReceive(old(View()), f, r)
    {
      hide Sme.StaOnAssocResp, Sme.StaOnM1, Sme.StaOnM3, Sme.OnData, Sme.StaOnProbeResp, Key;
      out, delivered := [], None;
      match f
      case ProbeResp(_, _) => out := StaOnProbeResp(f);
      case AuthResp(_) =>
        if state == Scanning || state == Init {
          out := [AssocReq(true, Silent)];
          state := Authed;
        }
      case AssocResp(_, _, _) => out := StaOnAssocResp(f, r);
      case M1(_, _) => out := StaOnM1(f, r);
      case M3(_, _, _, _, _, _) => out := StaOnM3(f);
      case Data(_, _, _, _, _) =>
        DataSendsNothing(View(), f);
        delivered := OnData(f);
      case _ =>
    }

    method Receive(f: Frame, r: Random) returns (out: seq<Frame>, delivered: Option<(nat, Payload)>)
      requires Valid()
      modifies this, dataRxReplay.highest, dataRxReplay.seen
      ensures Valid() && Result(View(), out, delivered) == Sme.Receive(old(View()), f, r)
    {
      hide Sme.ApReceive, Sme.StaReceive, Key;
      out, delivered := [], None;
      if state == Failed {
        return;
      }
      if Refusal(f) {
        state := Failed;
        return;
      }
      if f.Deauth? {
        OnDeauth();
        return;
      }
      if state == State.Connected && !f.Data? {
        return;
      }
      if role == AccessPoint {
        out, delivered := ApReceive(f, r);
      } else {
        out, delivered := StaReceive(f, r);
      }
    }

    /** One entry into the state machine: a frame heard or a local request. */
    method Perform(e: Event, r: Random) returns (out: seq<Frame>, delivered: Option<(nat, Payload)>)
      requires Valid()
      modifies this, dataRxReplay.highest, dataRxReplay.seen
      ensures Valid() && Result(View(), out, delivered) == Step(old(View()), e, r)
    {
      hide Sme.Receive, DataTx, DataTxQos, TdlsEncapTx, ConnectStartOf, Key;
      out, delivered := [], None;
      match e
      case Hear(f) => out, delivered := Receive(f, r);
      case ConnectStart => out := ConnectStart();
      case SetPeer(a) => peer := a;
      case SendData(d) => out := SendData(d);
      case SendQos(d, up) => out := SendQos(d, up);
      case SendTdls(b) => out := SendTdls(b);
    }
  }
}
