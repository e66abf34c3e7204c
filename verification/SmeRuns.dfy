/**
 Whole runs of the record: what the safety theorems say of the code as it runs, and a run in which
 the `connected` flag outlives the state.
 */
module SmeRuns {
  import opened Wrappers
  import opened Sme
  import opened SmeSafety
  import opened SmeDevice

  // ---------- the frames of a run ----------

  /** The (key, packet number) pairs of the protected frames among those sent. */
  function DataPairs(out: seq<Frame>): seq<(Ptk, nat)> {
    if out == [] then []
    else
      var f := out[|out| - 1];
      DataPairs(out[..|out| - 1]) + (if f.Data? && f.mic.By? then [(f.mic.key, f.pn)] else [])
  }

  lemma {:induction false} DataPairsConcat(a: seq<Frame>, b: seq<Frame>)
    ensures DataPairs(a + b) == DataPairs(a) + DataPairs(b)
  {
    if b == [] {
      assert a + b == a;
    } else {
      assert (a + b)[..|a + b| - 1] == a + b[..|b| - 1];
      DataPairsConcat(a, b[..|b| - 1]);
    }
  }

  lemma {:induction false} NoDataNoPairs(out: seq<Frame>)
    requires NoData(out)
    ensures DataPairs(out) == []
  {
    if out != [] {
      assert out[|out| - 1] in out;
      NoDataNoPairs(out[..|out| - 1]);
    }
  }

  /** The pairs as the air carries them. */
  function WireOf(sent: seq<(Ptk, nat)>): seq<(Ptk, nat)> {
    seq(|sent|, i requires 0 <= i < |sent| => Wire(sent[i]))
  }

  lemma StepPairs(p: Party, e: Event, r: Random)
    ensures var o := Step(p, e, r); DataPairs(o.out) == WireOf(SentBy(o))
  {
    hide Step, Receive, WirePn, OnlyKeyDiffers;
    if Sends(e) {
      SendRest(p, e, r);
      OnePair(Step(p, e, r));
    } else {
      if e.Hear? {
        HearIs(p, e.f, r);
        HearingSendsNoData(p, e.f, r);
      } else {
        LocalSendsNoData(p, e, r);
      }
      NoDataNoPairs(Step(p, e, r).out);
    }
  }

  lemma OnePair(o: Result)
    requires o.out == [] || (|o.out| == 1 && o.out[0].Data? && o.out[0].mic.By? && o.out[0].pn == WirePn(o.next.key.txPn))
    ensures DataPairs(o.out) == WireOf(SentBy(o))
  {
    hide WirePn;
    if o.out != [] {
      assert o.out[..0] == [];
    }
  }

  lemma StepLog(h: History, e: Event, r: Random, air: seq<Frame>)
    requires DataPairs(air) == WireOf(h.sent)
    ensures DataPairs(air + Step(h.p, e, r).out) == WireOf(StepOf(h, e, r).sent)
    ensures StepOf(h, e, r).p == Step(h.p, e, r).next
  {
    hide Step, SentBy, DataPairs, Wire;
    StepPairs(h.p, e, r);
    DataPairsConcat(air, Step(h.p, e, r).out);
  }

  lemma ReuseOnAir(sent: seq<(Ptk, nat)>)
    ensures NoReuse(sent) <==> Distinct(WireOf(sent))
  {
    var w := WireOf(sent);
    if NoReuse(sent) {
      forall i, j | 0 <= i < j < |w|
        ensures w[i] != w[j]
      {
        assert Wire(sent[i]) != Wire(sent[j]);
      }
    }
    if Distinct(w) {
      forall i, j | 0 <= i < j < |sent|
        ensures Wire(sent[i]) != Wire(sent[j])
      {
        assert w[i] != w[j];
      }
    }
  }

  // ---------- a run of the record ----------

  /**
   Runs a fresh record through a list of frames and requests.  When no nonce drawn is part of a key
   installed before: connected means keyed, and no two frames sent have the same key and packet
   number exactly when no key has carried more than 2^48 of them.  The `connected` flag is set
   exactly when the record has been connected with no deauthentication acted on since.
   */
  method RunDevice(role: Role, self: nat, pmk: nat, ocv: bool, oci: nat, es: seq<Event>, rs: seq<Random>)
    returns (d: Device, air: seq<Frame>)
    requires |es| == |rs|
    ensures d.Valid()
    ensures var h0 := InitialHistory(role, self, pmk, ocv, oci);
      && d.View() == After(h0, es, rs).p
      && (FreshDraws(h0, es, rs) && d.state == State.Connected ==> Keyed(d.View()))
      && (FreshDraws(h0, es, rs) ==> (Distinct(DataPairs(air)) <==> WithinLimit(After(h0, es, rs).sent)))
      && (d.connected <==> exists i :: 0 <= i <= |es| && UpSince(h0, es, rs, i))
  {
    hide InitialHistory, Step, StepOf, DataPairs, WireOf, FreshDraws, UpSince, Keyed;
    ghost var h0 := InitialHistory(role, self, pmk, ocv, oci);
    d := new Device(role, self, pmk, ocv, oci);
    air := [];
    RunStarts(role, self, pmk, ocv, oci);
    for i := 0 to |es|
      invariant d.Valid() && fresh(d) && fresh(d.dataRxReplay.highest) && fresh(d.dataRxReplay.seen)
      invariant d.View() == After(h0, es[..i], rs[..i]).p
      invariant DataPairs(air) == WireOf(After(h0, es[..i], rs[..i]).sent)
    {
      ghost var h := After(h0, es[..i], rs[..i]);
      var out, delivered := d.Perform(es[i], rs[i]);
      StepLog(h, es[i], rs[i], air);
      air := air + out;
      AfterNext(h0, es, rs, i);
    }
    assert es[..|es|] == es && rs[..|es|] == rs;
    FlagIffUp(h0, es, rs);
    ReuseOnAir(After(h0, es, rs).sent);
    if FreshDraws(h0, es, rs) {
      AfterIsReachable(role, self, pmk, ocv, oci, es, rs);
      NoReuseIffWithinLimit(After(h0, es, rs), es, rs);
      if d.state == State.Connected {
        ConnectedMeansKeyed(After(h0, es, rs), es, rs);
        assert Keyed(d.View()) by { KeyedIs(d.View()); }
      }
    }
  }

  lemma KeyedIs(p: Party)
    ensures Keyed(p) <==> p.connected && p.ptkInstalled && p.gtkInstalled && p.key.valid && p.key.tk == TkOf(p.ptk)
  {
  }

  lemma AfterNext(h: History, es: seq<Event>, rs: seq<Random>, i: nat)
    requires |es| == |rs| && i < |es|
    ensures After(h, es[..i + 1], rs[..i + 1]) == StepOf(After(h, es[..i], rs[..i]), es[i], rs[i])
  {
    hide StepOf;
    assert es[..i + 1][..i] == es[..i] && rs[..i + 1][..i] == rs[..i];
  }

  lemma RunStarts(role: Role, self: nat, pmk: nat, ocv: bool, oci: nat)
    ensures var h := InitialHistory(role, self, pmk, ocv, oci);
      && After(h, [], []) == h && h.p == InitialParty(role, self, pmk, ocv, oci) && WireOf(h.sent) == [] == DataPairs([])
      && !h.p.connected && h.p.state != State.Connected
  {
  }

  // ---------- the flag without the state ----------

  lemma {:induction false} DrawMore(h: History, es: seq<Event>, rs: seq<Random>, e: Event, r: Random)
    requires |es| == |rs| && FreshDraws(h, es, rs) && NotPartOf(After(h, es, rs).installed, r.nonce)
    ensures FreshDraws(h, es + [e], rs + [r]) && After(h, es + [e], rs + [r]) == StepOf(After(h, es, rs), e, r)
  {
    hide StepOf, NotPartOf;
    var es', rs' := es + [e], rs + [r];
    assert es'[..|es|] == es && rs'[..|es|] == rs;
    forall i | 0 <= i < |es'|
      ensures NotPartOf(After(h, es'[..i], rs'[..i]).installed, rs'[i].nonce)
    {
      if i < |es| {
        assert es'[..i] == es[..i] && rs'[..i] == rs[..i] && rs'[i] == rs[i];
        assert NotPartOf(After(h, es[..i], rs[..i]).installed, rs[i].nonce);
      }
    }
  }

  /** A station in the handshake, keyed for the nonces 5 and 6. */
  function Offered(self: nat, pmk: nat, oci: nat): Party {
    InitialParty(Station, self, pmk, false, oci).(
      state := FourWay, anonce := 5, snonce := 6, replay := 1, ptk := DerivePtk(pmk, self, 0, 5, 6))
  }

  lemma StationAssociates(self: nat, pmk: nat, oci: nat, r: Random)
    ensures var h0 := InitialHistory(Station, self, pmk, false, oci);
      var h1 := StepOf(h0, Hear(AuthResp(true)), r);
      var h2 := StepOf(h1, Hear(AssocResp(true, false, Silent)), r);
      h2 == h0.(p := h0.p.(state := Assoced)) && h1.installed == {}
  {
  }

  lemma StationAnswers(h: History, self: nat, pmk: nat, oci: nat)
    requires var h0 := InitialHistory(Station, self, pmk, false, oci); h == h0.(p := h0.p.(state := Assoced))
    ensures StepOf(h, Hear(M1(1, 5)), Random(6, 0)) == h.(p := Offered(self, pmk, oci))
  {
    hide DerivePtk;
  }

  lemma StationFinishes(h: History, self: nat, pmk: nat, oci: nat, r: Random)
    requires h.p == Offered(self, pmk, oci) && h.installed == {}
    ensures var k := h.p.ptk; var h' := StepOf(h, Hear(M3(2, 5, k, 9, None, By(k))), r);
      h'.p == Completed(h.p.(replay := 2, gtk := 9)) && h'.installed == {k}
  {
    hide DerivePtk;
  }

  lemma RefusalFails(h: History, r: Random)
    requires h.p.state == State.Connected && h.p.connected
    ensures var q := StepOf(h, Hear(AssocResp(false, false, Silent)), r).p; q.connected && q.state == Failed
  {
  }

  lemma OutsideKey(self: nat, pmk: nat, oci: nat)
    ensures NotPartOf({Offered(self, pmk, oci).ptk}, 7)
  {
  }

  /** A station that is refused after it has connected is in the failed state with the flag still set. */
  lemma FlagOutlivesState(self: nat, pmk: nat, oci: nat) returns (es: seq<Event>, rs: seq<Random>)
    ensures |es| == |rs|
    ensures var h0 := InitialHistory(Station, self, pmk, false, oci); var h := After(h0, es, rs);
      FreshDraws(h0, es, rs) && Reachable(h, es, rs) && h.p.connected && h.p.state == Failed
  {
    hide InitialHistory, InitialParty, StepOf, Offered, NotPartOf, Reachable, FreshDraws, After;
    var h0 := InitialHistory(Station, self, pmk, false, oci);
    var k := Offered(self, pmk, oci).ptk;
    NoKeys(self, pmk, oci);
    StationAssociates(self, pmk, oci, Random(7, 0));
    DrawMore(h0, [], [], Hear(AuthResp(true)), Random(7, 0));
    es, rs := [] + [Hear(AuthResp(true))], [] + [Random(7, 0)];
    DrawMore(h0, es, rs, Hear(AssocResp(true, false, Silent)), Random(7, 0));
    es, rs := es + [Hear(AssocResp(true, false, Silent))], rs + [Random(7, 0)];
    StationAnswers(After(h0, es, rs), self, pmk, oci);
    DrawMore(h0, es, rs, Hear(M1(1, 5)), Random(6, 0));
    es, rs := es + [Hear(M1(1, 5))], rs + [Random(6, 0)];
    StationFinishes(After(h0, es, rs), self, pmk, oci, Random(7, 0));
    DrawMore(h0, es, rs, Hear(M3(2, 5, k, 9, None, By(k))), Random(7, 0));
    es, rs := es + [Hear(M3(2, 5, k, 9, None, By(k)))], rs + [Random(7, 0)];
    OutsideKey(self, pmk, oci);
    CompletedIsUp(Offered(self, pmk, oci).(replay := 2, gtk := 9));
    RefusalFails(After(h0, es, rs), Random(7, 0));
    DrawMore(h0, es, rs, Hear(AssocResp(false, false, Silent)), Random(7, 0));
    es, rs := es + [Hear(AssocResp(false, false, Silent))], rs + [Random(7, 0)];
    AfterIsReachable(Station, self, pmk, false, oci, es, rs);
  }

  lemma NoKeys(self: nat, pmk: nat, oci: nat)
    ensures var h0 := InitialHistory(Station, self, pmk, false, oci);
      && h0.installed == {} && h0.p == InitialParty(Station, self, pmk, false, oci)
      && After(h0, [], []) == h0 && FreshDraws(h0, [], [])
    ensures forall n :: NotPartOf({}, n)
  {
  }

  lemma CompletedIsUp(p: Party)
    ensures Completed(p).state == State.Connected && Completed(p).connected
  {
  }
}
