/**
 Admission control for traffic streams: a table of eight slots and, per access category, the medium
 time admitted and its ceiling.
 */
module Qos {
  import opened Words

  const MAX_TS := 8
  const AC_COUNT := 4
  const DEFAULT_LIMIT: u32 := 0x8000

  type u16 = x: int | 0 <= x < 0x1_0000

  datatype Slot = Slot(inUse: bool, tsid: u8, ac: u8, direction: u8, mediumTime: u16)
  datatype Table = Table(ts: seq<Slot>, total: seq<u32>, limit: seq<u32>)
  datatype AdmitResult = Ok | RefusedLimit | RefusedFull | RefusedDup | RefusedArg

  // ---------- the operations ----------

  predicate Shaped(t: Table) {
    |t.ts| == MAX_TS && |t.total| == AC_COUNT && |t.limit| == AC_COUNT
  }

  function InitTable(): (t: Table)
    ensures Shaped(t)
  {
    Table(seq(MAX_TS, _ => Slot(false, 0, 0, 0, 0)), [0, 0, 0, 0],
          [DEFAULT_LIMIT, DEFAULT_LIMIT, DEFAULT_LIMIT, DEFAULT_LIMIT])
  }

  function SetLimit(t: Table, ac: u8, limit: u32): (t': Table)
    requires Shaped(t)
    ensures Shaped(t')
  {
    if ac >= AC_COUNT then t else t.(limit := t.limit[ac := limit])
  }

  predicate Holds(s: Slot, tsid: u8) {
    s.inUse && s.tsid == tsid
  }

  /** The first slot from i on that holds the stream, or the length. */
  function FindFrom(ts: seq<Slot>, tsid: u8, i: nat): (k: nat)
    requires i <= |ts|
    ensures i <= k <= |ts|
    decreases |ts| - i
  {
    if i == |ts| || Holds(ts[i], tsid) then i else FindFrom(ts, tsid, i + 1)
  }

  function FreeFrom(ts: seq<Slot>, i: nat): (k: nat)
    requires i <= |ts|
    ensures i <= k <= |ts|
    decreases |ts| - i
  {
    if i == |ts| || !ts[i].inUse then i else FreeFrom(ts, i + 1)
  }

  /** Room left under the ceiling, zero when the ceiling has been lowered below the total. */
  function Room(t: Table, ac: u8): u32
    requires Shaped(t) && ac < AC_COUNT
  {
    if t.limit[ac] >= t.total[ac] then t.limit[ac] - t.total[ac] else 0
  }

  function Admit(t: Table, tsid: u8, ac: u8, direction: u8, mediumTime: u16): (r: (Table, AdmitResult))
    requires Shaped(t)
    ensures Shaped(r.0)
  {
    if tsid > 0x0f || ac >= AC_COUNT then (t, RefusedArg)
    else if FindFrom(t.ts, tsid, 0) < MAX_TS then (t, RefusedDup)
    else if mediumTime > Room(t, ac) then (t, RefusedLimit)
    else
      var k := FreeFrom(t.ts, 0);
      if k == MAX_TS then (t, RefusedFull)
      else
        (t.(ts := t.ts[k := Slot(true, tsid, ac, direction, mediumTime)],
            total := t.total[ac := ((t.total[ac] as int) + mediumTime) % 0x1_0000_0000]), Ok)
  }

  function Release(t: Table, tsid: u8): (r: (Table, bool))
    requires Shaped(t)
    ensures Shaped(r.0)
  {
    var k := FindFrom(t.ts, tsid, 0);
    if k == MAX_TS then (t, false)
    else
      var s := t.ts[k];
      var ac := s.ac % 4;
      var left := if t.total[ac] >= s.mediumTime then t.total[ac] - s.mediumTime else 0;
      (t.(ts := t.ts[k := s.(inUse := false, mediumTime := 0)], total := t.total[ac := left]), true)
  }

  // ---------- what the table means ----------

  /** The medium time of the in-use slots of a category. */
  function Sum(ts: seq<Slot>, ac: nat): nat {
    if ts == [] then 0
    else Sum(ts[..|ts| - 1], ac) + Share(ts[|ts| - 1], ac)
  }

  function Share(s: Slot, ac: nat): nat {
    if s.inUse && s.ac == ac then s.mediumTime else 0
  }

  ghost predicate Distinct(ts: seq<Slot>) {
    forall i, j :: 0 <= i < j < |ts| && ts[i].inUse && ts[j].inUse ==> ts[i].tsid != ts[j].tsid
  }

  ghost predicate InRange(ts: seq<Slot>) {
    forall i :: 0 <= i < |ts| && ts[i].inUse ==> ts[i].tsid <= 0x0f && ts[i].ac < AC_COUNT
  }

  ghost predicate Balanced(t: Table)
    requires Shaped(t)
  {
    forall ac :: 0 <= ac < AC_COUNT ==> t.total[ac] == Sum(t.ts, ac)
  }

  ghost predicate TableInv(t: Table) {
    Shaped(t) && Distinct(t.ts) && InRange(t.ts) && Balanced(t)
  }

  lemma {:induction false} SumUpdate(ts: seq<Slot>, k: nat, s: Slot, ac: nat)
    requires k < |ts|
    ensures Sum(ts[k := s], ac) == Sum(ts, ac) - Share(ts[k], ac) + Share(s, ac)
  {
    hide Share;
    var n := |ts| - 1;
    if k < n {
      assert ts[k := s][..n] == ts[..n][k := s];
      SumUpdate(ts[..n], k, s, ac);
    } else {
      assert ts[k := s][..n] == ts[..n];
    }
  }

  lemma {:induction false} ShareWithinSum(ts: seq<Slot>, k: nat, ac: nat)
    requires k < |ts|
    ensures Share(ts[k], ac) <= Sum(ts, ac)
  {
    hide Share;
    if k < |ts| - 1 {
      ShareWithinSum(ts[..|ts| - 1], k, ac);
    }
  }

  lemma {:induction false} FindIs(ts: seq<Slot>, tsid: u8, i: nat)
    requires i <= |ts|
    ensures var k := FindFrom(ts, tsid, i);
      (k < |ts| ==> Holds(ts[k], tsid)) && forall j :: i <= j < k ==> !Holds(ts[j], tsid)
    decreases |ts| - i
  {
    if i < |ts| && !Holds(ts[i], tsid) {
      FindIs(ts, tsid, i + 1);
    }
  }

  lemma {:induction false} FreeIs(ts: seq<Slot>, i: nat)
    requires i <= |ts|
    ensures var k := FreeFrom(ts, i);
      (k < |ts| ==> !ts[k].inUse) && forall j :: i <= j < k ==> ts[j].inUse
    decreases |ts| - i
  {
    if i < |ts| && ts[i].inUse {
      FreeIs(ts, i + 1);
    }
  }

  // ---------- admission ----------

  ghost predicate Present(t: Table, tsid: u8) {
    exists k :: 0 <= k < |t.ts| && Holds(t.ts[k], tsid)
  }

  ghost predicate Full(t: Table) {
    forall k :: 0 <= k < |t.ts| ==> t.ts[k].inUse
  }

  /** A stream is admitted exactly when it is new, there is a slot, and its time fits the ceiling. */
  lemma AdmitIff(t: Table, tsid: u8, ac: u8, direction: u8, mediumTime: u16)
    requires TableInv(t)
    ensures Admit(t, tsid, ac, direction, mediumTime).1 == Ok
       <==> tsid <= 0x0f && ac < AC_COUNT && !Present(t, tsid) && !Full(t)
            && (mediumTime == 0 || Sum(t.ts, ac) + mediumTime <= t.limit[ac])
  {
    hide Sum;
    FindIs(t.ts, tsid, 0);
    FreeIs(t.ts, 0);
    var k := FindFrom(t.ts, tsid, 0);
    assert Present(t, tsid) <==> k < MAX_TS;
    assert Full(t) <==> FreeFrom(t.ts, 0) == MAX_TS;
  }

  /** A refusal leaves the table as it was. */
  lemma RefusalChangesNothing(t: Table, tsid: u8, ac: u8, direction: u8, mediumTime: u16)
    requires Shaped(t) && Admit(t, tsid, ac, direction, mediumTime).1 != Ok
    ensures Admit(t, tsid, ac, direction, mediumTime).0 == t
  {
  }

  lemma AdmitKeepsInv(t: Table, tsid: u8, ac: u8, direction: u8, mediumTime: u16)
    requires TableInv(t)
    ensures TableInv(Admit(t, tsid, ac, direction, mediumTime).0)
  {
    hide Sum, Distinct, InRange;
    var (t', r) := Admit(t, tsid, ac, direction, mediumTime);
    if r == Ok {
      var k := FreeFrom(t.ts, 0);
      var s := Slot(true, tsid, ac, direction, mediumTime);
      FreeIs(t.ts, 0);
      AdmitKeepsSlots(t, tsid, k, s);
      assert t.total[ac] + mediumTime < 0x1_0000_0000;
      forall c | 0 <= c < AC_COUNT
        ensures t'.total[c] == Sum(t'.ts, c)
      {
        SumUpdate(t.ts, k, s, c);
      }
    }
  }

  lemma AdmitKeepsSlots(t: Table, tsid: u8, k: nat, s: Slot)
    requires Shaped(t) && Distinct(t.ts) && InRange(t.ts) && FindFrom(t.ts, tsid, 0) == MAX_TS
    requires k < MAX_TS && s.tsid == tsid <= 0x0f && s.ac < AC_COUNT
    ensures Distinct(t.ts[k := s]) && InRange(t.ts[k := s])
  {
    FindIs(t.ts, tsid, 0);
  }

  // ---------- release ----------

  /** The clamp in the release path is never taken. */
  lemma ReleaseNeverClamps(t: Table, tsid: u8)
    requires TableInv(t) && Release(t, tsid).1
    ensures var s := t.ts[FindFrom(t.ts, tsid, 0)]; s.ac % 4 == s.ac && t.total[s.ac] >= s.mediumTime
  {
    hide Sum;
    FindIs(t.ts, tsid, 0);
    var k := FindFrom(t.ts, tsid, 0);
    ShareWithinSum(t.ts, k, t.ts[k].ac);
  }

  lemma ReleaseKeepsInv(t: Table, tsid: u8)
    requires TableInv(t)
    ensures TableInv(Release(t, tsid).0)
  {
    hide Sum, Distinct, InRange;
    var (t', ok) := Release(t, tsid);
    if ok {
      ReleaseNeverClamps(t, tsid);
      FindIs(t.ts, tsid, 0);
      var k := FindFrom(t.ts, tsid, 0);
      var s := t.ts[k].(inUse := false, mediumTime := 0);
      assert Distinct(t.ts[k := s]) && InRange(t.ts[k := s]) by { FreedKeepsSlots(t, k, s); }
      forall c | 0 <= c < AC_COUNT
        ensures t'.total[c] == Sum(t'.ts, c)
      {
        SumUpdate(t.ts, k, s, c);
      }
    }
  }

  lemma FreedKeepsSlots(t: Table, k: nat, s: Slot)
    requires Shaped(t) && Distinct(t.ts) && InRange(t.ts) && k < MAX_TS && !s.inUse
    ensures Distinct(t.ts[k := s]) && InRange(t.ts[k := s])
  {
  }

  // ---------- the streams ----------

  datatype Stream = Stream(ac: u8, direction: u8, mediumTime: u16)

  /** Whether the table carries the stream tsid with these parameters. */
  ghost predicate Carries(t: Table, tsid: u8, x: Stream) {
    exists k :: 0 <= k < |t.ts| && Holds(t.ts[k], tsid)
      && x == Stream(t.ts[k].ac, t.ts[k].direction, t.ts[k].mediumTime)
  }

  /** Admission adds its stream and touches no other; release of a stream undoes its admission. */
  lemma AdmitThenRelease(t: Table, tsid: u8, ac: u8, direction: u8, mediumTime: u16)
    requires TableInv(t) && Admit(t, tsid, ac, direction, mediumTime).1 == Ok
    ensures var t1 := Admit(t, tsid, ac, direction, mediumTime).0; var (t2, ok) := Release(t1, tsid);
      && ok && Carries(t1, tsid, Stream(ac, direction, mediumTime))
      && t2.total == t.total && t2.limit == t.limit && !Present(t2, tsid)
      && (forall other: u8, x :: other != tsid ==> (Carries(t, other, x) <==> Carries(t1, other, x)))
      && (forall other: u8, x :: Carries(t2, other, x) <==> Carries(t, other, x))
  {
    hide Sum, Balanced, Distinct, InRange, Carries;
    var t1 := Admit(t, tsid, ac, direction, mediumTime).0;
    var k := FreeFrom(t.ts, 0);
    FreeIs(t.ts, 0);
    FindIs(t.ts, tsid, 0);
    var s := Slot(true, tsid, ac, direction, mediumTime);
    assert t1.ts == t.ts[k := s];
    OnlyAt(t1.ts, tsid, k);
    var t2 := Release(t1, tsid).0;
    AdmitKeepsInv(t, tsid, ac, direction, mediumTime);
    ReleaseNeverClamps(t1, tsid);
    TotalsRestored(t, t1, t2, ac, mediumTime);
    forall other: u8, x
      ensures other != tsid ==> (Carries(t, other, x) <==> Carries(t1, other, x))
      ensures Carries(t2, other, x) <==> Carries(t, other, x)
    {
      if other != tsid {
        CarriesElsewhere(t, t1, k, other, x);
      }
      CarriesFresh(t, t2, k, other, x);
    }
    assert Carries(t1, tsid, Stream(ac, direction, mediumTime)) by { CarriesAt(t1, k); }
  }

  lemma CarriesAt(t: Table, k: nat)
    requires k < |t.ts| && t.ts[k].inUse
    ensures Carries(t, t.ts[k].tsid, Stream(t.ts[k].ac, t.ts[k].direction, t.ts[k].mediumTime))
  {
  }

  lemma TotalsRestored(t: Table, t1: Table, t2: Table, ac: nat, mediumTime: u16)
    requires Shaped(t) && Shaped(t1) && Shaped(t2) && ac < AC_COUNT
    requires t.total[ac] + mediumTime < 0x1_0000_0000
    requires t1.total == t.total[ac := t.total[ac] + mediumTime] && t2.total == t1.total[ac := t1.total[ac] - mediumTime]
    ensures t2.total == t.total
  {
  }

  lemma {:induction false} OnlyAt(ts: seq<Slot>, tsid: u8, k: nat)
    requires k < |ts| && Holds(ts[k], tsid) && forall j :: 0 <= j < |ts| && j != k ==> !Holds(ts[j], tsid)
    ensures FindFrom(ts, tsid, 0) == k
  {
    FindIs(ts, tsid, 0);
  }

  /** Two tables that differ in slot k only carry the same streams but for that slot's. */
  lemma CarriesElsewhere(t: Table, t': Table, k: nat, other: u8, x: Stream)
    requires k < |t.ts| == |t'.ts| && t'.ts == t.ts[k := t'.ts[k]]
    requires !Holds(t.ts[k], other) && !Holds(t'.ts[k], other)
    ensures Carries(t, other, x) <==> Carries(t', other, x)
  {
    assert forall j :: 0 <= j < |t.ts| && j != k ==> t.ts[j] == t'.ts[j];
  }

  lemma CarriesFresh(t: Table, t': Table, k: nat, other: u8, x: Stream)
    requires k < |t.ts| == |t'.ts| && t'.ts == t.ts[k := t'.ts[k]] && !t.ts[k].inUse && !t'.ts[k].inUse
    ensures Carries(t, other, x) <==> Carries(t', other, x)
  {
    CarriesElsewhere(t, t', k, other, x);
  }

  // ---------- over every run ----------

  datatype Event =
    | Limit(ac: u8, limit: u32)
    | Add(tsid: u8, ac: u8, direction: u8, mediumTime: u16)
    | Delete(tsid: u8)

  function Step(t: Table, e: Event): (t': Table)
    requires Shaped(t)
    ensures Shaped(t')
  {
    match e
    case Limit(ac, limit) => SetLimit(t, ac, limit)
    case Add(tsid, ac, direction, mediumTime) => Admit(t, tsid, ac, direction, mediumTime).0
    case Delete(tsid) => Release(t, tsid).0
  }

  function Run(es: seq<Event>): (t: Table)
    ensures Shaped(t)
    decreases |es|
  {
    if es == [] then InitTable() else Step(Run(es[..|es| - 1]), es[|es| - 1])
  }

  /** The largest ceiling that a category has had. */
  function Peak(es: seq<Event>, ac: nat): nat {
    if es == [] then DEFAULT_LIMIT
    else
      var e, p := es[|es| - 1], Peak(es[..|es| - 1], ac);
      if e.Limit? && e.ac == ac && e.limit > p then e.limit else p
  }

  lemma InitInv()
    ensures TableInv(InitTable())
  {
    var t := InitTable();
    forall ac | 0 <= ac < AC_COUNT
      ensures Sum(t.ts, ac) == 0
    {
      SumOfFree(t.ts, ac);
    }
  }

  lemma {:induction false} SumOfFree(ts: seq<Slot>, ac: nat)
    requires forall i :: 0 <= i < |ts| ==> !ts[i].inUse
    ensures Sum(ts, ac) == 0
  {
    if ts != [] {
      SumOfFree(ts[..|ts| - 1], ac);
    }
  }

  lemma StepKeepsInv(t: Table, e: Event)
    requires TableInv(t)
    ensures TableInv(Step(t, e))
  {
    hide Sum, Admit, Release, Distinct, InRange;
    match e
    case Limit(_, _) =>
    case Add(tsid, ac, direction, mediumTime) => AdmitKeepsInv(t, tsid, ac, direction, mediumTime);
    case Delete(tsid) => ReleaseKeepsInv(t, tsid);
  }

  /** The ceiling and the total of a category after one more step. */
  lemma StepBounds(t: Table, e: Event, ac: nat, p: nat)
    requires TableInv(t) && ac < AC_COUNT && t.limit[ac] <= p && t.total[ac] <= p
    ensures var q := if e.Limit? && e.ac == ac && e.limit > p then e.limit else p;
      Step(t, e).limit[ac] <= q && Step(t, e).total[ac] <= q
  {
  }

  /**
   In every run of limits set, streams admitted and released: each total is the medium time of the
   streams in use in that category, their identifiers are distinct, and no total exceeds the largest
   ceiling the category has had.  (The current ceiling may be lower: lowering it evicts nothing.)
   */
  lemma {:induction false} Conservation(es: seq<Event>, ac: nat)
    requires ac < AC_COUNT
    ensures TableInv(Run(es)) && Run(es).total[ac] == Sum(Run(es).ts, ac) <= Peak(es, ac)
    ensures Run(es).limit[ac] <= Peak(es, ac)
    decreases |es|
  {
    hide Sum, Step, Distinct, InRange;
    if es == [] {
      InitInv();
    } else {
      Conservation(es[..|es| - 1], ac);
      StepKeepsInv(Run(es[..|es| - 1]), es[|es| - 1]);
      StepBounds(Run(es[..|es| - 1]), es[|es| - 1], ac, Peak(es[..|es| - 1], ac));
    }
  }

  // ---------- the record that the code updates ----------

  class Admission {
    const ts: array<Slot>
    const acTotal: array<u32>
    const acLimit: array<u32>

    ghost predicate Valid()
      reads this
    {
      ts.Length == MAX_TS && acTotal.Length == AC_COUNT && acLimit.Length == AC_COUNT && acTotal != acLimit
    }

    ghost function View(): (t: Table)
      requires Valid()
      reads this, ts, acTotal, acLimit
      ensures Shaped(t)
    {
      Table(ts[..], acTotal[..], acLimit[..])
    }

    constructor ()
      ensures Valid() && fresh(ts) && fresh(acTotal) && fresh(acLimit) && View() == InitTable()
    {
      ts := new Slot[MAX_TS](_ => Slot(false, 0, 0, 0, 0));
      acTotal := new u32[AC_COUNT](_ => 0);
      acLimit := new u32[AC_COUNT](_ => DEFAULT_LIMIT);
    }

    method SetAcLimit(ac: u8, limit: u32)
      requires Valid()
      modifies acLimit
      ensures View() == SetLimit(old(View()), ac, limit)
    {
      if ac >= AC_COUNT {
        return;
      }
      acLimit[ac] := limit;
    }

    method Find(tsid: u8) returns (k: nat)
      requires Valid()
      ensures k == FindFrom(ts[..], tsid, 0)
    {
      k := 0;
      while k < MAX_TS
        invariant k <= MAX_TS && FindFrom(ts[..], tsid, 0) == FindFrom(ts[..], tsid, k)
      {
        if ts[k].inUse && ts[k].tsid == tsid {
          return;
        }
        k := k + 1;
      }
    }

    method FreeSlot() returns (k: nat)
      requires Valid()
      ensures k == FreeFrom(ts[..], 0)
    {
      k := 0;
      while k < MAX_TS
        invariant k <= MAX_TS && FreeFrom(ts[..], 0) == FreeFrom(ts[..], k)
      {
        if !ts[k].inUse {
          return;
        }
        k := k + 1;
      }
    }

    method AdmitStream(tsid: u8, ac: u8, direction: u8, mediumTime: u16) returns (r: AdmitResult)
      requires Valid()
      modifies ts, acTotal
      ensures (View(), r) == Admit(old(View()), tsid, ac, direction, mediumTime)
    {
      hide FindFrom, FreeFrom;
      if tsid > 0x0f || ac >= AC_COUNT {
        return RefusedArg;
      }
      var found := Find(tsid);
      if found < MAX_TS {
        return RefusedDup;
      }
      var room: u32 := if acLimit[ac] >= acTotal[ac] then acLimit[ac] - acTotal[ac] else 0;
      if mediumTime > room {
        return RefusedLimit;
      }
      var k := FreeSlot();
      if k == MAX_TS {
        return RefusedFull;
      }
      ts[k] := Slot(true, tsid, ac, direction, mediumTime);
      acTotal[ac] := ((acTotal[ac] as int) + mediumTime) % 0x1_0000_0000;
      r := Ok;
    }

    method ReleaseStream(tsid: u8) returns (ok: bool)
      requires Valid()
      modifies ts, acTotal
      ensures (View(), ok) == Release(old(View()), tsid)
    {
      hide FindFrom;
      var k := Find(tsid);
      if k == MAX_TS {
        return false;
      }
      var e := ts[k];
      var ac := e.ac % 4;
      if acTotal[ac] >= e.mediumTime {
        acTotal[ac] := acTotal[ac] - e.mediumTime;
      } else {
        acTotal[ac] := 0;
      }
      ts[k] := e.(inUse := false, mediumTime := 0);
      ok := true;
    }
  }
}
