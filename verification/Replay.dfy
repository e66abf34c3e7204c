/**
 Packet-number replay protection: one counter per traffic identifier, and one for everything that
 carries no identifier.
 */
module Replay {

  /** Slot 16 is shared by frames without a QoS identifier. */
  const NON_QOS := 16
  const SLOTS := 17
  const PN_MAX := 0xffff_ffff_ffff

  datatype Slots = Slots(highest: seq<nat>, seen: seq<bool>)

  /** For each slot, the highest number accepted and whether there has been one. */
  type Counters = c: Slots | |c.highest| == SLOTS && |c.seen| == SLOTS
    witness Slots(seq(SLOTS, _ => 0), seq(SLOTS, _ => false))

  function Unused(): Counters {
    Slots(seq(SLOTS, _ => 0), seq(SLOTS, _ => false))
  }

  predicate Accepts(c: Counters, tid: nat, pn: nat) {
    tid < SLOTS && pn <= PN_MAX && (c.seen[tid] ==> pn > c.highest[tid])
  }

  function Committed(c: Counters, tid: nat, pn: nat): Counters {
    if tid < SLOTS then Slots(c.highest[tid := pn], c.seen[tid := true]) else c
  }

  /** Accepting a number rules out that number and every smaller one, for that slot only. */
  lemma CommitRules(c: Counters, tid: nat, pn: nat, tid': nat, pn': nat)
    requires Accepts(c, tid, pn)
    ensures Accepts(Committed(c, tid, pn), tid', pn')
       <==> Accepts(c, tid', pn') && (tid' == tid ==> pn' > pn)
  {
  }

  class PnReplay {
    const highest: array<nat>
    const seen: array<bool>

    ghost predicate Valid()
      reads this
    {
      highest.Length == SLOTS && seen.Length == SLOTS
    }

    ghost function View(): Counters
      requires Valid()
      reads this, highest, seen
    {
      Slots(highest[..], seen[..])
    }

    constructor ()
      ensures Valid() && fresh(highest) && fresh(seen) && View() == Unused()
    {
      highest, seen := new nat[SLOTS](_ => 0), new bool[SLOTS](_ => false);
    }

    method Reset()
      requires Valid()
      modifies highest, seen
      ensures View() == Unused()
    {
      for i := 0 to SLOTS
        invariant forall j :: 0 <= j < i ==> highest[j] == 0 && !seen[j]
      {
        highest[i], seen[i] := 0, false;
      }
    }

    method Check(tid: nat, pn: nat) returns (ok: bool)
      requires Valid()
      ensures ok == Accepts(View(), tid, pn)
    {
      if tid >= SLOTS {
        return false;
      }
      if pn > PN_MAX {
        return false;
      }
      if !seen[tid] {
        return true;
      }
      ok := pn > highest[tid];
    }

    method Commit(tid: nat, pn: nat)
      requires Valid()
      modifies highest, seen
      ensures View() == Committed(old(View()), tid, pn)
    {
      if tid >= SLOTS {
        return;
      }
      highest[tid] := pn;
      seen[tid] := true;
    }
  }
}
