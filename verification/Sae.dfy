/**
 SAE commit and confirm (sections 3.3 and 3.4 of RFC 7664) over an abstract commutative group: the
 password element, the commit exchange, the shared keys and the confirm codes.
 */
module Sae {
  import opened ModArith
  import opened Octets
  import opened Wrappers

  // ---------- the group and the hash functions ----------

  datatype Group<!E> = Group(zero: E, add: (E, E) -> E, neg: E -> E, order: nat)

  /** k times e. */
  function Times<E>(g: Group<E>, k: nat, e: E): E {
    if k == 0 then g.zero else g.add(e, Times(g, k - 1, e))
  }

  // Each law is named, so that it is used where a proof names it and nowhere else.

  ghost predicate Commutes<E>(g: Group<E>, x: E, y: E) {
    g.add(x, y) == g.add(y, x)
  }

  ghost predicate Associates<E>(g: Group<E>, x: E, y: E, z: E) {
    g.add(g.add(x, y), z) == g.add(x, g.add(y, z))
  }

  ghost predicate HasIdentity<E>(g: Group<E>, x: E) {
    g.add(x, g.zero) == x && g.add(x, g.neg(x)) == g.zero
  }

  ghost predicate OrderEnds<E>(g: Group<E>, x: E) {
    Times(g, g.order, x) == g.zero
  }

  /** A commutative group in which every element's order divides the group's. */
  ghost predicate IsGroup<E(!new)>(g: Group<E>) {
    && g.order > 1
    && (forall x, y :: Commutes(g, x, y))
    && (forall x, y, z :: Associates(g, x, y, z))
    && (forall x :: HasIdentity(g, x))
    && (forall x :: OrderEnds(g, x))
  }

  /** The hash-based functions: all that matters of each is what it depends on. */
  datatype Hashes<!E> = Hashes(
    ofMacs: seq<bv8> -> nat,                       // keyed hash of the two addresses, as an integer
    coordinate: E -> nat,                         // the x coordinate
    keys: (nat, nat) -> (nat, nat),               // confirmation key and master key
    confirm: (nat, nat, nat, E, nat, E) -> nat)   // key, send-confirm, own scalar and element, peer's

  type Mac = m: seq<bv8> | |m| == 6 witness seq(6, _ => 0)

  // ---------- group facts ----------

  lemma AddSwap<E(!new)>(g: Group<E>, x: E, y: E, z: E)
    requires IsGroup(g)
    ensures g.add(x, y) == g.add(y, x)
    ensures g.add(g.add(x, y), z) == g.add(x, g.add(y, z))
  {
    assert Commutes(g, x, y) && Associates(g, x, y, z);
  }

  lemma Identity<E(!new)>(g: Group<E>, x: E)
    requires IsGroup(g)
    ensures g.add(x, g.zero) == x && g.add(g.zero, x) == x && g.add(x, g.neg(x)) == g.zero
  {
    assert HasIdentity(g, x) && Commutes(g, g.zero, x);
  }

  lemma {:induction false} TimesAdd<E(!new)>(g: Group<E>, j: nat, k: nat, e: E)
    requires IsGroup(g)
    ensures Times(g, j + k, e) == g.add(Times(g, j, e), Times(g, k, e))
  {
    hide IsGroup;
    if j == 0 {
      Identity(g, Times(g, k, e));
    } else {
      TimesAdd(g, j - 1, k, e);
      AddSwap(g, e, Times(g, j - 1, e), Times(g, k, e));
      assert j + k - 1 == (j - 1) + k;
    }
  }

  lemma {:induction false} TimesTimes<E(!new)>(g: Group<E>, j: nat, k: nat, e: E)
    requires IsGroup(g)
    ensures Times(g, j, Times(g, k, e)) == Times(g, j * k, e)
  {
    hide IsGroup;
    if j > 0 {
      TimesTimes(g, j - 1, k, e);
      TimesAdd(g, k, (j - 1) * k, e);
      assert j * k == k + (j - 1) * k;
    }
  }

  lemma TimesSwap<E(!new)>(g: Group<E>, j: nat, k: nat, e: E)
    requires IsGroup(g)
    ensures Times(g, j, Times(g, k, e)) == Times(g, k, Times(g, j, e))
  {
    hide IsGroup, Times;
    TimesTimes(g, j, k, e);
    TimesTimes(g, k, j, e);
    assert j * k == k * j;
  }

  lemma {:induction false} TimesZero<E(!new)>(g: Group<E>, k: nat)
    requires IsGroup(g)
    ensures Times(g, k, g.zero) == g.zero
  {
    hide IsGroup;
    if k > 0 {
      TimesZero(g, k - 1);
      Identity(g, g.zero);
    }
  }

  lemma OrderTimes<E(!new)>(g: Group<E>, e: E)
    requires IsGroup(g)
    ensures Times(g, g.order, e) == g.zero
  {
    assert OrderEnds(g, e);
  }

  /** k modulo n. */
  function Residue(k: nat, n: nat): (r: nat)
    requires n > 0
    ensures r < n
  {
    k % n
  }

  lemma ResidueIs(k: nat, n: nat) returns (q: nat)
    requires n > 0
    ensures k == Residue(k, n) + q * n
  {
    q := k / n;
  }

  /** Scalars count modulo the group order. */
  lemma TimesMod<E(!new)>(g: Group<E>, k: nat, e: E)
    requires IsGroup(g)
    ensures g.order > 1 && Times(g, Residue(k, g.order), e) == Times(g, k, e)
  {
    hide Times, IsGroup, Residue;
    OrderAboveOne(g);
    var q := ResidueIs(k, g.order);
    var r := Residue(k, g.order);
    var m := q * g.order;
    assert k == r + m && m >= 0;
    TimesAdd(g, r, m, e);
    TimesTimes(g, q, g.order, e);
    OrderTimes(g, e);
    TimesZero(g, q);
    Identity(g, Times(g, r, e));
  }

  // ---------- the password element ----------

  /** The larger address, then the smaller. */
  function MaxMin(a: Mac, b: Mac): seq<bv8> {
    if Precedes(a, b) then b + a else a + b
  }

  /** The address with the larger number comes first. */
  lemma MaxMinIs(a: Mac, b: Mac)
    ensures Number(MaxMin(a, b)[..6]) >= Number(MaxMin(a, b)[6..])
    ensures (MaxMin(a, b)[..6] == a && MaxMin(a, b)[6..] == b) || (MaxMin(a, b)[..6] == b && MaxMin(a, b)[6..] == a)
  {
    hide Precedes, Number;
    PrecedesIsLess(a, b);
    assert (a + b)[..6] == a && (a + b)[6..] == b && (b + a)[..6] == b && (b + a)[6..] == a;
  }

  lemma MaxMinSymmetric(a: Mac, b: Mac)
    ensures MaxMin(a, b) == MaxMin(b, a)
  {
    PrecedesOneWay(a, b);
  }

  /** The scalar in [1, n - 1] that takes the password token to the password element. */
  function PweScalar<E>(g: Group<E>, h: Hashes<E>, a: Mac, b: Mac): (k: nat)
    requires g.order > 1
    ensures 1 <= k < g.order
  {
    h.ofMacs(MaxMin(a, b)) % (g.order - 1) + 1
  }

  /** A multiple of a point, unless it is the point at infinity, which has no encoding. */
  function PointMul<E(==)>(g: Group<E>, k: nat, e: E): Option<E> {
    if e == g.zero || Times(g, k, e) == g.zero then None else Some(Times(g, k, e))
  }

  function PointAdd<E(==)>(g: Group<E>, x: E, y: E): Option<E> {
    if x == g.zero || y == g.zero || g.add(x, y) == g.zero then None else Some(g.add(x, y))
  }

  function DerivePwe<E(==)>(g: Group<E>, h: Hashes<E>, pt: E, a: Mac, b: Mac): Option<E>
    requires g.order > 1
  {
    PointMul(g, PweScalar(g, h, a, b), pt)
  }

  /** Both ends derive the same element, whichever address comes first. */
  lemma PweOrderIndependent<E>(g: Group<E>, h: Hashes<E>, pt: E, a: Mac, b: Mac)
    requires g.order > 1
    ensures DerivePwe(g, h, pt, a, b) == DerivePwe(g, h, pt, b, a)
  {
    hide MaxMin;
    MaxMinSymmetric(a, b);
  }

  // ---------- the exchange ----------

  predicate ScalarValid<E>(g: Group<E>, k: nat) {
    0 < k < g.order
  }

  /** What one end has after its commit, and the keys once the peer's commit is processed. */
  datatype Committed<E> = Committed(pwe: E, rnd: nat, scalar: nat, element: E)
  datatype Keys<E> = Keys(kck: nat, pmk: nat, pmkid: nat, peerScalar: nat, peerElement: E)

  ghost function Commit<E>(g: Group<E>, pwe: E, rnd: nat, mask: nat): Option<Committed<E>>
    requires g.order > 1
  {
    var scalar := Residue(rnd + mask, g.order);
    if pwe == g.zero || !ScalarValid(g, rnd) || !ScalarValid(g, mask) then None
    else if !ScalarValid(g, scalar) || scalar == 1 then None
    else
      var me := PointMul(g, mask, pwe);
      if me.None? then None else Some(Committed.Committed(pwe, rnd, scalar, g.neg(me.value)))
  }

  /** The shared point: own random times (peer scalar times PWE plus peer element). */
  ghost function SharedPoint<E>(g: Group<E>, c: Committed<E>, scalar: nat, element: E): Option<E> {
    var t := PointMul(g, scalar, c.pwe);
    if t.None? then None
    else
      var t2 := PointAdd(g, t.value, element);
      if t2.None? then None else PointMul(g, c.rnd, t2.value)
  }

  ghost function Process<E>(g: Group<E>, h: Hashes<E>, c: Committed<E>, scalar: nat, element: E): Option<Keys<E>>
    requires g.order > 1
  {
    if !ScalarValid(g, scalar) || element == g.zero then None
    else if scalar == c.scalar && element == c.element then None
    else
      var k := SharedPoint(g, c, scalar, element);
      if k.None? then None
      else
        var ctx := Residue(c.scalar + scalar, g.order);
        var (kck, pmk) := h.keys(h.coordinate(k.value), ctx);
        Some(Keys(kck, pmk, ctx, scalar, element))
  }

  function ConfirmOf<E>(h: Hashes<E>, c: Committed<E>, k: Keys<E>, sendConfirm: nat): nat {
    h.confirm(k.kck, sendConfirm, c.scalar, c.element, k.peerScalar, k.peerElement)
  }

  predicate Verifies<E>(h: Hashes<E>, c: Committed<E>, k: Keys<E>, sendConfirm: nat, code: nat) {
    code == h.confirm(k.kck, sendConfirm, k.peerScalar, k.peerElement, c.scalar, c.element)
  }

  // ---------- agreement ----------

  lemma CommitIs<E>(g: Group<E>, pwe: E, rnd: nat, mask: nat)
    requires g.order > 1 && Commit(g, pwe, rnd, mask).Some?
    ensures var c := Commit(g, pwe, rnd, mask).value;
      c.pwe == pwe && c.rnd == rnd && c.scalar == Residue(rnd + mask, g.order) && c.element == g.neg(Times(g, mask, pwe))
  {
  }

  /** Adding the masked element's inverse to a scalar multiple takes the mask off. */
  lemma MaskRemoved<E(!new)>(g: Group<E>, pwe: E, rnd: nat, mask: nat)
    requires IsGroup(g)
    ensures g.add(Times(g, rnd + mask, pwe), g.neg(Times(g, mask, pwe))) == Times(g, rnd, pwe)
  {
    hide Times, IsGroup, Residue;
    var m := Times(g, mask, pwe);
    TimesAdd(g, rnd, mask, pwe);
    AddSwap(g, Times(g, rnd, pwe), m, g.neg(m));
    Identity(g, m);
    Identity(g, Times(g, rnd, pwe));
  }

  /** scalar * PWE + element is the peer's random times PWE. */
  lemma Unmasked<E(!new)>(g: Group<E>, pwe: E, rnd: nat, mask: nat)
    requires IsGroup(g)
    ensures g.add(Times(g, Residue(rnd + mask, g.order), pwe), g.neg(Times(g, mask, pwe))) == Times(g, rnd, pwe)
  {
    hide Times, IsGroup, Residue;
    TimesMod(g, rnd + mask, pwe);
    MaskRemoved(g, pwe, rnd, mask);
  }

  lemma OrderAboveOne<E(!new)>(g: Group<E>)
    requires IsGroup(g)
    ensures g.order > 1
  {
  }

  /** The shared point is rndA * rndB * PWE. */
  lemma SharedIs<E(!new)>(g: Group<E>, c: Committed<E>, rnd: nat, mask: nat)
    requires IsGroup(g)
    ensures g.order > 1
    ensures var k := SharedPoint(g, c, Residue(rnd + mask, g.order), g.neg(Times(g, mask, c.pwe)));
      k.Some? ==> k.value == Times(g, c.rnd, Times(g, rnd, c.pwe))
  {
    hide Times, IsGroup, Residue;
    OrderAboveOne(g);
    Unmasked(g, c.pwe, rnd, mask);
  }

  lemma ProcessIs<E(!new)>(g: Group<E>, h: Hashes<E>, c: Committed<E>, rnd: nat, mask: nat)
    requires IsGroup(g)
    ensures g.order > 1
    ensures var s, e := Residue(rnd + mask, g.order), g.neg(Times(g, mask, c.pwe));
      var k := Process(g, h, c, s, e);
      k.Some? ==>
        var ctx := Residue(c.scalar + s, g.order);
        var (kck, pmk) := h.keys(h.coordinate(Times(g, c.rnd, Times(g, rnd, c.pwe))), ctx);
        k.value == Keys(kck, pmk, ctx, s, e)
  {
    hide Times, IsGroup, Residue, SharedPoint;
    SharedIs(g, c, rnd, mask);
  }

  /**
   Two ends with the same password token who commit and accept each other's commit hold the same
   confirmation key, master key and key identifier, and each accepts the other's confirm.
   */
  lemma SaeAgreement<E(!new)>(g: Group<E>, h: Hashes<E>, pt: E, macA: Mac, macB: Mac,
                        rndA: nat, maskA: nat, rndB: nat, maskB: nat, sendConfirm: nat)
    requires IsGroup(g)
    requires g.order > 1 && DerivePwe(g, h, pt, macA, macB).Some? && DerivePwe(g, h, pt, macB, macA).Some?
    requires Commit(g, DerivePwe(g, h, pt, macA, macB).value, rndA, maskA).Some?
    requires Commit(g, DerivePwe(g, h, pt, macB, macA).value, rndB, maskB).Some?
    requires var a := Commit(g, DerivePwe(g, h, pt, macA, macB).value, rndA, maskA).value;
      var b := Commit(g, DerivePwe(g, h, pt, macB, macA).value, rndB, maskB).value;
      Process(g, h, a, b.scalar, b.element).Some? && Process(g, h, b, a.scalar, a.element).Some?
    ensures var a := Commit(g, DerivePwe(g, h, pt, macA, macB).value, rndA, maskA).value;
      var b := Commit(g, DerivePwe(g, h, pt, macB, macA).value, rndB, maskB).value;
      var ka := Process(g, h, a, b.scalar, b.element).value;
      var kb := Process(g, h, b, a.scalar, a.element).value;
      && ka.kck == kb.kck && ka.pmk == kb.pmk && ka.pmkid == kb.pmkid
      && Verifies(h, b, kb, sendConfirm, ConfirmOf(h, a, ka, sendConfirm))
      && Verifies(h, a, ka, sendConfirm, ConfirmOf(h, b, kb, sendConfirm))
      && ConfirmOf(h, a, ka, sendConfirm) == h.confirm(ka.kck, sendConfirm, a.scalar, a.element, b.scalar, b.element)
  {
    hide Times, IsGroup, Residue, Commit, Process, DerivePwe;
    PweOrderIndependent(g, h, pt, macA, macB);
    var pwe := DerivePwe(g, h, pt, macA, macB).value;
    CommitIs(g, pwe, rndA, maskA);
    CommitIs(g, pwe, rndB, maskB);
    var a, b := Commit(g, pwe, rndA, maskA).value, Commit(g, pwe, rndB, maskB).value;
    ProcessIs(g, h, a, rndB, maskB);
    ProcessIs(g, h, b, rndA, maskA);
    TimesSwap(g, rndA, rndB, pwe);
    assert a.scalar + b.scalar == b.scalar + a.scalar;
  }

  // ---------- when an honest commit is accepted ----------

  /** No element but zero is annihilated by a scalar in range: the order is prime. */
  ghost predicate PrimeOrder<E(!new)>(g: Group<E>) {
    forall k: nat, e: E :: 0 < k < g.order && e != g.zero ==> Times(g, k, e) != g.zero
  }

  lemma Survives<E(!new)>(g: Group<E>, k: nat, e: E)
    requires PrimeOrder(g) && ScalarValid(g, k) && e != g.zero
    ensures Times(g, k, e) != g.zero
  {
  }

  /** In a group of prime order, an honest peer's commit is accepted unless it mirrors our own. */
  lemma HonestCommitAccepted<E(!new)>(g: Group<E>, h: Hashes<E>, pwe: E, rndA: nat, maskA: nat, rndB: nat, maskB: nat)
    requires IsGroup(g) && g.order > 1 && PrimeOrder(g)
    requires Commit(g, pwe, rndA, maskA).Some? && Commit(g, pwe, rndB, maskB).Some?
    ensures var a, b := Commit(g, pwe, rndA, maskA).value, Commit(g, pwe, rndB, maskB).value;
      Process(g, h, a, b.scalar, b.element).Some? <==> a.scalar != b.scalar || a.element != b.element
  {
    hide Times, IsGroup, Residue, PrimeOrder;
    CommitIs(g, pwe, rndA, maskA);
    CommitIs(g, pwe, rndB, maskB);
    var a, b := Commit(g, pwe, rndA, maskA).value, Commit(g, pwe, rndB, maskB).value;
    NegNonzero(g, Times(g, maskB, pwe)) by { Survives(g, maskB, pwe); }
    Survives(g, b.scalar, pwe);
    Unmasked(g, pwe, rndB, maskB);
    Survives(g, rndB, pwe);
    Survives(g, rndA, Times(g, rndB, pwe));
  }

  lemma NegNonzero<E(!new)>(g: Group<E>, x: E)
    requires IsGroup(g) && x != g.zero
    ensures g.neg(x) != g.zero
  {
    hide IsGroup, Times;
    Identity(g, x);
  }

  /**
   Any commit a peer may send, in a group of prime order: it is accepted exactly when its scalar is in range,
   its element is no zero, it does not mirror our own and its point does not vanish; the keys come from that point.
   */
  lemma PeerCommitIff<E(!new)>(g: Group<E>, h: Hashes<E>, c: Committed<E>, scalar: nat, element: E)
    requires IsGroup(g) && g.order > 1 && PrimeOrder(g) && c.pwe != g.zero && 0 < c.rnd < g.order
    ensures var point := g.add(Times(g, scalar, c.pwe), element);
      var ctx := (c.scalar + scalar) % g.order;
      var (kck, pmk) := h.keys(h.coordinate(Times(g, c.rnd, point)), ctx);
      Process(g, h, c, scalar, element) ==
        if 0 < scalar < g.order && element != g.zero && (scalar != c.scalar || element != c.element) && point != g.zero
        then Some(Keys(kck, pmk, ctx, scalar, element)) else None
  {
    hide Times, IsGroup, PrimeOrder;
    if 0 < scalar < g.order {
      Survives(g, scalar, c.pwe);
      var point := g.add(Times(g, scalar, c.pwe), element);
      if point != g.zero {
        Survives(g, c.rnd, point);
      }
    }
  }

  // ---------- agreement from the inputs alone ----------

  /** What a commit asks of its two randoms. */
  predicate Usable<E>(g: Group<E>, rnd: nat, mask: nat)
    requires g.order > 1
  {
    0 < rnd < g.order && 0 < mask < g.order && (rnd + mask) % g.order > 1
  }

  /** In a group of prime order a commit succeeds exactly on a non-zero password element and usable randoms. */
  lemma CommitIff<E(!new)>(g: Group<E>, pwe: E, rnd: nat, mask: nat)
    requires IsGroup(g) && g.order > 1 && PrimeOrder(g)
    ensures Commit(g, pwe, rnd, mask).Some? <==> pwe != g.zero && Usable(g, rnd, mask)
  {
    hide IsGroup, PrimeOrder, Times;
    if pwe != g.zero && 0 < mask < g.order {
      Survives(g, mask, pwe);
    }
  }

  /** With a password token other than zero there is a password element other than zero. */
  lemma PweExists<E(!new)>(g: Group<E>, h: Hashes<E>, pt: E, a: Mac, b: Mac)
    requires IsGroup(g) && g.order > 1 && PrimeOrder(g) && pt != g.zero
    ensures var k := h.ofMacs(MaxMin(a, b)) % (g.order - 1) + 1;
      DerivePwe(g, h, pt, a, b) == Some(Times(g, k, pt)) && Times(g, k, pt) != g.zero
  {
    hide IsGroup, PrimeOrder, Times;
    Survives(g, PweScalar(g, h, a, b), pt);
  }

  /** Distinct scalars in range give distinct multiples. */
  lemma MultiplesDiffer<E(!new)>(g: Group<E>, j: nat, k: nat, e: E)
    requires IsGroup(g) && PrimeOrder(g) && e != g.zero && j < k < g.order
    ensures Times(g, j, e) != Times(g, k, e)
  {
    hide IsGroup, PrimeOrder, Times;
    if Times(g, j, e) == Times(g, k, e) {
      TimesAdd(g, k - j, j, e);
      var d := Times(g, k - j, e);
      Cancel(g, d, Times(g, j, e));
      Survives(g, k - j, e);
    }
  }

  lemma Cancel<E(!new)>(g: Group<E>, x: E, y: E)
    requires IsGroup(g) && g.add(x, y) == y
    ensures x == g.zero
  {
    hide IsGroup, Times;
    AddSwap(g, x, y, g.neg(y));
    Identity(g, y);
    Identity(g, x);
  }

  lemma NegInjective<E(!new)>(g: Group<E>, x: E, y: E)
    requires IsGroup(g) && g.neg(x) == g.neg(y)
    ensures x == y
  {
    hide IsGroup, Times;
    Identity(g, x);
    Identity(g, y);
    AddSwap(g, x, g.neg(x), y);
    AddSwap(g, g.neg(x), y, y);
    Identity(g, y);
  }

  lemma TakenOff(x: nat, m: nat, n: nat)
    requires x < n
    ensures (Residue(x + m, n) - m) % n == x
  {
    var back: int := 0 - m;
    ModShift(x + m, back, n);
    ModSmall(x, n);
  }

  lemma SumsDiffer(x: nat, y: nat, m: nat, n: nat)
    requires x < n && y < n && Residue(x + m, n) == Residue(y + m, n)
    ensures x == y
  {
    hide Residue;
    TakenOff(x, m, n);
    TakenOff(y, m, n);
  }

  /** Two commits of one password element are the same exactly when both randoms are. */
  lemma SameCommitIff<E(!new)>(g: Group<E>, pwe: E, rndA: nat, maskA: nat, rndB: nat, maskB: nat)
    requires IsGroup(g) && g.order > 1 && PrimeOrder(g) && pwe != g.zero
    requires Usable(g, rndA, maskA) && Usable(g, rndB, maskB)
    ensures Commit(g, pwe, rndA, maskA).Some? && Commit(g, pwe, rndB, maskB).Some?
    ensures var a, b := Commit(g, pwe, rndA, maskA).value, Commit(g, pwe, rndB, maskB).value;
      a.scalar == b.scalar && a.element == b.element <==> rndA == rndB && maskA == maskB
  {
    hide IsGroup, PrimeOrder, Times, Commit;
    CommitIff(g, pwe, rndA, maskA);
    CommitIff(g, pwe, rndB, maskB);
    CommitIs(g, pwe, rndA, maskA);
    CommitIs(g, pwe, rndB, maskB);
    var x, y := Times(g, maskA, pwe), Times(g, maskB, pwe);
    if g.neg(x) == g.neg(y) {
      NegInjective(g, x, y);
      if maskA < maskB {
        MultiplesDiffer(g, maskA, maskB, pwe);
      } else if maskB < maskA {
        MultiplesDiffer(g, maskB, maskA, pwe);
      } else if Residue(rndA + maskA, g.order) == Residue(rndB + maskB, g.order) {
        SumsDiffer(rndA, rndB, maskA, g.order);
      }
    }
  }

  /**
   The whole exchange from its inputs.  In a group of prime order, with one password token and usable
   randoms on both sides, both ends derive the same element, both commit, and - unless the two drew the
   very same randoms - both accept, with keys from the product of both randoms and the sum of all four.
   */
  lemma ExchangeFromInputs<E(!new)>(g: Group<E>, h: Hashes<E>, pt: E, macA: Mac, macB: Mac,
                                    rndA: nat, maskA: nat, rndB: nat, maskB: nat)
    requires IsGroup(g) && g.order > 1 && PrimeOrder(g) && pt != g.zero
    requires Usable(g, rndA, maskA) && Usable(g, rndB, maskB)
    ensures var k := h.ofMacs(MaxMin(macA, macB)) % (g.order - 1) + 1;
      var pwe := Times(g, k, pt);
      && DerivePwe(g, h, pt, macA, macB) == DerivePwe(g, h, pt, macB, macA) == Some(pwe)
      && Commit(g, pwe, rndA, maskA).Some? && Commit(g, pwe, rndB, maskB).Some?
      && var a, b := Commit(g, pwe, rndA, maskA).value, Commit(g, pwe, rndB, maskB).value;
         var ka, kb := Process(g, h, a, b.scalar, b.element), Process(g, h, b, a.scalar, a.element);
         && (ka.Some? <==> rndA != rndB || maskA != maskB) && (kb.Some? <==> ka.Some?)
         && (ka.Some? ==>
               var ctx := Residue(a.scalar + b.scalar, g.order);
               var (kck, pmk) := h.keys(h.coordinate(Times(g, rndA, Times(g, rndB, pwe))), ctx);
               && ka.value == Keys(kck, pmk, ctx, b.scalar, b.element)
               && kb.value == Keys(kck, pmk, ctx, a.scalar, a.element))
  {
    hide Times, IsGroup, Residue, PrimeOrder, Commit, Process, DerivePwe, MaxMin;
    PweExists(g, h, pt, macA, macB);
    PweOrderIndependent(g, h, pt, macA, macB);
    var pwe := Times(g, h.ofMacs(MaxMin(macA, macB)) % (g.order - 1) + 1, pt);
    SameCommitIff(g, pwe, rndA, maskA, rndB, maskB);
    HonestCommitAccepted(g, h, pwe, rndA, maskA, rndB, maskB);
    HonestCommitAccepted(g, h, pwe, rndB, maskB, rndA, maskA);
    CommitIs(g, pwe, rndA, maskA);
    CommitIs(g, pwe, rndB, maskB);
    var a, b := Commit(g, pwe, rndA, maskA).value, Commit(g, pwe, rndB, maskB).value;
    ProcessIs(g, h, a, rndB, maskB);
    ProcessIs(g, h, b, rndA, maskA);
    TimesSwap(g, rndA, rndB, pwe);
    assert a.scalar + b.scalar == b.scalar + a.scalar;
  }

  // ---------- the session record ----------

  class Session<E(==)> {
    const g: Group<E>
    const h: Hashes<E>
    var pwe: E
    var rnd: nat
    var commitScalar: nat
    var commitElement: E
    var peerScalar: nat
    var peerElement: E
    var kck: nat
    var pmk: nat
    var pmkid: nat
    var haveKeys: bool

    ghost predicate Valid()
      reads this
    {
      g.order > 1
    }

    ghost function OwnCommit(): Committed<E>
      reads this
    {
      Committed.Committed(pwe, rnd, commitScalar, commitElement)
    }

    ghost function OwnKeys(): Keys<E>
      reads this
    {
      Keys(kck, pmk, pmkid, peerScalar, peerElement)
    }

    constructor (g: Group<E>, h: Hashes<E>)
      requires g.order > 1
      ensures Valid() && this.g == g && this.h == h && !haveKeys
    {
      this.g, this.h := g, h;
      pwe, rnd, commitScalar, commitElement := g.zero, 0, 0, g.zero;
      peerScalar, peerElement := 0, g.zero;
      kck, pmk, pmkid, haveKeys := 0, 0, 0, false;
    }

    /** The larger address first, found at the first octet that differs. */
    static method OrderMacs(a: Mac, b: Mac) returns (maxmin: seq<bv8>)
      ensures maxmin == MaxMin(a, b)
    {
      var aFirst := true;
      var i := 0;
      while i < 6
        invariant 0 <= i <= 6 && aFirst
        invariant Precedes(a, b) == Precedes(a[i..], b[i..])
      {
        if a[i] != b[i] {
          aFirst := a[i] > b[i];
          break;
        }
        assert a[i..][1..] == a[i + 1..] && b[i..][1..] == b[i + 1..];
        i := i + 1;
      }
      maxmin := if aFirst then a + b else b + a;
    }

    method CommitH2e(pt: E, a: Mac, b: Mac, rnd: nat, mask: nat) returns (ok: bool)
      requires Valid()
      modifies this`pwe, this`rnd, this`commitScalar, this`commitElement, this`haveKeys
      ensures var p := DerivePwe(g, h, pt, a, b);
        if p.None? || Commit(g, p.value, rnd, mask).None? then !ok && haveKeys == old(haveKeys)
        else ok && Commit(g, p.value, rnd, mask) == Some(OwnCommit()) && !haveKeys
    {
      hide Commit, MaxMin, Times;
      ok := false;
      if pt == g.zero {
        return;
      }
      var maxmin := OrderMacs(a, b);
      var k := h.ofMacs(maxmin) % (g.order - 1) + 1;
      var p := PointMul(g, k, pt);
      if p.Some? {
        ok := CommitPwe(p.value, rnd, mask);
      }
    }

    method CommitPwe(pwe: E, rnd: nat, mask: nat) returns (ok: bool)
      requires Valid()
      modifies this`pwe, this`rnd, this`commitScalar, this`commitElement, this`haveKeys
      ensures ok == Commit(g, pwe, rnd, mask).Some?
      ensures ok ==> Commit(g, pwe, rnd, mask) == Some(OwnCommit()) && !haveKeys
      ensures !ok ==> haveKeys == old(haveKeys) && commitElement == old(commitElement)
      ensures !ok && (pwe == g.zero || !ScalarValid(g, rnd) || !ScalarValid(g, mask)) ==> OwnCommit() == old(OwnCommit())
    {
      hide Times, Residue;
      ok := false;
      if pwe == g.zero || !ScalarValid(g, rnd) || !ScalarValid(g, mask) {
        return;
      }
      this.pwe, this.rnd := pwe, rnd;
      commitScalar := Residue(rnd + mask, g.order);
      if !ScalarValid(g, commitScalar) {
        return;
      }
      if commitScalar == 1 {
        return;
      }
      var me := PointMul(g, mask, pwe);
      if me.None? {
        return;
      }
      commitElement := g.neg(me.value);
      haveKeys := false;
      ok := true;
    }

    /** The shared point, if no step of it is the point at infinity. */
    method Shared(scalar: nat, element: E) returns (k: Option<E>)
      requires Valid()
      ensures k == SharedPoint(g, OwnCommit(), scalar, element)
    {
      hide PointMul, PointAdd;
      var t := PointMul(g, scalar, pwe);
      if t.None? {
        return None;
      }
      var t2 := PointAdd(g, t.value, element);
      if t2.None? {
        return None;
      }
      k := PointMul(g, rnd, t2.value);
    }

    /** Derives the keys from the peer's commit; a rejected commit changes nothing. */
    method ProcessCommit(scalar: nat, element: E) returns (ok: bool)
      requires Valid()
      modifies this`kck, this`pmk, this`pmkid, this`peerScalar, this`peerElement, this`haveKeys
      ensures ok == Process(g, h, OwnCommit(), scalar, element).Some?
      ensures ok ==> haveKeys && Process(g, h, OwnCommit(), scalar, element) == Some(OwnKeys())
      ensures !ok ==> haveKeys == old(haveKeys) && OwnKeys() == old(OwnKeys())
    {
      hide Residue, SharedPoint, ScalarValid;
      ok := false;
      if !ScalarValid(g, scalar) || element == g.zero {
        return;
      }
      if scalar == commitScalar && element == commitElement {
        return;
      }
      var k := Shared(scalar, element);
      if k.None? {
        return;
      }
      var ctx := Residue(commitScalar + scalar, g.order);
      var derived := h.keys(h.coordinate(k.value), ctx);
      kck, pmk, pmkid := derived.0, derived.1, ctx;
      peerScalar, peerElement := scalar, element;
      haveKeys := true;
      ok := true;
    }

    method Confirm(sendConfirm: nat) returns (code: nat)
      ensures code == ConfirmOf(h, OwnCommit(), OwnKeys(), sendConfirm)
    {
      code := h.confirm(kck, sendConfirm, commitScalar, commitElement, peerScalar, peerElement);
    }

    /** Nothing verifies before a peer commit has been processed. */
    method VerifyConfirm(sendConfirm: nat, code: nat) returns (ok: bool)
      ensures ok == (haveKeys && Verifies(h, OwnCommit(), OwnKeys(), sendConfirm, code))
    {
      if !haveKeys {
        return false;
      }
      ok := code == h.confirm(kck, sendConfirm, peerScalar, peerElement, commitScalar, commitElement);
    }
  }
}
