/**
 The numbers behind the P-256 field code: the prime, the Montgomery radix and its inverse, the
 field operations on residues, and the residue that a Montgomery representative stands for.
 */
module P256Repr {
  import opened Words
  import opened ModArith
  import opened Limbs

  const P_LIMBS: seq<u32> := [0xffffffff, 0xffffffff, 0xffffffff, 0x00000000, 0x00000000, 0x00000000, 0x00000001, 0xffffffff]
  const R_INV_LIMBS: seq<u32> := [0x00000000, 0x00000003, 0xfffffffe, 0x00000001, 0x00000002, 0xfffffffd, 0x00000003, 0xfffffffe]
  const R_QUOT_LIMBS: seq<u32> := [0x00000001, 0x00000000, 0x00000000, 0x00000001, 0x00000000, 0x00000000, 0x00000002, 0xffffffff]

  lemma ValFour(s: seq<u32>)
    requires |s| >= 4
    ensures Val(s[..4]) == s[0] * Base(0) + s[1] * Base(1) + s[2] * Base(2) + s[3] * Base(3)
  {
    hide Base;
    ValSnoc(s, 0); ValSnoc(s, 1); ValSnoc(s, 2); ValSnoc(s, 3);
  }

  lemma ValEight(s: seq<u32>)
    requires |s| == 8
    ensures Val(s) == s[0] * Base(0) + s[1] * Base(1) + s[2] * Base(2) + s[3] * Base(3)
                      + s[4] * Base(4) + s[5] * Base(5) + s[6] * Base(6) + s[7] * Base(7)
  {
    hide Val, Base;
    ValFour(s);
    ValSnoc(s, 4); ValSnoc(s, 5); ValSnoc(s, 6); ValSnoc(s, 7);
    assert s[..8] == s;
  }

  lemma PNumber()
    ensures Val(P_LIMBS) == 0xffffffff_00000001_00000000_00000000_00000000_ffffffff_ffffffff_ffffffff
  {
    ValEight(P_LIMBS);
  }

  /** The field prime 2^256 - 2^224 + 2^192 + 2^96 - 1, as its limb table has it. */
  ghost function P(): (p: nat)
    ensures p > 1
  {
    PNumber();
    Val(P_LIMBS)
  }

  /** The Montgomery radix 2^256. */
  ghost function R(): (r: nat)
    ensures r > 0
  {
    Base(|P_LIMBS|)
  }

  /** The inverse of the radix modulo P, and the quotient that witnesses it. */
  ghost function RInv(): nat {
    Val(R_INV_LIMBS)
  }

  ghost function RQuot(): nat {
    Val(R_QUOT_LIMBS)
  }

  lemma RIsBase()
    ensures R() == Base(8) == 0x1_00000000_00000000_00000000_00000000_00000000_00000000_00000000_00000000
  {
  }

  lemma InverseNumbers()
    ensures RInv() == 0xfffffffe_00000003_fffffffd_00000002_00000001_fffffffe_00000003_00000000
    ensures RQuot() == 0xffffffff_00000002_00000000_00000000_00000001_00000000_00000000_00000001
  {
    ValEight(R_INV_LIMBS);
    ValEight(R_QUOT_LIMBS);
  }

  lemma RInverse()
    ensures R() * RInv() == 1 + RQuot() * P()
  {
    RIsBase();
    PNumber();
    InverseNumbers();
  }

  lemma PIsTable()
    ensures P() == Val(P_LIMBS)
  {
  }

  /** The size and parity of P. */
  lemma PFacts()
    ensures 2 < P() < R() < 2 * P() && P() % 2 == 1
  {
    RIsBase();
    PNumber();
  }

  /** The Montgomery product: x * y divided by 2^256 modulo P. */
  ghost function MontMul(x: nat, y: nat): nat {
    x * y * RInv() % P()
  }

  lemma CancelRadix(t: nat, x: nat, q: nat)
    requires t * R() == x + q * P()
    ensures t % P() == x * RInv() % P()
  {
    hide P, R, RInv, RQuot;
    var k := q * RInv() - t * RQuot();
    RInverse();
    CancelProducts(t, x, q, R(), RInv(), RQuot(), P());
    assert x * RInv() == t + -k * P();
    ModPlusMultiple(t, -k, P());
  }

  lemma CancelProducts(t: int, x: int, q: int, r: int, rinv: int, rq: int, p: int)
    requires t * r == x + q * p
    requires r * rinv == 1 + rq * p
    ensures x * rinv == t - (q * rinv - t * rq) * p
  {
  }

  // ---------- the field and its Montgomery representation ----------

  ghost function FMul(x: nat, y: nat): (r: nat)
    ensures r < P()
  {
    x * y % P()
  }

  ghost function FAdd(x: nat, y: nat): (r: nat)
    ensures r < P()
  {
    (x + y) % P()
  }

  ghost function FSub(x: nat, y: nat): (r: nat)
    ensures r < P()
  {
    (x - y) % P()
  }

  /** The residue that the representative x stands for. */
  ghost function Std(x: nat): (r: nat)
    ensures r < P()
  {
    x * RInv() % P()
  }

  ghost predicate IsElem(s: seq<u32>) {
    |s| == 8 && Val(s) < P()
  }

  ghost function Elem(s: seq<u32>): (r: nat)
    ensures r < P()
  {
    Std(Val(s))
  }

  lemma StdMul(x: nat, y: nat)
    ensures Std(MontMul(x, y)) == FMul(Std(x), Std(y))
  {
    hide P, RInv;
    ModMul(x * y * RInv(), RInv(), P());
    ModMul(x * RInv(), y * RInv(), P());
    Rearrange(x, y, RInv());
  }

  lemma Rearrange(x: int, y: int, z: int)
    ensures (x * y * z) * z == (x * z) * (y * z)
  {
  }

  lemma StdAdd(x: nat, y: nat)
    ensures Std((x + y) % P()) == FAdd(Std(x), Std(y))
  {
    hide P, RInv;
    ModScale(x, y, RInv(), P());
  }

  lemma StdSub(x: nat, y: nat)
    ensures Std((x - y) % P()) == FSub(Std(x), Std(y))
  {
    hide P, RInv;
    ModScale(x, y, RInv(), P());
  }

  /** Multiplying by the radix recovers the representative, so Std loses nothing. */
  lemma StdTimesR(x: nat)
    ensures Std(x) * R() % P() == x % P()
  {
    hide P, R, RInv, RQuot;
    var p, r, rinv, rq := P(), R(), RInv(), RQuot();
    RInverse();
    ModMul(x * rinv, r, p);
    InverseTimes(x, rinv, r, rq, p);
    ModPlusMultiple(x, x * rq, p);
  }

  lemma InverseTimes(x: int, rinv: int, r: int, rq: int, p: int)
    requires r * rinv == 1 + rq * p
    ensures x * rinv * r == x + x * rq * p
  {
    MulAssoc(x, rinv, r);
    assert rinv * r == 1 + rq * p;
    MulAssoc(x, rq, p);
    assert x * (1 + rq * p) == x + x * (rq * p);
  }

  lemma StdInjective(x: nat, y: nat)
    requires x < P() && y < P() && Std(x) == Std(y)
    ensures x == y
  {
    hide P, R, Std;
    StdTimesR(x);
    StdTimesR(y);
    ModSmall(x, P());
    ModSmall(y, P());
  }
}
