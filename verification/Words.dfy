/**
 Machine integers.  Limbs and counters are mathematical integers restricted to their C width, so
 every assignment to one of these types carries the proof that the C expression does not overflow;
 where the C code relies on wrap-around or truncation, the model writes the `%` out.
 */
module Words {

  type u8 = x: int | 0 <= x < 0x100
  type u32 = x: int | 0 <= x < 0x1_0000_0000
  type u64 = x: int | 0 <= x < 0x1_0000_0000_0000_0000

  /** Bitwise conjunction. */
  function And(x: nat, y: nat): nat
    decreases x
  {
    if x == 0 || y == 0 then 0 else x % 2 * (y % 2) + 2 * And(x / 2, y / 2)
  }

  /** Bitwise disjunction. */
  function Or(x: nat, y: nat): nat
    decreases x
  {
    if x == 0 then y
    else if y == 0 then x
    else (if x % 2 + y % 2 > 0 then 1 else 0) + 2 * Or(x / 2, y / 2)
  }

  /** Bitwise exclusive or. */
  function Xor(x: nat, y: nat): nat
    decreases x
  {
    if x == 0 then y
    else if y == 0 then x
    else (x % 2 + y % 2) % 2 + 2 * Xor(x / 2, y / 2)
  }

  lemma OrIsZero(x: nat, y: nat)
    ensures Or(x, y) == 0 <==> x == 0 && y == 0
  {
  }

  lemma XorIsZero(x: nat, y: nat)
    ensures Xor(x, y) == 0 <==> x == y
  {
  }

  function Pow2(n: nat): (r: nat)
    ensures r > 0
  {
    if n == 0 then 1 else 2 * Pow2(n - 1)
  }

  /** The right shift `x >> n`. */
  function Shr(x: nat, n: nat): nat {
    if n == 0 then x else Shr(x, n - 1) / 2
  }

  lemma {:induction false} ShrBound(x: nat, n: nat, m: nat)
    requires n <= m && x < Pow2(m)
    ensures Shr(x, n) < Pow2(m - n)
  {
    if n > 0 {
      ShrBound(x, n - 1, m);
    }
  }

  lemma ShrAll(x: u32, n: nat)
    requires n == 32
    ensures Shr(x, n) == 0
  {
    Pow2At32();
    ShrBound(x, n, n);
  }

  /** The word `(uint32_t)0 - flag`. */
  function Mask(flag: u32): u32 {
    (0 - flag) % 0x1_0000_0000
  }

  /** The branchless selection `(x & mask) | (y & ~mask)` on 32-bit words. */
  function Select(x: u32, y: u32, mask: u32): nat {
    Or(And(x, mask), And(y, 0xffff_ffff - mask))
  }

  lemma {:induction false} AndOnes(x: nat, n: nat)
    requires x < Pow2(n)
    ensures And(x, Pow2(n) - 1) == x
  {
    hide And;
    if x == 0 {
      AndZero(Pow2(n) - 1);
    } else {
      var k := Pow2(n - 1);
      Halves(x, k);
      AndOnes(x / 2, n - 1);
      AndStep(x, k);
    }
  }

  lemma AndZero(y: nat)
    ensures And(0, y) == 0
  {
  }

  lemma Halves(x: nat, k: nat)
    requires x < 2 * k
    ensures x / 2 < k && x == x % 2 + 2 * (x / 2)
  {
  }

  lemma AndStep(x: nat, k: nat)
    requires x > 0 && k > 0
    ensures And(x, 2 * k - 1) == x % 2 + 2 * And(x / 2, k - 1)
  {
    var ones := 2 * k - 1;
    assert ones / 2 == k - 1 && ones % 2 == 1;
  }

  lemma Pow2At32()
    ensures Pow2(32) == 0x1_0000_0000
  {
    assert Pow2(8) == 0x100;
    assert Pow2(16) == 0x1_0000;
    assert Pow2(24) == 0x100_0000;
  }

  /** An all-ones mask selects x, an all-zero mask selects y. */
  lemma MaskSelects(flag: u32, x: u32, y: u32)
    requires flag == 0 || flag == 1
    ensures Select(x, y, Mask(flag)) == if flag == 1 then x else y
  {
    Pow2At32();
    AndOnes(if flag == 1 then x else y, 32);
  }
}
