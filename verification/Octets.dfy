/**
 Octet strings: how the C library compares them, the integers they spell, and an integer's digits.
 */
module Octets {
  import opened ModArith

  /** Whether a comes before b, octet by octet from the first. */
  predicate Precedes(a: seq<bv8>, b: seq<bv8>)
    requires |a| == |b|
  {
    a != [] && (a[0] < b[0] || (a[0] == b[0] && Precedes(a[1..], b[1..])))
  }

  lemma {:induction false} PrecedesOneWay(a: seq<bv8>, b: seq<bv8>)
    requires |a| == |b|
    ensures a == b || Precedes(a, b) == !Precedes(b, a)
  {
    if a != [] {
      PrecedesOneWay(a[1..], b[1..]);
      assert a == [a[0]] + a[1..] && b == [b[0]] + b[1..];
    }
  }

  function Pow256(n: nat): (r: nat)
    ensures r > 0
  {
    if n == 0 then 1 else 0x100 * Pow256(n - 1)
  }

  /** Digit i of n in base 256, the least significant first. */
  function Octet(n: nat, i: nat): bv8 {
    (n / Pow256(i) % 0x100) as bv8
  }

  /** The integer that an octet stands for. */
  function Weight(b: bv8): (n: nat)
    ensures n < 0x100
  {
    b as nat
  }

  lemma WeightOrders(a: bv8, b: bv8)
    ensures (a < b <==> Weight(a) < Weight(b)) && (a == b <==> Weight(a) == Weight(b))
  {
  }

  /** The big-endian integer that octets spell. */
  function Number(s: seq<bv8>): (n: nat)
    decreases |s|
  {
    if s == [] then 0 else 0x100 * Number(s[..|s| - 1]) + Weight(s[|s| - 1])
  }

  /** The first octet weighs most. */
  lemma {:induction false} NumberFirst(s: seq<bv8>)
    requires s != []
    ensures Number(s) == Weight(s[0]) * Pow256(|s| - 1) + Number(s[1..])
    decreases |s|
  {
    hide Weight;
    if |s| > 1 {
      var front, rest := s[..|s| - 1], s[1..];
      NumberFirst(front);
      assert rest[..|rest| - 1] == front[1..] && rest[|rest| - 1] == s[|s| - 1];
      ScaleUp(Weight(s[0]), Pow256(|s| - 2), Number(front[1..]));
    } else {
      assert s[1..] == [] && s[..0] == [];
    }
  }

  lemma ScaleUp(x: nat, w: nat, y: nat)
    ensures 0x100 * (x * w + y) == x * (0x100 * w) + 0x100 * y
  {
    MulAssoc(x, 0x100, w);
  }

  lemma {:induction false} NumberBelow(s: seq<bv8>)
    ensures Number(s) < Pow256(|s|)
    decreases |s|
  {
    hide Weight;
    if s != [] {
      NumberBelow(s[..|s| - 1]);
    }
  }

  /** Comparing octet by octet from the first compares the numbers. */
  lemma {:induction false} PrecedesIsLess(a: seq<bv8>, b: seq<bv8>)
    requires |a| == |b|
    ensures Precedes(a, b) <==> Number(a) < Number(b)
    decreases |a|
  {
    hide Weight, Number;
    if a == [] {
      assert Number(a) == Number(b) by { assert a == b; }
    } else {
      PrecedesIsLess(a[1..], b[1..]);
      NumberFirst(a);
      NumberFirst(b);
      NumberBelow(a[1..]);
      NumberBelow(b[1..]);
      WeightOrders(a[0], b[0]);
      LeadingDecides(Weight(a[0]), Weight(b[0]), Number(a[1..]), Number(b[1..]), Pow256(|a| - 1));
    }
  }

  lemma LeadingDecides(x: nat, y: nat, m: nat, n: nat, w: nat)
    requires m < w && n < w
    ensures x * w + m < y * w + n <==> x < y || (x == y && m < n)
  {
    Distribute(y, x, w);
    if x < y {
      MulAtLeast(y - x, w);
    } else if y < x {
      Distribute(x, y, w);
      MulAtLeast(x - y, w);
    }
  }

  /** The lowest len digits of n in base 256, the most significant first. */
  function Digits(n: nat, len: nat): (s: seq<bv8>)
    ensures |s| == len
  {
    seq(len, i requires 0 <= i < len => Octet(n, len - 1 - i))
  }

  lemma DigitWeight(n: nat, i: nat)
    ensures Weight(Octet(n, i)) == n / Pow256(i) % 0x100
  {
    hide Pow256;
    OfByte(n / Pow256(i) % 0x100);
  }

  lemma OfByte(x: nat)
    requires x < 0x100
    ensures Weight(x as bv8) == x
  {
  }

  lemma HigherDigit(n: nat, i: nat)
    ensures Octet(n, i + 1) == Octet(n / 0x100, i)
  {
    DivTwice(n, Pow256(i));
  }

  lemma DigitsShift(n: nat, len: nat)
    requires len > 0
    ensures Digits(n, len)[..len - 1] == Digits(n / 0x100, len - 1)
  {
    hide Octet;
    forall i | 0 <= i < len - 1
      ensures Digits(n, len)[i] == Digits(n / 0x100, len - 1)[i]
    {
      HigherDigit(n, len - 2 - i);
    }
  }

  /** The digits of a number spell it, up to what fits. */
  lemma {:induction false} DigitsSpell(n: nat, len: nat)
    ensures Number(Digits(n, len)) == n % Pow256(len)
    decreases len
  {
    hide Octet, Weight;
    if len == 0 {
      ModSmall(0, Pow256(0));
    } else {
      DigitsSpell(n / 0x100, len - 1);
      DigitsShift(n, len);
      DigitWeight(n, 0);
      Peel(n, Pow256(len - 1));
    }
  }

  lemma DivTwice(n: nat, w: nat)
    requires w > 0
    ensures n / (0x100 * w) == n / 0x100 / w
  {
    Peeled(n, w);
  }

  lemma Peel(n: nat, w: nat)
    requires w > 0
    ensures 0x100 * (n / 0x100 % w) + n % 0x100 == n % (0x100 * w)
  {
    Peeled(n, w);
  }

  lemma Peeled(n: nat, w: nat)
    requires w > 0
    ensures n / (0x100 * w) == n / 0x100 / w && n % (0x100 * w) == 0x100 * (n / 0x100 % w) + n % 0x100
  {
    var q := n / 0x100;
    var q', r' := q / w, q % w;
    assert q == q' * w + r';
    MulAssoc(q', 0x100, w);
    assert q' * (0x100 * w) == 0x100 * (q' * w);
    DivModUnique(n, 0x100 * w, q', 0x100 * r' + n % 0x100);
  }

  lemma SliceOfSlice<T>(s: seq<T>, lo: nat, hi: nat, a: nat, b: nat)
    requires lo <= hi <= |s| && a <= b <= hi - lo
    ensures s[lo..hi][a..b] == s[lo + a..lo + b]
  {
    var x, y := s[lo..hi][a..b], s[lo + a..lo + b];
    forall k | 0 <= k < |x|
      ensures x[k] == y[k]
    {
      assert s[lo..hi][a + k] == s[lo + a + k];
    }
    assert x == y;
  }
}
