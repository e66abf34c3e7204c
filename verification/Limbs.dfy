/**
 Eight-limb unsigned integers: little-endian arrays of 32-bit words and their value, the borrow
 chain, the comparison built on it, the carry chain, and the branchless conditional subtraction.
 */
module Limbs {
  import opened Words
  import opened ModArith

  /** The weight of limb n. */
  function Base(n: nat): (r: nat)
    ensures r > 0
  {
    if n == 0 then 1 else 0x1_0000_0000 * Base(n - 1)
  }

  /** The integer that a little-endian limb sequence stands for. */
  function Val(s: seq<u32>): nat {
    if s == [] then 0 else Val(s[..|s| - 1]) + s[|s| - 1] * Base(|s| - 1)
  }

  lemma ValSnoc(s: seq<u32>, i: nat)
    requires i < |s|
    ensures Val(s[..i + 1]) == Val(s[..i]) + s[i] * Base(i)
  {
    assert s[..i + 1][..i] == s[..i];
  }

  lemma {:induction false} ValBound(s: seq<u32>)
    ensures Val(s) < Base(|s|)
  {
    if s != [] {
      var n := |s| - 1;
      ValBound(s[..n]);
      MulAtMost(s[n], 0xffff_ffff, Base(n));
    }
  }

  lemma {:induction false} ValZero(s: seq<u32>)
    ensures Val(s) == 0 <==> forall i :: 0 <= i < |s| ==> s[i] == 0
  {
    hide Base;
    if s != [] {
      var n := |s| - 1;
      ValZero(s[..n]);
      ZeroProduct(s[n], Base(n));
      FrontZero(s, n);
    }
  }

  lemma ZeroProduct(x: nat, w: nat)
    requires w > 0
    ensures x * w >= 0 && (x * w == 0 <==> x == 0)
  {
  }

  lemma FrontZero(s: seq<u32>, n: nat)
    requires |s| == n + 1
    ensures (forall i :: 0 <= i < |s| ==> s[i] == 0) <==> (forall i :: 0 <= i < n ==> s[..n][i] == 0) && s[n] == 0
  {
    assert forall i :: 0 <= i < n ==> s[..n][i] == s[i];
  }

  /** Limb sequences of equal length are equal as soon as their values are. */
  lemma {:induction false} ValInjective(s: seq<u32>, t: seq<u32>)
    requires |s| == |t| && Val(s) == Val(t)
    ensures s == t
  {
    if s != [] {
      var n := |s| - 1;
      ValBound(s[..n]);
      ValBound(t[..n]);
      DivModUnique(Val(s), Base(n), s[n], Val(s[..n]));
      DivModUnique(Val(t), Base(n), t[n], Val(t[..n]));
      ValInjective(s[..n], t[..n]);
      assert s == s[..n] + [s[n]] && t == t[..n] + [t[n]];
    }
  }

  /** An array holding one of the constant tables. */
  method Load(s: seq<u32>) returns (a: array<u32>)
    ensures fresh(a) && a[..] == s
  {
    a := new u32[|s|](i requires 0 <= i < |s| => s[i]);
  }

  lemma BorrowWeighted(ri: int, bi: int, br: int, ai: int, br': int, w: int)
    requires ri + bi + br == ai + br' * 0x1_0000_0000
    ensures ri * w + bi * w + br * w == ai * w + br' * (0x1_0000_0000 * w)
  {
  }

  /** The low n limbs of r are those of a - b, up to the borrow br. */
  ghost predicate BorrowSum(r: seq<u32>, a: seq<u32>, b: seq<u32>, n: nat, br: int)
    requires n <= |r| && n <= |a| && n <= |b|
  {
    Val(r[..n]) + Val(b[..n]) == Val(a[..n]) + br * Base(n)
  }

  lemma BorrowLimb(r: seq<u32>, a: seq<u32>, b: seq<u32>, i: nat, br: int, lo: u32, br': int)
    requires i < |r| && i < |a| && i < |b| && BorrowSum(r, a, b, i, br)
    requires lo + b[i] + br == a[i] + br' * 0x1_0000_0000
    ensures BorrowSum(r[i := lo], a, b, i + 1, br')
  {
    hide Val, Base;
    LimbSet(r, i, lo);
    ValSnoc(a, i);
    ValSnoc(b, i);
    BaseNext(i);
    BorrowWeighted(lo, b[i], br, a[i], br', Base(i));
  }

  lemma BaseNext(n: nat)
    ensures Base(n + 1) == 0x1_0000_0000 * Base(n)
  {
  }

  /** Storing limb i adds its weight and leaves the limbs below. */
  lemma LimbSet(r: seq<u32>, i: nat, x: u32)
    requires i < |r|
    ensures r[i := x][..i] == r[..i]
    ensures Val(r[i := x][..i + 1]) == Val(r[..i]) + x * Base(i)
  {
    hide Val, Base;
    assert r[i := x][..i] == r[..i];
    ValSnoc(r[i := x], i);
  }

  /** One wrapped 64-bit subtraction: its low word and its sign bit. */
  lemma BorrowWord(x: u32, y: u32, br: int)
    requires br == 0 || br == 1
    ensures var d := (x - y - br) % 0x1_0000_0000_0000_0000;
            var br' := d / 0x8000_0000_0000_0000 % 2;
            (br' == 0 || br' == 1) && d % 0x1_0000_0000 + y + br == x + br' * 0x1_0000_0000
  {
  }

  lemma BorrowEnds(r: int, a: int, b: int, br: int, w: int)
    requires r + b == a + br * w
    requires br == 0 || br == 1
    requires 0 <= r < w && 0 <= a < w && 0 <= b < w
    ensures br == if a < b then 1 else 0
  {
  }

  lemma BorrowNone(r: seq<u32>, a: seq<u32>, b: seq<u32>)
    ensures BorrowSum(r, a, b, 0, 0)
  {
  }

  lemma BorrowAll(r: seq<u32>, a: seq<u32>, b: seq<u32>, br: int)
    requires |r| == |a| == |b| == 8 && BorrowSum(r, a, b, 8, br) && (br == 0 || br == 1)
    ensures Val(r) == Val(a) - Val(b) + br * Base(8) && br == if Val(a) < Val(b) then 1 else 0
  {
    hide Val, Base;
    assert r[..8] == r && a[..8] == a && b[..8] == b;
    ValBound(a);
    ValBound(b);
    ValBound(r);
    BorrowEnds(Val(r), Val(a), Val(b), br, Base(8));
  }

  /** r := a - b mod 2^256 on the low eight limbs; the result is the borrow. */
  method SubBorrow(r: array<u32>, a: array<u32>, b: array<u32>) returns (borrow: u32)
    requires r.Length == b.Length == 8 <= a.Length
    requires r != a && r != b
    modifies r
    ensures borrow == if Val(a[..8]) < Val(b[..]) then 1 else 0
    ensures Val(r[..]) == Val(a[..8]) - Val(b[..]) + borrow * Base(8)
  {
    hide Val, Base, BorrowSum;
    ghost var va, vb := a[..8], b[..];
    var br: u64 := 0;
    BorrowNone(r[..], va, vb);
    for i := 0 to 8
      invariant br == 0 || br == 1
      invariant a[..8] == va && b[..] == vb
      invariant BorrowSum(r[..], va, vb, i, br)
    {
      assert a[i] == va[i] && b[i] == vb[i];
      ghost var r0, br0 := r[..], br;
      BorrowWord(a[i], b[i], br);
      var d: u64 := (a[i] - b[i] - br) % 0x1_0000_0000_0000_0000;
      r[i] := d % 0x1_0000_0000;
      br := d / 0x8000_0000_0000_0000 % 2;
      ghost var lo: u32 := r[i];
      assert r[..] == r0[i := lo];
      BorrowLimb(r0, va, vb, i, br0, lo, br);
    }
    BorrowAll(r[..], va, vb, br);
    borrow := br;
  }

  /** Three-way comparison from the two borrows. */
  method Compare(a: array<u32>, b: array<u32>) returns (c: int)
    requires a.Length == b.Length == 8
    ensures c == if Val(a[..]) < Val(b[..]) then -1 else if Val(a[..]) > Val(b[..]) then 1 else 0
  {
    hide Val, Base;
    var s := new u32[8];
    assert a[..8] == a[..] && b[..8] == b[..];
    var lt := SubBorrow(s, a, b);
    var gt := SubBorrow(s, b, a);
    c := (gt as int) - (lt as int);
  }

  /** The low n limbs of t are those of a + b + cin, up to the carry c. */
  ghost predicate CarrySum(t: seq<u32>, a: seq<u32>, b: seq<u32>, n: nat, cin: int, c: int)
    requires n <= |t| && n <= |a| && n <= |b|
  {
    Val(t[..n]) + c * Base(n) == Val(a[..n]) + Val(b[..n]) + cin
  }

  lemma CarryLimb(t: seq<u32>, a: seq<u32>, b: seq<u32>, i: nat, cin: int, c: int, lo: u32, c': int)
    requires i < |t| && i < |a| && i < |b| && CarrySum(t, a, b, i, cin, c)
    requires lo + c' * 0x1_0000_0000 == a[i] + b[i] + c
    ensures CarrySum(t[i := lo], a, b, i + 1, cin, c')
  {
    hide Val, Base;
    LimbSet(t, i, lo);
    ValSnoc(a, i);
    ValSnoc(b, i);
    BaseNext(i);
    BorrowWeighted(a[i], b[i], c, lo, c', Base(i));
  }

  lemma CarryNone(t: seq<u32>, a: seq<u32>, b: seq<u32>, cin: int)
    ensures CarrySum(t, a, b, 0, cin, cin)
  {
  }

  lemma CarryAll(t: seq<u32>, a: seq<u32>, b: seq<u32>, cin: int, c: int)
    requires |t| == |a| == |b| == 8 && CarrySum(t, a, b, 8, cin, c)
    ensures Val(t) + c * Base(8) == Val(a) + Val(b) + cin
  {
    hide Val, Base;
    assert t[..8] == t && a[..8] == a && b[..8] == b;
  }

  /** t := a + b + cin mod 2^256; the result is the carry.  t may be a itself. */
  method AddCarry(t: array<u32>, a: array<u32>, b: array<u32>, cin: u32) returns (carry: u32)
    requires t.Length == a.Length == b.Length == 8
    requires t != b && cin <= 1
    modifies t
    ensures carry <= 1
    ensures Val(t[..]) + carry * Base(8) == old(Val(a[..])) + Val(b[..]) + cin
  {
    hide Val, Base, CarrySum;
    ghost var va, vb := a[..], b[..];
    var c: u64 := cin;
    CarryNone(t[..], va, vb, cin);
    for i := 0 to 8
      invariant c <= 1
      invariant b[..] == vb
      invariant forall k :: i <= k < 8 ==> a[k] == va[k]
      invariant CarrySum(t[..], va, vb, i, cin, c)
    {
      assert a[i] == va[i] && b[i] == vb[i];
      ghost var t0, c0 := t[..], c;
      var s: u64 := c + a[i] + b[i];
      t[i] := s % 0x1_0000_0000;
      c := s / 0x1_0000_0000;
      ghost var lo: u32 := t[i];
      assert t[..] == t0[i := lo];
      CarryLimb(t0, va, vb, i, cin, c0, lo, c);
    }
    CarryAll(t[..], va, vb, cin, c);
    carry := c;
  }

  /** r := flag & 1 ? s : t, limb by limb through the mask.  r may be t itself. */
  method SelectLimbs(r: array<u32>, s: array<u32>, t: array<u32>, flag: u32)
    requires r.Length == s.Length == 8 <= t.Length
    requires r != s
    modifies r
    ensures r[..] == old(if flag % 2 == 1 then s[..] else t[..8])
  {
    hide Select, Mask;
    ghost var vs, vt := s[..], t[..8];
    ghost var want := if flag % 2 == 1 then vs else vt;
    var mask := Mask(flag % 2);
    for i := 0 to 8
      invariant s[..] == vs
      invariant forall k :: i <= k < 8 ==> t[k] == vt[k]
      invariant forall k :: 0 <= k < i ==> r[k] == want[k]
    {
      assert s[i] == vs[i];
      MaskSelects(flag % 2, s[i], t[i]);
      r[i] := Select(s[i], t[i], mask);
    }
  }

  /**
   Subtract the modulus when the low bit of the extra carry is set or the eight limbs reach it,
   selecting the difference or the original without a branch.  r may be t itself.
   */
  method CondSubMod(r: array<u32>, t: array<u32>, extraCarry: u32, mod: array<u32>)
    requires r.Length == mod.Length == 8 <= t.Length
    requires r != mod
    modifies r
    ensures var v, m := old(Val(t[..8])), Val(mod[..]);
            Val(r[..]) == if extraCarry % 2 == 1 then v - m + (if v < m then Base(8) else 0)
                          else if v >= m then v - m else v
  {
    hide Val, Base;
    var s := new u32[8];
    var br := SubBorrow(s, t, mod);
    var doSub: u32 := if extraCarry % 2 == 1 || br == 0 then 1 else 0;
    SelectLimbs(r, s, t, doSub);
  }
}
