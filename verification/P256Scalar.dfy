/**
 Reductions: byte strings of up to 48 octets modulo the field prime, and scalars modulo the group
 order n and modulo n - 1.
 */
module P256Scalar {
  import opened Words
  import opened ModArith
  import opened Limbs
  import opened Octets
  import opened P256Repr
  import opened P256Field
  import opened P256Elem
  import opened P256Bytes

  const N_LIMBS: seq<u32> := [0xfc632551, 0xf3b9cac2, 0xa7179e84, 0xbce6faad, 0xffffffff, 0xffffffff, 0x00000000, 0xffffffff]
  const N_MINUS_1: seq<u32> := [0xfc632550, 0xf3b9cac2, 0xa7179e84, 0xbce6faad, 0xffffffff, 0xffffffff, 0x00000000, 0xffffffff]

  /** The order of the P-256 group. */
  const N: nat := 0xffffffff_00000000_ffffffff_ffffffff_bce6faad_a7179e84_f3b9cac2_fc632551

  lemma OrderTables()
    ensures Val(N_LIMBS) == N && Val(N_MINUS_1) == N - 1
  {
    ValEight(N_LIMBS);
    ValEight(N_MINUS_1);
  }

  /** One subtraction reduces anything below twice the modulus. */
  lemma ReducedOnce(v: nat, m: nat, r: nat)
    requires 0 < m && v < 2 * m
    requires r == if v >= m then v - m else v
    ensures r == v % m
  {
    if v >= m {
      ModMinus(v, m);
    }
    ModSmall(r, m);
  }

  /** r := a mod P, for any 256-bit a. */
  method FeReduceOnce(r: array<u32>, a: array<u32>)
    requires r.Length == a.Length == 8
    modifies r
    ensures Val(r[..]) == old(Val(a[..])) % P()
  {
    hide Val, P, R, Base;
    ghost var v := Val(a[..]);
    ValBelowR(a[..]);
    PFacts();
    PIsTable();
    assert a[..8] == a[..];
    var p := Load(P_LIMBS);
    CondSubMod(r, a, 0, p);
    ReducedOnce(v, P(), Val(r[..]));
  }

  /** A 32-byte buffer holding b[off..off+n] right-aligned after zeros. */
  method RightAlign(b: array<u8>, off: nat, n: nat) returns (pad: array<u8>)
    requires n <= 32 && off + n <= b.Length
    ensures fresh(pad) && pad.Length == 32
    ensures BeVal(pad[0..32]) == BeVal(b[off..off + n])
  {
    hide BeVal;
    pad := new u8[32](_ => 0);
    forall i | 0 <= i < n {
      pad[32 - n + i] := b[off + i];
    }
    assert pad[32 - n..] == b[off..off + n];
    assert pad[0..32] == pad[..];
    Aligned(pad[..], n);
  }

  /** Zeros in front do not change the value. */
  lemma Aligned(pad: seq<u8>, n: nat)
    requires n <= |pad| && forall i :: 0 <= i < |pad| - n ==> pad[i] == 0
    ensures BeVal(pad) == BeVal(pad[|pad| - n..])
  {
    hide BeVal, Pow256;
    var zeros, tail := pad[..|pad| - n], pad[|pad| - n..];
    assert pad == zeros + tail;
    BeZeros(zeros);
    BeAppend(zeros, tail);
  }

  /** Splitting off the low 32 bytes splits the value at 2^256. */
  lemma WideValue(s: seq<u8>, h: nat)
    requires |s| == h + 32
    ensures BeVal(s) == BeVal(s[..h]) * R() + BeVal(s[h..])
  {
    hide BeVal, Pow256, R, Base;
    assert s == s[..h] + s[h..];
    BeAppend(s[..h], s[h..]);
    BaseIsPow256(8);
    RIsBase();
  }

  /** out := the big-endian integer `input` modulo P, for 1 to 48 bytes. */
  method ReduceModP(input: array<u8>, out: array<u8>) returns (ok: bool)
    requires out.Length == 32 && input != out
    modifies out
    ensures ok <==> 1 <= input.Length <= 48
    ensures ok ==> BeVal(out[..]) == BeVal(input[..]) % P()
    ensures !ok ==> out[..] == old(out[..])
  {
    hide Val, BeVal, P;
    var len := input.Length;
    if len == 0 || len > 48 {
      return false;
    }
    ok := true;
    var lo, red := new u32[8], new u32[8];
    if len <= 32 {
      var pad := RightAlign(input, 0, len);
      BeToFe(lo, pad, 0);
      FeReduceOnce(red, lo);
      FeToBe(out, 0, red);
      assert out[0..32] == out[..] && input[0..len] == input[..];
    } else {
      ReduceWide(input, out);
    }
  }

  method ReduceWide(input: array<u8>, out: array<u8>)
    requires 32 < input.Length <= 48 && out.Length == 32 && input != out
    modifies out
    ensures BeVal(out[..]) == BeVal(input[..]) % P()
  {
    hide Val, BeVal, P, R;
    var h := input.Length - 32;
    ghost var s := input[..];
    assert s[..h] == input[0..h] && s[h..] == input[h..h + 32];
    WideValue(s, h);
    var lo, hi, res := new u32[8], new u32[8], new u32[8];
    var hpad := RightAlign(input, 0, h);
    BeToFe(hi, hpad, 0);
    BeToFe(lo, input, h);
    FoldHigh(res, hi, lo);
    FeToBe(out, 0, res);
    assert out[0..32] == out[..];
  }

  /** res := hi * 2^256 + lo mod P: entering Montgomery form is the multiplication by 2^256. */
  method FoldHigh(res: array<u32>, hi: array<u32>, lo: array<u32>)
    requires res.Length == hi.Length == lo.Length == 8
    modifies res
    ensures Val(res[..]) == old(Val(hi[..]) * R() + Val(lo[..])) % P()
  {
    hide Val, P, R, Elem, IsElem;
    ghost var h, l := Val(hi[..]), Val(lo[..]);
    var red, hiR := new u32[8], new u32[8];
    FeReduceOnce(red, lo);
    FeToMont(hiR, hi);
    FeAdd(res, hiR, red);
    ModAdd(h * R(), l, P());
  }

  /** t := x + y mod n, for sums below 2n. */
  method AddModN(t: array<u32>, x: array<u32>, y: array<u32>)
    requires t.Length == x.Length == y.Length == 8 && t != y
    modifies t
    ensures var s := old(Val(x[..]) + Val(y[..])); s < 2 * N ==> Val(t[..]) == s % N
  {
    hide Val, R, Base;
    ghost var s := Val(x[..]) + Val(y[..]);
    var c := AddCarry(t, x, y, 0);
    assert t[..8] == t[..];
    ValBelowR(t[..]);
    RIsBase();
    OrderTables();
    var n := Load(N_LIMBS);
    ghost var low := Val(t[..]);
    CondSubMod(t, t, c, n);
    SumModN(s, low, c, Val(t[..]));
  }

  lemma SumModN(s: nat, low: nat, c: u32, r: nat)
    requires s == low + c * R() && c <= 1 && low < R()
    requires r == if c == 1 then low - N + (if low < N then R() else 0) else if low >= N then low - N else low
    ensures s < 2 * N ==> r == s % N
  {
    RIsBase();
    if s < 2 * N {
      ReducedOnce(s, N, r);
    }
  }

  /** out := (a + b) mod n; exact for a, b below n. */
  method ScalarAddN(a: array<u8>, b: array<u8>, out: array<u8>)
    requires a.Length == b.Length == out.Length == 32
    modifies out
    ensures var s := old(BeVal(a[..]) + BeVal(b[..])); s < 2 * N ==> BeVal(out[..]) == s % N
  {
    hide Val, BeVal;
    assert a[0..32] == a[..] && b[0..32] == b[..];
    var x, y, t := new u32[8], new u32[8], new u32[8];
    BeToFe(x, a, 0);
    BeToFe(y, b, 0);
    AddModN(t, x, y);
    FeToBe(out, 0, t);
    assert out[0..32] == out[..];
  }

  /** out := (v mod (n - 1)) + 1, always in [1, n - 1]. */
  method ScalarReduce(input: array<u8>, out: array<u8>)
    requires input.Length == out.Length == 32
    modifies out
    ensures BeVal(out[..]) == old(BeVal(input[..])) % (N - 1) + 1
    ensures 1 <= BeVal(out[..]) <= N - 1
  {
    hide Val, BeVal;
    assert input[0..32] == input[..];
    var v := new u32[8];
    BeToFe(v, input, 0);
    ReduceOnce(v);
    AddOne(v);
    FeToBe(out, 0, v);
    assert out[0..32] == out[..];
  }

  /** v := v mod (n - 1), by one subtraction. */
  method ReduceOnce(v: array<u32>)
    requires v.Length == 8
    modifies v
    ensures Val(v[..]) == old(Val(v[..])) % (N - 1)
  {
    hide Val, R, Base;
    ghost var w := Val(v[..]);
    assert v[..8] == v[..];
    ValBelowR(v[..]);
    OrderTables();
    OrderBelowR();
    var m := Load(N_MINUS_1);
    CondSubMod(v, v, 0, m);
    ReducedOnce(w, N - 1, Val(v[..]));
  }

  lemma OrderBelowR()
    ensures N < R() < 2 * (N - 1)
  {
    RIsBase();
  }

  /** v := v + 1, for v below n - 1. */
  method AddOne(v: array<u32>)
    requires v.Length == 8 && Val(v[..]) < N - 1
    modifies v
    ensures Val(v[..]) == old(Val(v[..])) + 1
  {
    hide Val, R, Base;
    var zero := new u32[8](_ => 0);
    ValZero(zero[..]);
    RIsBase();
    ghost var u := Val(v[..]);
    var c := AddCarry(v, v, zero, 1);
    ValBelowR(v[..]);
    NoCarry(Val(v[..]), c, u);
  }

  lemma NoCarry(v: nat, c: u32, u: nat)
    requires u < N - 1 && v < R() && c <= 1 && v + c * R() == u + 1
    ensures v == u + 1
  {
    RIsBase();
  }

  /** A private scalar is usable when it lies in [1, n - 1]. */
  method ScalarInRange(k: array<u8>) returns (ok: bool)
    requires k.Length == 32
    ensures ok <==> 1 <= BeVal(k[..]) < N
  {
    hide Val, BeVal;
    assert k[0..32] == k[..];
    var s := new u32[8];
    BeToFe(s, k, 0);
    var z := FeIsZero(s);
    if z {
      return false;
    }
    var n := Load(N_LIMBS);
    OrderTables();
    var c := Compare(s, n);
    ok := c < 0;
  }
}
