/**
 AES Key Wrap in its first form (section 2.2.1 of RFC 3394): a register that is shifted by one block
 in every step.  The code indexes the blocks instead; both forms give the same result.
 */
module KeyWrapShift {
  import opened ModArith
  import opened Octets
  import opened Aes
  import opened KeyWrap

  /** The 64-bit register with the number t added bit by bit. */
  function Marked(a: seq<bv8>, t: nat): seq<bv8>
    requires |a| == 8
  {
    var d := Digits(t, 8);
    seq(8, i requires 0 <= i < 8 => a[i] ^ d[i])
  }

  /** The number added is the step's, as 64 bits with the most significant first. */
  lemma MarkIsNumber(t: nat)
    ensures Number(Digits(t, 8)) == t % 0x1_0000_0000_0000_0000
  {
    DigitsSpell(t, 8);
  }

  /** One shift: the first block is enciphered with the register and goes to the end. */
  function ShiftStep(w: Schedule, s: Registers, n: nat, t: nat): (s': Registers)
    requires n > 0 && s.Valid(n)
    ensures s'.Valid(n)
  {
    var enc := Encrypt(s.a + s.r[..8], w);
    Registers(Marked(enc[..8], t), s.r[8..] + enc[8..])
  }

  function Shifted(w: Schedule, s: Registers, n: nat, m: nat): (s': Registers)
    requires n > 0 && s.Valid(n)
    ensures s'.Valid(n)
    decreases m
  {
    if m == 0 then s else ShiftStep(w, Shifted(w, s, n, m - 1), n, m)
  }

  /** The blocks from k on, then those before. */
  function Turned(r: seq<bv8>, k: nat): seq<bv8>
    requires 8 * k <= |r|
  {
    r[8 * k..] + r[..8 * k]
  }

  lemma MarkedIs(a: seq<bv8>, t: nat)
    requires |a| == 8
    ensures XorCounter(a, t) == Marked(a, t)
  {
    hide Octet;
  }

  /** Replacing block k and turning on by one is one shift of the turned blocks. */
  lemma TurnOn(r: seq<bv8>, n: nat, k: nat, x: seq<bv8>)
    requires |r| == 8 * n && k < n && |x| == 8
    ensures Turned(r, k)[..8] == r[8 * k..8 * k + 8]
    ensures Turned(SetBlock(r, k, x), if k + 1 == n then 0 else k + 1) == Turned(r, k)[8..] + x
  {
    var r' := SetBlock(r, k, x);
    assert r'[8 * (k + 1)..] == r[8 * (k + 1)..] && r'[..8 * (k + 1)] == r[..8 * k] + x;
    assert Turned(r, k)[8..] == r[8 * (k + 1)..] + r[..8 * k];
    if k + 1 == n {
      assert r[8 * (k + 1)..] == [] && r' == r[..8 * k] + x;
    }
  }

  lemma NextTurn(m: nat, n: nat)
    requires n > 0
    ensures m % n < n && (m + 1) % n == if m % n + 1 == n then 0 else m % n + 1
  {
    var q, k := m / n, m % n;
    if k + 1 == n {
      DivModUnique(m + 1, n, q + 1, 0);
    } else {
      DivModUnique(m + 1, n, q, k + 1);
    }
  }

  /** After m steps the shifted blocks are the indexed ones, turned by m. */
  lemma {:induction false} ShiftedIsTurned(w: Schedule, s: Registers, n: nat, m: nat)
    requires n > 0 && s.Valid(n)
    ensures m % n < n
    ensures var x := WrapTo(w, s, n, m); Shifted(w, s, n, m) == Registers(x.a, Turned(x.r, m % n))
    decreases m
  {
    hide Encrypt, XorCounter, SetBlock, Marked, Turned;
    if m == 0 {
      StartTurned(s.r, n);
    } else {
      ShiftedIsTurned(w, s, n, m - 1);
      NextTurn(m - 1, n);
      var x := WrapTo(w, s, n, m - 1);
      var k := (m - 1) % n;
      var enc := Encrypt(x.a + x.r[8 * k..8 * k + 8], w);
      TurnOn(x.r, n, k, enc[8..]);
      MarkedIs(enc[..8], m);
    }
  }

  lemma StartTurned(r: seq<bv8>, n: nat)
    requires n > 0
    ensures 0 % n == 0 && Turned(r, 0) == r
  {
    ModSmall(0, n);
  }

  /** Wrapping is the register of eight octets A6 and the key's blocks, shifted 6n times. */
  lemma WrapIsShift(w: Schedule, key: seq<bv8>)
    requires Wrappable(|key|)
    ensures var n := |key| / 8;
      var start := Registers([0xA6, 0xA6, 0xA6, 0xA6, 0xA6, 0xA6, 0xA6, 0xA6], key);
      && start.Valid(n) && n > 0
      && var s := Shifted(w, start, n, 6 * n); Wrap(w, key) == s.a + s.r
  {
    hide WrapTo, Shifted, Turned;
    WholeBlocks(|key|);
    var n := |key| / 8;
    ShiftedIsTurned(w, Registers(IV, key), n, 6 * n);
    DivModUnique(6 * n, n, 6, 0);
    StartTurned(WrapTo(w, Registers(IV, key), n, 6 * n).r, n);
  }
}
