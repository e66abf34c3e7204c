/**
 The in-place block routines: each loop over the 16-byte state is shown to compute its state
 function, and the two routines to compute Encrypt and Decrypt.  Input and output may be one array.
 */
module AesBlock {
  import opened AesLayers
  import opened Gf256
  import opened Aes

  method AddRoundKeyLoop(s: array<bv8>, w: array<bv32>, round: nat)
    requires s.Length == 16 && w.Length == 44 && round <= 10
    modifies s
    ensures s[..] == AddRoundKey(old(s[..]), w[..], round)
  {
    hide KeyByte;
    ghost var s0: Block, want := s[..], AddRoundKey(s[..], w[..], round);
    for c := 0 to 4
      invariant forall k :: 0 <= k < 4 * c ==> s[k] == want[k]
      invariant forall k :: 4 * c <= k < 16 ==> s[k] == s0[k]
    {
      for r := 0 to 4
        invariant forall k :: 0 <= k < 4 * c + r ==> s[k] == want[k]
        invariant forall k :: 4 * c + r <= k < 16 ==> s[k] == s0[k]
      {
        ghost var i := 4 * c + r;
        assert i / 4 == c && i % 4 == r;
        s[4 * c + r] := s[4 * c + r] ^ KeyByte(w[4 * round + c], r);
      }
    }
  }

  method SubBytesLoop(s: array<bv8>)
    requires s.Length == 16
    modifies s
    ensures s[..] == SubBytes(old(s[..]))
  {
    hide Sbox;
    ghost var s0: Block := s[..];
    for i := 0 to 16
      invariant forall k :: 0 <= k < i ==> s[k] == Sbox(s0[k])
      invariant forall k :: i <= k < 16 ==> s[k] == s0[k]
    {
      s[i] := Sbox(s[i]);
    }
  }

  method InvSubBytesLoop(s: array<bv8>)
    requires s.Length == 16
    modifies s
    ensures s[..] == InvSubBytes(old(s[..]))
  {
    hide InvSbox;
    ghost var s0: Block := s[..];
    for i := 0 to 16
      invariant forall k :: 0 <= k < i ==> s[k] == InvSbox(s0[k])
      invariant forall k :: i <= k < 16 ==> s[k] == s0[k]
    {
      s[i] := InvSbox(s[i]);
    }
  }

  method CopyBlock(dst: array<bv8>, src: array<bv8>)
    requires dst.Length == src.Length == 16
    modifies dst
    ensures dst[..] == old(src[..])
  {
    forall i | 0 <= i < 16 {
      dst[i] := src[i];
    }
  }

  method ShiftRowsLoop(s: array<bv8>)
    requires s.Length == 16
    modifies s
    ensures s[..] == ShiftRows(old(s[..]))
  {
    hide ShiftRows;
    ghost var s0: Block := s[..];
    var t := new bv8[16];
    for col := 0 to 4
      invariant s[..] == s0
      invariant forall k :: 0 <= k < 4 * col ==> t[k] == ShiftRows(s0)[k]
    {
      for r := 0 to 4
        invariant s[..] == s0
        invariant forall k :: 0 <= k < 4 * col + r ==> t[k] == ShiftRows(s0)[k]
      {
        ShiftedAt(s0, col, r);
        t[4 * col + r] := s[4 * ((col + r) % 4) + r];
      }
    }
    CopyBlock(s, t);
  }

  method InvShiftRowsLoop(s: array<bv8>)
    requires s.Length == 16
    modifies s
    ensures s[..] == InvShiftRows(old(s[..]))
  {
    hide InvShiftRows;
    ghost var s0: Block := s[..];
    var t := new bv8[16];
    for col := 0 to 4
      invariant s[..] == s0
      invariant forall k :: 0 <= k < 4 * col ==> t[k] == InvShiftRows(s0)[k]
    {
      for r := 0 to 4
        invariant s[..] == s0
        invariant forall k :: 0 <= k < 4 * col + r ==> t[k] == InvShiftRows(s0)[k]
      {
        ShiftedAt(s0, col, r);
        t[4 * col + r] := s[4 * ((col - r) % 4) + r];
      }
    }
    CopyBlock(s, t);
  }

  /** The first n columns hold their final values and the others their first ones. */
  ghost predicate ColumnsDone(s: seq<bv8>, s0: Block, want: Block, n: nat) {
    && |s| == 16
    && (forall k :: 0 <= k < 16 && k < 4 * n ==> s[k] == want[k])
    && (forall k :: 4 * n <= k < 16 ==> s[k] == s0[k])
  }

  lemma ColumnStored(s: seq<bv8>, s0: Block, want: Block, c: nat, v0: bv8, v1: bv8, v2: bv8, v3: bv8)
    requires c < 4 && ColumnsDone(s, s0, want, c)
    requires v0 == want[4 * c] && v1 == want[4 * c + 1] && v2 == want[4 * c + 2] && v3 == want[4 * c + 3]
    ensures ColumnsDone(s[4 * c := v0][4 * c + 1 := v1][4 * c + 2 := v2][4 * c + 3 := v3], s0, want, c + 1)
  {
  }

  // The column formulas in the order the loops add them up, against the rows of the matrices.

  lemma RowFormulas(a0: bv8, a1: bv8, a2: bv8, a3: bv8)
    ensures Add4(Xtime(a0), Add(Xtime(a1), a1), a2, a3) == MixByte(a0, a1, a2, a3, 0)
    ensures Add4(a0, Xtime(a1), Add(Xtime(a2), a2), a3) == MixByte(a0, a1, a2, a3, 1)
    ensures Add4(a0, a1, Xtime(a2), Add(Xtime(a3), a3)) == MixByte(a0, a1, a2, a3, 2)
    ensures Add4(Add(Xtime(a0), a0), a1, a2, Xtime(a3)) == MixByte(a0, a1, a2, a3, 3)
  {
    hide Xtime, Add, Add4;
    Rotations(Xtime(a1), Add(Xtime(a2), a2), a3, a0);
    Rotations(Xtime(a2), Add(Xtime(a3), a3), a0, a1);
    Rotations(Xtime(a3), Add(Xtime(a0), a0), a1, a2);
  }

  lemma InvRowFormulas(a0: bv8, a1: bv8, a2: bv8, a3: bv8)
    ensures Add4(GfMul(a0, 14), GfMul(a1, 11), GfMul(a2, 13), GfMul(a3, 9)) == InvMixByte(a0, a1, a2, a3, 0)
    ensures Add4(GfMul(a0, 9), GfMul(a1, 14), GfMul(a2, 11), GfMul(a3, 13)) == InvMixByte(a0, a1, a2, a3, 1)
    ensures Add4(GfMul(a0, 13), GfMul(a1, 9), GfMul(a2, 14), GfMul(a3, 11)) == InvMixByte(a0, a1, a2, a3, 2)
    ensures Add4(GfMul(a0, 11), GfMul(a1, 13), GfMul(a2, 9), GfMul(a3, 14)) == InvMixByte(a0, a1, a2, a3, 3)
  {
    hide GfMul, Add4;
    Rotations(GfMul(a1, 14), GfMul(a2, 11), GfMul(a3, 13), GfMul(a0, 9));
    Rotations(GfMul(a2, 14), GfMul(a3, 11), GfMul(a0, 13), GfMul(a1, 9));
    Rotations(GfMul(a3, 14), GfMul(a0, 11), GfMul(a1, 13), GfMul(a2, 9));
  }

  lemma ColumnFormulas(s: Block, c: nat)
    requires c < 4
    ensures var p, m := 4 * c, MixColumns(s);
            var a0, a1, a2, a3 := s[p], s[p + 1], s[p + 2], s[p + 3];
            && Add4(Xtime(a0), Add(Xtime(a1), a1), a2, a3) == m[p]
            && Add4(a0, Xtime(a1), Add(Xtime(a2), a2), a3) == m[p + 1]
            && Add4(a0, a1, Xtime(a2), Add(Xtime(a3), a3)) == m[p + 2]
            && Add4(Add(Xtime(a0), a0), a1, a2, Xtime(a3)) == m[p + 3]
  {
    hide *;
    MixedColumn(s, c, 0);
    MixedColumn(s, c, 1);
    MixedColumn(s, c, 2);
    MixedColumn(s, c, 3);
    RowFormulas(s[4 * c], s[4 * c + 1], s[4 * c + 2], s[4 * c + 3]);
  }

  lemma InvColumnFormulas(s: Block, c: nat)
    requires c < 4
    ensures var p, m := 4 * c, InvMixColumns(s);
            var a0, a1, a2, a3 := s[p], s[p + 1], s[p + 2], s[p + 3];
            && Add4(GfMul(a0, 14), GfMul(a1, 11), GfMul(a2, 13), GfMul(a3, 9)) == m[p]
            && Add4(GfMul(a0, 9), GfMul(a1, 14), GfMul(a2, 11), GfMul(a3, 13)) == m[p + 1]
            && Add4(GfMul(a0, 13), GfMul(a1, 9), GfMul(a2, 14), GfMul(a3, 11)) == m[p + 2]
            && Add4(GfMul(a0, 11), GfMul(a1, 13), GfMul(a2, 9), GfMul(a3, 14)) == m[p + 3]
  {
    hide *;
    MixedColumn(s, c, 0);
    MixedColumn(s, c, 1);
    MixedColumn(s, c, 2);
    MixedColumn(s, c, 3);
    InvRowFormulas(s[4 * c], s[4 * c + 1], s[4 * c + 2], s[4 * c + 3]);
  }

  method MixColumnsLoop(s: array<bv8>)
    requires s.Length == 16
    modifies s
    ensures s[..] == MixColumns(old(s[..]))
  {
    hide Xtime, Add, Add4, MixColumns, ColumnsDone;
    ghost var s0: Block, want := s[..], MixColumns(s[..]);
    NoColumns(s0, want);
    for col := 0 to 4
      invariant ColumnsDone(s[..], s0, want, col)
    {
      var p := 4 * col;
      var a0, a1, a2, a3 := s[p], s[p + 1], s[p + 2], s[p + 3];
      NextColumn(s[..], s0, want, col);
      ColumnFormulas(s0, col);
      ghost var before := s[..];
      s[p] := Add4(Xtime(a0), Add(Xtime(a1), a1), a2, a3);
      s[p + 1] := Add4(a0, Xtime(a1), Add(Xtime(a2), a2), a3);
      s[p + 2] := Add4(a0, a1, Xtime(a2), Add(Xtime(a3), a3));
      s[p + 3] := Add4(Add(Xtime(a0), a0), a1, a2, Xtime(a3));
      assert s[..] == before[p := s[p]][p + 1 := s[p + 1]][p + 2 := s[p + 2]][p + 3 := s[p + 3]];
      ColumnStored(before, s0, want, col, s[p], s[p + 1], s[p + 2], s[p + 3]);
    }
    AllColumns(s[..], s0, want);
  }

  lemma NoColumns(s0: Block, want: Block)
    ensures ColumnsDone(s0, s0, want, 0)
  {
  }

  lemma NextColumn(s: seq<bv8>, s0: Block, want: Block, c: nat)
    requires c < 4 && ColumnsDone(s, s0, want, c)
    ensures |s| == 16
    ensures s[4 * c] == s0[4 * c] && s[4 * c + 1] == s0[4 * c + 1]
    ensures s[4 * c + 2] == s0[4 * c + 2] && s[4 * c + 3] == s0[4 * c + 3]
  {
  }

  lemma AllColumns(s: seq<bv8>, s0: Block, want: Block)
    requires ColumnsDone(s, s0, want, 4)
    ensures s == want
  {
  }

  method InvMixColumnsLoop(s: array<bv8>)
    requires s.Length == 16
    modifies s
    ensures s[..] == InvMixColumns(old(s[..]))
  {
    hide GfMul, Add4, InvMixColumns, ColumnsDone;
    ghost var s0: Block, want := s[..], InvMixColumns(s[..]);
    NoColumns(s0, want);
    for col := 0 to 4
      invariant ColumnsDone(s[..], s0, want, col)
    {
      var p := 4 * col;
      var a0, a1, a2, a3 := s[p], s[p + 1], s[p + 2], s[p + 3];
      NextColumn(s[..], s0, want, col);
      InvColumnFormulas(s0, col);
      ghost var before := s[..];
      s[p] := Add4(GfMul(a0, 14), GfMul(a1, 11), GfMul(a2, 13), GfMul(a3, 9));
      s[p + 1] := Add4(GfMul(a0, 9), GfMul(a1, 14), GfMul(a2, 11), GfMul(a3, 13));
      s[p + 2] := Add4(GfMul(a0, 13), GfMul(a1, 9), GfMul(a2, 14), GfMul(a3, 11));
      s[p + 3] := Add4(GfMul(a0, 11), GfMul(a1, 13), GfMul(a2, 9), GfMul(a3, 14));
      assert s[..] == before[p := s[p]][p + 1 := s[p + 1]][p + 2 := s[p + 2]][p + 3 := s[p + 3]];
      ColumnStored(before, s0, want, col, s[p], s[p + 1], s[p + 2], s[p + 3]);
    }
    AllColumns(s[..], s0, want);
  }

  /** Encrypts one block; out may be the input itself. */
  method EncryptBlock(w: array<bv32>, input: array<bv8>, out: array<bv8>)
    requires w.Length == 44 && input.Length == out.Length == 16
    modifies out
    ensures out[..] == Encrypt(old(input[..]), w[..])
  {
    hide AddRoundKey, SubBytes, ShiftRows, MixColumns;
    ghost var b: Block, sched: Schedule := input[..], w[..];
    var s := new bv8[16];
    CopyBlock(s, input);
    AddRoundKeyLoop(s, w, 0);
    for round := 1 to 11
      invariant w[..] == sched
      invariant s[..] == EncState(b, sched, round - 1)
    {
      SubBytesLoop(s);
      ShiftRowsLoop(s);
      if round != 10 {
        MixColumnsLoop(s);
      }
      AddRoundKeyLoop(s, w, round);
    }
    CopyBlock(out, s);
  }

  /** Decrypts one block; out may be the input itself. */
  method DecryptBlock(w: array<bv32>, input: array<bv8>, out: array<bv8>)
    requires w.Length == 44 && input.Length == out.Length == 16
    modifies out
    ensures out[..] == Decrypt(old(input[..]), w[..])
  {
    hide AddRoundKey, InvSubBytes, InvShiftRows, InvMixColumns;
    ghost var b: Block, sched: Schedule := input[..], w[..];
    var s := new bv8[16];
    CopyBlock(s, input);
    AddRoundKeyLoop(s, w, 10);
    for round := 10 downto 0
      invariant w[..] == sched
      invariant s[..] == DecState(b, sched, round)
    {
      InvShiftRowsLoop(s);
      InvSubBytesLoop(s);
      AddRoundKeyLoop(s, w, round);
      if round != 0 {
        InvMixColumnsLoop(s);
      }
    }
    CopyBlock(out, s);
  }
}
