/**
 Resource-information-container responses: a header element that counts the resources, then for
 each a status and, where the resource is granted, its traffic specification.  The format says
 itself where it ends.
 */
module Ric {
  import opened Wrappers
  import opened Cursor
  import opened Mem

  const MAX_RESOURCES := 4
  const TSPEC_BODY := 55

  datatype TsInfo = TsInfo(trafficType: bool, tsid: bv8, direction: bv8, accessPolicy: bv8, aggregation: bool,
                           apsd: bool, userPriority: bv8, ackPolicy: bv8, schedule: bool)

  /**
   A traffic specification.  The eleven 32-bit fields are, in order: minimum and maximum service
   interval, inactivity, suspension, service start, minimum, mean and peak rate, burst size, delay
   bound, minimum PHY rate.
   */
  datatype Tspec = Tspec(ts: TsInfo, nominalMsdu: bv16, maxMsdu: bv16, words: Eleven, surplusBw: bv16, mediumTime: bv16)
  type Eleven = w: seq<bv32> | |w| == 11 witness seq(11, _ => 0)

  // ---------- traffic-stream information ----------

  /** Every field fits the bits that it is given. */
  predicate TsInRange(i: TsInfo) {
    i.tsid < 16 && i.direction < 4 && i.accessPolicy < 4 && i.userPriority < 8 && i.ackPolicy < 4
  }

  function Bit(b: bool): bv32 {
    if b then 1 else 0
  }

  function TsPack(i: TsInfo): bv32 {
    (Bit(i.trafficType)
     | (((i.tsid & 0x0f) as bv32) << 1) | (((i.direction & 0x03) as bv32) << 5)
     | (((i.accessPolicy & 0x03) as bv32) << 7) | (Bit(i.aggregation) << 9) | (Bit(i.apsd) << 10)
     | (((i.userPriority & 0x07) as bv32) << 11) | (((i.ackPolicy & 0x03) as bv32) << 14)
     | (Bit(i.schedule) << 16)) & 0x00ff_ffff
  }

  function TsUnpack(v: bv32): TsInfo {
    TsInfo(v & 0x1 != 0, ((v >> 1) & 0x0f) as bv8, ((v >> 5) & 0x03) as bv8, ((v >> 7) & 0x03) as bv8,
           (v >> 9) & 0x1 != 0, (v >> 10) & 0x1 != 0, ((v >> 11) & 0x07) as bv8, ((v >> 14) & 0x03) as bv8,
           (v >> 16) & 0x1 != 0)
  }

  /** Packing loses nothing exactly when every field fits its bits. */
  lemma TsRoundTrip(i: TsInfo)
    ensures TsUnpack(TsPack(i)) == i <==> TsInRange(i)
  {
  }

  function Le24(v: bv32): (b: seq<bv8>)
    ensures |b| == 3
  {
    [(v & 0xff) as bv8, ((v >> 8) & 0xff) as bv8, ((v >> 16) & 0xff) as bv8]
  }

  function FromLe24(b: seq<bv8>): bv32
    requires |b| == 3
  {
    (b[0] as bv32) | ((b[1] as bv32) << 8) | ((b[2] as bv32) << 16)
  }

  lemma Le24RoundTrip(v: bv32)
    requires v & 0x00ff_ffff == v
    ensures FromLe24(Le24(v)) == v
  {
  }

  /** Each field at its bit position. */
  lemma TsPackIs(i: TsInfo)
    requires TsInRange(i)
    ensures TsPack(i) == Bit(i.trafficType) + 0x2 * (i.tsid as bv32) + 0x20 * (i.direction as bv32)
                       + 0x80 * (i.accessPolicy as bv32) + 0x200 * Bit(i.aggregation) + 0x400 * Bit(i.apsd)
                       + 0x800 * (i.userPriority as bv32) + 0x4000 * (i.ackPolicy as bv32) + 0x1_0000 * Bit(i.schedule)
  {
  }

  lemma PackFits(i: TsInfo)
    ensures TsPack(i) & 0x00ff_ffff == TsPack(i)
  {
  }

  // ---------- traffic specifications ----------

  function Words(w: seq<bv32>): (b: seq<bv8>)
    ensures |b| == 4 * |w|
  {
    if w == [] then [] else Le32(w[0]) + Words(w[1..])
  }

  function FromWords(b: seq<bv8>, n: nat): (w: seq<bv32>)
    requires |b| == 4 * n
    ensures |w| == n
  {
    if n == 0 then [] else [FromLe32(b[..4])] + FromWords(b[4..], n - 1)
  }

  lemma {:induction false} WordsRoundTrip(w: seq<bv32>)
    ensures FromWords(Words(w), |w|) == w
  {
    hide Le32, FromLe32;
    if w != [] {
      Le32RoundTrip(w[0]);
      WordsRoundTrip(w[1..]);
      assert Words(w)[..4] == Le32(w[0]) && Words(w)[4..] == Words(w[1..]);
    }
  }

  function TspecBody(t: Tspec): (b: seq<bv8>)
    ensures |b| == TSPEC_BODY
  {
    Le24(TsPack(t.ts)) + Le16(t.nominalMsdu) + Le16(t.maxMsdu) + Words(t.words) + Le16(t.surplusBw) + Le16(t.mediumTime)
  }

  /** Where the sizes and the times of a specification are, each least significant octet first. */
  lemma TspecLayout(t: Tspec)
    ensures var b := TspecBody(t);
      && b[3] as bv16 + 0x100 * (b[4] as bv16) == t.nominalMsdu && b[5] as bv16 + 0x100 * (b[6] as bv16) == t.maxMsdu
      && b[51] as bv16 + 0x100 * (b[52] as bv16) == t.surplusBw && b[53] as bv16 + 0x100 * (b[54] as bv16) == t.mediumTime
  {
    hide TsPack, Le24, Words, Le16;
    var b := TspecBody(t);
    SixParts(Le24(TsPack(t.ts)), Le16(t.nominalMsdu), Le16(t.maxMsdu), Words(t.words), Le16(t.surplusBw), Le16(t.mediumTime));
    assert b[3..5][0] == b[3] && b[5..7][0] == b[5] && b[51..53][0] == b[51] && b[53..55][0] == b[53];
    Le16Value(t.nominalMsdu);
    Le16Value(t.maxMsdu);
    Le16Value(t.surplusBw);
    Le16Value(t.mediumTime);
  }

  lemma Le16Value(v: bv16)
    ensures Le16(v)[0] as bv16 + 0x100 * (Le16(v)[1] as bv16) == v
  {
  }

  function ReadTspecBody(b: seq<bv8>): Tspec
    requires |b| == TSPEC_BODY
  {
    Tspec(TsUnpack(FromLe24(b[..3])), FromLe16(b[3..5]), FromLe16(b[5..7]), FromWords(b[7..51], 11),
          FromLe16(b[51..53]), FromLe16(b[53..55]))
  }

  lemma TspecRoundTrip(t: Tspec)
    requires TsInRange(t.ts)
    ensures ReadTspecBody(TspecBody(t)) == t
  {
    hide Le24, FromLe24, Le16, FromLe16, Words, FromWords, TsPack, TsUnpack, TsInRange;
    TsRoundTrip(t.ts);
    PackFits(t.ts);
    Le24RoundTrip(TsPack(t.ts));
    Le16RoundTrip(t.nominalMsdu);
    Le16RoundTrip(t.maxMsdu);
    Le16RoundTrip(t.surplusBw);
    Le16RoundTrip(t.mediumTime);
    WordsRoundTrip(t.words);
    SixParts(Le24(TsPack(t.ts)), Le16(t.nominalMsdu), Le16(t.maxMsdu), Words(t.words), Le16(t.surplusBw), Le16(t.mediumTime));
  }

  lemma SixParts(a: seq<bv8>, b: seq<bv8>, c: seq<bv8>, d: seq<bv8>, e: seq<bv8>, f: seq<bv8>)
    requires |a| == 3 && |b| == |c| == |e| == |f| == 2 && |d| == 44
    ensures var s := a + b + c + d + e + f;
      && s[..3] == a && s[3..5] == b && s[5..7] == c && s[7..51] == d && s[51..53] == e && s[53..55] == f
  {
  }

  function TspecElement(t: Tspec): (b: seq<bv8>)
    ensures |b| == 57
  {
    [13, 55] + TspecBody(t)
  }

  // ---------- responses ----------

  function RdeBytes(id: bv8, count: bv8, status: bv16): (b: seq<bv8>)
    ensures |b| == 6
  {
    [57, 4, id, count] + Le16(status)
  }

  /** A resource's answer: refused with a status, or granted with its specification. */
  datatype Answer = Denied(status: bv16) | Granted(tspec: Tspec)

  function AnswerOf(t: Tspec, status: bv16): Answer {
    if status == 0 then Granted(t) else Denied(status)
  }

  function AnswerBytes(a: Answer): seq<bv8> {
    match a
    case Denied(status) => Le16(status)
    case Granted(t) => Le16(0) + TspecElement(t)
  }

  function AnswersBytes(as_: seq<Answer>): seq<bv8> {
    if as_ == [] then [] else AnswerBytes(as_[0]) + AnswersBytes(as_[1..])
  }

  /** Success when every resource is granted. */
  function Overall(as_: seq<Answer>): bv16 {
    if as_ == [] then 0 else if as_[0].Denied? then 1 else Overall(as_[1..])
  }

  function CountByte(n: nat): bv8
    requires n <= MAX_RESOURCES
  {
    if n == 0 then 0 else if n == 1 then 1 else if n == 2 then 2 else if n == 3 then 3 else 4
  }

  function ResponseBytes(id: bv8, as_: seq<Answer>): seq<bv8>
    requires |as_| <= MAX_RESOURCES
  {
    RdeBytes(id, CountByte(|as_|), Overall(as_)) + AnswersBytes(as_)
  }

  datatype Response = Response(id: bv8, answers: seq<Answer>, consumed: nat)

  /** The next answer and what follows it. */
  function ParseAnswer(s: seq<bv8>): (r: Option<(Answer, seq<bv8>)>)
    ensures r.Some? ==> |r.value.1| < |s|
  {
    if |s| < 2 then None
    else
      var status := FromLe16(s[..2]);
      if status != 0 then Some((Denied(status), s[2..]))
      else if |s| < 4 || s[2] != 13 || |s| < 4 + s[3] as nat || s[3] != 55 then None
      else Some((Granted(ReadTspecBody(s[4..59])), s[59..]))
  }

  /** n answers and what follows them. */
  function ParseAnswers(s: seq<bv8>, n: nat): (r: Option<(seq<Answer>, seq<bv8>)>)
    ensures r.Some? ==> |r.value.1| <= |s|
  {
    if n == 0 then Some(([], s))
    else
      var a := ParseAnswer(s);
      if a.None? then None
      else
        var rest := ParseAnswers(a.value.1, n - 1);
        if rest.None? then None else Some(([a.value.0] + rest.value.0, rest.value.1))
  }

  function ParseResponse(s: seq<bv8>): Option<Response> {
    if |s| < 6 || s[0] != 57 || s[1] != 4 || s[3] > 4 then None
    else
      var r := ParseAnswers(s[6..], s[3] as nat);
      if r.None? then None else Some(Response(s[2], r.value.0, |s| - |r.value.1|))
  }

  // ---------- self-delimiting ----------

  ghost predicate AnswerInRange(a: Answer) {
    match a
    case Denied(status) => status != 0
    case Granted(t) => TsInRange(t.ts)
  }

  lemma AnswerRoundTrip(a: Answer, suffix: seq<bv8>)
    requires AnswerInRange(a)
    ensures ParseAnswer(AnswerBytes(a) + suffix) == Some((a, suffix))
  {
    hide Le16, FromLe16, TspecBody, ReadTspecBody;
    var s := AnswerBytes(a) + suffix;
    match a
    case Denied(status) =>
      Le16RoundTrip(status);
      assert s[..2] == Le16(status) && s[2..] == suffix;
    case Granted(t) =>
      Le16RoundTrip(0);
      TspecRoundTrip(t);
      assert s[..2] == Le16(0) && s[2] == 13 && s[3] == 55;
      assert s[4..59] == TspecBody(t) && s[59..] == suffix;
  }

  lemma {:induction false} AnswersRoundTrip(as_: seq<Answer>, suffix: seq<bv8>)
    requires forall i :: 0 <= i < |as_| ==> AnswerInRange(as_[i])
    ensures ParseAnswers(AnswersBytes(as_) + suffix, |as_|) == Some((as_, suffix))
  {
    hide AnswerBytes, ParseAnswer, AnswerInRange;
    if as_ == [] {
      assert AnswersBytes(as_) + suffix == suffix;
    } else {
      var rest := AnswersBytes(as_[1..]) + suffix;
      assert AnswersBytes(as_) + suffix == AnswerBytes(as_[0]) + rest;
      AnswerRoundTrip(as_[0], rest);
      AnswersRoundTrip(as_[1..], suffix);
      assert [as_[0]] + as_[1..] == as_;
    }
  }

  lemma CountValue(n: nat)
    requires n <= MAX_RESOURCES
    ensures CountByte(n) as nat == n && CountByte(n) <= 4
  {
  }

  /**
   Whatever follows a response, parsing it returns the same identifier, statuses and granted
   specifications, and consumes exactly the octets that were built.
   */
  lemma ResponseRoundTrip(id: bv8, as_: seq<Answer>, suffix: seq<bv8>)
    requires |as_| <= MAX_RESOURCES && forall i :: 0 <= i < |as_| ==> AnswerInRange(as_[i])
    ensures ParseResponse(ResponseBytes(id, as_) + suffix) == Some(Response(id, as_, |ResponseBytes(id, as_)|))
  {
    hide Le16, CountByte, AnswersBytes, ParseAnswers, AnswerInRange, Overall;
    var s := ResponseBytes(id, as_) + suffix;
    CountValue(|as_|);
    AnswersRoundTrip(as_, suffix);
    assert s[0] == 57 && s[1] == 4 && s[2] == id && s[3] == CountByte(|as_|);
    assert s[6..] == AnswersBytes(as_) + suffix;
  }

  /** No response is a proper beginning of another. */
  lemma NoResponsePrefixesAnother(id: bv8, as_: seq<Answer>, id': bv8, bs: seq<Answer>)
    requires |as_| <= MAX_RESOURCES && forall i :: 0 <= i < |as_| ==> AnswerInRange(as_[i])
    requires |bs| <= MAX_RESOURCES && forall i :: 0 <= i < |bs| ==> AnswerInRange(bs[i])
    requires ResponseBytes(id, as_) <= ResponseBytes(id', bs)
    ensures id == id' && as_ == bs
  {
    hide ResponseBytes, ParseResponse, AnswerInRange;
    var a, b := ResponseBytes(id, as_), ResponseBytes(id', bs);
    ResponseRoundTrip(id, as_, b[|a|..]);
    ResponseRoundTrip(id', bs, []);
    assert a + b[|a|..] == b == b + [];
  }

  // ---------- building in place ----------

  function AnswersOf(list: seq<Tspec>, status: seq<bv16>): (as_: seq<Answer>)
    requires |list| == |status|
    ensures |as_| == |list|
  {
    seq(|list|, i requires 0 <= i < |list| => AnswerOf(list[i], status[i]))
  }

  lemma {:induction false} AnswersSnoc(as_: seq<Answer>, a: Answer)
    ensures AnswersBytes(as_ + [a]) == AnswersBytes(as_) + AnswerBytes(a)
  {
    hide AnswerBytes;
    if as_ == [] {
      assert [] + [a] == [a] && [a][1..] == [] && AnswersBytes([a]) == AnswerBytes(a) + [] == AnswerBytes(a);
    } else {
      assert (as_ + [a])[0] == as_[0] && (as_ + [a])[1..] == as_[1..] + [a];
      AnswersSnoc(as_[1..], a);
    }
  }

  lemma {:induction false} AnswersGrow(as_: seq<Answer>, i: nat)
    requires i <= |as_|
    ensures |AnswersBytes(as_[..i])| <= |AnswersBytes(as_)|
    decreases |as_| - i
  {
    hide AnswerBytes;
    if i < |as_| {
      assert as_[..i + 1] == as_[..i] + [as_[i]];
      AnswersSnoc(as_[..i], as_[i]);
      AnswersGrow(as_, i + 1);
    } else {
      assert as_[..i] == as_;
    }
  }

  /** The status of the whole: denied as soon as one resource is. */
  method OverallStatus(status: seq<bv16>, ghost list: seq<Tspec>) returns (overall: bv16)
    requires |list| == |status|
    ensures overall == Overall(AnswersOf(list, status))
  {
    ghost var as_ := AnswersOf(list, status);
    overall := 0;
    assert as_[0..] == as_;
    for i := 0 to |status|
      invariant overall == 0 && Overall(as_) == Overall(as_[i..])
    {
      assert as_[i..][0] == as_[i] && as_[i..][1..] == as_[i + 1..];
      if status[i] != 0 {
        overall := 1;
        return;
      }
    }
  }

  /** Writes one answer at offset p, if it fits. */
  method WriteAnswer(out: array<bv8>, p: nat, t: Tspec, status: bv16, ghost out0: seq<bv8>, ghost done: seq<bv8>)
    returns (ok: bool, p': nat)
    requires |done| == p && |out0| == out.Length && p <= out.Length && Laid(out[..], out0, done)
    modifies out
    ensures ok <==> p + |AnswerBytes(AnswerOf(t, status))| <= out.Length
    ensures ok ==> p' == p + |AnswerBytes(AnswerOf(t, status))| && Laid(out[..], out0, done + AnswerBytes(AnswerOf(t, status)))
  {
    hide Laid, Le16, TspecElement;
    ok, p' := false, p;
    if p + 2 > out.Length {
      return;
    }
    AppendSeq(out, p, Le16(status), out0, done);
    p' := p + 2;
    if status == 0 {
      if out.Length - p' < 57 {
        return;
      }
      AppendSeq(out, p', TspecElement(t), out0, done + Le16(status));
      assert done + Le16(status) + TspecElement(t) == done + (Le16(status) + TspecElement(t));
      p' := p' + 57;
    }
    ok := true;
  }

  /** The response in out, or 0 when there are too many resources or too little room. */
  method BuildResponse(out: array<bv8>, id: bv8, list: seq<Tspec>, status: seq<bv16>) returns (n: nat)
    requires |list| == |status|
    modifies out
    ensures |list| > MAX_RESOURCES ==> n == 0
    ensures |list| <= MAX_RESOURCES ==>
      var b := ResponseBytes(id, AnswersOf(list, status));
      if |b| <= out.Length then n == |b| && out[..n] == b else n == 0
  {
    hide Laid, RdeBytes, AnswerBytes, AnswersBytes, Overall, CountByte, AnswersOf;
    n := 0;
    if |list| > MAX_RESOURCES {
      return;
    }
    ghost var as_, out0 := AnswersOf(list, status), out[..];
    var overall := OverallStatus(status, list);
    if out.Length < 6 {
      return;
    }
    var rde := RdeBytes(id, CountByte(|list|), overall);
    LaidNothing(out0);
    AppendSeq(out, 0, rde, out0, []);
    var p := 6;
    ghost var done := rde;
    assert [] + rde == rde == rde + AnswersBytes(as_[..0]) by { NoAnswers(as_, rde); }
    for i := 0 to |list|
      invariant p == |done| <= out.Length && Laid(out[..], out0, done) && done == rde + AnswersBytes(as_[..i])
    {
      AnswerAt(list, status, i, rde);
      var ok: bool;
      ok, p := WriteAnswer(out, p, list[i], status[i], out0, done);
      if !ok {
        AnswersGrow(as_, i + 1);
        return;
      }
      done := done + AnswerBytes(as_[i]);
    }
    assert as_[..|list|] == as_;
    n := p;
    LaidPrefix(out[..], out0, done);
  }

  lemma NoAnswers(as_: seq<Answer>, rde: seq<bv8>)
    ensures rde + AnswersBytes(as_[..0]) == rde
  {
  }

  lemma AnswerAt(list: seq<Tspec>, status: seq<bv16>, i: nat, rde: seq<bv8>)
    requires |list| == |status| && i < |list|
    ensures var as_ := AnswersOf(list, status);
      as_[i] == AnswerOf(list[i], status[i])
      && rde + AnswersBytes(as_[..i + 1]) == rde + AnswersBytes(as_[..i]) + AnswerBytes(as_[i])
  {
    hide AnswerBytes, AnswersBytes;
    var as_ := AnswersOf(list, status);
    assert as_[..i + 1] == as_[..i] + [as_[i]];
    AnswersSnoc(as_[..i], as_[i]);
  }

  // ---------- parsing with the cursor ----------

  /** Reads the next answer. */
  method ReadAnswer(r: Reader) returns (a: Option<Answer>)
    requires r.Valid() && !r.err
    modifies r
    ensures r.Valid()
    ensures var p := ParseAnswer(old(r.Rest()));
      if p.None? then a == None else a == Some(p.value.0) && !r.err && r.Rest() == p.value.1
  {
    hide FromLe16, ReadTspecBody;
    a := None;
    ghost var s := r.Rest();
    ghost var p0, at := r.p, r.pos;
    assert forall i :: 0 <= i < |s| ==> s[i] == p0[at + i];
    var left := r.Remaining();
    if left < 2 {
      return;
    }
    var status := r.U16();
    assert s[..2] == p0[at..at + 2] && s[2..] == p0[at + 2..];
    if status != 0 {
      return Some(Denied(status));
    }
    left := r.Remaining();
    if left < 2 {
      return;
    }
    var eid := r.U8();
    var dlen := r.U8();
    if eid != 13 {
      return;
    }
    var tsp := r.Bytes(dlen as nat);
    if tsp.None? {
      return;
    }
    if dlen != 55 {
      return;
    }
    assert s[4..59] == p0[at + 4..at + 59] && s[59..] == p0[at + 59..];
    a := Some(Granted(ReadTspecBody(tsp.value)));
  }

  /** Reads n answers. */
  method ReadAnswers(r: Reader, n: nat) returns (as_: Option<seq<Answer>>)
    requires r.Valid() && !r.err
    modifies r
    ensures r.Valid()
    ensures var p := ParseAnswers(old(r.Rest()), n);
      if p.None? then as_ == None else as_ == Some(p.value.0) && !r.err && r.Rest() == p.value.1
  {
    hide ParseAnswer;
    ghost var s := r.Rest();
    var got: seq<Answer> := [];
    for i := 0 to n
      invariant r.Valid() && !r.err && |got| == i
      invariant ParseAnswers(s, n).None? <==> ParseAnswers(r.Rest(), n - i).None?
      invariant ParseAnswers(s, n).Some? ==>
        && ParseAnswers(s, n).value.0 == got + ParseAnswers(r.Rest(), n - i).value.0
        && ParseAnswers(s, n).value.1 == ParseAnswers(r.Rest(), n - i).value.1
    {
      var a := ReadAnswer(r);
      if a.None? {
        return None;
      }
      got := got + [a.value];
    }
    assert got + [] == got;
    as_ := Some(got);
  }

  method ReadResponse(s: seq<bv8>) returns (resp: Option<Response>)
    ensures resp == ParseResponse(s)
  {
    hide FromLe16, ParseAnswers;
    var r := new Reader(s);
    var eid := r.U8();
    var elen := r.U8();
    var id := r.U8();
    var count := r.U8();
    var status := r.U16();
    if r.err {
      return None;
    }
    if eid != 57 || elen != 4 {
      return None;
    }
    if count > 4 {
      return None;
    }
    var as_ := ReadAnswers(r, count as nat);
    if as_.None? {
      return None;
    }
    resp := Some(Response(id, as_.value, r.pos));
  }
}
