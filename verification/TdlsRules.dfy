/**
 The peer link from the outside: which octets each handler accepts, with the elements and the input of
 the integrity code written out, and what it makes of them.
 */
module TdlsRules {
  import opened Wrappers
  import opened Cursor
  import opened Octets
  import opened Tdls

  // ---------- octets ----------

  function LinkOctets(l: LinkId): seq<bv8> {
    [101, 18] + l.bssid + l.initAddr + l.respAddr
  }

  /** The fast-transition element with its two control octets and whatever sub-elements follow. */
  ghost predicate IsFtie(s: seq<bv8>, f: Ftie) {
    exists n, c0, c1, more :: FtieOctets(s, f, n, c0, c1, more)
  }

  predicate FtieOctets(s: seq<bv8>, f: Ftie, n: bv8, c0: bv8, c1: bv8, more: seq<bv8>) {
    n as nat == 82 + |more| && s == [55, n, c0, c1] + f.mic + f.anonce + f.snonce + more
  }

  /** Octets that begin with the three closing elements. */
  ghost predicate Ends(s: seq<bv8>, e: Elements) {
    exists front, rest :: EndsAs(s, e, front, rest)
  }

  ghost predicate EndsAs(s: seq<bv8>, e: Elements, front: seq<bv8>, rest: seq<bv8>) {
    IsFtie(front, e.ftie) && s == front + ([56, 5, 2] + Le32(e.lifetime) + LinkOctets(e.lid)) + rest
  }

  /** The frame starts with head and goes on with the closing elements. */
  ghost predicate Framed(s: seq<bv8>, head: seq<bv8>, e: Elements) {
    head <= s && Ends(s[|head|..], e)
  }

  /** What the integrity code is computed over: its own field counts as zero. */
  function CodeInput(lid: LinkId, e: Elements, step: bv8): seq<bv8> {
    lid.initAddr + lid.respAddr + [step] + LinkOctets(e.lid) + [56, 5, 2] + Le32(e.lifetime)
    + [55, 82, 0, 0] + seq(16, _ => 0) + e.ftie.anonce + e.ftie.snonce
  }

  predicate CodeRight(c: Primitives, tpk: Nonce, lid: LinkId, e: Elements, step: bv8) {
    e.ftie.mic == c.cmac(tpk[..16], CodeInput(lid, e, step))
  }

  lemma CodeInputIs(lid: LinkId, e: Elements, step: bv8)
    ensures MicInput(lid, e, step) == CodeInput(lid, e, step)
  {
    hide Le32;
    assert ZERO_MIC == seq(16, _ => 0);
  }

  /** The element is parsed for what it is, and for the whole of its length. */
  lemma FtieIff(s: seq<bv8>, f: Ftie, n: nat)
    ensures ParseFtie(s) == Some((f, n)) <==> n <= |s| && IsFtie(s[..n], f)
  {
    if ParseFtie(s) == Some((f, n)) {
      FtieShown(s, f, n);
    }
    if n <= |s| && IsFtie(s[..n], f) {
      var k, c0, c1, more :| FtieOctets(s[..n], f, k, c0, c1, more);
      FtieParsed(s[..n], s[n..], f, k, c0, c1, more);
      assert s == s[..n] + s[n..];
    }
  }

  lemma FtieShown(s: seq<bv8>, f: Ftie, n: nat)
    requires ParseFtie(s) == Some((f, n))
    ensures n <= |s| && IsFtie(s[..n], f)
  {
    var k, more := s[1], s[84..n];
    assert FtieOctets(s[..n], f, k, s[2], s[3], more);
  }

  lemma FtieParsed(b: seq<bv8>, rest: seq<bv8>, f: Ftie, k: bv8, c0: bv8, c1: bv8, more: seq<bv8>)
    requires FtieOctets(b, f, k, c0, c1, more)
    ensures ParseFtie(b + rest) == Some((f, |b|))
  {
    var s := b + rest;
    assert s == [55, k, c0, c1] + f.mic + f.anonce + f.snonce + (more + rest);
    AtLeast(k);
    assert s[4..20] == f.mic && s[20..52] == f.anonce && s[52..84] == f.snonce;
  }

  lemma AtLeast(k: bv8)
    requires k as nat >= 82
    ensures k >= 82
  {
  }

  /** The closing elements are parsed exactly from octets that begin with them. */
  lemma EndsIff(s: seq<bv8>, e: Elements)
    ensures ParseElements(s) == Some(e) <==> Ends(s, e)
  {
    if ParseElements(s) == Some(e) {
      EndsShown(s, e);
    }
    if Ends(s, e) {
      var front, rest :| EndsAs(s, e, front, rest);
      EndsParsed(front, rest, e);
    }
  }

  lemma EndsShown(s: seq<bv8>, e: Elements)
    requires ParseElements(s) == Some(e)
    ensures Ends(s, e)
  {
    hide ParseFtie, IsFtie, Le32, FromLe32;
    var n := ParseFtie(s).value.1;
    FtieIff(s, e.ftie, n);
    var rest := s[n..];
    Le32Back(rest[3..7]);
    assert rest[..27] == [56, 5, 2] + Le32(e.lifetime) + LinkOctets(e.lid);
    assert EndsAs(s, e, s[..n], rest[27..]);
  }

  lemma EndsParsed(front: seq<bv8>, rest: seq<bv8>, e: Elements)
    requires IsFtie(front, e.ftie)
    ensures ParseElements(front + ([56, 5, 2] + Le32(e.lifetime) + LinkOctets(e.lid)) + rest) == Some(e)
  {
    hide ParseFtie, IsFtie, Le32, FromLe32, ParseTie, ParseLinkId;
    var s := front + ([56, 5, 2] + Le32(e.lifetime) + LinkOctets(e.lid)) + rest;
    assert s[..|front|] == front;
    FtieIff(s, e.ftie, |front|);
    var r := s[|front|..];
    assert r == TieBytes(e.lifetime) + (LinkOctets(e.lid) + rest);
    TieRoundTrip(e.lifetime, LinkOctets(e.lid) + rest);
    assert r[7..] == LinkIdBytes(e.lid) + rest;
    LinkIdRoundTrip(e.lid, rest);
  }

  lemma Le32Back(b: seq<bv8>)
    requires |b| == 4
    ensures Le32(FromLe32(b)) == b
  {
  }

  lemma Le16Back(b: seq<bv8>)
    requires |b| == 2
    ensures Le16(FromLe16(b)) == b
  {
  }

  // ---------- the handlers ----------

  lemma CodeRightIs(c: Primitives, tpk: Nonce, lid: LinkId, e: Elements, step: bv8)
    ensures e.ftie.mic == FrameMic(c, tpk, lid, e, step) <==> CodeRight(c, tpk, lid, e, step)
  {
    hide MicInput, CodeInput;
    CodeInputIs(lid, e, step);
  }

  lemma SixOctetHead(s: seq<bv8>, action: bv8, token: bv8)
    requires |s| >= 6
    ensures s[..6] == [2, 12, action, 0, 0, token] <==> Header(s, action) && s[3..5] == [0, 0] && s[5] == token
  {
    var h, z: seq<bv8> := [2, 12, action, 0, 0, token], [0, 0];
    assert s[..6] == [s[0], s[1], s[2], s[3], s[4], s[5]] && s[3..5] == [s[3], s[4]];
    assert s[..6] == h <==> s[0] == h[0] && s[1] == h[1] && s[2] == h[2] && s[3] == h[3] && s[4] == h[4] && s[5] == h[5];
    assert s[3..5] == z <==> s[3] == z[0] && s[4] == z[1];
  }

  lemma FourOctetHead(s: seq<bv8>, token: bv8)
    requires |s| >= 4
    ensures s[..4] == [2, 12, 0, token] <==> Header(s, 0) && s[3] == token
  {
    var h: seq<bv8> := [2, 12, 0, token];
    assert s[..4] == [s[0], s[1], s[2], s[3]];
    assert s[..4] == h <==> s[0] == h[0] && s[1] == h[1] && s[2] == h[2] && s[3] == h[3];
  }

  lemma ConfirmParsed(s: seq<bv8>, token: bv8, e: Elements)
    ensures ParseSetupConfirm(s) == Some(SetupConfirm(0, token, e)) <==> Framed(s, [2, 12, 2, 0, 0, token], e)
  {
    hide ParseElements, Ends, FromLe16, Le16;
    if |s| >= 6 {
      EndsIff(s[6..], e);
      StatusZero(s[3..5]);
      SixOctetHead(s, 2, token);
    }
  }

  lemma StatusZero(b: seq<bv8>)
    requires |b| == 2
    ensures FromLe16(b) == 0 <==> b == [0, 0]
  {
    Le16Back(b);
  }

  /**
   A responder that is setting up becomes established exactly on a confirm with status zero, its token
   and its link, whose code is right under its key; everything else leaves it as it was.
   */
  lemma ConfirmIff(c: Primitives, p: Peer, input: seq<bv8>)
    ensures var (q, ok) := OnSetupConfirm(c, p, input);
      && (ok <==> p.state == Setup && p.haveTpk
                  && exists e :: Framed(input, [2, 12, 2, 0, 0, p.token], e) && e.lid == p.lid
                                 && CodeRight(c, p.tpk, p.lid, e, 3))
      && q == if ok then p.(state := Established) else p
  {
    hide ParseSetupConfirm, FrameMic, CodeRight, Framed;
    var conf := ParseSetupConfirm(input);
    if conf.Some? {
      ConfirmParsed(input, p.token, conf.value.e);
      CodeRightIs(c, p.tpk, p.lid, conf.value.e, 3);
    }
    forall e | Framed(input, [2, 12, 2, 0, 0, p.token], e)
      ensures ParseSetupConfirm(input) == Some(SetupConfirm(0, p.token, e))
    {
      ConfirmParsed(input, p.token, e);
    }
  }

  /** The smaller nonce and the smaller address come first in the key's inputs. */
  lemma TpkIs(c: Primitives, snonce: Nonce, anonce: Nonce, lid: LinkId, bssid: Mac)
    ensures var nonces := if Number(snonce) < Number(anonce) then snonce + anonce else anonce + snonce;
      var addrs := if Number(lid.initAddr) < Number(lid.respAddr) then lid.initAddr + lid.respAddr
                   else lid.respAddr + lid.initAddr;
      DeriveTpk(c, snonce, anonce, lid, bssid) == c.kdf(c.sha256(nonces), addrs + bssid)
  {
    hide Number, Precedes;
    PrecedesIsLess(snonce, anonce);
    PrecedesIsLess(lid.initAddr, lid.respAddr);
  }

  /** A setup frame as sent: sub-elements and control octets empty, the code under the given key. */
  function SentFrame(c: Primitives, head: seq<bv8>, p: Peer, step: bv8): seq<bv8> {
    var e := Elements(Ftie(seq(16, _ => 0), p.anonce, p.snonce), p.lifetime, p.lid);
    head + [55, 82, 0, 0] + c.cmac(p.tpk[..16], CodeInput(p.lid, e, step)) + p.anonce + p.snonce
    + [56, 5, 2] + Le32(p.lifetime) + LinkOctets(p.lid)
  }

  lemma ResponseSent(c: Primitives, p: Peer)
    ensures SetupRespBytes(ResponseOf(c, p)) == SentFrame(c, [2, 12, 1, 0, 0, p.token, 0, 0], p, 2)
  {
    hide CodeInput, MicInput, Le32;
    var e := Elements(Ftie(ZERO_MIC, p.anonce, p.snonce), p.lifetime, p.lid);
    assert ZERO_MIC == seq(16, _ => 0);
    CodeInputIs(p.lid, e, 2);
  }

  lemma ConfirmSent(c: Primitives, p: Peer)
    ensures SetupConfirmBytes(ConfirmOf(c, p)) == SentFrame(c, [2, 12, 2, 0, 0, p.token], p, 3)
  {
    hide CodeInput, MicInput, Le32;
    var e := Elements(Ftie(ZERO_MIC, p.anonce, p.snonce), p.lifetime, p.lid);
    assert ZERO_MIC == seq(16, _ => 0);
    CodeInputIs(p.lid, e, 3);
  }

  /** A response with status zero, the initiator's token, link and nonce, and the code of the key it leads to. */
  ghost predicate GoodResponse(c: Primitives, p: Peer, input: seq<bv8>, e: Elements, cap: bv16) {
    && Framed(input, [2, 12, 1, 0, 0, p.token] + Le16(cap), e) && e.lid == p.lid && e.ftie.snonce == p.snonce
    && CodeRight(c, DeriveTpk(c, p.snonce, e.ftie.anonce, p.lid, p.bssid), p.lid, e, 2)
  }

  lemma HeadIs(s: seq<bv8>, a: seq<bv8>, b: seq<bv8>)
    ensures a + b <= s <==> |a| + |b| <= |s| && s[..|a|] == a && s[|a|..|a| + |b|] == b
  {
    if |a| + |b| <= |s| {
      assert s[..|a| + |b|] == s[..|a|] + s[|a|..|a| + |b|];
      if s[..|a| + |b|] == a + b {
        assert s[..|a|] == s[..|a| + |b|][..|a|] == a;
        assert s[|a|..|a| + |b|] == s[..|a| + |b|][|a|..] == b;
      }
    }
  }

  lemma ResponseParsed(s: seq<bv8>, token: bv8, cap: bv16, e: Elements)
    ensures ParseSetupResp(s) == Some(SetupResp(0, token, cap, e))
       <==> Framed(s, [2, 12, 1, 0, 0, token] + Le16(cap), e)
  {
    hide ParseElements, Ends, FromLe16, Le16;
    if |s| >= 8 {
      EndsIff(s[8..], e);
      StatusZero(s[3..5]);
      Le16Back(s[6..8]);
      Le16RoundTrip(cap);
      HeadIs(s, [2, 12, 1, 0, 0, token], Le16(cap));
      SixOctetHead(s, 1, token);
    }
  }

  /** An initiator that has sent its request takes exactly such a response. */
  lemma ResponseIff(c: Primitives, p: Peer, input: seq<bv8>)
    ensures TakesResponse(c, p, input) <==> p.state == ReqSent && exists e, cap :: GoodResponse(c, p, input, e, cap)
  {
    hide ParseSetupResp, FrameMic, CodeRight, Framed, DeriveTpk, Le16;
    var resp := ParseSetupResp(input);
    if resp.Some? {
      var e := resp.value.e;
      ResponseParsed(input, p.token, resp.value.cap, e);
      CodeRightIs(c, DeriveTpk(c, p.snonce, e.ftie.anonce, p.lid, p.bssid), p.lid, e, 2);
      assert RespAccepted(c, p, resp.value) ==> GoodResponse(c, p, input, e, resp.value.cap);
    }
    forall e, cap | GoodResponse(c, p, input, e, cap)
      ensures resp == Some(SetupResp(0, p.token, cap, e))
    {
      ResponseParsed(input, p.token, cap, e);
    }
  }

  /** It then stores the nonce and the key, and confirms if the confirm fits. */
  lemma ResponseEffect(c: Primitives, p: Peer, input: seq<bv8>, room: nat, e: Elements, cap: bv16)
    requires p.state == ReqSent && GoodResponse(c, p, input, e, cap)
    ensures var q := p.(anonce := e.ftie.anonce, haveTpk := true,
                        tpk := DeriveTpk(c, p.snonce, e.ftie.anonce, p.lid, p.bssid));
      OnSetupResp(c, p, input, room) ==
        if room < 117 then (q, None)
        else (q.(state := Established), Some(SentFrame(c, [2, 12, 2, 0, 0, p.token], q, 3)))
  {
    hide ParseSetupResp, FrameMic, CodeRight, Framed, DeriveTpk, Le16, SetupConfirmBytes, ConfirmOf, SentFrame;
    ResponseParsed(input, p.token, cap, e);
    var tpk := DeriveTpk(c, p.snonce, e.ftie.anonce, p.lid, p.bssid);
    CodeRightIs(c, tpk, p.lid, e, 2);
    ConfirmSent(c, p.(anonce := e.ftie.anonce, haveTpk := true, tpk := tpk));
  }

  lemma RequestParsed(s: seq<bv8>, token: bv8, cap: bv16, e: Elements)
    ensures ParseSetupReq(s) == Some(SetupReq(token, cap, e)) <==> Framed(s, [2, 12, 0, token] + Le16(cap), e)
  {
    hide ParseElements, Ends, FromLe16, Le16;
    if |s| >= 6 {
      EndsIff(s[6..], e);
      Le16Back(s[4..6]);
      Le16RoundTrip(cap);
      HeadIs(s, [2, 12, 0, token], Le16(cap));
      FourOctetHead(s, token);
    }
  }

  /** A request for the responder's link, with the sender's token and elements. */
  ghost predicate GoodRequest(p: Peer, input: seq<bv8>, token: bv8, cap: bv16, e: Elements) {
    p.state == Idle && !p.isInitiator && Framed(input, [2, 12, 0, token] + Le16(cap), e) && e.lid == p.lid
  }

  /** An idle responder takes over nonce and token, derives the key, and sends its response if it fits. */
  lemma RequestEffect(c: Primitives, p: Peer, input: seq<bv8>, anonce: Nonce, room: nat,
                      token: bv8, cap: bv16, e: Elements)
    requires GoodRequest(p, input, token, cap, e)
    ensures var q := p.(snonce := e.ftie.snonce, anonce := anonce, token := token, haveTpk := true,
                        tpk := DeriveTpk(c, e.ftie.snonce, anonce, p.lid, p.bssid));
      OnSetupReq(c, p, input, anonce, room) ==
        if room < 119 then (q, None)
        else (q.(state := Setup), Some(SentFrame(c, [2, 12, 1, 0, 0, token, 0, 0], q, 2)))
  {
    hide ParseSetupReq, FrameMic, Framed, DeriveTpk, Le16, SetupRespBytes, ResponseOf, SentFrame;
    RequestParsed(input, token, cap, e);
    ResponseSent(c, p.(snonce := e.ftie.snonce, anonce := anonce, token := token, haveTpk := true,
                       tpk := DeriveTpk(c, e.ftie.snonce, anonce, p.lid, p.bssid)));
  }

  /** Nothing else makes it do anything. */
  lemma OtherRequests(c: Primitives, p: Peer, input: seq<bv8>, anonce: Nonce, room: nat)
    requires forall token, cap, e :: !GoodRequest(p, input, token, cap, e)
    ensures OnSetupReq(c, p, input, anonce, room) == (p, None)
  {
    hide ParseSetupReq, Framed, Keyed, SetupRespBytes, ResponseOf, Le16;
    var req := ParseSetupReq(input);
    if req.Some? {
      RequestParsed(input, req.value.token, req.value.cap, req.value.e);
      assert !GoodRequest(p, input, req.value.token, req.value.cap, req.value.e);
    }
  }

  // ---------- tearing down ----------

  /** A teardown of the link: with a fast-transition element in front, or without one. */
  ghost predicate TearsDown(s: seq<bv8>, reason: bv16, front: seq<bv8>, lid: LinkId) {
    [2, 12, 3] + Le16(reason) + front + LinkOctets(lid) <= s
  }

  lemma LinkIff(s: seq<bv8>, l: LinkId)
    ensures ParseLinkId(s) == Some(l) <==> LinkOctets(l) <= s
  {
    if |s| >= 20 {
      if ParseLinkId(s) == Some(l) {
        assert s[..20] == LinkOctets(l);
      }
      if LinkOctets(l) <= s {
        assert s == LinkIdBytes(l) + s[20..];
        LinkIdRoundTrip(l, s[20..]);
      }
    }
  }

  /** Without a key any teardown of the link is heeded; with one, exactly those whose code is right. */
  lemma TeardownIff(c: Primitives, p: Peer, input: seq<bv8>)
    ensures var (q, ok) := OnTeardown(c, p, input);
      && q == (if ok then p.(state := TornDown) else p)
      && (ok <==> || (!p.haveTpk && exists reason :: TearsDown(input, reason, [], p.lid))
                  || exists reason, front, f :: TearsDown(input, reason, front, p.lid) && IsFtie(front, f)
                       && (p.haveTpk ==> CodeRight(c, p.tpk, p.lid, Elements(f, p.lifetime, p.lid), 4)))
  {
    hide ParseTeardown, FrameMic, CodeRight, TearsDown, IsFtie, CodeInput, MicInput;
    var td := ParseTeardown(input);
    if td.Some? && td.value.lid == p.lid {
      var front := TeardownShown(input, td.value);
      if td.value.ftie.Some? {
        CodeRightIs(c, p.tpk, p.lid, Elements(td.value.ftie.value, p.lifetime, p.lid), 4);
      }
    }
    forall reason | TearsDown(input, reason, [], p.lid)
      ensures td == Some(Teardown(reason, None, p.lid))
    {
      PlainParsed(input, reason, p.lid);
    }
    forall reason, front, f | TearsDown(input, reason, front, p.lid) && IsFtie(front, f)
      ensures td == Some(Teardown(reason, Some(f), p.lid))
    {
      SecureParsed(input, reason, front, f, p.lid);
    }
  }

  lemma TeardownShown(s: seq<bv8>, td: Teardown) returns (front: seq<bv8>)
    requires ParseTeardown(s) == Some(td)
    ensures TearsDown(s, td.reason, front, td.lid)
    ensures if td.ftie.None? then front == [] else IsFtie(front, td.ftie.value)
  {
    hide ParseFtie, ParseLinkId, IsFtie, LinkOctets, FromLe16, Le16, TearsDown;
    var n := if td.ftie.Some? then ParseFtie(s[5..]).value.1 else 0;
    front := s[5..5 + n];
    if td.ftie.Some? {
      FtieIff(s[5..], td.ftie.value, n);
      assert s[5..][..n] == front;
    }
    LinkIff(s[5 + n..], td.lid);
    PartsShown(s, n, td.reason, td.lid);
  }

  lemma PartsShown(s: seq<bv8>, n: nat, reason: bv16, lid: LinkId)
    requires |s| >= 5 + n && Header(s, 3) && FromLe16(s[3..5]) == reason && LinkOctets(lid) <= s[5 + n..]
    ensures TearsDown(s, reason, s[5..5 + n], lid)
  {
    hide LinkOctets, FromLe16, Le16;
    Le16Back(s[3..5]);
    var head, k := [2, 12, 3] + Le16(reason), |LinkOctets(lid)|;
    assert s[..5] == head;
    HeadIs(s, head + s[5..5 + n], LinkOctets(lid));
    HeadIs(s, head, s[5..5 + n]);
    assert s[5 + n..][..k] == s[5 + n..5 + n + k];
    assert s[..5 + n] == head + s[5..5 + n];
  }

  lemma PlainParsed(s: seq<bv8>, reason: bv16, lid: LinkId)
    requires TearsDown(s, reason, [], lid)
    ensures ParseTeardown(s) == Some(Teardown(reason, None, lid))
  {
    hide ParseFtie, FromLe16, Le16;
    Le16RoundTrip(reason);
    var k := |LinkOctets(lid)|;
    assert [2, 12, 3] + Le16(reason) + [] + LinkOctets(lid) == [2, 12, 3] + Le16(reason) + LinkOctets(lid);
    assert s[..3] == [2, 12, 3] && s[3..5] == Le16(reason) && s[5..5 + k] == LinkOctets(lid);
    assert s[5..][..k] == s[5..5 + k];
    LinkIff(s[5..], lid);
  }

  lemma FtieStarts(front: seq<bv8>, f: Ftie)
    requires IsFtie(front, f)
    ensures |front| >= 84 && front[0] == 55
  {
    var n, c0, c1, more :| FtieOctets(front, f, n, c0, c1, more);
  }

  lemma SecureParsed(s: seq<bv8>, reason: bv16, front: seq<bv8>, f: Ftie, lid: LinkId)
    requires TearsDown(s, reason, front, lid) && IsFtie(front, f)
    ensures ParseTeardown(s) == Some(Teardown(reason, Some(f), lid))
  {
    hide ParseLinkId, ParseFtie, FromLe16, Le16, LinkOctets, IsFtie;
    Le16RoundTrip(reason);
    FtieStarts(front, f);
    var n, k := |front|, |LinkOctets(lid)|;
    HeadIs(s, [2, 12, 3] + Le16(reason) + front, LinkOctets(lid));
    HeadIs(s, [2, 12, 3] + Le16(reason), front);
    HeadIs(s, [2, 12, 3], Le16(reason));
    assert s[5..][..n] == front && s[5 + n..][..k] == s[5 + n..5 + n + k];
    FtieIff(s[5..], f, n);
    LinkIff(s[5 + n..], lid);
    assert s[5] == front[0];
  }

  /** Both ends of a link start out with the same link identifier, the initiator's address first. */
  lemma SameLink(a: Mac, b: Mac, bssid: Mac, token: bv8, lifetime: bv32)
    ensures InitPeer(a, b, bssid, true, token, lifetime).lid == LinkId(bssid, a, b)
    ensures InitPeer(b, a, bssid, false, token, lifetime).lid == LinkId(bssid, a, b)
    ensures forall initiates ::
      var p := InitPeer(a, b, bssid, initiates, token, lifetime);
      p.state == Idle && !p.haveTpk && p.isInitiator == initiates && p.token == token && p.lifetime == lifetime
  {
  }
}
