/**
 The TDLS parsers on the read cursor and the peer-link handlers on the peer record, each shown to
 compute what module Tdls defines.
 */
module TdlsPeer {
  import opened Wrappers
  import opened Cursor
  import opened Octets
  import opened Tdls

  // ---------- elements ----------

  method ReadLinkId(s: seq<bv8>) returns (l: Option<LinkId>)
    ensures l == ParseLinkId(s)
  {
    var r := new Reader(s);
    var eid := r.U8();
    var elen := r.U8();
    var bssid := r.Bytes(6);
    var init := r.Bytes(6);
    var resp := r.Bytes(6);
    if r.err {
      return None;
    }
    if eid != 101 || elen != 18 {
      return None;
    }
    l := Some(LinkId(bssid.value, init.value, resp.value));
  }

  method ReadTie(s: seq<bv8>) returns (t: Option<bv32>)
    ensures t == ParseTie(s)
  {
    hide FromLe32;
    var r := new Reader(s);
    var eid := r.U8();
    var elen := r.U8();
    var kind := r.U8();
    var value := r.U32();
    if r.err {
      return None;
    }
    if eid != 56 || elen != 5 || kind != 2 {
      return None;
    }
    t := Some(value);
  }

  /** The identifier of the element, and room in it for the fixed fields. */
  predicate IsFtie(eid: bv8, elen: bv8) {
    eid == 55 && elen >= 82
  }

  /** The number of octets of the element that starts with s. */
  function ElementSize(elen: bv8): (n: nat)
    ensures n >= 2
  {
    2 + elen as nat
  }

  method ReadFtie(s: seq<bv8>) returns (f: Option<Ftie>)
    ensures f == if ParseFtie(s).Some? then Some(ParseFtie(s).value.0) else None
  {
    hide ParseFtie, IsFtie, ElementSize;
    var r := new Reader(s);
    var eid := r.U8();
    var elen := r.U8();
    if r.err {
      NoFtie(s);
      return None;
    }
    if !IsFtie(eid, elen) {
      NoFtie(s);
      return None;
    }
    var n := ElementSize(elen) - 2;
    var q := r.Bytes(n);
    if q.None? {
      NoFtie(s);
      return None;
    }
    var b := q.value;
    FtieIs(s);
    FixedFields(s, n);
    f := Some(Ftie(b[2..18], b[18..50], b[50..82]));
  }

  lemma FtieIs(s: seq<bv8>)
    requires |s| >= 2 && IsFtie(s[0], s[1]) && ElementSize(s[1]) <= |s|
    ensures ElementSize(s[1]) >= 84 && ParseFtie(s) == Some((Ftie(s[4..20], s[20..52], s[52..84]), ElementSize(s[1])))
  {
  }

  lemma NoFtie(s: seq<bv8>)
    requires |s| < 2 || !IsFtie(s[0], s[1]) || ElementSize(s[1]) > |s|
    ensures ParseFtie(s) == None
  {
  }

  lemma FixedFields(s: seq<bv8>, n: nat)
    requires 82 <= n && n + 2 <= |s|
    ensures var b := s[2..2 + n]; b[2..18] == s[4..20] && b[18..50] == s[20..52] && b[50..82] == s[52..84]
  {
    SliceOfSlice(s, 2, 2 + n, 2, 18);
    SliceOfSlice(s, 2, 2 + n, 18, 50);
    SliceOfSlice(s, 2, 2 + n, 50, 82);
  }

  /** The three closing elements, each parsed where the one before it ends. */
  method ReadElements(s: seq<bv8>) returns (e: Option<Elements>)
    ensures e == ParseElements(s)
  {
    hide ParseTie, ParseLinkId, ParseFtie, ElementSize;
    var r := new Reader(s);
    var f := ReadFtie(s);
    if f.None? {
      return None;
    }
    FtieLength(s);
    var q := r.Bytes(ElementSize(s[1]));
    var rest := s[r.pos..];
    var t := ReadTie(rest);
    if t.None? {
      return None;
    }
    assert |rest| >= 7 by { TieLength(rest); }
    q := r.Bytes(7);
    assert s[r.pos..] == rest[7..];
    var l := ReadLinkId(s[r.pos..]);
    if l.None? {
      return None;
    }
    e := Some(Elements(f.value, t.value, l.value));
  }

  lemma FtieLength(s: seq<bv8>)
    requires ParseFtie(s).Some?
    ensures |s| >= 2 && ParseFtie(s).value.1 == ElementSize(s[1])
  {
  }

  lemma TieLength(s: seq<bv8>)
    requires ParseTie(s).Some?
    ensures |s| >= 7
  {
  }

  // ---------- frames ----------

  method ReadSetupReq(s: seq<bv8>) returns (m: Option<SetupReq>)
    ensures m == ParseSetupReq(s)
  {
    hide ParseElements, FromLe16;
    var r := new Reader(s);
    var pt := r.U8();
    var cat := r.U8();
    var act := r.U8();
    var tok := r.U8();
    var cap := r.U16();
    if r.err {
      return None;
    }
    if pt != 2 || cat != 12 || act != 0 {
      return None;
    }
    var e := ReadElements(s[r.pos..]);
    m := if e.None? then None else Some(SetupReq(tok, cap, e.value));
  }

  method ReadSetupResp(s: seq<bv8>) returns (m: Option<SetupResp>)
    ensures m == ParseSetupResp(s)
  {
    hide ParseElements, FromLe16;
    var r := new Reader(s);
    var pt := r.U8();
    var cat := r.U8();
    var act := r.U8();
    var st := r.U16();
    var tok := r.U8();
    var cap := r.U16();
    if r.err {
      return None;
    }
    if pt != 2 || cat != 12 || act != 1 {
      return None;
    }
    var e := ReadElements(s[r.pos..]);
    m := if e.None? then None else Some(SetupResp(st, tok, cap, e.value));
  }

  method ReadSetupConfirm(s: seq<bv8>) returns (m: Option<SetupConfirm>)
    ensures m == ParseSetupConfirm(s)
  {
    hide ParseElements, FromLe16;
    var r := new Reader(s);
    var pt := r.U8();
    var cat := r.U8();
    var act := r.U8();
    var st := r.U16();
    var tok := r.U8();
    if r.err {
      return None;
    }
    if pt != 2 || cat != 12 || act != 2 {
      return None;
    }
    var e := ReadElements(s[r.pos..]);
    m := if e.None? then None else Some(SetupConfirm(st, tok, e.value));
  }

  /** The optional element and the link identifier, from the fifth octet on. */
  function TeardownTail(s: seq<bv8>): Option<(Option<Ftie>, LinkId)> {
    if s != [] && s[0] == 55 then
      var f := ParseFtie(s);
      if f.None? then None
      else
        var l := ParseLinkId(s[f.value.1..]);
        if l.None? then None else Some((Some(f.value.0), l.value))
    else
      var l := ParseLinkId(s);
      if l.None? then None else Some((None, l.value))
  }

  method ReadTeardownTail(s: seq<bv8>) returns (t: Option<(Option<Ftie>, LinkId)>)
    ensures t == TeardownTail(s)
  {
    hide ParseLinkId, ParseFtie, ElementSize;
    var r := new Reader(s);
    var left := r.Remaining();
    var ftie: Option<Ftie> := None;
    if left >= 1 && s[0] == 55 {
      ftie := ReadFtie(s);
      if ftie.None? {
        return None;
      }
      FtieLength(s);
      var q := r.Bytes(ElementSize(s[1]));
    }
    var l := ReadLinkId(s[r.pos..]);
    assert s[0..] == s;
    t := if l.None? then None else Some((ftie, l.value));
  }

  lemma TeardownParts(s: seq<bv8>)
    requires |s| >= 5
    ensures ParseTeardown(s) ==
            if !Header(s, 3) || TeardownTail(s[5..]).None? then None
            else Some(Teardown(FromLe16(s[3..5]), TeardownTail(s[5..]).value.0, TeardownTail(s[5..]).value.1))
  {
  }

  method ReadTeardown(s: seq<bv8>) returns (m: Option<Teardown>)
    ensures m == ParseTeardown(s)
  {
    hide ParseLinkId, ParseFtie, FromLe16, TeardownTail, ParseTeardown;
    var r := new Reader(s);
    var pt := r.U8();
    var cat := r.U8();
    var act := r.U8();
    var reason := r.U16();
    if r.err {
      assert ParseTeardown(s) == None by { ShortTeardown(s); }
      return None;
    }
    TeardownParts(s);
    if pt != 2 || cat != 12 || act != 3 {
      return None;
    }
    var tail := ReadTeardownTail(s[r.pos..]);
    m := if tail.None? then None else Some(Teardown(reason, tail.value.0, tail.value.1));
  }

  lemma ShortTeardown(s: seq<bv8>)
    requires |s| < 5
    ensures ParseTeardown(s) == None
  {
  }

  // ---------- handlers ----------

  class PeerLink {
    const c: Primitives
    var state: State
    const isInitiator: bool
    const bssid: Mac
    const lid: LinkId
    var snonce: Nonce
    var anonce: Nonce
    var tpk: Nonce
    var haveTpk: bool
    var token: bv8
    const lifetime: bv32

    /** The value of the record. */
    ghost function View(): Peer
      reads this
    {
      Peer(state, isInitiator, bssid, lid, snonce, anonce, tpk, haveTpk, token, lifetime)
    }

    constructor (c: Primitives, self: Mac, peer: Mac, bssid: Mac, isInitiator: bool, token: bv8, lifetime: bv32)
      ensures View() == InitPeer(self, peer, bssid, isInitiator, token, lifetime) && this.c == c
    {
      this.c, state, this.isInitiator, this.bssid := c, Idle, isInitiator, bssid;
      lid := if isInitiator then LinkId(bssid, self, peer) else LinkId(bssid, peer, self);
      snonce, anonce, tpk, haveTpk := ZeroNonce(), ZeroNonce(), ZeroNonce(), false;
      this.token, this.lifetime := token, lifetime;
    }

    method OnSetupReq(input: seq<bv8>, anonce: Nonce, cap: nat) returns (out: Option<seq<bv8>>)
      modifies this
      ensures (View(), out) == Tdls.OnSetupReq(c, old(View()), input, anonce, cap)
    {
      hide ParseSetupReq, DeriveTpk, SetupRespBytes, FrameMic;
      out := None;
      if state != Idle || isInitiator {
        return;
      }
      var req := ReadSetupReq(input);
      if req.None? {
        return;
      }
      if req.value.e.lid != lid {
        return;
      }
      snonce := req.value.e.ftie.snonce;
      this.anonce := anonce;
      tpk := DeriveTpk(c, snonce, anonce, lid, bssid);
      haveTpk := true;
      token := req.value.token;
      var e := Elements(Ftie(ZERO_MIC, anonce, snonce), lifetime, lid);
      var mic := FrameMic(c, tpk, lid, e, 2);
      if cap < 119 {
        return;
      }
      out := Some(SetupRespBytes(SetupResp(0, token, 0, e.(ftie := e.ftie.(mic := mic)))));
      state := Setup;
    }

    /** The key is derived aside and the code checked before anything is stored. */
    method OnSetupResp(input: seq<bv8>, cap: nat) returns (out: Option<seq<bv8>>)
      modifies this
      ensures (View(), out) == Tdls.OnSetupResp(c, old(View()), input, cap)
    {
      hide ParseSetupResp, DeriveTpk, SetupConfirmBytes, FrameMic;
      out := None;
      if state != ReqSent {
        return;
      }
      var resp := ReadSetupResp(input);
      if resp.None? {
        return;
      }
      var v := resp.value;
      if v.status != 0 || v.token != token {
        return;
      }
      if v.e.lid != lid || v.e.ftie.snonce != snonce {
        return;
      }
      var probe := DeriveTpk(c, snonce, v.e.ftie.anonce, lid, bssid);
      if FrameMic(c, probe, lid, v.e, 2) != v.e.ftie.mic {
        return;
      }
      anonce := v.e.ftie.anonce;
      tpk := probe;
      haveTpk := true;
      var e := Elements(Ftie(ZERO_MIC, anonce, snonce), lifetime, lid);
      var mic := FrameMic(c, tpk, lid, e, 3);
      if cap < 117 {
        return;
      }
      out := Some(SetupConfirmBytes(SetupConfirm(0, token, e.(ftie := e.ftie.(mic := mic)))));
      state := Established;
    }

    method OnSetupConfirm(input: seq<bv8>) returns (ok: bool)
      modifies this`state
      ensures (View(), ok) == Tdls.OnSetupConfirm(c, old(View()), input)
    {
      hide ParseSetupConfirm, FrameMic;
      ok := false;
      if state != Setup || !haveTpk {
        return;
      }
      var conf := ReadSetupConfirm(input);
      if conf.None? {
        return;
      }
      var v := conf.value;
      if v.status != 0 || v.token != token || v.e.lid != lid {
        return;
      }
      if FrameMic(c, tpk, lid, v.e, 3) != v.e.ftie.mic {
        return;
      }
      state := Established;
      ok := true;
    }

    /** Once keyed, a teardown without a valid code is ignored. */
    method OnTeardown(input: seq<bv8>) returns (ok: bool)
      modifies this`state
      ensures (View(), ok) == Tdls.OnTeardown(c, old(View()), input)
    {
      hide ParseTeardown, FrameMic;
      ok := false;
      var td := ReadTeardown(input);
      if td.None? {
        return;
      }
      if td.value.lid != lid {
        return;
      }
      if haveTpk {
        if td.value.ftie.None? {
          return;
        }
        var f := td.value.ftie.value;
        if FrameMic(c, tpk, lid, Elements(f, lifetime, td.value.lid), 4) != f.mic {
          return;
        }
      }
      state := TornDown;
      ok := true;
    }
  }
}
