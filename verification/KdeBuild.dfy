/**
 The routines that append key-data elements to the handshake's buffer at a moving offset and those
 that walk it, shown to compute the definitions of module Kde.
 */
module KdeBuild {
  import opened Wrappers
  import opened Kde
  import opened Mem

  // ---------- walking ----------

  method GtkKdeFind(kd: seq<bv8>) returns (gtk: Option<seq<bv8>>)
    ensures gtk == FindGtk(kd)
  {
    hide Matches, Find;
    var off := 0;
    assert kd[0..] == kd;
    while off + 2 <= |kd|
      invariant off <= |kd| && Find(kd[off..], GTK) == Find(kd, GTK)
      decreases |kd| - off
    {
      var t, klen := kd[off], 2 + kd[off + 1] as nat;
      StepOf(kd, off, GTK);
      if t == 0x00 {
        return None;
      }
      if off + klen > |kd| {
        return None;
      }
      TagAt(kd, off, klen, GTK);
      if t == 0xdd {
        gtk := GtkKdeParse(kd[off..off + klen]);
        if gtk.Some? {
          return;
        }
      }
      off := off + klen;
    }
    Exhausted(kd, off, GTK);
    gtk := None;
  }

  /** What one step of a finder's walk at offset off comes to. */
  lemma StepOf(kd: seq<bv8>, off: nat, k: Kind)
    requires off + 2 <= |kd|
    ensures var n := 2 + kd[off + 1] as nat; var rest := kd[off..];
      && (kd[off] == 0 || off + n > |kd| ==> Find(rest, k) == None)
      && (kd[off] == 0xdd && kd[off + 1] == 0 && k.markerStops ==> Find(rest, k) == None)
      && (kd[off] != 0 && off + n <= |kd| && !(k.markerStops && kd[off] == 0xdd && kd[off + 1] == 0) ==>
            Find(rest, k) == if Matches(kd[off..off + n], k) then Some(kd[off..off + n]) else Find(kd[off + n..], k))
  {
    hide Matches, Find;
    var n, rest := 2 + kd[off + 1] as nat, kd[off..];
    assert rest[0] == kd[off] && rest[1] == kd[off + 1];
    FindOnce(rest, k);
    if off + n <= |kd| {
      assert rest[..n] == kd[off..off + n];
      assert rest[n..] == kd[off + n..];
    }
  }

  lemma FindOnce(s: seq<bv8>, k: Kind)
    requires |s| >= 2
    ensures var n := 2 + s[1] as nat;
      Find(s, k) == if s[0] == 0 || n > |s| || (k.markerStops && s[0] == 0xdd && s[1] == 0) then None
                    else if Matches(s[..n], k) then Some(s[..n])
                    else Find(s[n..], k)
  {
    hide Matches;
  }

  lemma Exhausted(kd: seq<bv8>, off: nat, k: Kind)
    requires off <= |kd| < off + 2
    ensures Find(kd[off..], k) == None
  {
  }

  method GtkKdeParse(e: seq<bv8>) returns (gtk: Option<seq<bv8>>)
    requires |e| >= 2 && e[0] == 0xdd && |e| == 2 + e[1] as nat
    ensures gtk == if Matches(e, GTK) then Some(e[8..24]) else None
  {
    if |e| < 24 || e[0] != 0xdd || e[1] != 22 {
      ShortGtk(e);
      return None;
    }
    if e[2] != 0x00 || e[3] != 0x0f || e[4] != 0xac || e[5] != 0x01 {
      assert e[2..6][0] == e[2] && e[2..6][1] == e[3] && e[2..6][2] == e[4] && e[2..6][3] == e[5];
      return None;
    }
    assert e[2..6] == GTK.tag;
    gtk := Some(e[8..24]);
  }

  lemma ShortGtk(e: seq<bv8>)
    requires |e| >= 2 && e[0] == 0xdd && |e| == 2 + e[1] as nat
    requires |e| < 24 || e[1] != 22
    ensures !Matches(e, GTK)
  {
  }

  method IgtkKdeFind(kd: seq<bv8>) returns (g: Option<GroupKey>)
    ensures g == FindIgtk(kd)
  {
    hide ReadGroupKey, Find, Matches;
    var off := 0;
    assert kd[0..] == kd;
    while off + 2 <= |kd|
      invariant off <= |kd| && Find(kd[off..], IGTK) == Find(kd, IGTK)
      decreases |kd| - off
    {
      var t, l := kd[off], kd[off + 1];
      var klen := 2 + l as nat;
      StepOf(kd, off, IGTK);
      if t == 0x00 {
        return None;
      }
      if off + klen > |kd| {
        return None;
      }
      TagAt(kd, off, klen, IGTK);
      if t == 0xdd && l == 28 && kd[off + 2] == 0x00 && kd[off + 3] == 0x0f && kd[off + 4] == 0xac && kd[off + 5] == 0x09 {
        g := Some(ReadGroupKey(kd[off..off + klen]));
        return;
      }
      off := off + klen;
    }
    Exhausted(kd, off, IGTK);
    g := None;
  }

  /** A kind's match, octet by octet. */
  lemma TagAt(kd: seq<bv8>, off: nat, klen: nat, k: Kind)
    requires off + klen <= |kd| && klen >= 2 && klen == 2 + kd[off + 1] as nat && |k.tag| == 4
    ensures Matches(kd[off..off + klen], k) <==>
      && klen >= 6 && kd[off] == 0xdd
      && (if k.exact then kd[off + 1] as nat == k.minLen else kd[off + 1] as nat >= k.minLen)
      && kd[off + 2] == k.tag[0] && kd[off + 3] == k.tag[1] && kd[off + 4] == k.tag[2] && kd[off + 5] == k.tag[3]
  {
    var e := kd[off..off + klen];
    assert e[0] == kd[off] && e[1] == kd[off + 1];
    if klen >= 6 {
      var t := e[2..6];
      assert t[0] == kd[off + 2];
      assert t[1] == kd[off + 3];
      assert t[2] == kd[off + 4];
      assert t[3] == kd[off + 5];
      SameFour(t, k.tag);
    }
  }

  /** The comparison of an element's type, length and selector with what is looked for. */
  predicate Selects(kd: seq<bv8>, off: nat, k: Kind)
    requires off + 2 <= |kd| && off + 2 + kd[off + 1] as nat <= |kd| && |k.tag| == 4 && k.minLen >= 4
  {
    && kd[off] == 0xdd && kd[off + 1] as nat >= k.minLen
    && kd[off + 2] == k.tag[0] && kd[off + 3] == k.tag[1] && kd[off + 4] == k.tag[2] && kd[off + 5] == k.tag[3]
  }

  /** A step of the common walk. */
  lemma WalkStep(kd: seq<bv8>, off: nat, k: Kind)
    requires off + 2 <= |kd| && |k.tag| == 4 && !k.exact && k.markerStops && k.minLen >= 4
    ensures var n := 2 + kd[off + 1] as nat;
      if kd[off] == 0 || (kd[off] == 0xdd && kd[off + 1] == 0) || off + n > |kd| then Find(kd[off..], k) == None
      else if Selects(kd, off, k) then off + 6 <= |kd| && Find(kd[off..], k) == Some(kd[off..off + n])
      else Find(kd[off..], k) == Find(kd[off + n..], k)
  {
    hide Matches, Find;
    StepOf(kd, off, k);
    var n := 2 + kd[off + 1] as nat;
    if off + n <= |kd| {
      TagAt(kd, off, n, k);
    }
  }

  /** The common walk: the element's offset, or the length of the list when there is none. */
  method KdeFind(kd: seq<bv8>, k: Kind) returns (off: nat)
    requires |k.tag| == 4 && !k.exact && k.markerStops && k.minLen >= 4
    ensures off <= |kd|
    ensures off == |kd| ==> Find(kd, k) == None
    ensures off < |kd| ==>
      && off + 6 <= |kd| && off + 2 + kd[off + 1] as nat <= |kd|
      && Find(kd, k) == Some(kd[off..off + 2 + kd[off + 1] as nat])
  {
    hide Matches, Find, Selects;
    off := 0;
    assert kd[0..] == kd;
    while off + 2 <= |kd|
      invariant off <= |kd| && Find(kd[off..], k) == Find(kd, k)
      decreases |kd| - off
    {
      var t, l := kd[off], kd[off + 1];
      WalkStep(kd, off, k);
      if t == 0x00 {
        return |kd|;
      }
      if t == 0xdd && l == 0 {
        return |kd|;
      }
      var klen := 2 + l as nat;
      if off + klen > |kd| {
        return |kd|;
      }
      if Selects(kd, off, k) {
        return;
      }
      off := off + klen;
    }
    Exhausted(kd, off, k);
    off := |kd|;
  }

  method BigtkKdeFind(kd: seq<bv8>) returns (g: Option<GroupKey>)
    ensures g == FindBigtk(kd)
  {
    hide Find, ReadGroupKey;
    var off := KdeFind(kd, BIGTK);
    if off == |kd| || kd[off + 1] != 28 {
      return None;
    }
    g := Some(ReadGroupKey(kd[off..off + 30]));
  }

  method OciKdeFind(kd: seq<bv8>) returns (o: Option<Oci>)
    ensures o == FindOci(kd)
  {
    hide Find;
    var off := KdeFind(kd, OCI);
    if off == |kd| {
      return None;
    }
    MatchedLength(kd, OCI);
    o := Some(Oci(kd[off + 6], kd[off + 7], kd[off + 8]));
  }

  method TdKdeFind(kd: seq<bv8>) returns (b: Option<bv8>)
    ensures b == FindTd(kd)
  {
    hide Find;
    var off := KdeFind(kd, TD);
    if off == |kd| {
      return None;
    }
    MatchedLength(kd, TD);
    b := Some(kd[off + 6]);
  }

  lemma MatchedLength(kd: seq<bv8>, k: Kind)
    requires Find(kd, k).Some? && !k.exact
    ensures |Find(kd, k).value| >= 2 + k.minLen
  {
  }

  // ---------- appending ----------

  /** What the list holds after the elements es. */
  lemma {:induction false} FlattenSnoc(es: seq<seq<bv8>>, e: seq<bv8>)
    ensures Flatten(es + [e]) == Flatten(es) + e
  {
    if es == [] {
      assert [] + [e] == [e] && [e][1..] == [] && Flatten([e]) == e + [] == e;
    } else {
      assert (es + [e])[0] == es[0] && (es + [e])[1..] == es[1..] + [e];
      FlattenSnoc(es[1..], e);
    }
  }

  /** One element more at the current offset. */
  method AppendElement(kde: array<bv8>, klen: nat, e: seq<bv8>, ghost kde0: seq<bv8>, ghost es: seq<seq<bv8>>)
    returns (klen': nat)
    requires |Flatten(es)| == klen && |kde0| == kde.Length && klen + |e| <= kde.Length
    requires Laid(kde[..], kde0, Flatten(es))
    modifies kde
    ensures klen' == klen + |e| == |Flatten(es + [e])| && Laid(kde[..], kde0, Flatten(es + [e]))
  {
    hide Flatten, Laid;
    FlattenSnoc(es, e);
    AppendSeq(kde, klen, e, kde0, Flatten(es));
    klen' := klen + |e|;
  }

  /** The 0xdd marker and the zero fill. */
  method Pad(kde: array<bv8>, klen: nat, ghost kde0: seq<bv8>, ghost b: seq<bv8>) returns (klen': nat)
    requires |b| == klen && |kde0| == kde.Length && klen + 7 <= kde.Length && Laid(kde[..], kde0, b)
    modifies kde
    ensures klen' == |b + Padding(|b|)| && Laid(kde[..], kde0, b + Padding(|b|))
  {
    hide Laid;
    klen' := klen;
    if klen' % 8 != 0 {
      AppendByte(kde, klen', 0xdd, kde0, b);
      klen' := klen' + 1;
      ghost var z := 0;
      assert b + [0xdd] + seq(0, _ => 0 as bv8) == b + [0xdd];
      while klen' % 8 != 0
        invariant klen' == klen + 1 + z && z <= 7 - klen % 8 && klen' <= kde.Length
        invariant Laid(kde[..], kde0, b + [0xdd] + seq(z, _ => 0))
        decreases 7 - klen % 8 - z
      {
        AllZeroes(klen, z);
        AppendByte(kde, klen', 0x00, kde0, b + [0xdd] + seq(z, _ => 0));
        assert seq(z, _ => 0 as bv8) + [0x00] == seq(z + 1, _ => 0 as bv8);
        assert b + [0xdd] + seq(z, _ => 0 as bv8) + [0x00] == b + [0xdd] + seq(z + 1, _ => 0 as bv8);
        klen' := klen' + 1;
        z := z + 1;
      }
      AllZeroes(klen, z);
      assert b + [0xdd] + seq(z, _ => 0 as bv8) == b + ([0xdd] + seq(z, _ => 0 as bv8));
    } else {
      assert b + [] == b;
    }
  }

  lemma AllZeroes(klen: nat, z: nat)
    requires z <= 7 - klen % 8 && klen % 8 != 0
    ensures (klen + 1 + z) % 8 == 0 <==> z == 7 - klen % 8
  {
  }

  /** Appends the elements that protection adds. */
  method AppendMfp(kde: array<bv8>, klen: nat, m: Mfp, ghost kde0: seq<bv8>, ghost es: seq<seq<bv8>>) returns (klen': nat)
    requires |Flatten(es)| == klen == 24 && |kde0| == kde.Length == KDE_MAX && Laid(kde[..], kde0, Flatten(es))
    modifies kde
    ensures klen' == |Flatten(es + MfpElements(m))| <= 100 && Laid(kde[..], kde0, Flatten(es + MfpElements(m)))
  {
    hide Flatten, Laid, GroupKeyElement, OciElement, TdElement;
    ghost var built := es + [GroupKeyElement(m.igtk, 0x09)];
    klen' := AppendElement(kde, klen, GroupKeyElement(m.igtk, 0x09), kde0, es);
    if m.bigtk.Some? {
      klen' := AppendElement(kde, klen', GroupKeyElement(m.bigtk.value, 0x0a), kde0, built);
      built := built + [GroupKeyElement(m.bigtk.value, 0x0a)];
    }
    if m.oci.Some? {
      klen' := AppendElement(kde, klen', OciElement(m.oci.value), kde0, built);
      built := built + [OciElement(m.oci.value)];
    }
    if m.td.Some? {
      klen' := AppendElement(kde, klen', TdElement(m.td.value), kde0, built);
      built := built + [TdElement(m.td.value)];
    }
    assert built == es + MfpElements(m);
  }

  /** The key data of the third message, built in place. */
  method BuildKeyData(kde: array<bv8>, d: KeyData) returns (klen: nat)
    requires kde.Length == KDE_MAX
    modifies kde
    ensures klen <= 104 && kde[..klen] == KeyDataBytes(d)
  {
    hide Flatten, Laid, GtkElement, MfpElements, Padding;
    ghost var kde0 := kde[..];
    LaidNothing(kde0);
    assert Flatten([]) == [] by { NoElements(); }
    ghost var es := [] + [GtkElement(d.gtk, d.gtkId)];
    klen := AppendElement(kde, 0, GtkElement(d.gtk, d.gtkId), kde0, []);
    if d.mfp.Some? {
      klen := AppendMfp(kde, klen, d.mfp.value, kde0, es);
      es := es + MfpElements(d.mfp.value);
      klen := Pad(kde, klen, kde0, Flatten(es));
    }
    assert es == Elements(d) by { assert [] + [GtkElement(d.gtk, d.gtkId)] == [GtkElement(d.gtk, d.gtkId)]; }
    LaidPrefix(kde[..], kde0, KeyDataBytes(d));
    KeyDataFits(d);
  }

  lemma NoElements()
    ensures Flatten([]) == []
  {
  }
}
