/**
 The key data of the third handshake message: the list of key-data elements that the access point
 appends, and the finders with which the station walks it.
 */
module Kde {
  import opened Wrappers
  import opened Cursor
  import opened Ccmp
  import opened Aes
  import KeyWrap

  type Key16 = s: seq<bv8> | |s| == 16 witness seq(16, _ => 0)

  datatype Oci = Oci(opClass: bv8, primChan: bv8, seg1: bv8)

  /** A group key with its identifier and packet number, as the two integrity-key elements carry it. */
  datatype GroupKey = GroupKey(key: Key16, keyId: bv16, pn: bv64)

  /** What the access point sends beside the group key when management frames are protected. */
  datatype Mfp = Mfp(igtk: GroupKey, bigtk: Option<GroupKey>, oci: Option<Oci>, td: Option<bv8>)
  datatype KeyData = KeyData(gtk: Key16, gtkId: bv8, mfp: Option<Mfp>)

  // ---------- elements ----------

  const KDE_MAX := 128

  function GtkElement(gtk: Key16, keyId: bv8): (e: seq<bv8>)
    ensures |e| == 24
  {
    [0xdd, 22, 0x00, 0x0f, 0xac, 0x01, keyId & 0x03, 0x00] + gtk
  }

  function PnOctets(pn: bv64): (b: seq<bv8>)
    ensures |b| == 6
  {
    [PnByte(pn, 0), PnByte(pn, 1), PnByte(pn, 2), PnByte(pn, 3), PnByte(pn, 4), PnByte(pn, 5)]
  }

  function GroupKeyElement(k: GroupKey, dataType: bv8): (e: seq<bv8>)
    ensures |e| == 30
  {
    [0xdd, 28, 0x00, 0x0f, 0xac, dataType] + Le16(k.keyId) + PnOctets(k.pn) + k.key
  }

  /** Tag, type and selector, then key identifier and packet number least significant octet first, then the key. */
  lemma GroupKeyLayout(k: GroupKey, dataType: bv8)
    ensures var e := GroupKeyElement(k, dataType);
      && e[..6] == [0xdd, 28, 0x00, 0x0f, 0xac, dataType]
      && e[6] as bv16 + 0x100 * (e[7] as bv16) == k.keyId
      && Weighted(e[8], e[9], e[10], e[11], e[12], e[13]) == k.pn & 0xffff_ffff_ffff
      && e[14..] == k.key
  {
    hide PnByte, FromOctets, Weighted, FromLe16;
    var e := GroupKeyElement(k, dataType);
    Le16RoundTrip(k.keyId);
    LeValues(e[6..8], e[6..10]);
    assert e[6..8] == Le16(k.keyId);
    WeightedIs(e[8], e[9], e[10], e[11], e[12], e[13]);
    SixOctets(k.pn);
  }

  function OciElement(o: Oci): (e: seq<bv8>)
    ensures |e| == 9
  {
    [0xdd, 7, 0x00, 0x0f, 0xac, 0x0d, o.opClass, o.primChan, o.seg1]
  }

  function TdElement(bitmap: bv8): (e: seq<bv8>)
    ensures |e| == 7
  {
    [0xdd, 5, 0x50, 0x6f, 0x9a, 0x08, bitmap]
  }

  /** The elements that protection adds, in the order in which they are appended. */
  function MfpElements(m: Mfp): seq<seq<bv8>> {
    [GroupKeyElement(m.igtk, 0x09)]
    + (if m.bigtk.Some? then [GroupKeyElement(m.bigtk.value, 0x0a)] else [])
    + (if m.oci.Some? then [OciElement(m.oci.value)] else [])
    + (if m.td.Some? then [TdElement(m.td.value)] else [])
  }

  function Elements(d: KeyData): seq<seq<bv8>> {
    [GtkElement(d.gtk, d.gtkId)] + (if d.mfp.Some? then MfpElements(d.mfp.value) else [])
  }

  function Flatten(es: seq<seq<bv8>>): seq<bv8> {
    if es == [] then [] else es[0] + Flatten(es[1..])
  }

  /** A 0xdd octet and zeros up to the next multiple of eight. */
  function Padding(n: nat): seq<bv8> {
    if n % 8 == 0 then [] else [0xdd] + seq(7 - n % 8, _ => 0)
  }

  function KeyDataBytes(d: KeyData): seq<bv8> {
    var b := Flatten(Elements(d));
    if d.mfp.Some? then b + Padding(|b|) else b
  }

  // ---------- finders ----------

  /** What a finder looks for: selector and type, the lengths it takes, and how it treats padding. */
  datatype Kind = Kind(tag: seq<bv8>, minLen: nat, exact: bool, markerStops: bool)

  const GTK := Kind([0x00, 0x0f, 0xac, 0x01], 22, true, false)
  const IGTK := Kind([0x00, 0x0f, 0xac, 0x09], 28, true, false)
  const BIGTK := Kind([0x00, 0x0f, 0xac, 0x0a], 24, false, true)
  const OCI := Kind([0x00, 0x0f, 0xac, 0x0d], 7, false, true)
  const TD := Kind([0x50, 0x6f, 0x9a, 0x08], 5, false, true)

  predicate Matches(e: seq<bv8>, k: Kind) {
    && |e| >= 6 && e[0] == 0xdd && (if k.exact then e[1] as nat == k.minLen else e[1] as nat >= k.minLen)
    && e[2..6] == k.tag
  }

  lemma SameFour(a: seq<bv8>, b: seq<bv8>)
    requires |a| == |b| == 4
    ensures a == b <==> a[0] == b[0] && a[1] == b[1] && a[2] == b[2] && a[3] == b[3]
  {
    if a[0] == b[0] && a[1] == b[1] && a[2] == b[2] && a[3] == b[3] {
      forall i | 0 <= i < 4 ensures a[i] == b[i] {
      }
    }
  }

  /** The first matching element, stepping over the others until the list or its padding ends. */
  function Find(kd: seq<bv8>, k: Kind): (e: Option<seq<bv8>>)
    ensures e.Some? ==> Matches(e.value, k) && |e.value| == 2 + e.value[1] as nat
    decreases |kd|
  {
    if |kd| < 2 || kd[0] == 0x00 then None
    else if k.markerStops && kd[0] == 0xdd && kd[1] == 0 then None
    else
      var n := 2 + kd[1] as nat;
      if n > |kd| then None
      else if Matches(kd[..n], k) then Some(kd[..n])
      else Find(kd[n..], k)
  }

  function FindGtk(kd: seq<bv8>): Option<seq<bv8>> {
    var e := Find(kd, GTK);
    if e.None? then None else Some(e.value[8..24])
  }

  function ReadGroupKey(e: seq<bv8>): GroupKey
    requires |e| == 30
  {
    GroupKey(e[14..30], FromLe16(e[6..8]), FromOctets(e[8], e[9], e[10], e[11], e[12], e[13]))
  }

  function FindIgtk(kd: seq<bv8>): Option<GroupKey> {
    var e := Find(kd, IGTK);
    if e.None? then None else Some(ReadGroupKey(e.value))
  }

  /** A longer key is rejected, not cut off. */
  function FindBigtk(kd: seq<bv8>): Option<GroupKey> {
    var e := Find(kd, BIGTK);
    if e.None? || |e.value| != 30 then None else Some(ReadGroupKey(e.value))
  }

  function FindOci(kd: seq<bv8>): Option<Oci> {
    var e := Find(kd, OCI);
    if e.None? then None else Some(Oci(e.value[6], e.value[7], e.value[8]))
  }

  function FindTd(kd: seq<bv8>): Option<bv8> {
    var e := Find(kd, TD);
    if e.None? then None else Some(e.value[6])
  }

  // ---------- walking a list ----------

  /** An element that says its own length and is not padding. */
  ghost predicate WellFormed(e: seq<bv8>) {
    |e| >= 2 && e[0] == 0xdd && e[1] != 0 && |e| == 2 + e[1] as nat
  }

  ghost predicate IsPadding(p: seq<bv8>) {
    p == [] || (p[0] == 0xdd && |p| < 8 && forall i :: 1 <= i < |p| ==> p[i] == 0)
  }

  function FirstMatch(es: seq<seq<bv8>>, k: Kind): Option<seq<bv8>> {
    if es == [] then None else if Matches(es[0], k) then Some(es[0]) else FirstMatch(es[1..], k)
  }

  lemma PaddingHidesNothing(p: seq<bv8>, k: Kind)
    requires IsPadding(p)
    ensures Find(p, k) == None
  {
  }

  /** Whatever the list and whatever follows a finder's stopping point, it finds the first match. */
  lemma {:induction false} FindInList(es: seq<seq<bv8>>, p: seq<bv8>, k: Kind)
    requires (forall i :: 0 <= i < |es| ==> WellFormed(es[i])) && IsPadding(p)
    ensures Find(Flatten(es) + p, k) == FirstMatch(es, k)
  {
    hide Matches;
    if es == [] {
      assert Flatten(es) + p == p;
      PaddingHidesNothing(p, k);
    } else {
      var kd, rest := Flatten(es) + p, Flatten(es[1..]) + p;
      assert WellFormed(es[0]) && kd == es[0] + rest;
      var n := |es[0]|;
      assert kd[..n] == es[0] && kd[n..] == rest;
      FindInList(es[1..], p, k);
    }
  }

  // ---------- the third message's list ----------

  lemma ElementsWellFormed(d: KeyData)
    ensures forall i :: 0 <= i < |Elements(d)| ==> WellFormed(Elements(d)[i])
  {
    hide PnByte, Le16;
  }

  lemma {:induction false} FirstMatchAppend(a: seq<seq<bv8>>, b: seq<seq<bv8>>, k: Kind)
    ensures FirstMatch(a + b, k) == if FirstMatch(a, k).Some? then FirstMatch(a, k) else FirstMatch(b, k)
  {
    hide Matches;
    if a == [] {
      assert a + b == b;
    } else {
      assert (a + b)[1..] == a[1..] + b;
      FirstMatchAppend(a[1..], b, k);
    }
  }

  lemma FirstOfOne(e: seq<bv8>, k: Kind)
    ensures FirstMatch([e], k) == if Matches(e, k) then Some(e) else None
  {
  }

  lemma TagIs(e: seq<bv8>, tag: seq<bv8>)
    requires |e| >= 6 && |tag| == 4 && e[2] == tag[0] && e[3] == tag[1] && e[4] == tag[2] && e[5] == tag[3]
    ensures e[2..6] == tag
  {
    SameFour(e[2..6], tag);
  }

  lemma GtkTag(gtk: Key16, keyId: bv8, k: Kind)
    ensures Matches(GtkElement(gtk, keyId), k) <==> GTK.tag == k.tag && (if k.exact then k.minLen == 22 else k.minLen <= 22)
  {
    TagIs(GtkElement(gtk, keyId), GTK.tag);
  }

  lemma GroupKeyTag(g: GroupKey, dataType: bv8, k: Kind)
    ensures Matches(GroupKeyElement(g, dataType), k)
       <==> [0x00, 0x0f, 0xac, dataType] == k.tag && (if k.exact then k.minLen == 28 else k.minLen <= 28)
  {
    hide PnByte, Le16;
    TagIs(GroupKeyElement(g, dataType), [0x00, 0x0f, 0xac, dataType]);
  }

  lemma OciTag(o: Oci, k: Kind)
    ensures Matches(OciElement(o), k) <==> OCI.tag == k.tag && (if k.exact then k.minLen == 7 else k.minLen <= 7)
  {
    TagIs(OciElement(o), OCI.tag);
  }

  lemma TdTag(bitmap: bv8, k: Kind)
    ensures Matches(TdElement(bitmap), k) <==> TD.tag == k.tag && (if k.exact then k.minLen == 5 else k.minLen <= 5)
  {
    TagIs(TdElement(bitmap), TD.tag);
  }

  /** The five kinds select on different octets. */
  lemma TagsDiffer()
    ensures GTK.tag[3] == 1 && IGTK.tag[3] == 9 && BIGTK.tag[3] == 10 && OCI.tag[3] == 13 && TD.tag[3] == 8
  {
  }

  /** What each kind's first match in the list is. */
  function Expected(d: KeyData, k: Kind): Option<seq<bv8>> {
    if k == GTK then Some(GtkElement(d.gtk, d.gtkId))
    else if d.mfp.None? then None
    else if k == IGTK then Some(GroupKeyElement(d.mfp.value.igtk, 0x09))
    else if k == BIGTK && d.mfp.value.bigtk.Some? then Some(GroupKeyElement(d.mfp.value.bigtk.value, 0x0a))
    else if k == OCI && d.mfp.value.oci.Some? then Some(OciElement(d.mfp.value.oci.value))
    else if k == TD && d.mfp.value.td.Some? then Some(TdElement(d.mfp.value.td.value))
    else None
  }

  lemma MfpMatch(m: Mfp, k: Kind)
    requires k == GTK || k == IGTK || k == BIGTK || k == OCI || k == TD
    ensures FirstMatch(MfpElements(m), k) ==
            if k == IGTK then Some(GroupKeyElement(m.igtk, 0x09))
            else if k == BIGTK && m.bigtk.Some? then Some(GroupKeyElement(m.bigtk.value, 0x0a))
            else if k == OCI && m.oci.Some? then Some(OciElement(m.oci.value))
            else if k == TD && m.td.Some? then Some(TdElement(m.td.value))
            else None
  {
    hide Matches, FirstMatch, GroupKeyElement, OciElement, TdElement;
    TagsDiffer();
    var a := [GroupKeyElement(m.igtk, 0x09)];
    var b := if m.bigtk.Some? then [GroupKeyElement(m.bigtk.value, 0x0a)] else [];
    var c := if m.oci.Some? then [OciElement(m.oci.value)] else [];
    var d := if m.td.Some? then [TdElement(m.td.value)] else [];
    FirstMatchAppend(a + b + c, d, k);
    FirstMatchAppend(a + b, c, k);
    FirstMatchAppend(a, b, k);
    FirstOfNone(k);
    FirstOfOne(a[0], k);
    GroupKeyTag(m.igtk, 0x09, k);
    if m.bigtk.Some? {
      FirstOfOne(b[0], k);
      GroupKeyTag(m.bigtk.value, 0x0a, k);
    }
    if m.oci.Some? {
      FirstOfOne(c[0], k);
      OciTag(m.oci.value, k);
    }
    if m.td.Some? {
      FirstOfOne(d[0], k);
      TdTag(m.td.value, k);
    }
  }

  lemma FirstOfNone(k: Kind)
    ensures FirstMatch([], k) == None
  {
  }

  lemma ListMatch(d: KeyData, k: Kind)
    requires k == GTK || k == IGTK || k == BIGTK || k == OCI || k == TD
    ensures FirstMatch(Elements(d), k) == Expected(d, k)
  {
    hide Matches, FirstMatch, GroupKeyElement, OciElement, TdElement, GtkElement, MfpElements;
    TagsDiffer();
    var g := [GtkElement(d.gtk, d.gtkId)];
    FirstOfOne(g[0], k);
    FirstOfNone(k);
    GtkTag(d.gtk, d.gtkId, k);
    if d.mfp.Some? {
      FirstMatchAppend(g, MfpElements(d.mfp.value), k);
      MfpMatch(d.mfp.value, k);
    } else {
      assert Elements(d) == g;
    }
  }

  /** The finder's walk over the padded list. */
  lemma FindInKeyData(d: KeyData, k: Kind)
    requires k == GTK || k == IGTK || k == BIGTK || k == OCI || k == TD
    ensures Find(KeyDataBytes(d), k) == Expected(d, k)
  {
    hide Find, FirstMatch, Elements, Expected;
    ElementsWellFormed(d);
    ListMatch(d, k);
    var b := Flatten(Elements(d));
    var p := if d.mfp.Some? then Padding(|b|) else [];
    assert b + [] == b;
    FindInList(Elements(d), p, k);
  }

  lemma ReadsGtk(gtk: Key16, keyId: bv8)
    ensures GtkElement(gtk, keyId)[8..24] == gtk
  {
  }

  /** A group key comes back with its packet number modulo 2^48. */
  lemma ReadsGroupKey(g: GroupKey, dataType: bv8)
    ensures ReadGroupKey(GroupKeyElement(g, dataType)) == g.(pn := Low48(g.pn))
  {
  }

  function Received(g: Option<GroupKey>): Option<GroupKey> {
    if g.None? then None else Some(g.value.(pn := Low48(g.value.pn)))
  }

  /**
   For every content and every combination of protection, beacon protection, channel validation and
   transition disable, each finder walking the padded list returns what the access point appended,
   or nothing where it appended nothing.
   */
  lemma KeyDataRoundTrip(d: KeyData)
    ensures var kd := KeyDataBytes(d);
      && FindGtk(kd) == Some(d.gtk)
      && FindIgtk(kd) == (if d.mfp.None? then None else Received(Some(d.mfp.value.igtk)))
      && FindBigtk(kd) == (if d.mfp.None? then None else Received(d.mfp.value.bigtk))
      && FindOci(kd) == (if d.mfp.None? then None else d.mfp.value.oci)
      && FindTd(kd) == (if d.mfp.None? then None else d.mfp.value.td)
  {
    hide Find, KeyDataBytes, GtkElement, GroupKeyElement, ReadGroupKey;
    TagsDiffer();
    FindInKeyData(d, GTK);
    FindInKeyData(d, IGTK);
    FindInKeyData(d, BIGTK);
    FindInKeyData(d, OCI);
    FindInKeyData(d, TD);
    ReadsGtk(d.gtk, d.gtkId);
    if d.mfp.Some? {
      ReadsGroupKey(d.mfp.value.igtk, 0x09);
      if d.mfp.value.bigtk.Some? {
        ReadsGroupKey(d.mfp.value.bigtk.value, 0x0a);
      }
    }
  }

  // ---------- sizes ----------

  function Total(es: seq<seq<bv8>>): nat {
    if es == [] then 0 else |es[0]| + Total(es[1..])
  }

  lemma {:induction false} FlattenLength(es: seq<seq<bv8>>)
    ensures |Flatten(es)| == Total(es)
  {
    if es != [] {
      FlattenLength(es[1..]);
    }
  }

  lemma {:induction false} TotalAppend(a: seq<seq<bv8>>, b: seq<seq<bv8>>)
    ensures Total(a + b) == Total(a) + Total(b)
  {
    if a == [] {
      assert a + b == b;
    } else {
      assert (a + b)[1..] == a[1..] + b;
      TotalAppend(a[1..], b);
    }
  }

  lemma TotalOne(e: seq<bv8>)
    ensures Total([e]) == |e| && Total([]) == 0
  {
  }

  lemma MfpTotal(m: Mfp)
    ensures Total(MfpElements(m)) == 30 + (if m.bigtk.Some? then 30 else 0) + (if m.oci.Some? then 9 else 0)
                                     + (if m.td.Some? then 7 else 0)
  {
    hide GroupKeyElement, OciElement, TdElement, Total;
    var a := [GroupKeyElement(m.igtk, 0x09)];
    var b := if m.bigtk.Some? then [GroupKeyElement(m.bigtk.value, 0x0a)] else [];
    var c := if m.oci.Some? then [OciElement(m.oci.value)] else [];
    var d := if m.td.Some? then [TdElement(m.td.value)] else [];
    TotalAppend(a + b + c, d);
    TotalAppend(a + b, c);
    TotalAppend(a, b);
    TotalOne(a[0]);
    if m.bigtk.Some? { TotalOne(b[0]); }
    if m.oci.Some? { TotalOne(c[0]); }
    if m.td.Some? { TotalOne(d[0]); }
  }

  /** The list is a positive multiple of eight octets and fits the buffer, also once wrapped. */
  lemma KeyDataFits(d: KeyData)
    ensures |KeyDataBytes(d)| % 8 == 0 && 24 <= |KeyDataBytes(d)| <= 104 && |KeyDataBytes(d)| + 8 <= KDE_MAX
  {
    hide GtkElement, MfpElements, Flatten, Total;
    FlattenLength(Elements(d));
    var g := [GtkElement(d.gtk, d.gtkId)];
    TotalOne(g[0]);
    if d.mfp.Some? {
      TotalAppend(g, MfpElements(d.mfp.value));
      MfpTotal(d.mfp.value);
    } else {
      assert Elements(d) == g;
    }
  }

  /** What the station unwraps with the same key is the list that the access point wrapped. */
  lemma KeyDataDelivered(kek: Schedule, d: KeyData)
    ensures KeyWrap.Wrappable(|KeyDataBytes(d)|)
    ensures KeyWrap.Unwrap(kek, KeyWrap.Wrap(kek, KeyDataBytes(d))) == Some(KeyDataBytes(d))
    ensures |KeyWrap.Wrap(kek, KeyDataBytes(d))| <= KDE_MAX
  {
    hide KeyDataBytes, KeyWrap.Wrap, KeyWrap.Unwrap;
    KeyDataFits(d);
    KeyWrap.WrapRoundTrip(kek, KeyDataBytes(d));
  }
}
