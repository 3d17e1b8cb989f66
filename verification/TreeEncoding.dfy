/** Which trees can be written: every record of a saved walk fits its dictionary. */
module TreeEncoding {
  import opened Bytes
  import opened ArchiveItems
  import opened Dico
  import opened Records
  import opened Walk
  import opened RegMulti
  import opened OperSave
  import opened ObjCodec
  import opened SavedPuts
  import opened EndToEnd
  import Dichl
  import Format

  /** Attributes under keys of their own; the names of all extended attributes of a file are read into
      4096 bytes, so that there are far fewer of them. */
  predicate AttrsOk(attrs: Attrs) {
    WellFormed(attrs) && |attrs| <= 0x7000 && forall i :: 0 <= i < |attrs| ==> !Interpreted(attrs[i])
  }

  predicate VisitEncodable(v: Visit) {
    StringOk(v.path) && AttrsOk(v.attrs)
  }

  predicate VisitsEncodable(vs: seq<Visit>) {
    forall i :: 0 <= i < |vs| ==> VisitEncodable(vs[i])
  }

  // ---- one header

  predicate HeadEncodable(h: ObjHead) {
    StringOk(h.path) && AttrsOk(h.attrs) && (h.link.Some? ==> StringOk(h.link.value)) &&
      (h.md5.Some? ==> |h.md5.value| <= 16)
  }

  lemma {:induction false} FindNone(d: seq<DicoItem>, key: u16)
    requires Find(d, key) == None
    ensures forall i :: 0 <= i < |d| ==> !(d[i].section == 0 && d[i].key == key)
  {
    if d != [] {
      FindNone(d[1..], key);
      assert forall i :: 1 <= i < |d| ==> d[i] == d[1..][i - 1];
    }
  }

  /** One of the items that may or may not be in a header. */
  predicate PartOk(part: seq<DicoItem>) {
    |part| <= 1 && (part != [] ==> part[0].section == 0 && Storable(part[0]) && Key(part[0].key))
  }

  predicate PartIs(part: seq<DicoItem>, key: u16) {
    part != [] && part[0].key == key
  }

  /** The first n parts in front of d, the last of them first. */
  function Stack(parts: seq<seq<DicoItem>>, d: seq<DicoItem>, n: nat): seq<DicoItem>
    requires n <= |parts|
  {
    if n == 0 then d else parts[n - 1] + Stack(parts, d, n - 1)
  }

  lemma {:induction false} StackFind(parts: seq<seq<DicoItem>>, d: seq<DicoItem>, n: nat, key: u16)
    requires n <= |parts| && Find(d, key) == None && forall i :: 0 <= i < n ==>
               PartOk(parts[i]) && !PartIs(parts[i], key)
    ensures Find(Stack(parts, d, n), key) == None
  {
    if n > 0 {
      StackFind(parts, d, n - 1, key);
      FindConcat(parts[n - 1], Stack(parts, d, n - 1), key);
      assert PartOk(parts[n - 1]) && !PartIs(parts[n - 1], key);
      assert |parts[n - 1]| == 1 ==> parts[n - 1][1..] == [];
    }
  }

  lemma {:induction false} StackOk(parts: seq<seq<DicoItem>>, d: seq<DicoItem>, n: nat)
    requires n <= |parts| && WellFormed(d) && forall key :: Key(key) ==> Find(d, key) == None
    requires forall i :: 0 <= i < n ==> PartOk(parts[i])
    requires forall i, j :: 0 <= i < j < n && parts[j] != [] ==> !PartIs(parts[i], parts[j][0].key)
    ensures WellFormed(Stack(parts, d, n)) && |Stack(parts, d, n)| <= |d| + n
  {
    hide Find, Key, WellFormed, PartOk, PartIs;
    if n > 0 {
      StackOk(parts, d, n - 1);
      StackFindNext(parts, d, n - 1);
      InFront(parts[n - 1], Stack(parts, d, n - 1));
    }
  }

  lemma {:induction false} StackFindNext(parts: seq<seq<DicoItem>>, d: seq<DicoItem>, n: nat)
    requires n < |parts| && PartOk(parts[n]) && forall key :: Key(key) ==> Find(d, key) == None
    requires forall i :: 0 <= i < n ==> PartOk(parts[i]) && (parts[n] != [] ==> !PartIs(parts[i], parts[n][0].key))
    ensures parts[n] != [] ==> Find(Stack(parts, d, n), parts[n][0].key) == None
  {
    hide Find, Key, PartIs;
    if parts[n] != [] {
      StackFind(parts, d, n, parts[n][0].key);
    }
  }

  lemma {:induction false} InFront(part: seq<DicoItem>, rest: seq<DicoItem>)
    requires PartOk(part) && WellFormed(rest) && (part != [] ==> Find(rest, part[0].key) == None)
    ensures WellFormed(part + rest) && |part + rest| <= |rest| + 1
  {
    hide Find, Key;
    if part == [] {
      assert part + rest == rest;
    } else {
      FindNone(rest, part[0].key);
      var e := part + rest;
      assert e[0] == part[0] && forall i :: 1 <= i < |e| ==> e[i] == rest[i - 1];
    }
  }

  function PartsOf(h: ObjHead): (parts: seq<seq<DicoItem>>)
    ensures |parts| == 9
  {
    [OffsetItems(h), CountItems(h), Md5Items(h), FlagItems(h), LinkItems(h), TypeItems(h),
     [U64Item(0, SIZE, h.size)], [StringItem(0, PATH, h.path)], [U64Item(0, OBJECTID, h.id)]]
  }

  /** The same items, in another order. */
  lemma {:induction false} StackIsHead(h: ObjHead)
    ensures multiset(Stack(PartsOf(h), h.attrs, 9)) == multiset(EncHead(h))
  {
    hide OffsetItems, CountItems, Md5Items, FlagItems, LinkItems, TypeItems, StdCount;
    var p := PartsOf(h);
    var tail := LinkItems(h) + (FlagItems(h) + (Md5Items(h) + (CountItems(h) + (OffsetItems(h) + h.attrs))));
    assert Stack(p, h.attrs, 0) == h.attrs;
    assert Stack(p, h.attrs, 1) == OffsetItems(h) + h.attrs;
    assert Stack(p, h.attrs, 2) == CountItems(h) + Stack(p, h.attrs, 1);
    assert Stack(p, h.attrs, 3) == Md5Items(h) + Stack(p, h.attrs, 2);
    assert Stack(p, h.attrs, 4) == FlagItems(h) + Stack(p, h.attrs, 3);
    assert Stack(p, h.attrs, 5) == tail;
    assert Stack(p, h.attrs, 6) == TypeItems(h) + tail;
    assert Stack(p, h.attrs, 7) == p[6] + (TypeItems(h) + tail);
    assert Stack(p, h.attrs, 8) == p[7] + (p[6] + (TypeItems(h) + tail));
    assert Stack(p, h.attrs, 9) == p[8] + (p[7] + (p[6] + (TypeItems(h) + tail)));
    assert FirstItems(h) == p[8] + p[7] + p[6];
    assert h.attrs == StdAttrs(h) + ExtraAttrs(h);
  }

  lemma {:induction false} OnceInUnique(d: seq<DicoItem>, x: DicoItem)
    requires UniqueKeys(d)
    ensures multiset(d)[x] <= 1
  {
    if d != [] {
      var n := |d| - 1;
      assert d == d[..n] + [d[n]];
      OnceInUnique(d[..n], x);
      if d[n] == x {
        assert x !in d[..n];
      }
    }
  }

  lemma {:induction false} TwiceInItems(d: seq<DicoItem>, i: nat, j: nat)
    requires i < j < |d|
    ensures d[i] == d[j] ==> multiset(d)[d[i]] >= 2
  {
    assert d == d[..j] + d[j..] && d[i] in d[..j] && d[j] in d[j..];
    assert multiset(d)[d[i]] == multiset(d[..j])[d[i]] + multiset(d[j..])[d[i]];
  }

  /** The order of the items does not matter. */
  lemma {:induction false} Rearranged(a: seq<DicoItem>, b: seq<DicoItem>)
    requires multiset(a) == multiset(b) && WellFormed(a)
    ensures WellFormed(b) && |b| == |a|
  {
    assert |multiset(a)| == |a| && |multiset(b)| == |b|;
    forall i | 0 <= i < |b| ensures Storable(b[i]) {
      assert b[i] in multiset(b);
      assert b[i] in a;
    }
    forall i, j | 0 <= i < j < |b| ensures !(b[i].section == b[j].section && b[i].key == b[j].key) {
      TwiceInItems(b, i, j);
      OnceInUnique(a, b[i]);
      assert b[i] in multiset(b) && b[j] in multiset(b);
      var p :| 0 <= p < |a| && a[p] == b[i];
      var q :| 0 <= q < |a| && a[q] == b[j];
    }
  }

  lemma {:induction false} PartsFacts(h: ObjHead)
    requires HeadEncodable(h)
    ensures forall i :: 0 <= i < 9 ==> PartOk(PartsOf(h)[i])
    ensures forall i, j :: 0 <= i < j < 9 && PartsOf(h)[j] != [] ==> !PartIs(PartsOf(h)[i], PartsOf(h)[j][0].key)
  {
    hide AttrsOk;
  }

  /** A header with short strings and a reasonable number of attributes fits its dictionary. */
  lemma {:induction false} HeadFitsDico(h: ObjHead)
    requires HeadEncodable(h)
    ensures HeadOk(h)
  {
    hide Find, WellFormed, Interpreted, StringOk, PartOk, PartIs, EncHead, PartsOf, Stack;
    NoneInterpreted(h.attrs);
    PartsFacts(h);
    StackOk(PartsOf(h), h.attrs, 9);
    StackIsHead(h);
    Rearranged(Stack(PartsOf(h), h.attrs, 9), EncHead(h));
    Format.ShortPrintable(EncHead(h));
  }

  // ---- all headers of a saved walk

  predicate UnitEncodable(u: Unit) {
    match u
    case Large(head, _) => HeadEncodable(head)
    case Single(head) => HeadEncodable(head)
    case Shared(files) => forall i :: 0 <= i < |files| ==> HeadEncodable(files[i].head) && files[i].data != []
  }

  predicate StateEncodable(s: SaveState) {
    && (forall i :: 0 <= i < |s.units| ==> UnitEncodable(s.units[i]) && s.units[i] != Shared([]))
    && UnitEncodable(Shared(s.pending))
    && (forall i :: 0 <= i < |s.links| ==> StringOk(s.links[i].str))
  }

  ghost predicate DigestsShort(c: Cfg) {
    forall content: bytes :: |c.md5(content)| <= 16
  }

  lemma {:induction false} StepEncodable(c: Cfg, s: SaveState, v: Visit)
    requires CfgOk(c) && DigestsShort(c) && StateOk(c, s) && StateEncodable(s) && VisitOk(v) && VisitEncodable(v)
    ensures StateEncodable(SaveVisit(c, s, v))
  {
    hide AttrsOk, StringOk, StateOk, Dichl.Lookup, EnoughSpace;
    var head := HeadFor(c, s, v);
    if head.objtype == HARDLINK {
      FoundInLinks(s.links, v.rdev, v.ino);
    }
    assert HeadEncodable(head);
    if head.objtype == REGFILEMULTI {
      hide HeadFor;
      var f := Digested(c, head, ContentOf(v));
      assert HeadEncodable(f.head) && f.data != [];
      PackEncodable(c, s, f);
    }
  }

  lemma {:induction false} PackEncodable(c: Cfg, s: SaveState, f: SmallFile)
    requires CfgOk(c) && StateOk(c, s) && StateEncodable(s) && HeadEncodable(f.head) && f.data != []
    requires SmallOk(f) && f.head.objtype == REGFILEMULTI && |f.data| < Threshold(c)
    ensures StateEncodable(PackFile(c, s, f))
  {
    hide HeadEncodable, StateOk, EnoughSpace;
    PackFileOk(c, s, f);
  }

  lemma {:induction false} VisitsStateEncodable(c: Cfg, vs: seq<Visit>)
    requires CfgOk(c) && DigestsShort(c) && VisitsOk(vs) && VisitsEncodable(vs)
    ensures StateEncodable(SaveVisits(c, Start(c), vs))
  {
    hide SaveVisit, VisitOk, VisitEncodable;
    if vs != [] {
      var n := |vs| - 1;
      VisitsStateEncodable(c, vs[..n]);
      SaveVisitsOk(c, vs[..n]);
      StepEncodable(c, SaveVisits(c, Start(c), vs[..n]), vs[n]);
    }
  }

  // ---- all records

  lemma {:induction false} UnitRecsOk(c: Cfg, u: Unit)
    requires CfgOk(c) && DigestsShort(c) && UnitOk(u) && UnitEncodable(u)
    ensures RecsOk(EmitUnit(c, u))
  {
    hide HeadOk, HeadEncodable;
    match u
    case Large(head, content) =>
      HeadFitsDico(head);
      ChunksOk(content, 0, c.blksize, c.fsid);
    case Single(head) =>
      HeadFitsDico(head);
    case Shared(files) =>
      if files != [] {
        PackOk(c, files);
      }
  }

  lemma {:induction false} ChunksOk(content: bytes, pos: nat, blksize: nat, fsid: u16)
    requires 0 < blksize <= MAX_BLKSIZE && |content| < 0x1_0000_0000_0000_0000
    ensures RecsOk(Chunks(content, pos, blksize, fsid))
    decreases |content| - pos
  {
    if pos < |content| {
      ChunksOk(content, pos + Min(|content| - pos, blksize), blksize, fsid);
    }
  }

  lemma {:induction false} PackOk(c: Cfg, files: seq<SmallFile>)
    requires CfgOk(c) && UnitOk(Shared(files)) && UnitEncodable(Shared(files)) && files != []
    ensures RecsOk(EmitUnit(c, Shared(files)))
  {
    hide HeadOk, AttrsOk, StringOk, OffsetOf;
    SharedSize(files);
    OffsetsTile(files, 0);
    var recs := EmitUnit(c, Shared(files));
    forall i | 0 <= i < |recs| ensures RecOk(recs[i]) {
      if i < |files| {
        assert recs[i] == Obj(PackedHead(files, i), c.fsid) && HeadEncodable(files[i].head);
        HeadFitsDico(PackedHead(files, i));
      } else {
        OffsetsTile(files, |files| - 1);
      }
    }
  }

  lemma {:induction false} EmitRecsOk(c: Cfg, us: seq<Unit>)
    requires CfgOk(c) && DigestsShort(c) && UnitsOk(us) && forall i :: 0 <= i < |us| ==> UnitEncodable(us[i])
    ensures RecsOk(Emit(c, us))
  {
    hide EmitUnit, UnitEncodable, RecOk, UnitOk;
    if us != [] {
      EmitRecsOk(c, us[..|us| - 1]);
      UnitRecsOk(c, us[|us| - 1]);
    }
  }

  /** Every record of a saved walk fits its dictionary or its block. */
  lemma {:induction false} SavedTreeFits(c: Cfg, vs: seq<Visit>)
    requires CfgOk(c) && DigestsShort(c) && VisitsOk(vs) && VisitsEncodable(vs)
    ensures UnitsOk(Saved(c, vs)) && RecsOk(Emit(c, Saved(c, vs)) + [Other(DATF, c.fsid)])
  {
    hide UnitEncodable, RecOk, Emit, VisitsEncodable, VisitsOk, UnitOk, SaveVisits;
    VisitsStateEncodable(c, vs);
    SavedPutsExact(c, vs);
    var s := SaveVisits(c, Start(c), vs);
    forall i | 0 <= i < |Saved(c, vs)| ensures UnitEncodable(Saved(c, vs)[i]) {
      assert i < |s.units| ==> Saved(c, vs)[i] == s.units[i];
    }
    EmitRecsOk(c, Saved(c, vs));
    EndOk(c);
  }

  lemma {:induction false} EndOk(c: Cfg)
    ensures RecOk(Other(DATF, c.fsid))
  {}
}
