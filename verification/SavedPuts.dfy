/** What a saved tree comes to when nothing is lost: one effect for every visit. */
module SavedPuts {
  import opened Bytes
  import opened Records
  import opened Walk
  import opened RegMulti
  import opened OperSave
  import opened Damage
  import Dichl

  function FilePuts(files: seq<SmallFile>): (puts: seq<Op>)
    ensures |puts| == |files|
  {
    seq(|files|, i requires 0 <= i < |files| => PutFile(files[i].head.path, files[i].data, files[i].head.attrs))
  }

  function SinglePut(head: ObjHead): Op
    requires UnitOk(Single(head))
  {
    if head.objtype == HARDLINK then PutLink(head.path, head.link.value, head.attrs)
    else PutOther(head.path, head.objtype, head.attrs)
  }

  function UnitPuts(u: Unit): seq<Op>
    requires UnitOk(u)
  {
    match u
    case Large(head, content) => [PutFile(head.path, content, head.attrs)]
    case Single(head) => [SinglePut(head)]
    case Shared(files) => FilePuts(files)
  }

  function Puts(us: seq<Unit>): seq<Op>
    requires UnitsOk(us)
  {
    if us == [] then [] else Puts(us[..|us| - 1]) + UnitPuts(us[|us| - 1])
  }

  function StatePuts(s: SaveState): seq<Op>
    requires UnitsOk(s.units)
  {
    Puts(s.units) + FilePuts(s.pending)
  }

  lemma {:induction false} PutsSnoc(us: seq<Unit>, u: Unit)
    requires UnitsOk(us) && UnitOk(u)
    ensures UnitsOk(us + [u]) && Puts(us + [u]) == Puts(us) + UnitPuts(u)
  {
    assert (us + [u])[..|us|] == us;
  }

  // ---- hard links

  predicate SeveralLinks(v: Visit) {
    v.FileVisit? && v.nlink > 1
  }

  predicate HasKey(v: Visit, rdev: u64, ino: u64) {
    SeveralLinks(v) && v.rdev == rdev && v.ino == ino
  }

  /** The first visit with this key, or the length. */
  function FirstKey(vs: seq<Visit>, rdev: u64, ino: u64): (f: nat)
    ensures f <= |vs|
    ensures f < |vs| ==> HasKey(vs[f], rdev, ino)
    ensures forall j :: 0 <= j < f ==> !HasKey(vs[j], rdev, ino)
  {
    if vs == [] then 0 else if HasKey(vs[0], rdev, ino) then 0
    else
      var f := FirstKey(vs[1..], rdev, ino);
      assert forall j :: 1 <= j <= f ==> vs[j] == vs[1..][j - 1];
      1 + f
  }

  function LinksOf(vs: seq<Visit>): seq<Dichl.Entry> {
    if vs == [] then []
    else
      var n := |vs| - 1;
      LinksOf(vs[..n]) +
      if SeveralLinks(vs[n]) && FirstKey(vs[..n], vs[n].rdev, vs[n].ino) == n
      then [Dichl.Entry(vs[n].rdev, vs[n].ino, vs[n].path)]
      else []
  }

  lemma {:induction false} FirstKeySnoc(vs: seq<Visit>, v: Visit, rdev: u64, ino: u64)
    ensures FirstKey(vs + [v], rdev, ino) ==
            if FirstKey(vs, rdev, ino) < |vs| then FirstKey(vs, rdev, ino)
            else if HasKey(v, rdev, ino) then |vs|
            else |vs| + 1
  {
    var all := vs + [v];
    var f, g := FirstKey(vs, rdev, ino), FirstKey(all, rdev, ino);
    assert forall j :: 0 <= j < |vs| ==> all[j] == vs[j];
    assert all[|vs|] == v;
  }

  /** The dictionary answers with the path of the first visit with the key. */
  lemma {:induction false} LookupIsFirst(vs: seq<Visit>, rdev: u64, ino: u64)
    ensures var f := FirstKey(vs, rdev, ino);
            Dichl.Lookup(LinksOf(vs), rdev, ino) == if f < |vs| then Some(vs[f].path) else None
  {
    hide Dichl.Lookup, FirstKey;
    if vs == [] {
      NothingFound(rdev, ino);
    } else {
      var n := |vs| - 1;
      assert vs[..n] + [vs[n]] == vs;
      FirstKeySnoc(vs[..n], vs[n], rdev, ino);
      LookupIsFirst(vs[..n], rdev, ino);
      var f := FirstKey(vs[..n], rdev, ino);
      assert f < n ==> vs[..n][f] == vs[f];
      assert LinksOf(vs[..n]) + [] == LinksOf(vs[..n]);
      if SeveralLinks(vs[n]) {
        Dichl.LookupSnoc(LinksOf(vs[..n]), Dichl.Entry(vs[n].rdev, vs[n].ino, vs[n].path), rdev, ino);
        assert !HasKey(vs[n], rdev, ino) ==> !(vs[n].rdev == rdev && vs[n].ino == ino);
      }
    }
  }

  lemma {:induction false} NothingFound(rdev: u64, ino: u64)
    ensures Dichl.Lookup([], rdev, ino).None? && FirstKey([], rdev, ino) == 0
  {}

  // ---- one effect for every visit

  /** The effect of a visit, given the visits before it. */
  function VisitPut(before: seq<Visit>, v: Visit): (op: Op)
    ensures op.path == v.path
  {
    if v.PlainVisit? then PutOther(v.path, v.objtype, v.attrs)
    else
      var f := FirstKey(before, v.rdev, v.ino);
      if v.nlink > 1 && f < |before| then PutLink(v.path, before[f].path, v.attrs)
      else PutFile(v.path, ContentOf(v), v.attrs)
  }

  function VisitPuts(vs: seq<Visit>): (puts: seq<Op>)
    ensures |puts| == |vs|
  {
    seq(|vs|, i requires 0 <= i < |vs| => VisitPut(vs[..i], vs[i]))
  }

  /** Every hard link comes behind the large file whose path it names. */
  predicate TargetsFirst(puts: seq<Op>) {
    forall j :: 0 <= j < |puts| && puts[j].PutLink? ==> FileBefore(puts, j, puts[j].target)
  }

  predicate FileBefore(puts: seq<Op>, j: nat, path: Path)
    requires j <= |puts|
  {
    exists k :: 0 <= k < j && puts[k].PutFile? && puts[k].path == path
  }

  ghost predicate Kept(c: Cfg, vs: seq<Visit>, s: SaveState) {
    && StateOk(c, s) && s.links == LinksOf(vs)
    && multiset(StatePuts(s)) == multiset(VisitPuts(vs))
    && TargetsFirst(Puts(s.units))
    && (forall i :: 0 <= i < |s.links| ==> FileBefore(Puts(s.units), |Puts(s.units)|, s.links[i].str))
    && (forall i :: 0 <= i < |s.units| ==> DigestsOk(c, s.units[i])) && DigestsOk(c, Shared(s.pending))
  }

  lemma {:induction false} VisitPutsSnoc(vs: seq<Visit>, v: Visit)
    ensures VisitPuts(vs + [v]) == VisitPuts(vs) + [VisitPut(vs, v)]
  {
    var all := vs + [v];
    assert forall i :: 0 <= i <= |vs| ==> all[..i] == vs[..i];
    assert all[..|vs|] == vs;
  }

  lemma {:induction false} FileBeforeMore(puts: seq<Op>, more: seq<Op>, j: nat, path: Path)
    requires j <= |puts| && FileBefore(puts, j, path)
    ensures FileBefore(puts + more, j, path) && FileBefore(puts + more, |puts + more|, path)
  {
    var k :| 0 <= k < j && puts[k].PutFile? && puts[k].path == path;
    assert (puts + more)[k] == puts[k];
  }

  /** Effects that are no links can always be added, and so can links to a file seen before. */
  lemma {:induction false} TargetsFirstMore(puts: seq<Op>, more: seq<Op>)
    requires TargetsFirst(puts)
    requires forall i :: 0 <= i < |more| && more[i].PutLink? ==> FileBefore(puts, |puts|, more[i].target)
    ensures TargetsFirst(puts + more)
  {
    hide FileBefore;
    var all := puts + more;
    forall j | 0 <= j < |all| && all[j].PutLink? ensures FileBefore(all, j, all[j].target) {
      if j < |puts| {
        FileBeforeMore(puts, more, j, all[j].target);
        FileBeforeAt(puts, more, j, all[j].target);
      } else {
        FileBeforeLater(puts, more, j, all[j].target);
      }
    }
  }

  lemma {:induction false} FileBeforeAt(puts: seq<Op>, more: seq<Op>, j: nat, path: Path)
    requires j <= |puts| && FileBefore(puts, j, path)
    ensures FileBefore(puts + more, j, path)
  {
    FileBeforeMore(puts, more, j, path);
  }

  lemma {:induction false} FileBeforeLater(puts: seq<Op>, more: seq<Op>, j: nat, path: Path)
    requires |puts| <= j <= |puts + more| && FileBefore(puts, |puts|, path)
    ensures FileBefore(puts + more, j, path)
  {
    var k :| 0 <= k < |puts| && puts[k].PutFile? && puts[k].path == path;
    assert (puts + more)[k] == puts[k];
  }

  lemma {:induction false} LinksStep(vs: seq<Visit>, v: Visit, s: SaveState)
    requires s.links == LinksOf(vs)
    ensures Noted(s, v).links == LinksOf(vs + [v])
    ensures v.FileVisit? ==>
              var f := FirstKey(vs, v.rdev, v.ino);
              FirstLink(s, v) == if v.nlink > 1 && f < |vs| then Some(vs[f].path) else None
  {
    hide Dichl.Lookup, FirstKey;
    assert (vs + [v])[..|vs|] == vs && (vs + [v])[|vs|] == v;
    assert LinksOf(vs) + [] == LinksOf(vs);
    if v.FileVisit? {
      LookupIsFirst(vs, v.rdev, v.ino);
    }
  }

  lemma {:induction false} FoundInLinks(links: seq<Dichl.Entry>, key1: u64, key2: u64)
    ensures var r := Dichl.Lookup(links, key1, key2); r.Some? ==>
              exists i :: 0 <= i < |links| && links[i].str == r.value
  {
    if links != [] {
      FoundInLinks(links[1..], key1, key2);
      var r := Dichl.Lookup(links[1..], key1, key2);
      if r.Some? {
        var i :| 0 <= i < |links[1..]| && links[1..][i].str == r.value;
        assert links[i + 1].str == r.value;
      }
      assert links[0].str == links[0].str;
    }
  }

  /** A unit for one visit is written. */
  lemma {:induction false} KeptUnit(c: Cfg, vs: seq<Visit>, v: Visit, s: SaveState, u: Unit, s': SaveState)
    requires Kept(c, vs, s) && UnitOk(u) && UnitPuts(u) == [VisitPut(vs, v)] && DigestsOk(c, u)
    requires s'.units == s.units + [u] && s'.pending == s.pending && s'.links == Noted(s, v).links && StateOk(c, s')
    requires SeveralLinks(v) && FirstLink(s, v).None? ==> VisitPut(vs, v).PutFile?
    requires VisitPut(vs, v).PutLink? ==> FirstLink(s, v) == Some(VisitPut(vs, v).target)
    ensures Kept(c, vs + [v], s')
  {
    hide UnitOk, UnitsOk, UnitPuts, DigestsOk, FilePuts, VisitPut, Puts, LinksOf, VisitPuts, FileBefore;
    hide TargetsFirst, Noted;
    hide TotalSize, Dichl.UniqueKeys;
    var x := VisitPut(vs, v);
    var p, f := Puts(s.units), FilePuts(s.pending);
    PutsSnoc(s.units, u);
    VisitPutsSnoc(vs, v);
    LinksStep(vs, v, s);
    assert multiset(p + [x] + f) == multiset(p + f) + multiset{x};
    if x.PutLink? {
      FoundInLinks(s.links, v.rdev, v.ino);
    }
    TargetsFirstMore(p, [x]);
    forall i | 0 <= i < |s'.links| ensures FileBefore(p + [x], |p + [x]|, s'.links[i].str) {
      if i < |s.links| {
        assert s'.links[i] == s.links[i] by { NotedKeeps(s, v, i); }
        FileBeforeMore(p, [x], |p|, s.links[i].str);
      } else {
        NotedLast(s, v, i);
        FileJustPut(p, x);
      }
    }
  }

  lemma {:induction false} NotedKeeps(s: SaveState, v: Visit, i: nat)
    requires i < |s.links|
    ensures i < |Noted(s, v).links| && Noted(s, v).links[i] == s.links[i]
  {}

  lemma {:induction false} NotedLast(s: SaveState, v: Visit, i: nat)
    requires |s.links| <= i < |Noted(s, v).links|
    ensures SeveralLinks(v) && FirstLink(s, v).None? && Noted(s, v).links[i].str == v.path
  {}

  lemma {:induction false} FileJustPut(p: seq<Op>, x: Op)
    requires x.PutFile?
    ensures FileBefore(p + [x], |p + [x]|, x.path)
  {
    assert (p + [x])[|p|] == x;
  }

  /** A small file is packed, and perhaps a full block is written before. */
  lemma {:induction false} KeptSmall(c: Cfg, vs: seq<Visit>, v: Visit, s: SaveState, f: SmallFile, s': SaveState)
    requires Kept(c, vs, s) && StateOk(c, s') && !SeveralLinks(v)
    requires FilePuts([f]) == [VisitPut(vs, v)] && DigestsOk(c, Shared([f]))
    requires s'.units == PackFile(c, s, f).units && s'.pending == PackFile(c, s, f).pending && s'.links == s.links
    ensures Kept(c, vs + [v], s')
  {
    hide UnitOk, UnitsOk, VisitPut, Puts, LinksOf, VisitPuts, FileBefore, TargetsFirst, Dichl.UniqueKeys, TotalSize;
    var x := VisitPut(vs, v);
    var p, q := Puts(s.units), FilePuts(s.pending);
    VisitPutsSnoc(vs, v);
    LinksStep(vs, v, s);
    assert FilePuts([f])[0] == x;
    if s'.units == s.units {
      assert FilePuts(s.pending + [f]) == q + [x];
      assert p + (q + [x]) == p + q + [x];
    } else {
      PendingUnit(c, s);
      PutsSnoc(s.units, Shared(s.pending));
      TargetsFirstMore(p, q);
      forall i | 0 <= i < |s.links| ensures FileBefore(p + q, |p + q|, s.links[i].str) {
        FileBeforeMore(p, q, |p|, s.links[i].str);
      }
    }
  }

  lemma {:induction false} PendingUnit(c: Cfg, s: SaveState)
    requires StateOk(c, s)
    ensures UnitOk(Shared(s.pending)) && UnitsOk(s.units)
  {}

  lemma {:induction false} KeptStep(c: Cfg, vs: seq<Visit>, v: Visit, s: SaveState)
    requires CfgOk(c) && VisitOk(v) && Kept(c, vs, s)
    ensures Kept(c, vs + [v], SaveVisit(c, s, v))
  {
    hide Kept, StateOk, Dichl.Lookup, FirstKey;
    KeptOk(c, vs, s);
    SaveVisitOk(c, s, v);
    LinksStep(vs, v, s);
    var head, content, s' := HeadFor(c, s, v), ContentOf(v), SaveVisit(c, s, v);
    if head.objtype == REGFILEMULTI {
      KeptSmall(c, vs, v, s, Digested(c, head, content), s');
    } else {
      var u := if head.objtype == REGFILEUNIQUE then Large(head, content) else Single(head);
      KeptUnit(c, vs, v, s, u, s');
    }
  }

  lemma {:induction false} KeptOk(c: Cfg, vs: seq<Visit>, s: SaveState)
    requires Kept(c, vs, s)
    ensures StateOk(c, s) && s.links == LinksOf(vs)
  {}

  lemma {:induction false} SavedKept(c: Cfg, vs: seq<Visit>)
    requires CfgOk(c) && VisitsOk(vs)
    ensures Kept(c, vs, SaveVisits(c, Start(c), vs))
  {
    hide SaveVisit, VisitOk;
    if vs == [] {
      NothingKept(c);
    } else {
      var n := |vs| - 1;
      SavedKept(c, vs[..n]);
      KeptStep(c, vs[..n], vs[n], SaveVisits(c, Start(c), vs[..n]));
      assert vs[..n] + [vs[n]] == vs;
    }
  }

  lemma {:induction false} NothingKept(c: Cfg)
    requires CfgOk(c)
    ensures Kept(c, [], Start(c))
  {
    assert VisitPuts([]) == [] && StatePuts(Start(c)) == [];
  }

  /** The units of a saved walk. */
  function Saved(c: Cfg, vs: seq<Visit>): seq<Unit> {
    Flush(SaveVisits(c, Start(c), vs)).units
  }

  /** Saving writes exactly one effect for every visit, and each hard link behind the file whose path it
      names, although small files are written late. */
  lemma {:induction false} SavedPutsExact(c: Cfg, vs: seq<Visit>)
    requires CfgOk(c) && VisitsOk(vs)
    ensures UnitsOk(Saved(c, vs)) && forall i :: 0 <= i < |Saved(c, vs)| ==> DigestsOk(c, Saved(c, vs)[i])
    ensures multiset(Puts(Saved(c, vs))) == multiset(VisitPuts(vs))
    ensures TargetsFirst(Puts(Saved(c, vs)))
  {
    hide DigestsOk, VisitPuts, FileBefore, Puts, UnitOk, SaveVisits;
    var s := SaveVisits(c, Start(c), vs);
    SavedKept(c, vs);
    if s.pending == [] {
      assert Puts(s.units) + FilePuts(s.pending) == Puts(s.units);
    } else {
      PendingUnit(c, s);
      PutsSnoc(s.units, Shared(s.pending));
      TargetsFirstMore(Puts(s.units), FilePuts(s.pending));
    }
  }
}
