/** In the stream of a saved tree every hard link stands behind the large file that it names, although
    small files are written late (src/oper_save.c). */
module HardLinkOrder {
  import opened Bytes
  import opened Records
  import opened Walk
  import opened RegMulti
  import opened OperSave
  import opened SavedPuts
  import Dichl

  predicate IsLink(rec: Rec) {
    rec.Obj? && rec.head.objtype == HARDLINK
  }

  /** The header of a file of its own with this path is among these records. */
  predicate UniqueIn(recs: seq<Rec>, path: Option<Path>) {
    exists k :: 0 <= k < |recs| && recs[k].Obj? && recs[k].head.objtype == REGFILEUNIQUE &&
      Some(recs[k].head.path) == path
  }

  predicate LinksBehind(recs: seq<Rec>) {
    forall j :: 0 <= j < |recs| && IsLink(recs[j]) ==> UniqueIn(recs[..j], recs[j].head.link)
  }

  lemma {:induction false} UniqueInMore(recs: seq<Rec>, more: seq<Rec>, path: Option<Path>)
    requires UniqueIn(recs, path)
    ensures UniqueIn(recs + more, path)
  {
    var k :| 0 <= k < |recs| && recs[k].Obj? && recs[k].head.objtype == REGFILEUNIQUE &&
      Some(recs[k].head.path) == path;
    assert (recs + more)[k] == recs[k];
  }

  lemma {:induction false} LinksBehindMore(recs: seq<Rec>, more: seq<Rec>)
    requires LinksBehind(recs) && forall k :: 0 <= k < |more| && IsLink(more[k]) ==> UniqueIn(recs, more[k].head.link)
    ensures LinksBehind(recs + more)
  {
    hide UniqueIn;
    var all := recs + more;
    forall j | 0 <= j < |all| && IsLink(all[j]) ensures UniqueIn(all[..j], all[j].head.link) {
      if j < |recs| {
        assert all[..j] == recs[..j] && all[j] == recs[j];
      } else {
        assert all[..j] == recs + more[..j - |recs|] && all[j] == more[j - |recs|];
        UniqueInMore(recs, more[..j - |recs|], all[j].head.link);
      }
    }
  }

  predicate NewLink(u: Unit, e: Dichl.Entry) {
    u.Large? && e.str == u.head.path
  }

  ghost predicate Ordered(c: Cfg, s: SaveState) {
    && CfgOk(c) && StateOk(c, s) && LinksBehind(Emit(c, s.units))
    && forall i :: 0 <= i < |s.links| ==> UniqueIn(Emit(c, s.units), Some(s.links[i].str))
  }

  /** The links in the records of a unit. */
  lemma {:induction false} UnitLinks(c: Cfg, u: Unit)
    requires CfgOk(c) && UnitOk(u)
    ensures forall k :: 0 <= k < |EmitUnit(c, u)| && IsLink(EmitUnit(c, u)[k]) ==>
              u.Single? && EmitUnit(c, u)[k].head == u.head && u.head.objtype == HARDLINK
    ensures u.Large? ==> UniqueIn(EmitUnit(c, u), Some(u.head.path))
  {
    if u.Large? {
      ChunksNoObj(u.content, 0, c.blksize, c.fsid);
      var recs, chunks := EmitUnit(c, u), Chunks(u.content, 0, c.blksize, c.fsid);
      assert recs[0] == Obj(u.head, c.fsid);
      forall k | 0 < k < |recs| ensures !IsLink(recs[k]) {
        assert k <= |chunks| ==> recs[k] == chunks[k - 1] && chunks[k - 1] in chunks;
      }
    }
  }

  lemma {:induction false} ChunksNoObj(content: bytes, pos: nat, blksize: nat, fsid: u16)
    requires blksize > 0 && |content| < 0x1_0000_0000_0000_0000
    ensures forall r :: r in Chunks(content, pos, blksize, fsid) ==> r.Blk?
    decreases |content| - pos
  {
    if pos < |content| {
      ChunksNoObj(content, pos + Min(|content| - pos, blksize), blksize, fsid);
    }
  }

  /** A unit may follow if it is no hard link, or one to a file seen before. */
  lemma {:induction false} OrderedUnit(c: Cfg, s: SaveState, u: Unit, s': SaveState)
    requires Ordered(c, s) && UnitOk(u) && StateOk(c, s') && s'.units == s.units + [u]
    requires u.Single? && u.head.objtype == HARDLINK ==>
               exists i :: 0 <= i < |s.links| && u.head.link == Some(s.links[i].str)
    requires forall i :: 0 <= i < |s'.links| ==>
               (i < |s.links| && s'.links[i] == s.links[i]) || NewLink(u, s'.links[i])
    ensures Ordered(c, s')
  {
    hide EmitUnit, UnitOk, StateOk, UniqueIn, LinksBehind;
    StateUnits(c, s);
    var recs, more := Emit(c, s.units), EmitUnit(c, u);
    EmitSnoc(c, s.units, u);
    UnitLinks(c, u);
    LinksBehindMore(recs, more);
    forall i | 0 <= i < |s'.links| ensures UniqueIn(recs + more, Some(s'.links[i].str)) {
      if i < |s.links| && s'.links[i] == s.links[i] {
        UniqueInMore(recs, more, Some(s.links[i].str));
      } else {
        assert NewLink(u, s'.links[i]);
        UniqueInLater(recs, more, Some(u.head.path));
      }
    }
  }

  lemma {:induction false} UniqueInLater(recs: seq<Rec>, more: seq<Rec>, path: Option<Path>)
    requires UniqueIn(more, path)
    ensures UniqueIn(recs + more, path)
  {
    var k :| 0 <= k < |more| && more[k].Obj? && more[k].head.objtype == REGFILEUNIQUE &&
      Some(more[k].head.path) == path;
    assert (recs + more)[|recs| + k] == more[k];
  }

  lemma {:induction false} StateUnits(c: Cfg, s: SaveState)
    requires StateOk(c, s)
    ensures UnitsOk(s.units) && UnitOk(Shared(s.pending))
  {}

  lemma {:induction false} OrderedStep(c: Cfg, s: SaveState, v: Visit)
    requires Ordered(c, s) && VisitOk(v)
    ensures Ordered(c, SaveVisit(c, s, v))
  {
    hide StateOk, LinksBehind, UniqueIn, EmitUnit, Emit, EnoughSpace, Dichl.Lookup;
    var head, s' := HeadFor(c, s, v), SaveVisit(c, s, v);
    SaveVisitOk(c, s, v);
    StateUnits(c, s);
    StateUnits(c, s');
    if head.objtype == REGFILEMULTI {
      if s'.units != s.units {
        OrderedUnit(c, s, Shared(s.pending), s');
      }
    } else {
      var u := if head.objtype == REGFILEUNIQUE then Large(head, ContentOf(v)) else Single(head);
      assert s'.units[|s.units|] == u;
      if head.objtype == HARDLINK {
        FoundInLinks(s.links, v.rdev, v.ino);
      }
      OrderedUnit(c, s, u, s');
    }
  }

  lemma {:induction false} OrderedVisits(c: Cfg, vs: seq<Visit>)
    requires CfgOk(c) && VisitsOk(vs)
    ensures Ordered(c, SaveVisits(c, Start(c), vs))
  {
    hide SaveVisit, VisitOk;
    if vs == [] {
      assert Emit(c, []) == [];
    } else {
      var n := |vs| - 1;
      OrderedVisits(c, vs[..n]);
      OrderedStep(c, SaveVisits(c, Start(c), vs[..n]), vs[n]);
    }
  }

  /** Each hard link record is preceded by the header, of the large kind, of the path that it names. */
  lemma {:induction false} LinksFollowTheirFiles(c: Cfg, vs: seq<Visit>)
    requires CfgOk(c) && VisitsOk(vs)
    ensures UnitsOk(Saved(c, vs)) && LinksBehind(Emit(c, Saved(c, vs)))
  {
    hide LinksBehind, Emit, SaveVisits, UnitOk;
    OrderedVisits(c, vs);
    SaveVisitsOk(c, vs);
    var s := SaveVisits(c, Start(c), vs);
    if s.pending != [] {
      OrderedUnit(c, s, Shared(s.pending), Flush(s));
    }
  }
}
