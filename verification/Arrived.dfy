/** Items that arrive as zeros or not at all, as damage to the object stream. */
module Arrived {
  import opened Bytes
  import opened ArchiveItems
  import opened Records
  import opened FileSystem
  import opened RegMulti
  import opened OperSave
  import opened OperRestore
  import opened Damage

  /** The numbers of the items whose data are replaced by zeros, and of those that do not arrive. */
  datatype Marks = Marks(bad: set<nat>, gone: set<nat>)

  const NoMarks := Marks({}, {})

  /** The numbers of the items that arrive, of n items from start on. */
  function Arriving(start: nat, n: nat, gone: set<nat>): (r: seq<nat>)
    ensures forall k :: 0 <= k < |r| ==> start <= r[k] < start + n && r[k] !in gone
    decreases n
  {
    if n == 0 then [] else (if start in gone then [] else [start]) + Arriving(start + 1, n - 1, gone)
  }

  lemma {:induction false} ArrivingConcat(start: nat, m: nat, n: nat, gone: set<nat>)
    ensures Arriving(start, m + n, gone) == Arriving(start, m, gone) + Arriving(start + m, n, gone)
    decreases m
  {
    if m > 0 {
      ArrivingConcat(start + 1, m - 1, n, gone);
    }
  }

  lemma {:induction false} AllArrive(start: nat, n: nat, gone: set<nat>)
    requires forall i :: start <= i < start + n ==> i !in gone
    ensures |Arriving(start, n, gone)| == n && forall k :: 0 <= k < n ==> Arriving(start, n, gone)[k] == start + k
    decreases n
  {
    if n > 0 {
      AllArrive(start + 1, n - 1, gone);
    }
  }

  function ZeroRec(rec: Rec, bad: bool): Rec {
    if rec.Blk? && bad then rec.(data := Zeros(|rec.data|)) else rec
  }

  /** The records that arrive, numbered from start on. */
  function ArrivedRecs(recs: seq<Rec>, start: nat, m: Marks): (r: seq<Rec>)
    ensures |r| == |Arriving(start, |recs|, m.gone)|
  {
    var at := Arriving(start, |recs|, m.gone);
    seq(|at|, k requires 0 <= k < |at| => ZeroRec(recs[at[k] - start], at[k] in m.bad))
  }

  lemma {:induction false} ArrivedConcat(a: seq<Rec>, b: seq<Rec>, start: nat, m: Marks)
    ensures ArrivedRecs(a + b, start, m) == ArrivedRecs(a, start, m) + ArrivedRecs(b, start + |a|, m)
  {
    hide ZeroRec;
    ArrivingConcat(start, |a|, |b|, m.gone);
  }

  lemma {:induction false} ArrivedOne(rec: Rec, start: nat, m: Marks)
    ensures ArrivedRecs([rec], start, m) == if start in m.gone then [] else [ZeroRec(rec, start in m.bad)]
  {
    hide ZeroRec;
    assert Arriving(start + 1, 0, m.gone) == [];
  }

  /** Headers arrive as they were written. */
  lemma {:induction false} ArrivedHeaders(recs: seq<Rec>, start: nat, m: Marks)
    requires forall i :: start <= i < start + |recs| ==> i !in m.gone
    requires forall i :: 0 <= i < |recs| ==> !recs[i].Blk?
    ensures ArrivedRecs(recs, start, m) == recs
  {
    AllArrive(start, |recs|, m.gone);
  }

  /** Nothing but contents arrives of contents. */
  lemma {:induction false} ArrivedContents(recs: seq<Rec>, start: nat, m: Marks)
    requires forall i :: 0 <= i < |recs| ==> recs[i].Blk? || recs[i].FileFoot?
    ensures forall r :: r in ArrivedRecs(recs, start, m) ==> r.Blk? || r.FileFoot?
  {}

  // ---- units

  /** The blocks of a large file from number i on, as they arrive. */
  function ArrivedBlocks(content: bytes, pos: nat, blksize: nat, i: nat, m: Marks): (r: seq<Option<bytes>>)
    requires blksize > 0
    ensures ReceivedOk(content, pos, blksize, r)
    decreases |content| - pos
  {
    if pos >= |content| then []
    else
      var n := Min(|content| - pos, blksize);
      var rest := ArrivedBlocks(content, pos + n, blksize, i + 1, m);
      var block := if i in m.gone then None else Some(if i in m.bad then Zeros(n) else content[pos..pos + n]);
      assert ([block] + rest)[1..] == rest;
      [block] + rest
  }

  lemma {:induction false} ArrivedChunks(content: bytes, pos: nat, blksize: nat, fsid: u16, i: nat, m: Marks)
    requires blksize > 0 && |content| < 0x1_0000_0000_0000_0000
    ensures ArrivedRecs(Chunks(content, pos, blksize, fsid), i, m) ==
            DamagedChunks(content, pos, blksize, fsid, ArrivedBlocks(content, pos, blksize, i, m))
    decreases |content| - pos
  {
    if pos < |content| {
      hide ArrivedRecs;
      var n := Min(|content| - pos, blksize);
      var chunk := Blk(pos, content[pos..pos + n], fsid);
      ArrivedChunks(content, pos + n, blksize, fsid, i + 1, m);
      ArrivedConcat([chunk], Chunks(content, pos + n, blksize, fsid), i, m);
      ArrivedOne(chunk, i, m);
      var r := ArrivedBlocks(content, pos, blksize, i, m);
      assert r[1..] == ArrivedBlocks(content, pos + n, blksize, i + 1, m);
    } else {
      assert Arriving(i, 0, m.gone) == [];
    }
  }

  /** Losses that restoring survives: footers arrive if their header does, packed files arrive with all
      headers and their block, or without any header. */
  predicate GoneOk(c: Cfg, u: Unit, start: nat, gone: set<nat>)
    requires CfgOk(c) && UnitOk(u)
  {
    match u
    case Large(_, content) => start in gone || content == [] || start + |EmitUnit(c, u)| - 1 !in gone
    case Single(_) => true
    case Shared(files) =>
      || (forall i :: start <= i < start + |EmitUnit(c, u)| ==> i !in gone)
      || (forall i :: start <= i < start + |files| ==> i in gone)
  }

  /** The same damage, seen from a unit whose first record has number start. */
  function ArrivedKind(c: Cfg, u: Unit, start: nat, m: Marks): (kind: Kind)
    requires CfgOk(c) && UnitOk(u)
    ensures KindOk(c, u, kind)
  {
    match u
    case Large(_, content) =>
      if start in m.gone then HeaderLost(BehindHeads(c, u, 1, start, m))
      else Blocks(ArrivedBlocks(content, 0, c.blksize, start + 1, m))
    case Single(_) => if start in m.gone then HeaderLost([]) else Intact
    case Shared(files) =>
      if files == [] then Intact
      else if start in m.gone then HeaderLost(BehindHeads(c, u, |files|, start, m))
      else if start + |files| in m.bad then SharedBlock(Zeros(TotalSize(files)))
      else Intact
  }

  /** What arrives of a unit that has lost all its n headers. */
  function BehindHeads(c: Cfg, u: Unit, n: nat, start: nat, m: Marks): (left: seq<Rec>)
    requires CfgOk(c) && UnitOk(u) && !u.Single? && n == (if u.Large? then 1 else |u.files|) && n > 0
    ensures forall i :: 0 <= i < |left| ==> left[i].Blk? || left[i].FileFoot?
  {
    BehindAreContents(c, u, n);
    var left := ArrivedRecs(EmitUnit(c, u)[n..], start + n, m);
    ArrivedContents(EmitUnit(c, u)[n..], start + n, m);
    assert forall i :: 0 <= i < |left| ==> left[i] in left;
    left
  }

  lemma {:induction false} BehindAreContents(c: Cfg, u: Unit, n: nat)
    requires CfgOk(c) && UnitOk(u) && !u.Single? && n == (if u.Large? then 1 else |u.files|) && n > 0
    ensures n <= |EmitUnit(c, u)|
    ensures forall i :: n <= i < |EmitUnit(c, u)| ==> EmitUnit(c, u)[i].Blk? || EmitUnit(c, u)[i].FileFoot?
  {
    hide Chunks;
    if u.Large? {
      var r := NoneMissing(u.content, 0, c.blksize, c.fsid);
    }
  }

  lemma {:induction false} UnitArrives(c: Cfg, u: Unit, start: nat, m: Marks)
    requires CfgOk(c) && UnitOk(u) && GoneOk(c, u, start, m.gone)
    ensures ArrivedRecs(EmitUnit(c, u), start, m) == EmitHarmed(c, u, Harm([], ArrivedKind(c, u, start, m)))
  {
    hide EmitUnit, ArrivedRecs, BehindHeads, GoneOk, DamagedChunks;
    match u
    case Large(head, content) =>
      if start in m.gone { HeadlessArrives(c, u, 1, start, m); } else { LargeArrives(c, head, content, start, m); }
    case Single(head) => SingleArrives(c, head, start, m);
    case Shared(files) =>
      if files != [] && start in m.gone {
        PackHeadsGone(c, files, start, m.gone);
        HeadlessArrives(c, u, |files|, start, m);
      } else {
        SharedArrives(c, files, start, m);
      }
  }

  lemma {:induction false} SingleArrives(c: Cfg, head: ObjHead, start: nat, m: Marks)
    requires CfgOk(c) && UnitOk(Single(head))
    ensures ArrivedRecs(EmitUnit(c, Single(head)), start, m) == if start in m.gone then []
            else EmitUnit(c, Single(head))
  {
    hide ArrivedRecs;
    ArrivedOne(Obj(head, c.fsid), start, m);
  }

  lemma {:induction false} PackHeadsGone(c: Cfg, files: seq<SmallFile>, start: nat, gone: set<nat>)
    requires CfgOk(c) && UnitOk(Shared(files)) && files != [] && GoneOk(c, Shared(files), start, gone) && start in gone
    ensures forall i :: start <= i < start + |files| ==> i in gone
  {
    assert |EmitUnit(c, Shared(files))| > 0;
  }

  /** Without its headers only what is behind them arrives. */
  lemma {:induction false} HeadlessArrives(c: Cfg, u: Unit, n: nat, start: nat, m: Marks)
    requires CfgOk(c) && UnitOk(u) && !u.Single? && n == (if u.Large? then 1 else |u.files|) && n > 0
    requires forall i :: start <= i < start + n ==> i in m.gone
    ensures ArrivedRecs(EmitUnit(c, u), start, m) == BehindHeads(c, u, n, start, m)
  {
    hide EmitUnit;
    BehindAreContents(c, u, n);
    var recs := EmitUnit(c, u);
    assert recs == recs[..n] + recs[n..];
    ArrivedConcat(recs[..n], recs[n..], start, m);
    NoneArrive(start, n, m.gone);
  }

  lemma {:induction false} NoneArrive(start: nat, n: nat, gone: set<nat>)
    requires forall i :: start <= i < start + n ==> i in gone
    ensures Arriving(start, n, gone) == []
    decreases n
  {
    if n > 0 {
      NoneArrive(start + 1, n - 1, gone);
    }
  }

  lemma {:induction false} LargeArrives(c: Cfg, head: ObjHead, content: bytes, start: nat, m: Marks)
    requires var u := Large(head, content);
             CfgOk(c) && UnitOk(u) && GoneOk(c, u, start, m.gone) && start !in m.gone
    ensures ArrivedRecs(EmitUnit(c, Large(head, content)), start, m) ==
            [Obj(head, c.fsid)] +
            DamagedChunks(content, 0, c.blksize, c.fsid, ArrivedBlocks(content, 0, c.blksize, start + 1, m)) +
            Footer(c, content)
  {
    hide Chunks, DamagedChunks, ArrivedRecs;
    var chunks, foot := Chunks(content, 0, c.blksize, c.fsid), Footer(c, content);
    ArrivedChunks(content, 0, c.blksize, c.fsid, start + 1, m);
    ArrivedConcat([Obj(head, c.fsid)] + chunks, foot, start, m);
    ArrivedConcat([Obj(head, c.fsid)], chunks, start, m);
    ArrivedOne(Obj(head, c.fsid), start, m);
    ArrivedHeaders(foot, start + 1 + |chunks|, m);
  }

  lemma {:induction false} SharedArrives(c: Cfg, files: seq<SmallFile>, start: nat, m: Marks)
    requires var u := Shared(files);
             CfgOk(c) && UnitOk(u) && GoneOk(c, u, start, m.gone) && (files == [] || start !in m.gone)
    ensures ArrivedRecs(EmitUnit(c, Shared(files)), start, m) ==
            EmitHarmed(c, Shared(files), Harm([], ArrivedKind(c, Shared(files), start, m)))
  {
    hide PackedHead, ArrivedRecs;
    SharedSize(files);
    if files == [] {
      ArrivedHeaders([], start, m);
    } else {
      var heads, block := PackedHeads(files, |files|, c.fsid), Blk(0, SharedData(files), c.fsid);
      ArrivedConcat(heads, [block], start, m);
      ArrivedHeaders(heads, start, m);
      ArrivedOne(block, start + |files|, m);
    }
  }

  // ---- streams

  predicate AllGoneOk(c: Cfg, us: seq<Unit>, start: nat, gone: set<nat>)
    requires CfgOk(c) && UnitsOk(us)
  {
    us == [] ||
    (AllGoneOk(c, us[..|us| - 1], start, gone) &&
     GoneOk(c, us[|us| - 1], start + |Emit(c, us[..|us| - 1])|, gone))
  }

  /** The damage to all units. */
  function ArrivedHarms(c: Cfg, us: seq<Unit>, start: nat, m: Marks): (hs: seq<Harm>)
    requires CfgOk(c) && UnitsOk(us)
    ensures HarmsOk(c, us, hs)
  {
    if us == [] then []
    else
      var n := |us| - 1;
      ArrivedHarms(c, us[..n], start, m) + [Harm([], ArrivedKind(c, us[n], start + |Emit(c, us[..n])|, m))]
  }

  /** A stream of which some records arrive as zeros, and others do not, is a damaged stream. */
  lemma {:induction false} ArrivedIsHarm(c: Cfg, us: seq<Unit>, start: nat, m: Marks)
    requires CfgOk(c) && UnitsOk(us) && AllGoneOk(c, us, start, m.gone)
    ensures ArrivedRecs(Emit(c, us), start, m) == EmitAllHarmed(c, us, ArrivedHarms(c, us, start, m))
  {
    hide EmitUnit, EmitHarmed, UnitOk, ArrivedKind, KindOk, GoneOk, ArrivedRecs;
    if us == [] {
      ArrivedHeaders([], start, m);
    } else {
      var n := |us| - 1;
      ArrivedIsHarm(c, us[..n], start, m);
      UnitArrives(c, us[n], start + |Emit(c, us[..n])|, m);
      ArrivedConcat(Emit(c, us[..n]), EmitUnit(c, us[n]), start, m);
      var hs := ArrivedHarms(c, us, start, m);
      assert hs[..n] == ArrivedHarms(c, us[..n], start, m);
    }
  }

  // ---- the filesystem id of a block is not read

  function Blind(rec: Rec): Rec {
    match rec
    case Blk(offset, data, _) => Blk(offset, data, 0)
    case _ => rec
  }

  function BlindAll(recs: seq<Rec>): (r: seq<Rec>)
    ensures |r| == |recs|
  {
    seq(|recs|, i requires 0 <= i < |recs| => Blind(recs[i]))
  }

  function BlindOutcome(r: Outcome): Outcome {
    match r
    case Abort(_, _) => r
    case Continue(ex) => Continue(ex.(queue := BlindAll(ex.queue)))
  }

  lemma {:induction false} BlindTail(recs: seq<Rec>)
    requires recs != []
    ensures BlindAll(recs)[1..] == BlindAll(recs[1..])
  {}

  lemma {:induction false} BlindLoop(size: nat, acc: bytes, queue: seq<Rec>)
    ensures var l, m := BlockLoop(size, acc, queue), BlockLoop(size, acc, BlindAll(queue));
            m == l.(rest := BlindAll(l.rest))
    decreases |queue|
  {
    if queue != [] {
      BlindTail(queue);
      if queue[0].Blk? && |acc| < size && queue[0].offset == |acc| {
        BlindLoop(size, acc + queue[0].data, queue[1..]);
      }
    }
  }

  lemma {:induction false} BlindUnique(env: Env, ex: Ex, head: ObjHead)
    ensures RestoreUnique(env, ex.(queue := BlindAll(ex.queue)), head) ==
            var r := RestoreUnique(env, ex, head); r.(queue := BlindAll(r.queue))
  {
    hide BlockLoop, Open, SetContent, SetAttrs, Unlink, IsFile;
    BlindLoop(head.size, [], ex.queue);
    var loop := if env.excluded(head.path) || Open(ex.fs, head.path).Some? then BlockLoop(head.size, [], ex.queue)
      else Loop(false, [], ex.queue);
    if loop.rest != [] {
      BlindTail(loop.rest);
      assert BlindAll(loop.rest)[0] == Blind(loop.rest[0]);
    }
  }

  lemma {:induction false} BlindHeads(count: nat, heads: seq<ObjHead>, queue: seq<Rec>)
    ensures CollectHeads(count, heads, BlindAll(queue)) ==
            match CollectHeads(count, heads, queue) case None => None case Some(h) => Some(h.(rest := BlindAll(h.rest)))
    decreases |queue|
  {
    if queue != [] {
      BlindTail(queue);
      if queue[0].Obj? {
        BlindHeads(count, heads + [queue[0].head], queue[1..]);
      }
    }
  }

  lemma {:induction false} BlindMulti(env: Env, ex: Ex, head: ObjHead)
    ensures RestoreMulti(env, ex.(queue := BlindAll(ex.queue)), head) == BlindOutcome(RestoreMulti(env, ex, head))
  {
    hide CollectHeads, RestoreSmalls;
    if head.multiCount.Some? {
      BlindHeads(head.multiCount.value, [head], ex.queue);
      var h := CollectHeads(head.multiCount.value, [head], ex.queue);
      if h.Some? && h.value.rest != [] {
        BlindTail(h.value.rest);
      }
    }
  }

  lemma {:induction false} BlindRestored(env: Env, ex: Ex, head: ObjHead)
    ensures Restored(env, ex.(queue := BlindAll(ex.queue)), head) == BlindOutcome(Restored(env, ex, head))
  {
    hide RestoreUnique, RestoreMulti, SetAttrs, Link, Make;
    BlindUnique(env, ex, head);
    BlindMulti(env, ex, head);
  }

  /** Restoring does not look at the filesystem ids of blocks. */
  lemma {:induction false} BlindRead(env: Env, ex: Ex)
    ensures ReadObjects(env, ex.(queue := BlindAll(ex.queue))) == BlindOutcome(ReadObjects(env, ex))
    decreases |ex.queue|
  {
    hide Restored;
    if ex.queue != [] {
      var first, after := ex.queue[0], ex.(queue := ex.queue[1..]);
      BlindTail(ex.queue);
      if first.Obj? && first.fsid == env.fsid {
        BlindRestored(env, after, first.head);
        var r := Restored(env, after, first.head);
        if r.Continue? {
          BlindRead(env, r.ex);
        }
      } else if first.Obj? {
        BlindRead(env, after.(stats := after.stats.(errors := after.stats.errors + 1)));
      } else if !(first.Other? && first.magic == DATF) {
        BlindRead(env, after);
      }
    }
  }
}
