/** Saving a tree and restoring it, from a stream that may have been damaged on the way. */
module SaveRestore {
  import opened Bytes
  import opened ArchiveItems
  import opened Records
  import opened Walk
  import opened FileSystem
  import opened RegMulti
  import opened OperSave
  import opened OperRestore
  import opened Damage
  import opened Placement
  import opened SavedPuts

  // ---- what damage does to the effects of a unit

  /** Every alteration of the contents of a file shows in its digest. */
  predicate Detected(c: Cfg, u: Unit, kind: Kind)
    requires CfgOk(c) && UnitOk(u) && KindOk(c, u, kind)
  {
    match kind
    case Blocks(r) => Whole(r).Some? && c.md5(Whole(r).value) == c.md5(u.content) ==> Whole(r).value == u.content
    case SharedBlock(data) =>
      forall i :: 0 <= i < |u.files| && c.md5(Received(u.files, data, i)) == c.md5(u.files[i].data) ==>
        Received(u.files, data, i) == u.files[i].data
    case _ => true
  }

  /** The bytes that stand for file i in a shared block. */
  function Received(files: seq<SmallFile>, data: bytes, i: nat): bytes
    requires i < |files| && |data| == TotalSize(files)
  {
    OffsetsTile(files, i);
    SharedSize(files);
    data[OffsetOf(files, i)..OffsetOf(files, i + 1)]
  }

  /** The shared block as it arrives. */
  function BlockOf(files: seq<SmallFile>, kind: Kind): (data: bytes)
    requires kind.SharedBlock? ==> |kind.data| == TotalSize(files)
    ensures |data| == TotalSize(files)
  {
    SharedSize(files);
    if kind.SharedBlock? then kind.data else SharedData(files)
  }

  /** What damage does to one object: nothing; its header is lost; a block of a large file is missing or
      altered; the bytes of a small file are altered. */
  datatype Fate = Kept | Unseen | Broken | Altered

  function FateAt(c: Cfg, u: Unit, kind: Kind, i: nat): Fate
    requires CfgOk(c) && UnitOk(u) && KindOk(c, u, kind) && i < |UnitPuts(u)|
  {
    match kind
    case Intact => Kept
    case HeaderLost(_) => Unseen
    case Blocks(r) => if Whole(r) == Some(u.content) then Kept else Broken
    case SharedBlock(data) => if Received(u.files, data, i) == u.files[i].data then Kept else Altered
  }

  /** What the effect of an object has become. */
  function Harmed(excluded: Path -> bool, put: Op, fate: Fate): Op {
    if fate == Unseen then Missing(put.path)
    else if excluded(put.path) then
      if put.PutFile? then SkipFile(put.path) else if put.PutLink? then RefuseLink(put.path) else RefuseOther(put.path)
    else if fate == Broken then DropFile(put.path)
    else if fate == Altered then EmptyFile(put.path)
    else put
  }

  /** Only files have contents that can be damaged. */
  predicate FateFits(put: Op, fate: Fate) {
    && (put.PutFile? || put.PutLink? || put.PutOther?)
    && (fate == Broken || fate == Altered ==> put.PutFile?)
  }

  function UnitFates(c: Cfg, u: Unit, kind: Kind): (fates: seq<Fate>)
    requires CfgOk(c) && UnitOk(u) && KindOk(c, u, kind)
    ensures |fates| == |UnitPuts(u)|
  {
    seq(|UnitPuts(u)|, i requires 0 <= i < |UnitPuts(u)| => FateAt(c, u, kind, i))
  }

  predicate HarmedRun(excluded: Path -> bool, ops: seq<Op>, puts: seq<Op>, fates: seq<Fate>) {
    && |ops| == |puts| == |fates|
    && forall k :: 0 <= k < |ops| ==> ops[k] == Harmed(excluded, puts[k], fates[k]) && FateFits(puts[k], fates[k])
  }

  lemma {:induction false} UnitHarmed(c: Cfg, excluded: Path -> bool, u: Unit, kind: Kind)
    requires CfgOk(c) && UnitOk(u) && KindOk(c, u, kind) && Detected(c, u, kind)
    ensures HarmedRun(excluded, OpsOf(EnvOf(c, excluded), c, u, kind), UnitPuts(u), UnitFates(c, u, kind))
  {
    if u.Shared? {
      SharedHarmed(c, excluded, u.files, kind);
    } else if u.Large? {
      LargeHarmed(c, excluded, u.head, u.content, kind);
    }
  }

  lemma {:induction false} LargeHarmed(c: Cfg, excluded: Path -> bool, head: ObjHead, content: bytes, kind: Kind)
    requires var u := Large(head, content); CfgOk(c) && UnitOk(u) && KindOk(c, u, kind) && Detected(c, u, kind)
    ensures var u := Large(head, content);
            HarmedRun(excluded, OpsOf(EnvOf(c, excluded), c, u, kind), UnitPuts(u), UnitFates(c, u, kind))
  {
    if kind.Blocks? && content == [] {
      assert Whole(kind.received) == Some([]);
    }
  }

  lemma {:induction false} SharedHarmed(c: Cfg, excluded: Path -> bool, files: seq<SmallFile>, kind: Kind)
    requires var u := Shared(files); CfgOk(c) && UnitOk(u) && KindOk(c, u, kind) && Detected(c, u, kind)
    ensures var u := Shared(files);
            HarmedRun(excluded, OpsOf(EnvOf(c, excluded), c, u, kind), UnitPuts(u), UnitFates(c, u, kind))
  {
    var u := Shared(files);
    var ops, puts, fates := OpsOf(EnvOf(c, excluded), c, u, kind), UnitPuts(u), UnitFates(c, u, kind);
    forall i | 0 <= i < |ops| ensures ops[i] == Harmed(excluded, puts[i], fates[i]) && FateFits(puts[i], fates[i]) {
      OffsetsTile(files, i);
      SharedSize(files);
      assert !kind.HeaderLost? ==>
               ops[i] == SmallOp(EnvOf(c, excluded), files[i], Received(files, BlockOf(files, kind), i));
    }
  }

  // ---- whole streams

  predicate AllDetected(c: Cfg, us: seq<Unit>, hs: seq<Harm>)
    requires StreamOk(c, us, hs)
  {
    forall k :: 0 <= k < |us| ==> Detected(c, us[k], hs[k].kind)
  }

  function Fates(c: Cfg, us: seq<Unit>, hs: seq<Harm>): (fates: seq<Fate>)
    requires StreamOk(c, us, hs)
    ensures |fates| == |Puts(us)|
  {
    var n := |us| - 1;
    if us == [] then [] else Fates(c, us[..n], hs[..n]) + UnitFates(c, us[n], hs[n].kind)
  }

  /** The effects of a damaged stream are those of the undamaged one, each changed by its own fate. */
  lemma {:induction false} StreamHarmed(c: Cfg, excluded: Path -> bool, us: seq<Unit>, hs: seq<Harm>)
    requires StreamOk(c, us, hs) && AllDetected(c, us, hs)
    ensures HarmedRun(excluded, AllOps(EnvOf(c, excluded), c, us, hs), Puts(us), Fates(c, us, hs))
  {
    hide UnitPuts, UnitOk, OpsOf, KindOk, UnitFates, Detected, JunkOk, DigestsOk, Harmed, FateFits;
    if us != [] {
      var n := |us| - 1;
      StreamHarmed(c, excluded, us[..n], hs[..n]);
      UnitHarmed(c, excluded, us[n], hs[n].kind);
    }
  }

  // ---- losses by path

  /** What is excluded, and the paths of all objects by their fate. */
  datatype Loss = Loss(excluded: Path -> bool, unseen: set<Path>, broken: set<Path>, altered: set<Path>)

  function PathsWith(puts: seq<Op>, fates: seq<Fate>, fate: Fate): set<Path>
    requires |puts| == |fates|
  {
    set k | 0 <= k < |puts| && fates[k] == fate :: puts[k].path
  }

  function LossBy(excluded: Path -> bool, puts: seq<Op>, fates: seq<Fate>): Loss
    requires |puts| == |fates|
  {
    Loss(excluded, PathsWith(puts, fates, Unseen), PathsWith(puts, fates, Broken), PathsWith(puts, fates, Altered))
  }

  function LossOf(c: Cfg, excluded: Path -> bool, us: seq<Unit>, hs: seq<Harm>): Loss
    requires StreamOk(c, us, hs)
  {
    LossBy(excluded, Puts(us), Fates(c, us, hs))
  }

  function FateOf(l: Loss, path: Path): Fate {
    if path in l.unseen then Unseen
    else if path in l.broken then Broken
    else if path in l.altered then Altered
    else Kept
  }

  /** Not there after restoring. */
  predicate Lost(l: Loss, path: Path) {
    l.excluded(path) || path in l.unseen || path in l.broken
  }

  /** Restoring it is at least tried. */
  predicate Reached(l: Loss, path: Path) {
    !l.excluded(path) && path !in l.unseen
  }

  lemma {:induction false} OneFate(puts: seq<Op>, fates: seq<Fate>, fate: Fate, k: nat)
    requires |puts| == |fates| && DistinctOps(puts) && k < |puts|
    ensures puts[k].path in PathsWith(puts, fates, fate) <==> fates[k] == fate
  {
    if puts[k].path in PathsWith(puts, fates, fate) {
      var j :| 0 <= j < |puts| && fates[j] == fate && puts[j].path == puts[k].path;
      assert j == k;
    }
  }

  /** With distinct paths, the path tells the fate. */
  lemma {:induction false} FateByPath(excluded: Path -> bool, puts: seq<Op>, fates: seq<Fate>, k: nat)
    requires |puts| == |fates| && DistinctOps(puts) && k < |puts|
    ensures FateOf(LossBy(excluded, puts, fates), puts[k].path) == fates[k]
  {
    hide PathsWith, DistinctOps;
    OneFate(puts, fates, Unseen, k);
    OneFate(puts, fates, Broken, k);
    OneFate(puts, fates, Altered, k);
  }

  // ---- counts by path

  function ErrorPaths(ops: seq<Op>): set<Path> {
    set k | 0 <= k < |ops| && IsError(ops[k]) :: ops[k].path
  }

  predicate IsError(op: Op) {
    op.EmptyFile? || op.DropFile?
  }

  lemma {:induction false} ErrorPathsSnoc(ops: seq<Op>, op: Op)
    ensures ErrorPaths(ops + [op]) == ErrorPaths(ops) + if IsError(op) then {op.path} else {}
  {
    hide IsError;
    var all := ops + [op];
    assert all[|ops|] == op && forall k :: 0 <= k < |ops| ==> all[k] == ops[k];
  }

  lemma {:induction false} ErrorsByPath(ops: seq<Op>)
    requires DistinctOps(ops)
    ensures FileErrors(ops) == |ErrorPaths(ops)|
  {
    if ops != [] {
      var n := |ops| - 1;
      ErrorsByPath(ops[..n]);
      var rest := ErrorPaths(ops[..n]);
      assert ops[n].path !in rest;
      hide ErrorPaths, DistinctOps;
      ErrorPathsSnoc(ops[..n], ops[n]);
      assert ops[..n] + [ops[n]] == ops;
    }
  }

  /** The files that restoring must give up, or whose contents it must throw away. */
  function DamagedFiles(l: Loss): set<Path> {
    set p | p in l.broken + l.altered && !l.excluded(p)
  }

  /** Each of them is counted as an error, and nothing else. */
  lemma {:induction false} ErrorsAreDamaged(excluded: Path -> bool, ops: seq<Op>, puts: seq<Op>, fates: seq<Fate>)
    requires HarmedRun(excluded, ops, puts, fates) && DistinctOps(puts)
    ensures DistinctOps(ops) && FileErrors(ops) == |DamagedFiles(LossBy(excluded, puts, fates))|
  {
    hide HarmedRun, LossBy, IsError;
    SameLength(excluded, ops, puts, fates);
    var l := LossBy(excluded, puts, fates);
    forall k | 0 <= k < |puts| ensures ops[k].path == puts[k].path {
      DamagedIff(excluded, ops, puts, fates, k);
    }
    ErrorsByPath(ops);
    forall p | p in ErrorPaths(ops) ensures p in DamagedFiles(l) {
      var k :| 0 <= k < |ops| && IsError(ops[k]) && ops[k].path == p;
      DamagedIff(excluded, ops, puts, fates, k);
    }
    forall p | p in DamagedFiles(l) ensures p in ErrorPaths(ops) {
      var k := PutOf(excluded, puts, fates, p);
      DamagedIff(excluded, ops, puts, fates, k);
    }
    assert ErrorPaths(ops) == DamagedFiles(l);
  }

  lemma {:induction false} SameLength(excluded: Path -> bool, ops: seq<Op>, puts: seq<Op>, fates: seq<Fate>)
    requires HarmedRun(excluded, ops, puts, fates)
    ensures |ops| == |puts| == |fates|
  {}

  lemma {:induction false} PutOf(excluded: Path -> bool, puts: seq<Op>, fates: seq<Fate>, p: Path) returns (k: nat)
    requires |puts| == |fates| && p in DamagedFiles(LossBy(excluded, puts, fates))
    ensures k < |puts| && puts[k].path == p
  {
    k :| 0 <= k < |puts| && puts[k].path == p;
  }

  lemma {:induction false} DamagedIff(excluded: Path -> bool, ops: seq<Op>, puts: seq<Op>, fates: seq<Fate>, k: nat)
    requires HarmedRun(excluded, ops, puts, fates) && DistinctOps(puts) && k < |puts|
    ensures |ops| == |puts| && ops[k].path == puts[k].path
    ensures IsError(ops[k]) <==> puts[k].path in DamagedFiles(LossBy(excluded, puts, fates))
  {
    hide DistinctOps, PathsWith;
    OneFate(puts, fates, Broken, k);
    OneFate(puts, fates, Altered, k);
  }
}
