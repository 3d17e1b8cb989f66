/** Damaged object streams, and what restoring makes of them: every unit comes to a fixed list of
    effects on the file system, whatever stands around it. */
module Damage {
  import opened Bytes
  import opened ArchiveItems
  import opened Records
  import opened FileSystem
  import opened RegMulti
  import opened OperSave
  import opened OperRestore

  /** What happened to the records of one unit: junk in front of them, and
      - its header lost, or all headers of packed files, so that what is left of it is skipped, or
      - blocks of a large file lost (None) or altered, or
      - the shared block of small files altered. */
  datatype Harm = Harm(junk: seq<Rec>, kind: Kind)
  datatype Kind = Intact | HeaderLost(left: seq<Rec>) | Blocks(received: seq<Option<bytes>>) | SharedBlock(data: bytes)

  /** Nothing that would be taken for an object of this filesystem or for its end. */
  predicate JunkOk(fsid: u16, junk: seq<Rec>) {
    forall i :: 0 <= i < |junk| ==>
      !(junk[i].Obj? && junk[i].fsid == fsid) && !(junk[i].Other? && junk[i].magic == DATF)
  }

  /** One entry for every block of the file, of the size of that block. */
  predicate ReceivedOk(content: bytes, pos: nat, blksize: nat, r: seq<Option<bytes>>)
    requires blksize > 0
    decreases |content| - pos
  {
    if pos >= |content| then r == []
    else
      var n := Min(|content| - pos, blksize);
      r != [] && (r[0].Some? ==> |r[0].value| == n) && ReceivedOk(content, pos + n, blksize, r[1..])
  }

  predicate HarmOk(c: Cfg, u: Unit, h: Harm)
    requires CfgOk(c)
  {
    JunkOk(c.fsid, h.junk) && KindOk(c, u, h.kind)
  }

  predicate KindOk(c: Cfg, u: Unit, kind: Kind)
    requires CfgOk(c)
  {
    match kind
    case Intact => true
    case HeaderLost(left) => forall i :: 0 <= i < |left| ==> left[i].Blk? || left[i].FileFoot?
    case Blocks(r) => u.Large? && ReceivedOk(u.content, 0, c.blksize, r)
    case SharedBlock(data) => u.Shared? && u.files != [] && |data| == TotalSize(u.files)
  }

  function DamagedChunks(content: bytes, pos: nat, blksize: nat, fsid: u16, r: seq<Option<bytes>>): (recs: seq<Rec>)
    requires blksize > 0 && |content| < 0x1_0000_0000_0000_0000 && ReceivedOk(content, pos, blksize, r)
    ensures forall i :: 0 <= i < |recs| ==> recs[i].Blk? && recs[i].offset >= pos
    decreases |content| - pos
  {
    if pos >= |content| then []
    else
      var n := Min(|content| - pos, blksize);
      (if r[0].Some? then [Blk(pos, r[0].value, fsid)] else []) + DamagedChunks(content, pos + n, blksize, fsid, r[1..])
  }

  /** The received contents, unless a block is missing. */
  function Whole(r: seq<Option<bytes>>): Option<bytes> {
    if r == [] then Some([])
    else if r[0].None? || Whole(r[1..]).None? then None
    else Some(r[0].value + Whole(r[1..]).value)
  }

  function EmitHarmed(c: Cfg, u: Unit, h: Harm): seq<Rec>
    requires CfgOk(c) && UnitOk(u) && HarmOk(c, u, h)
  {
    h.junk +
    match h.kind
    case Intact => EmitUnit(c, u)
    case HeaderLost(left) => left
    case Blocks(r) => [Obj(u.head, c.fsid)] + DamagedChunks(u.content, 0, c.blksize, c.fsid, r) + Footer(c, u.content)
    case SharedBlock(data) => PackedHeads(u.files, |u.files|, c.fsid) + [Blk(0, data, c.fsid)]
  }

  predicate HarmsOk(c: Cfg, us: seq<Unit>, hs: seq<Harm>)
    requires CfgOk(c)
  {
    |us| == |hs| && forall i :: 0 <= i < |us| ==> HarmOk(c, us[i], hs[i])
  }

  function EmitAllHarmed(c: Cfg, us: seq<Unit>, hs: seq<Harm>): seq<Rec>
    requires CfgOk(c) && UnitsOk(us) && HarmsOk(c, us, hs)
  {
    var n := |us| - 1;
    if us == [] then [] else EmitAllHarmed(c, us[..n], hs[..n]) + EmitHarmed(c, us[n], hs[n])
  }

  // ---- effects

  datatype Op =
    | PutFile(path: Path, content: bytes, attrs: Attrs)
    | EmptyFile(path: Path)   // created, but its contents were thrown away
    | DropFile(path: Path)    // created and removed again
    | SkipFile(path: Path)    // excluded
    | PutLink(path: Path, target: Path, attrs: Attrs)
    | RefuseLink(path: Path)  // excluded
    | PutOther(path: Path, objtype: ObjType, attrs: Attrs)
    | RefuseOther(path: Path) // excluded
    | Missing(path: Path)     // no trace of it in the stream

  datatype World = World(fs: FS, stats: Stats)

  /** Restoring it is tried, so that the directories above it are made. */
  predicate Touches(op: Op) {
    op.PutFile? || op.EmptyFile? || op.DropFile? || op.PutLink? || op.PutOther?
  }

  predicate MakesDir(op: Op) {
    op.PutOther? && op.objtype == DIR
  }

  function Base(w: World, op: Op): FS {
    if Touches(op) then WithParents(w.fs, op.path) else w.fs
  }

  function Perform(w: World, op: Op): World {
    var base := Base(w, op);
    var FS(names, inodes) := base;
    match op
    case PutFile(path, content, attrs) =>
      World(FS(names[path := FileNode(|inodes|)], inodes + [Inode(content, attrs)]), FileOk(w.stats))
    case EmptyFile(path) =>
      World(FS(names[path := FileNode(|inodes|)], inodes + [Inode([], [])]), FileErr(w.stats))
    case DropFile(path) =>
      World(FS(names, inodes + [Freed]), FileErr(w.stats))
    case PutLink(path, target, attrs) =>
      if IsFile(base, target)
      then World(SetAttrs(FS(names[path := names[target]], inodes), path, attrs), w.stats.(links := w.stats.links + 1))
      else World(base, w.stats.(linkErrors := w.stats.linkErrors + 1))
    case RefuseLink(_) => w.(stats := w.stats.(linkErrors := w.stats.linkErrors + 1))
    case PutOther(path, objtype, attrs) =>
      World(FS(names[path := OtherNode(objtype, attrs)], inodes), w.stats.(others := w.stats.others + 1))
    case RefuseOther(_) => w.(stats := w.stats.(otherErrors := w.stats.otherErrors + 1))
    case SkipFile(_) => w
    case Missing(_) => w
  }

  function PerformAll(w: World, ops: seq<Op>): World {
    if ops == [] then w else Perform(PerformAll(w, ops[..|ops| - 1]), ops[|ops| - 1])
  }

  /** The effect of a large file of which these blocks are received. */
  function LargeOp(env: Env, head: ObjHead, content: bytes, received: Option<bytes>): Op {
    if env.excluded(head.path) then SkipFile(head.path)
    else if received.Some? && (content == [] || env.md5(received.value) == env.md5(content))
    then PutFile(head.path, received.value, head.attrs)
    else DropFile(head.path)
  }

  function SmallOp(env: Env, f: SmallFile, received: bytes): Op {
    if env.excluded(f.head.path) then SkipFile(f.head.path)
    else if env.md5(received) == env.md5(f.data) then PutFile(f.head.path, received, f.head.attrs)
    else EmptyFile(f.head.path)
  }

  function SmallOps(env: Env, files: seq<SmallFile>, data: bytes, n: nat): (ops: seq<Op>)
    requires n <= |files| && |data| == TotalSize(files)
    ensures |ops| == n
  {
    seq(n, i requires 0 <= i < n => SmallOpAt(env, files, data, i))
  }

  function SmallOpAt(env: Env, files: seq<SmallFile>, data: bytes, i: nat): Op
    requires i < |files| && |data| == TotalSize(files)
  {
    OffsetsTile(files, i);
    SharedSize(files);
    SmallOp(env, files[i], data[OffsetOf(files, i)..OffsetOf(files, i + 1)])
  }

  function MissingOps(files: seq<SmallFile>): seq<Op> {
    seq(|files|, i requires 0 <= i < |files| => Missing(files[i].head.path))
  }

  function SingleOp(env: Env, head: ObjHead): Op
    requires UnitOk(Single(head))
  {
    if head.objtype == HARDLINK
    then if env.excluded(head.path) then RefuseLink(head.path) else PutLink(head.path, head.link.value, head.attrs)
    else if env.excluded(head.path) then RefuseOther(head.path)
    else PutOther(head.path, head.objtype, head.attrs)
  }

  function OpsOf(env: Env, c: Cfg, u: Unit, kind: Kind): seq<Op>
    requires CfgOk(c) && UnitOk(u) && KindOk(c, u, kind)
  {
    match u
    case Large(head, content) =>
      if kind.HeaderLost? then [Missing(head.path)]
      else [LargeOp(env, head, content, if kind.Blocks? then Whole(kind.received) else Some(content))]
    case Single(head) =>
      [if kind.HeaderLost? then Missing(head.path) else SingleOp(env, head)]
    case Shared(files) =>
      SharedSize(files);
      if kind.HeaderLost? then MissingOps(files)
      else SmallOps(env, files, if kind.SharedBlock? then kind.data else SharedData(files), |files|)
  }

  // ---- large files

  function JunkErrors(junk: seq<Rec>): nat {
    if junk == [] then 0 else (if junk[0].Obj? then 1 else 0) + JunkErrors(junk[1..])
  }

  function AddErrors(stats: Stats, n: nat): Stats {
    stats.(errors := stats.errors + n)
  }

  /** Junk is skipped; only objects of other filesystems among it are counted. */
  lemma {:induction false} SkipJunk(env: Env, junk: seq<Rec>, tail: seq<Rec>, fs: FS, stats: Stats)
    requires JunkOk(env.fsid, junk)
    ensures ReadObjects(env, Ex(junk + tail, fs, stats)) ==
            ReadObjects(env, Ex(tail, fs, AddErrors(stats, JunkErrors(junk))))
    decreases |junk|
  {
    if junk == [] {
      assert junk + tail == tail;
    } else {
      assert (junk + tail)[1..] == junk[1..] + tail && (junk + tail)[0] == junk[0];
      SkipJunk(env, junk[1..], tail, fs, AddErrors(stats, if junk[0].Obj? then 1 else 0));
    }
  }

  lemma {:induction false} NoErrorsInContents(junk: seq<Rec>)
    requires forall i :: 0 <= i < |junk| ==> !junk[i].Obj?
    ensures JunkErrors(junk) == 0
  {
    if junk != [] {
      NoErrorsInContents(junk[1..]);
    }
  }

  /** Leftover blocks and footers are skipped without a trace. */
  lemma {:induction false} SkipContents(env: Env, junk: seq<Rec>, tail: seq<Rec>, fs: FS, stats: Stats)
    requires forall i :: 0 <= i < |junk| ==> junk[i].Blk? || junk[i].FileFoot?
    ensures ReadObjects(env, Ex(junk + tail, fs, stats)) == ReadObjects(env, Ex(tail, fs, stats))
  {
    SkipJunk(env, junk, tail, fs, stats);
    NoErrorsInContents(junk);
  }

  lemma {:induction false} NextBlock(size: nat, acc: bytes, data: bytes, fsid: u16, rest: seq<Rec>)
    requires |acc| < size && |acc| < 0x1_0000_0000_0000_0000
    ensures BlockLoop(size, acc, [Blk(|acc|, data, fsid)] + rest) == BlockLoop(size, acc + data, rest)
  {
    assert ([Blk(|acc|, data, fsid)] + rest)[1..] == rest;
  }

  lemma {:induction false} ChunkReceived(content: bytes, pos: nat, blksize: nat, fsid: u16,
                                         r: seq<Option<bytes>>, tail: seq<Rec>)
    requires blksize > 0 && pos < |content| < 0x1_0000_0000_0000_0000
    requires ReceivedOk(content, pos, blksize, r) && r[0].Some?
    ensures var d := r[0].value;
            && 0 < |d| <= |content| - pos && ReceivedOk(content, pos + |d|, blksize, r[1..])
            && DamagedChunks(content, pos, blksize, fsid, r) + tail ==
               [Blk(pos, d, fsid)] + (DamagedChunks(content, pos + |d|, blksize, fsid, r[1..]) + tail)
  {
  }

  /** All blocks received: the loop ends with the footer next. */
  lemma {:induction false} LoopComplete(content: bytes, acc: bytes, blksize: nat, fsid: u16,
                                        r: seq<Option<bytes>>, tail: seq<Rec>)
    requires blksize > 0 && |content| < 0x1_0000_0000_0000_0000 && |acc| <= |content|
    requires ReceivedOk(content, |acc|, blksize, r) && Whole(r).Some?
    ensures BlockLoop(|content|, acc, DamagedChunks(content, |acc|, blksize, fsid, r) + tail) ==
            Loop(true, acc + Whole(r).value, tail)
    decreases |content| - |acc|
  {
    if |acc| == |content| {
      assert [] + tail == tail && acc + [] == acc;
    } else {
      hide BlockLoop, DamagedChunks;
      var d := r[0].value;
      ChunkReceived(content, |acc|, blksize, fsid, r, tail);
      LoopComplete(content, acc + d, blksize, fsid, r[1..], tail);
      NextBlock(|content|, acc, d, fsid, DamagedChunks(content, |acc| + |d|, blksize, fsid, r[1..]) + tail);
      assert acc + d + Whole(r[1..]).value == acc + (d + Whole(r[1..]).value);
    }
  }

  /** How many blocks arrive, and how many of them behind the first missing one. */
  function Arrivals(r: seq<Option<bytes>>): nat {
    if r == [] then 0 else (if r[0].Some? then 1 else 0) + Arrivals(r[1..])
  }

  function BehindGap(r: seq<Option<bytes>>): nat {
    if r == [] then 0 else if r[0].Some? then BehindGap(r[1..]) else Arrivals(r[1..])
  }

  lemma {:induction false} CountChunks(content: bytes, pos: nat, blksize: nat, fsid: u16, r: seq<Option<bytes>>)
    requires blksize > 0 && |content| < 0x1_0000_0000_0000_0000 && ReceivedOk(content, pos, blksize, r)
    ensures |DamagedChunks(content, pos, blksize, fsid, r)| == Arrivals(r)
    decreases |content| - pos
  {
    if pos < |content| {
      CountChunks(content, pos + Min(|content| - pos, blksize), blksize, fsid, r[1..]);
    }
  }

  /** A block is missing: the loop ends in front of the footer, or with blocks of the file left. */
  lemma {:induction false} LoopBroken(content: bytes, acc: bytes, blksize: nat, fsid: u16,
                                      r: seq<Option<bytes>>, tail: seq<Rec>)
    returns (left: seq<Rec>)
    requires blksize > 0 && |content| < 0x1_0000_0000_0000_0000 && |acc| <= |content|
    requires ReceivedOk(content, |acc|, blksize, r) && Whole(r).None?
    requires tail == [] || !tail[0].Blk?
    ensures var l := BlockLoop(|content|, acc, DamagedChunks(content, |acc|, blksize, fsid, r) + tail);
            !l.ok && l.rest == left + tail && forall i :: 0 <= i < |left| ==> left[i].Blk?
    ensures |left| == if BehindGap(r) == 0 then 0 else BehindGap(r) - 1
    decreases |content| - |acc|
  {
    hide BlockLoop, DamagedChunks;
    if r[0].Some? {
      var d := r[0].value;
      ChunkReceived(content, |acc|, blksize, fsid, r, tail);
      left := LoopBroken(content, acc + d, blksize, fsid, r[1..], tail);
      NextBlock(|content|, acc, d, fsid, DamagedChunks(content, |acc| + |d|, blksize, fsid, r[1..]) + tail);
    } else {
      left := LoopAtGap(content, acc, blksize, fsid, r, tail);
    }
  }

  /** The next block of the file is missing: the one behind it, if any, is taken and does not match. */
  lemma {:induction false} LoopAtGap(content: bytes, acc: bytes, blksize: nat, fsid: u16,
                                     r: seq<Option<bytes>>, tail: seq<Rec>)
    returns (left: seq<Rec>)
    requires blksize > 0 && |acc| < |content| < 0x1_0000_0000_0000_0000
    requires ReceivedOk(content, |acc|, blksize, r) && r[0].None? && (tail == [] || !tail[0].Blk?)
    ensures var l := BlockLoop(|content|, acc, DamagedChunks(content, |acc|, blksize, fsid, r) + tail);
            !l.ok && l.rest == left + tail && forall i :: 0 <= i < |left| ==> left[i].Blk?
    ensures |left| == if BehindGap(r) == 0 then 0 else BehindGap(r) - 1
  {
    var chunks := DamagedChunks(content, |acc|, blksize, fsid, r);
    CountChunks(content, |acc|, blksize, fsid, r);
    GapOffsets(content, |acc|, blksize, fsid, r);
    hide DamagedChunks;
    if chunks == [] {
      left := [];
      assert chunks + tail == tail;
    } else {
      left := chunks[1..];
      assert (chunks + tail)[1..] == left + tail && (chunks + tail)[0] == chunks[0];
    }
  }

  lemma {:induction false} GapOffsets(content: bytes, pos: nat, blksize: nat, fsid: u16, r: seq<Option<bytes>>)
    requires blksize > 0 && pos < |content| < 0x1_0000_0000_0000_0000 && ReceivedOk(content, pos, blksize, r) &&
             r[0].None?
    ensures forall rec :: rec in DamagedChunks(content, pos, blksize, fsid, r) ==> rec.Blk? && rec.offset > pos
  {}

  function EnvOf(c: Cfg, excluded: Path -> bool): Env {
    Env(c.fsid, c.md5, excluded)
  }

  /** A new name, and directories above it as far as there is anything. */
  predicate Free(fs: FS, path: Path) {
    FsOk(fs) && path !in fs.names && !Blocked(fs, path)
  }

  /** Where a large file may be restored; an excluded one is only read. */
  predicate Usable(env: Env, fs: FS, path: Path) {
    if env.excluded(path) then path in fs.names ==> IsDir(fs, path) else Free(fs, path)
  }

  lemma {:induction false} FreeBelow(fs: FS, path: Path)
    requires Free(fs, path)
    ensures Free(WithParents(fs, path), path)
  {
    ParentsMade(fs, path);
  }

  lemma {:induction false} OpenNew(fs: FS, path: Path, content: bytes, attrs: Attrs)
    requires Free(fs, path)
    ensures Open(fs, path).Some? && IsFile(Open(fs, path).value, path)
    ensures var written := SetContent(Open(fs, path).value, path, content);
            && IsFile(written, path)
            && written == FS(fs.names[path := FileNode(|fs.inodes|)], fs.inodes + [Inode(content, [])])
            && SetAttrs(written, path, attrs) ==
               FS(fs.names[path := FileNode(|fs.inodes|)], fs.inodes + [Inode(content, attrs)])
            && Unlink(written, path) == FS(fs.names, fs.inodes + [Freed])
            && Unlink(SetAttrs(written, path, attrs), path) == FS(fs.names, fs.inodes + [Freed])
  {
    var names := fs.names[path := FileNode(|fs.inodes|)];
    assert names - {path} == fs.names;
    var i0, i1 := fs.inodes + [Inode([], [])], fs.inodes + [Inode(content, [])];
    var i2 := fs.inodes + [Inode(content, attrs)];
    assert i0[|fs.inodes| := Inode(content, [])] == i1;
    assert i1[|fs.inodes| := Inode(content, attrs)] == i2;
    assert i1[|fs.inodes| := Freed] == fs.inodes + [Freed] == i2[|fs.inodes| := Freed];
    assert FileNode(|fs.inodes|) !in fs.names.Values;
  }

  lemma {:induction false} UniqueWhole(c: Cfg, excluded: Path -> bool, head: ObjHead, content: bytes,
                                       r: seq<Option<bytes>>,
                                       tail: seq<Rec>, w: World)
    requires CfgOk(c) && UnitOk(Large(head, content)) && ReceivedOk(content, 0, c.blksize, r) && Whole(r).Some?
    requires Usable(EnvOf(c, excluded), w.fs, head.path)
    ensures var env := EnvOf(c, excluded);
            var queue := DamagedChunks(content, 0, c.blksize, c.fsid, r) + (Footer(c, content) + tail);
            var w' := Perform(w, LargeOp(env, head, content, Whole(r)));
            RestoreUnique(env, Ex(queue, w.fs, w.stats), head) == Ex(tail, w'.fs, w'.stats)
  {
    hide Open, SetContent, SetAttrs, Unlink, IsFile, BlockLoop, DamagedChunks, Whole;
    var rest := Footer(c, content) + tail;
    LoopComplete(content, [], c.blksize, c.fsid, r, rest);
    assert [] + Whole(r).value == Whole(r).value;
    hide WithParents, Blocked, FsOk;
    if !excluded(head.path) {
      FreeBelow(w.fs, head.path);
      OpenNew(WithParents(w.fs, head.path), head.path, Whole(r).value, head.attrs);
    }
    assert if content == [] then rest == tail else rest[1..] == tail;
  }

  /** A file whose blocks are not all there leaves nothing behind. */
  lemma {:induction false} UniqueDropped(env: Env, ex: Ex, head: ObjHead)
    requires Usable(env, ex.fs, head.path) && !BlockLoop(head.size, [], ex.queue).ok
    ensures var rest := BlockLoop(head.size, [], ex.queue).rest;
            var w' := Perform(World(ex.fs, ex.stats), LargeOp(env, head, [], None));
            RestoreUnique(env, ex, head) ==
              Ex(if head.size > 0 && FooterTaken(rest) then rest[1..] else rest, w'.fs, w'.stats)
  {
    hide Open, SetContent, SetAttrs, IsFile, BlockLoop, FsOk, WithParents, Blocked;
    if !env.excluded(head.path) {
      FreeBelow(ex.fs, head.path);
      OpenNew(WithParents(ex.fs, head.path), head.path, BlockLoop(head.size, [], ex.queue).content, head.attrs);
    }
  }

  lemma {:induction false} FooterOf(c: Cfg, content: bytes)
    requires content != []
    ensures |Footer(c, content)| == 1 && Footer(c, content)[0].FileFoot?
  {}

  lemma {:induction false} UniqueBroken(c: Cfg, excluded: Path -> bool, head: ObjHead, content: bytes,
                                        r: seq<Option<bytes>>,
                                        tail: seq<Rec>, w: World)
    returns (left: seq<Rec>)
    requires CfgOk(c) && UnitOk(Large(head, content)) && ReceivedOk(content, 0, c.blksize, r) && Whole(r).None?
    requires Usable(EnvOf(c, excluded), w.fs, head.path)
    ensures var env := EnvOf(c, excluded);
            var queue := DamagedChunks(content, 0, c.blksize, c.fsid, r) + (Footer(c, content) + tail);
            var w' := Perform(w, LargeOp(env, head, content, None));
            RestoreUnique(env, Ex(queue, w.fs, w.stats), head) == Ex(left + tail, w'.fs, w'.stats)
    ensures forall i :: 0 <= i < |left| ==> left[i].Blk? || left[i].FileFoot?
  {
    hide RestoreUnique, Perform, BlockLoop, DamagedChunks, FsOk;
    assert content != [];
    FooterOf(c, content);
    hide Whole, Footer, ReceivedOk;
    var rest := Footer(c, content) + tail;
    var blocks := LoopBroken(content, [], c.blksize, c.fsid, r, rest);
    var ex := Ex(DamagedChunks(content, 0, c.blksize, c.fsid, r) + rest, w.fs, w.stats);
    UniqueDropped(EnvOf(c, excluded), ex, head);
    assert LargeOp(EnvOf(c, excluded), head, content, None) == LargeOp(EnvOf(c, excluded), head, [], None);
    assert w == World(ex.fs, ex.stats);
    if blocks == [] {
      left := [];
      assert blocks + rest == rest && rest[1..] == tail == left + tail;
    } else {
      left := blocks + Footer(c, content);
      assert blocks + rest == left + tail;
    }
  }

  /** A large file is restored if all its blocks are there and have the right digest; otherwise it is
      removed and counted once. Either way restoring goes on behind its footer. */
  lemma {:induction false} LargeRestored(c: Cfg, excluded: Path -> bool, head: ObjHead, content: bytes,
                                         r: seq<Option<bytes>>,
                                         tail: seq<Rec>, w: World)
    requires CfgOk(c) && UnitOk(Large(head, content)) && ReceivedOk(content, 0, c.blksize, r)
    requires Usable(EnvOf(c, excluded), w.fs, head.path)
    ensures var env := EnvOf(c, excluded);
            var w' := Perform(w, LargeOp(env, head, content, Whole(r)));
            ReadObjects(env, Ex([Obj(head, c.fsid)] + DamagedChunks(content, 0, c.blksize, c.fsid, r) +
                                Footer(c, content) + tail, w.fs, w.stats))
            == ReadObjects(env, Ex(tail, w'.fs, w'.stats))
  {
    hide RestoreUnique, Perform, LargeOp, DamagedChunks, Whole, Footer;
    var env := EnvOf(c, excluded);
    var chunks := DamagedChunks(content, 0, c.blksize, c.fsid, r);
    var queue := [Obj(head, c.fsid)] + chunks + Footer(c, content) + tail;
    assert queue[1..] == chunks + (Footer(c, content) + tail);
    if Whole(r).Some? {
      UniqueWhole(c, excluded, head, content, r, tail, w);
    } else {
      var left := UniqueBroken(c, excluded, head, content, r, tail, w);
      var w' := Perform(w, LargeOp(env, head, content, None));
      SkipContents(env, left, tail, w'.fs, w'.stats);
    }
  }

  // ---- runs of effects

  function PathsOf(ops: seq<Op>): set<Path> {
    set i | 0 <= i < |ops| :: ops[i].path
  }

  function OthersOf(ops: seq<Op>): set<Path> {
    set i | 0 <= i < |ops| && ops[i].PutOther? :: ops[i].path
  }

  predicate DistinctOps(ops: seq<Op>) {
    forall i, j :: 0 <= i < j < |ops| ==> ops[i].path != ops[j].path
  }

  /** Hard links name regular files, or nothing that can be linked to. */
  predicate LinksToFiles(fs: FS, ops: seq<Op>, others: set<Path>) {
    forall i :: 0 <= i < |ops| && ops[i].PutLink? ==>
      ops[i].target !in others &&
      (ops[i].target in fs.names ==> fs.names[ops[i].target].FileNode? || IsDir(fs, ops[i].target))
  }

  /** Only directories have anything below them. */
  predicate Unobstructed(ops: seq<Op>) {
    forall i, j :: 0 <= i < |ops| && 0 <= j < |ops| && Touches(ops[i]) && Touches(ops[j]) && !MakesDir(ops[i]) ==>
      !Ancestor(ops[i].path, ops[j].path)
  }

  /** A new name, or a directory that is there already; and nothing but directories above it. */
  predicate Ready(fs: FS, op: Op) {
    && (Touches(op) ==> !Blocked(fs, op.path) && (op.path in fs.names ==> MakesDir(op) && IsDir(fs, op.path)))
    && (op.SkipFile? && op.path in fs.names ==> IsDir(fs, op.path))
  }

  predicate AllReady(fs: FS, ops: seq<Op>) {
    forall i :: 0 <= i < |ops| ==> Ready(fs, ops[i])
  }

  predicate Runnable(fs: FS, ops: seq<Op>) {
    FsOk(fs) && DistinctOps(ops) && AllReady(fs, ops) && Unobstructed(ops) && LinksToFiles(fs, ops, OthersOf(ops))
  }

  /** The node that an effect leaves under its own path. */
  predicate OwnNode(op: Op, node: Node) {
    match op
    case PutOther(_, objtype, attrs) => node == OtherNode(objtype, attrs)
    case PutFile(_, _, _) => node.FileNode?
    case EmptyFile(_) => node.FileNode?
    case PutLink(_, _, _) => node.FileNode?
    case _ => false
  }

  /** What an effect does to the names. */
  ghost predicate NamesAfter(fs: FS, op: Op, after: FS) {
    && FsOk(after)
    && (forall p :: p in fs.names && (p != op.path || !Touches(op)) ==>
        p in after.names && after.names[p] == fs.names[p])
    && (forall p :: p in after.names && p !in fs.names && p != op.path ==>
          Touches(op) && Ancestor(p, op.path) && after.names[p] == OtherNode(DIR, []))
    && (Touches(op) ==> forall d :: Ancestor(d, op.path) ==> IsDir(after, d))
    && (Touches(op) && op.path in after.names ==> OwnNode(op, after.names[op.path]))
    && (MakesDir(op) ==> IsDir(after, op.path))
    && (!Touches(op) ==> after == fs)
  }

  lemma {:induction false} PerformNames(w: World, op: Op)
    requires FsOk(w.fs) && Ready(w.fs, op)
    ensures NamesAfter(w.fs, op, Perform(w, op).fs)
  {
    hide WithParents, Perform, OwnNode, Blocked, FsOk, Ancestor;
    ParentsMade(w.fs, op.path);
    if Touches(op) {
      TouchNames(Base(w, op), w, op);
    } else {
      NoTouch(w, op);
    }
  }

  lemma {:induction false} NoTouch(w: World, op: Op)
    requires !Touches(op)
    ensures Perform(w, op).fs == w.fs
  {}

  /** The directories above are made: the effect itself changes only its own name. */
  lemma {:induction false} TouchNames(base: FS, w: World, op: Op)
    requires Touches(op) && base == Base(w, op) && FsOk(base) && (op.path in base.names ==> MakesDir(op))
    ensures var after := Perform(w, op).fs;
            && FsOk(after)
            && (forall p :: p != op.path ==> (p in after.names <==> p in base.names))
            && (forall p :: p in base.names && p != op.path ==> after.names[p] == base.names[p])
            && (op.path in after.names ==> OwnNode(op, after.names[op.path]))
            && (MakesDir(op) ==> IsDir(after, op.path))
  {
    hide Base;
  }

  lemma {:induction false} SplitOps(a: seq<Op>, b: seq<Op>)
    ensures PathsOf(a + b) == PathsOf(a) + PathsOf(b) && OthersOf(a + b) == OthersOf(a) + OthersOf(b)
    ensures DistinctOps(a + b) ==> DistinctOps(a) && DistinctOps(b) && PathsOf(a) !! PathsOf(b)
  {
    var ab := a + b;
    assert forall i :: 0 <= i < |a| ==> ab[i] == a[i];
    assert forall i :: 0 <= i < |b| ==> ab[|a| + i] == b[i];
    assert forall i :: |a| <= i < |ab| ==> ab[i] == b[i - |a|];
  }

  /** Part of a run can be run. */
  lemma {:induction false} PartRunnable(fs: FS, a: seq<Op>, b: seq<Op>)
    requires Runnable(fs, a + b)
    ensures Runnable(fs, a)
  {
    hide FsOk, Ready, Ancestor, Touches, MakesDir, IsDir;
    SplitOps(a, b);
    assert forall i :: 0 <= i < |a| ==> (a + b)[i] == a[i];
  }

  /** One effect leaves the rest of the run possible. */
  lemma {:induction false} StepRunnable(w: World, op: Op, rest: seq<Op>)
    requires Runnable(w.fs, [op] + rest)
    ensures Runnable(Perform(w, op).fs, rest)
  {
    hide Perform, FsOk, Blocked, Ancestor;
    var all, fs := [op] + rest, Perform(w, op).fs;
    assert all[0] == op && forall i :: 0 <= i < |rest| ==> all[i + 1] == rest[i];
    PerformNames(w, op);
    SplitOps([op], rest);
    forall i | 0 <= i < |rest|
      ensures Ready(fs, rest[i])
      ensures rest[i].PutLink? && rest[i].target in fs.names ==>
                fs.names[rest[i].target].FileNode? || IsDir(fs, rest[i].target)
    {
      assert all[i + 1] == rest[i] && Ready(w.fs, rest[i]) && op.path != rest[i].path;
      if Touches(op) {
        assert Touches(rest[i]) && !MakesDir(rest[i]) ==> !Ancestor(rest[i].path, op.path);
        assert Touches(rest[i]) && !MakesDir(op) ==> !Ancestor(op.path, rest[i].path);
        StillReady(w.fs, op, fs, rest[i]);
      }
      if rest[i].PutLink? && rest[i].target == op.path {
        assert op.PutOther? ==> op.path in OthersOf([op]);
      }
    }
  }

  lemma {:induction false} StillReady(fs: FS, op: Op, after: FS, r: Op)
    requires NamesAfter(fs, op, after) && Touches(op) && op.path != r.path && Ready(fs, r)
    requires Touches(r) && !MakesDir(r) ==> !Ancestor(r.path, op.path)
    requires Touches(r) && !MakesDir(op) ==> !Ancestor(op.path, r.path)
    ensures Ready(after, r)
  {
    hide FsOk, OwnNode;
    forall k | Touches(r) && 0 < k < |r.path| && r.path[k] == SLASH && r.path[..k] in after.names
      ensures IsDir(after, r.path[..k])
    {
      var q := r.path[..k];
      assert Ancestor(q, r.path);
      assert q in fs.names ==> IsDir(fs, q);
    }
  }

  /** A run can be cut in two anywhere. */
  lemma {:induction false} RunSplits(w: World, a: seq<Op>, b: seq<Op>)
    requires Runnable(w.fs, a + b)
    ensures Runnable(w.fs, a) && Runnable(PerformAll(w, a).fs, b)
  {
    hide Runnable, Perform;
    PartRunnable(w.fs, a, b);
    if a == [] {
      assert a + b == b;
    } else {
      var n := |a| - 1;
      assert a + b == a[..n] + ([a[n]] + b);
      RunSplits(w, a[..n], [a[n]] + b);
      StepRunnable(PerformAll(w, a[..n]), a[n], b);
    }
  }

  lemma {:induction false} PerformConcat(w: World, a: seq<Op>, b: seq<Op>)
    ensures PerformAll(w, a + b) == PerformAll(PerformAll(w, a), b)
  {
    hide Perform;
    if b == [] {
      assert a + b == a;
    } else {
      PerformConcat(w, a, b[..|b| - 1]);
      assert (a + b)[..|a + b| - 1] == a + b[..|b| - 1];
    }
  }

  function Junked(w: World, n: nat): World {
    w.(stats := AddErrors(w.stats, n))
  }

  lemma {:induction false} StepJunked(w: World, op: Op, n: nat)
    ensures Perform(Junked(w, n), op) == Junked(Perform(w, op), n)
  {
    hide SetAttrs, IsFile;
  }

  lemma {:induction false} PerformJunked(w: World, ops: seq<Op>, n: nat)
    ensures PerformAll(Junked(w, n), ops) == Junked(PerformAll(w, ops), n)
  {
    hide Perform, Junked;
    if ops != [] {
      StepJunked(PerformAll(w, ops[..|ops| - 1]), ops[|ops| - 1], n);
      PerformJunked(w, ops[..|ops| - 1], n);
    }
  }

  // ---- small files and single headers

  lemma {:induction false} CollectAll(heads: seq<ObjHead>, recs: seq<Rec>, tail: seq<Rec>)
    requires |heads| + |recs| <= MAX_SMALLFILECOUNT && forall i :: 0 <= i < |recs| ==> recs[i].Obj?
    ensures CollectHeads(|heads| + |recs|, heads, recs + tail) == Some(Heads(heads + HeadsOf(recs), tail))
    decreases |recs|
  {
    if recs == [] {
      assert recs + tail == tail && heads + HeadsOf(recs) == heads;
    } else {
      CollectAll(heads + [recs[0].head], recs[1..], tail);
      assert (recs + tail)[1..] == recs[1..] + tail && (recs + tail)[0] == recs[0];
      assert heads + [recs[0].head] + HeadsOf(recs[1..]) == heads + HeadsOf(recs);
    }
  }

  predicate DigestsOk(c: Cfg, u: Unit) {
    u.Shared? ==> forall i :: 0 <= i < |u.files| ==> u.files[i].head.md5 == Some(c.md5(u.files[i].data))
  }

  lemma {:induction false} SmallRestored(env: Env, w: World, f: SmallFile, head: ObjHead, received: bytes)
    requires Free(w.fs, f.head.path) && f.head.md5 == Some(env.md5(f.data))
    requires head.path == f.head.path && head.md5 == f.head.md5 && head.attrs == f.head.attrs
    ensures var w' := Perform(w, SmallOp(env, f, received));
            RestoreSmall(env, w.fs, w.stats, Some(SmallFile(head, received))) == (w'.fs, w'.stats)
  {
    hide Open, SetContent, SetAttrs, IsFile, FsOk, WithParents, Blocked;
    FreeBelow(w.fs, head.path);
    var base := WithParents(w.fs, head.path);
    OpenNew(base, head.path, received, head.attrs);
    OpenNew(base, head.path, [], head.attrs);
  }

  lemma {:induction false} SmallSkipped(env: Env, w: World, f: SmallFile, head: ObjHead, received: bytes)
    requires env.excluded(f.head.path) && head.path == f.head.path
    ensures var w' := Perform(w, SmallOp(env, f, received));
            RestoreSmall(env, w.fs, w.stats, Some(SmallFile(head, received))) == (w'.fs, w'.stats)
  {}

  lemma {:induction false} SmallsRestored(env: Env, w: World, files: seq<SmallFile>, data: bytes, fsid: u16, n: nat)
    requires UnitOk(Shared(files)) && |data| == TotalSize(files) && n <= |files|
    requires forall i :: 0 <= i < |files| ==> files[i].head.md5 == Some(env.md5(files[i].data))
    requires Runnable(w.fs, SmallOps(env, files, data, n))
    ensures var heads := HeadsOf(PackedHeads(files, |files|, fsid));
            var w' := PerformAll(w, SmallOps(env, files, data, n));
            RestoreSmalls(env, w.fs, w.stats, heads, data, n) == (w'.fs, w'.stats)
  {
    hide RestoreSmall, Perform, SmallOpAt;
    if n > 0 {
      var ops, heads := SmallOps(env, files, data, n), HeadsOf(PackedHeads(files, |files|, fsid));
      assert ops == SmallOps(env, files, data, n - 1) + [SmallOpAt(env, files, data, n - 1)];
      RunSplits(w, SmallOps(env, files, data, n - 1), [SmallOpAt(env, files, data, n - 1)]);
      SmallsRestored(env, w, files, data, fsid, n - 1);
      SmallAt(env, PerformAll(w, SmallOps(env, files, data, n - 1)), files, data, fsid, n - 1);
      assert ops[..n - 1] == SmallOps(env, files, data, n - 1);
    }
  }

  lemma {:induction false} SmallAt(env: Env, w: World, files: seq<SmallFile>, data: bytes, fsid: u16, i: nat)
    requires UnitOk(Shared(files)) && |data| == TotalSize(files) && i < |files|
    requires files[i].head.md5 == Some(env.md5(files[i].data))
    requires Runnable(w.fs, [SmallOpAt(env, files, data, i)])
    ensures var w' := Perform(w, SmallOpAt(env, files, data, i));
            RestoreSmall(env, w.fs, w.stats, FileAt(HeadsOf(PackedHeads(files, |files|, fsid)), data, i)) ==
              (w'.fs, w'.stats)
  {
    hide RestoreSmall, Perform, Blocked, FsOk;
    OffsetsTile(files, i);
    SharedSize(files);
    var op := SmallOpAt(env, files, data, i);
    assert [op][0] == op && Ready(w.fs, op);
    if env.excluded(files[i].head.path) {
      SmallSkipped(env, w, files[i], PackedHead(files, i), data[OffsetOf(files, i)..OffsetOf(files, i + 1)]);
      return;
    }
    SmallRestored(env, w, files[i], PackedHead(files, i), data[OffsetOf(files, i)..OffsetOf(files, i + 1)]);
  }

  lemma {:induction false} SharedRestored(c: Cfg, excluded: Path -> bool, files: seq<SmallFile>,
                                          data: bytes, tail: seq<Rec>, w: World)
    requires CfgOk(c) && UnitOk(Shared(files)) && files != [] && |data| == TotalSize(files) &&
             DigestsOk(c, Shared(files))
    requires Runnable(w.fs, SmallOps(EnvOf(c, excluded), files, data, |files|))
    ensures var env := EnvOf(c, excluded);
            var w' := PerformAll(w, SmallOps(env, files, data, |files|));
            ReadObjects(env, Ex(PackedHeads(files, |files|, c.fsid) + [Blk(0, data, c.fsid)] + tail, w.fs, w.stats))
            == ReadObjects(env, Ex(tail, w'.fs, w'.stats))
  {
    hide RestoreSmalls, PerformAll, SmallOps, CollectHeads, Runnable;
    var env := EnvOf(c, excluded);
    var recs, behind := PackedHeads(files, |files|, c.fsid), [Blk(0, data, c.fsid)] + tail;
    var queue := recs + [Blk(0, data, c.fsid)] + tail;
    assert queue[1..] == recs[1..] + behind && queue[0] == recs[0];
    CollectAll([recs[0].head], recs[1..], behind);
    assert [recs[0].head] + HeadsOf(recs[1..]) == HeadsOf(recs);
    assert behind[1..] == tail;
    SmallsRestored(env, w, files, data, c.fsid, |files|);
  }

  lemma {:induction false} SingleRestored(c: Cfg, excluded: Path -> bool, head: ObjHead, tail: seq<Rec>, w: World)
    requires UnitOk(Single(head)) && Runnable(w.fs, [SingleOp(EnvOf(c, excluded), head)])
    ensures var env := EnvOf(c, excluded);
            var w' := Perform(w, SingleOp(env, head));
            ReadObjects(env, Ex([Obj(head, c.fsid)] + tail, w.fs, w.stats)) ==
              ReadObjects(env, Ex(tail, w'.fs, w'.stats))
  {
    hide Perform, RestoreLink, RestoreOther, FsOk, Ready, LinksToFiles;
    var env, op := EnvOf(c, excluded), SingleOp(EnvOf(c, excluded), head);
    assert [op][0] == op && Ready(w.fs, op) && ([Obj(head, c.fsid)] + tail)[1..] == tail;
    if head.objtype == HARDLINK {
      LinkRestored(env, head, tail, w);
    } else {
      OtherRestored(env, head, tail, w);
    }
  }

  lemma {:induction false} LinkRestored(env: Env, head: ObjHead, queue: seq<Rec>, w: World)
    requires UnitOk(Single(head)) && head.objtype == HARDLINK && Runnable(w.fs, [SingleOp(env, head)])
    ensures var w' := Perform(w, SingleOp(env, head));
            RestoreLink(env, Ex(queue, w.fs, w.stats), head) == Ex(queue, w'.fs, w'.stats)
  {
    hide WithParents, Blocked, SetAttrs, Unobstructed, DistinctOps;
    var op := SingleOp(env, head);
    assert [op][0] == op && Ready(w.fs, op);
    ParentsMade(w.fs, head.path);
    var base := WithParents(w.fs, head.path);
    assert op.PutLink? && op.target in base.names ==> IsFile(base, op.target) || IsDir(base, op.target);
  }

  lemma {:induction false} OtherRestored(env: Env, head: ObjHead, queue: seq<Rec>, w: World)
    requires UnitOk(Single(head)) && head.objtype != HARDLINK && Ready(w.fs, SingleOp(env, head))
    ensures var w' := Perform(w, SingleOp(env, head));
            RestoreOther(env, Ex(queue, w.fs, w.stats), head) == Ex(queue, w'.fs, w'.stats)
  {
    hide WithParents, Blocked, FsOk;
    ParentsMade(w.fs, head.path);
    if !env.excluded(head.path) {
      var base := WithParents(w.fs, head.path);
      var made := Make(base, head.path, head.objtype).value;
      assert SetAttrs(made, head.path, head.attrs).names ==
             base.names[head.path := OtherNode(head.objtype, head.attrs)];
    }
  }

  // ---- whole streams

  lemma {:induction false} NoneMissing(content: bytes, pos: nat, blksize: nat, fsid: u16)
    returns (r: seq<Option<bytes>>)
    requires blksize > 0 && |content| < 0x1_0000_0000_0000_0000 && pos <= |content|
    ensures ReceivedOk(content, pos, blksize, r) && Whole(r) == Some(content[pos..])
    ensures DamagedChunks(content, pos, blksize, fsid, r) == Chunks(content, pos, blksize, fsid)
    decreases |content| - pos
  {
    if pos == |content| {
      r := [];
    } else {
      var n := Min(|content| - pos, blksize);
      r := NoneMissing(content, pos + n, blksize, fsid);
      r := [Some(content[pos..pos + n])] + r;
      assert r[1..] == r[1..] && content[pos..pos + n] + content[pos + n..] == content[pos..];
    }
  }

  lemma {:induction false} UnitRestored(c: Cfg, excluded: Path -> bool, u: Unit, kind: Kind, tail: seq<Rec>, w: World)
    requires CfgOk(c) && UnitOk(u) && DigestsOk(c, u) && KindOk(c, u, kind)
    requires Runnable(w.fs, OpsOf(EnvOf(c, excluded), c, u, kind))
    ensures var env := EnvOf(c, excluded);
            var w' := PerformAll(w, OpsOf(env, c, u, kind));
            ReadObjects(env, Ex(EmitHarmed(c, u, Harm([], kind)) + tail, w.fs, w.stats)) ==
              ReadObjects(env, Ex(tail, w'.fs, w'.stats))
  {
    hide ReadObjects, Runnable, EmitHarmed, OpsOf;
    if u.Large? {
      LargeUnitRestored(c, excluded, u.head, u.content, kind, tail, w);
    } else if u.Single? {
      SingleUnitRestored(c, excluded, u.head, kind, tail, w);
    } else {
      SharedUnitRestored(c, excluded, u.files, kind, tail, w);
    }
  }

  lemma {:induction false} LargeUnitRestored(c: Cfg, excluded: Path -> bool, head: ObjHead, content: bytes, kind: Kind,
                                             tail: seq<Rec>, w: World)
    requires var u := Large(head, content);
             CfgOk(c) && UnitOk(u) && KindOk(c, u, kind) && Runnable(w.fs, OpsOf(EnvOf(c, excluded), c, u, kind))
    ensures var env, u := EnvOf(c, excluded), Large(head, content);
            var w' := PerformAll(w, OpsOf(env, c, u, kind));
            ReadObjects(env, Ex(EmitHarmed(c, u, Harm([], kind)) + tail, w.fs, w.stats)) ==
              ReadObjects(env, Ex(tail, w'.fs, w'.stats))
  {
    hide ReadObjects, FsOk, LinksToFiles, Footer, DamagedChunks, Chunks;
    var env, u := EnvOf(c, excluded), Large(head, content);
    var ops, recs := OpsOf(env, c, u, kind), EmitHarmed(c, u, Harm([], kind));
    assert ops[..0] == [] && Ready(w.fs, ops[0]);
    if kind.HeaderLost? {
      assert recs == kind.left;
      SkipContents(env, kind.left, tail, w.fs, w.stats);
    } else if kind.Blocks? {
      assert recs == [Obj(head, c.fsid)] + DamagedChunks(content, 0, c.blksize, c.fsid, kind.received) +
             Footer(c, content);
      LargeRestored(c, excluded, head, content, kind.received, tail, w);
    } else {
      var r := NoneMissing(content, 0, c.blksize, c.fsid);
      assert content[0..] == content;
      assert recs == [Obj(head, c.fsid)] + Chunks(content, 0, c.blksize, c.fsid) + Footer(c, content);
      LargeRestored(c, excluded, head, content, r, tail, w);
    }
  }

  lemma {:induction false} SingleUnitRestored(c: Cfg, excluded: Path -> bool, head: ObjHead, kind: Kind,
                                              tail: seq<Rec>, w: World)
    requires var u := Single(head);
             CfgOk(c) && UnitOk(u) && KindOk(c, u, kind) && Runnable(w.fs, OpsOf(EnvOf(c, excluded), c, u, kind))
    ensures var env, u := EnvOf(c, excluded), Single(head);
            var w' := PerformAll(w, OpsOf(env, c, u, kind));
            ReadObjects(env, Ex(EmitHarmed(c, u, Harm([], kind)) + tail, w.fs, w.stats)) ==
              ReadObjects(env, Ex(tail, w'.fs, w'.stats))
  {
    hide ReadObjects, Runnable, SingleOp;
    var env := EnvOf(c, excluded);
    var recs := EmitHarmed(c, Single(head), Harm([], kind));
    var ops := OpsOf(EnvOf(c, excluded), c, Single(head), kind);
    assert ops[..0] == [];
    if kind.HeaderLost? {
      assert recs == kind.left;
      SkipContents(env, kind.left, tail, w.fs, w.stats);
    } else {
      assert recs == [Obj(head, c.fsid)];
      SingleRestored(c, excluded, head, tail, w);
    }
  }

  lemma {:induction false} SharedUnitRestored(c: Cfg, excluded: Path -> bool, files: seq<SmallFile>,
                                              kind: Kind, tail: seq<Rec>, w: World)
    requires var u := Shared(files);
             CfgOk(c) && UnitOk(u) && DigestsOk(c, u) && KindOk(c, u, kind) &&
               Runnable(w.fs, OpsOf(EnvOf(c, excluded), c, u, kind))
    ensures var env, u := EnvOf(c, excluded), Shared(files);
            var w' := PerformAll(w, OpsOf(env, c, u, kind));
            ReadObjects(env, Ex(EmitHarmed(c, u, Harm([], kind)) + tail, w.fs, w.stats)) ==
              ReadObjects(env, Ex(tail, w'.fs, w'.stats))
  {
    hide ReadObjects, Runnable, SmallOpAt;
    SharedSize(files);
    var recs := EmitHarmed(c, Shared(files), Harm([], kind));
    if kind.HeaderLost? {
      assert recs == kind.left;
      SkipContents(EnvOf(c, excluded), kind.left, tail, w.fs, w.stats);
      NoneMade(w, MissingOps(files));
    } else if files == [] {
      assert recs + tail == tail;
    } else {
      var data := if kind.SharedBlock? then kind.data else SharedData(files);
      assert recs == PackedHeads(files, |files|, c.fsid) + [Blk(0, data, c.fsid)];
      SharedRestored(c, excluded, files, data, tail, w);
    }
  }

  lemma {:induction false} NoneMade(w: World, ops: seq<Op>)
    requires forall i :: 0 <= i < |ops| ==> ops[i].Missing?
    ensures PerformAll(w, ops) == w
  {
    if ops != [] {
      NoneMade(w, ops[..|ops| - 1]);
    }
  }

  predicate StreamOk(c: Cfg, us: seq<Unit>, hs: seq<Harm>) {
    CfgOk(c) && UnitsOk(us) && HarmsOk(c, us, hs) && forall i :: 0 <= i < |us| ==> DigestsOk(c, us[i])
  }

  function AllOps(env: Env, c: Cfg, us: seq<Unit>, hs: seq<Harm>): seq<Op>
    requires StreamOk(c, us, hs)
  {
    var n := |us| - 1;
    if us == [] then [] else AllOps(env, c, us[..n], hs[..n]) + OpsOf(env, c, us[n], hs[n].kind)
  }

  function AllJunkErrors(hs: seq<Harm>): nat {
    if hs == [] then 0 else AllJunkErrors(hs[..|hs| - 1]) + JunkErrors(hs[|hs| - 1].junk)
  }

  lemma {:induction false} JunkFirst(c: Cfg, u: Unit, h: Harm, tail: seq<Rec>)
    requires CfgOk(c) && UnitOk(u) && HarmOk(c, u, h)
    ensures EmitHarmed(c, u, h) + tail == h.junk + (EmitHarmed(c, u, Harm([], h.kind)) + tail)
  {
    hide EmitUnit, DamagedChunks, PackedHeads, Footer;
  }

  lemma {:induction false} HarmedRestored(c: Cfg, excluded: Path -> bool, u: Unit, h: Harm, tail: seq<Rec>, w: World)
    requires CfgOk(c) && UnitOk(u) && DigestsOk(c, u) && HarmOk(c, u, h)
    requires Runnable(w.fs, OpsOf(EnvOf(c, excluded), c, u, h.kind))
    ensures var env := EnvOf(c, excluded);
            var w' := Junked(PerformAll(w, OpsOf(env, c, u, h.kind)), JunkErrors(h.junk));
            ReadObjects(env, Ex(EmitHarmed(c, u, h) + tail, w.fs, w.stats)) ==
              ReadObjects(env, Ex(tail, w'.fs, w'.stats))
  {
    hide ReadObjects, Runnable, PerformAll, JunkErrors, OpsOf, UnitOk, DigestsOk, EmitHarmed, KindOk;
    var env, rest := EnvOf(c, excluded), EmitHarmed(c, u, Harm([], h.kind)) + tail;
    JunkFirst(c, u, h, tail);
    SkipJunk(env, h.junk, rest, w.fs, w.stats);
    UnitRestored(c, excluded, u, h.kind, tail, Junked(w, JunkErrors(h.junk)));
    PerformJunked(w, OpsOf(env, c, u, h.kind), JunkErrors(h.junk));
  }

  /** Every damaged stream is read through to its end, and comes to the effects of its units in order. */
  lemma {:induction false} StreamRestored(c: Cfg, excluded: Path -> bool, us: seq<Unit>, hs: seq<Harm>,
                                          tail: seq<Rec>, w: World)
    requires StreamOk(c, us, hs) && Runnable(w.fs, AllOps(EnvOf(c, excluded), c, us, hs))
    ensures var env := EnvOf(c, excluded);
            var w' := Junked(PerformAll(w, AllOps(env, c, us, hs)), AllJunkErrors(hs));
            ReadObjects(env, Ex(EmitAllHarmed(c, us, hs) + tail, w.fs, w.stats)) ==
              ReadObjects(env, Ex(tail, w'.fs, w'.stats))
  {
    hide ReadObjects, Runnable, PerformAll, JunkErrors, OpsOf, EmitHarmed, UnitOk, DigestsOk, KindOk;
    var env := EnvOf(c, excluded);
    if us == [] {
      assert [] + tail == tail && PerformAll(w, []) == w by { NoOps(w); }
      assert Junked(w, 0) == w;
    } else {
      var n := |us| - 1;
      var before, now := AllOps(env, c, us[..n], hs[..n]), OpsOf(env, c, us[n], hs[n].kind);
      RunSplits(w, before, now);
      var rest := EmitHarmed(c, us[n], hs[n]) + tail;
      assert EmitAllHarmed(c, us, hs) + tail == EmitAllHarmed(c, us[..n], hs[..n]) + rest;
      StreamRestored(c, excluded, us[..n], hs[..n], rest, w);
      var w1 := Junked(PerformAll(w, before), AllJunkErrors(hs[..n]));
      HarmedRestored(c, excluded, us[n], hs[n], tail, w1);
      PerformJunked(PerformAll(w, before), now, AllJunkErrors(hs[..n]));
      PerformConcat(w, before, now);
    }
  }

  lemma {:induction false} NoOps(w: World)
    ensures PerformAll(w, []) == w
  {}
}
