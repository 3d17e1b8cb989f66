/** Damage that the restore loop does not contain: what exactly the loss of one header or block of the
    object protocol does (src/oper_restore.c). */
module Fragile {
  import opened Bytes
  import opened ArchiveItems
  import opened Records
  import opened FileSystem
  import opened RegMulti
  import opened OperSave
  import opened OperRestore
  import opened Damage

  /** The headers that are left. */
  function Left(recs: seq<Rec>, kept: seq<bool>): (r: seq<Rec>)
    requires |recs| == |kept|
    ensures |r| <= |recs|
  {
    if recs == [] then [] else (if kept[0] then [recs[0]] else []) + Left(recs[1..], kept[1..])
  }

  lemma {:induction false} LeftFacts(recs: seq<Rec>, kept: seq<bool>)
    requires |recs| == |kept|
    ensures forall r :: r in Left(recs, kept) ==> r in recs
    ensures Left(recs, kept) == [] <==> forall i :: 0 <= i < |kept| ==> !kept[i]
    ensures |Left(recs, kept)| == |recs| <==> forall i :: 0 <= i < |kept| ==> kept[i]
    ensures |Left(recs, kept)| == |recs| ==> Left(recs, kept) == recs
  {
    if recs != [] {
      LeftFacts(recs[1..], kept[1..]);
      assert forall i :: 1 <= i < |kept| ==> kept[i] == kept[1..][i - 1];
      assert forall i :: 0 <= i < |kept| - 1 ==> kept[1..][i] == kept[i + 1];
    }
  }

  /** Too few headers in front of a block. */
  lemma {:induction false} CollectShort(count: nat, heads: seq<ObjHead>, recs: seq<Rec>, tail: seq<Rec>)
    requires |heads| + |recs| < count && (forall r :: r in recs ==> r.Obj?) && (tail == [] || !tail[0].Obj?)
    ensures CollectHeads(count, heads, recs + tail) == None
    decreases |recs|
  {
    if recs == [] {
      assert recs + tail == tail;
    } else {
      assert (recs + tail)[1..] == recs[1..] + tail && (recs + tail)[0] == recs[0];
      CollectShort(count, heads + [recs[0].head], recs[1..], tail);
    }
  }

  lemma {:induction false} HeadsAreObjs(files: seq<SmallFile>, fsid: u16)
    requires UnitOk(Shared(files))
    ensures forall r :: r in PackedHeads(files, |files|, fsid) ==>
              r.Obj? && r.fsid == fsid && r.head.objtype == REGFILEMULTI && r.head.multiCount == Some(|files|)
  {}

  /** Small files that share a block are restored together or not at all: without any of their headers
      the block is skipped, but if some headers are lost and others are not, restoring ends there. */
  lemma {:induction false} PackHeadersLost(c: Cfg, excluded: Path -> bool, files: seq<SmallFile>,
                                           data: bytes, kept: seq<bool>,
                                           tail: seq<Rec>, w: World)
    requires UnitOk(Shared(files)) && |kept| == |files| && !(forall i :: 0 <= i < |kept| ==> kept[i])
    ensures var env := EnvOf(c, excluded);
            var left := Left(PackedHeads(files, |files|, c.fsid), kept);
            ReadObjects(env, Ex(left + [Blk(0, data, c.fsid)] + tail, w.fs, w.stats)) ==
            if forall i :: 0 <= i < |kept| ==> !kept[i] then ReadObjects(env, Ex(tail, w.fs, w.stats))
            else Abort(w.fs, w.stats)
  {
    hide PackedHeads, UnitOk, Left;
    UnitSize(files);
    var env, recs := EnvOf(c, excluded), PackedHeads(files, |files|, c.fsid);
    var left, behind := Left(recs, kept), [Blk(0, data, c.fsid)] + tail;
    LeftFacts(recs, kept);
    HeadsAreObjs(files, c.fsid);
    assert left + [Blk(0, data, c.fsid)] + tail == left + behind;
    if left == [] {
      assert left + behind == behind && behind[1..] == tail;
    } else {
      assert left[0] in left && (left + behind)[0] == left[0] && (left + behind)[1..] == left[1..] + behind;
      assert forall r :: r in left[1..] ==> r in left;
      CollectShort(|files|, [left[0].head], left[1..], behind);
    }
  }

  /** A header of a packed file that does not say how many there are ends the restoration. */
  lemma {:induction false} PackWithoutCount(env: Env, ex: Ex, head: ObjHead)
    requires head.objtype == REGFILEMULTI && head.multiCount.None?
    ensures ReadObjects(env, ex.(queue := [Obj(head, env.fsid)] + ex.queue)) == Abort(ex.fs, ex.stats)
  {
    assert ([Obj(head, env.fsid)] + ex.queue)[1..] == ex.queue;
  }

  /** A pack that is said to be larger than any may be ends the restoration too, however many headers there are. */
  lemma {:induction false} PackTooLarge(count: nat, heads: seq<ObjHead>, queue: seq<Rec>)
    requires count > MAX_SMALLFILECOUNT && |heads| <= MAX_SMALLFILECOUNT
    ensures CollectHeads(count, heads, queue) == None
    decreases |queue|
  {
    if queue != [] && queue[0].Obj? && |heads| < MAX_SMALLFILECOUNT {
      PackTooLarge(count, heads + [queue[0].head], queue[1..]);
    }
  }

  /** Where a pack has lost its block, the next record decides: any block that fits is taken for it, and the
      files are cut out of that one; otherwise restoring ends. */
  lemma {:induction false} PackBlockLost(c: Cfg, excluded: Path -> bool, files: seq<SmallFile>,
                                         tail: seq<Rec>, w: World)
    requires UnitOk(Shared(files)) && files != []
    ensures var env := EnvOf(c, excluded);
            var heads := PackHeads(c, files);
            ReadObjects(env, Ex(PackedHeads(files, |files|, c.fsid) + tail, w.fs, w.stats)) ==
            if tail != [] && tail[0].Blk? && |tail[0].data| <= MAX_BLKSIZE then
              var (fs, stats) := RestoreSmalls(env, w.fs, w.stats, heads, tail[0].data, |files|);
              ReadObjects(env, Ex(tail[1..], fs, stats))
            else Abort(w.fs, w.stats)
  {
    hide PackedHeads, UnitOk, CollectHeads, RestoreSmalls;
    UnitSize(files);
    var recs := PackedHeads(files, |files|, c.fsid);
    HeadsAreObjs(files, c.fsid);
    assert recs[0] in recs && (recs + tail)[0] == recs[0] && (recs + tail)[1..] == recs[1..] + tail;
    CollectAll([recs[0].head], recs[1..], tail);
    assert [recs[0].head] + HeadsOf(recs[1..]) == HeadsOf(recs);
  }

  lemma {:induction false} UnitSize(files: seq<SmallFile>)
    requires UnitOk(Shared(files))
    ensures |files| <= MAX_SMALLFILECOUNT && TotalSize(files) <= MAX_BLKSIZE
  {}

  /** The headers of a pack. */
  function PackHeads(c: Cfg, files: seq<SmallFile>): (heads: seq<ObjHead>)
    requires UnitOk(Shared(files))
    ensures |heads| == |files|
  {
    HeadsOf(PackedHeads(files, |files|, c.fsid))
  }

  /** A block that has none of the files: what it holds in their places, if anything, has other digests. */
  predicate Foreign(c: Cfg, files: seq<SmallFile>, data: bytes)
    requires UnitOk(Shared(files))
  {
    var heads := PackHeads(c, files);
    forall i :: 0 <= i < |files| && FileAt(heads, data, i).Some? ==>
      c.md5(FileAt(heads, data, i).value.data) != c.md5(files[i].data)
  }

  function CountIncluded(excluded: Path -> bool, files: seq<SmallFile>, n: nat): nat
    requires n <= |files|
  {
    if n == 0 then 0 else CountIncluded(excluded, files, n - 1) + if excluded(files[n - 1].head.path) then 0 else 1
  }

  /** Cut out of such a block, no file passes for restored: all but the excluded ones are counted as errors. */
  lemma {:induction false} WrongBlock(c: Cfg, excluded: Path -> bool, files: seq<SmallFile>, data: bytes,
                                      n: nat, w: World)
    requires UnitOk(Shared(files)) && DigestsOk(c, Shared(files)) && Foreign(c, files, data) && n <= |files|
    ensures var heads := PackHeads(c, files);
            var stats := RestoreSmalls(EnvOf(c, excluded), w.fs, w.stats, heads, data, n).1;
            var included := CountIncluded(excluded, files, n);
            && stats == w.stats.(fileErrors := stats.fileErrors) && stats.fileErrors >= w.stats.fileErrors + included
            && (TotalSize(files) <= |data| ==> stats.fileErrors == w.stats.fileErrors + included)
  {
    hide RestoreSmall, FileAt, UnitOk, Foreign, PackHeads, DigestsOk, TotalSize;
    if n > 0 {
      var env, heads := EnvOf(c, excluded), PackHeads(c, files);
      WrongBlock(c, excluded, files, data, n - 1, w);
      var (fs, stats) := RestoreSmalls(env, w.fs, w.stats, heads, data, n - 1);
      MisreadFile(c, excluded, files, data, n - 1, fs, stats);
      SmallsMore(env, w.fs, w.stats, heads, data, n);
    }
  }

  lemma {:induction false} SmallsMore(env: Env, fs: FS, stats: Stats, heads: seq<ObjHead>, data: bytes, n: nat)
    requires n > 0
    ensures var (fs1, stats1) := RestoreSmalls(env, fs, stats, heads, data, n - 1);
            RestoreSmalls(env, fs, stats, heads, data, n) == RestoreSmall(env, fs1, stats1, FileAt(heads, data, n - 1))
  {
    hide RestoreSmall, FileAt;
  }

  /** The place of file i in a block that is taken for the shared one. */
  lemma {:induction false} CutOut(c: Cfg, files: seq<SmallFile>, data: bytes, i: nat)
    requires UnitOk(Shared(files)) && DigestsOk(c, Shared(files)) && i < |files|
    ensures var file := FileAt(PackHeads(c, files), data, i);
            && (TotalSize(files) <= |data| ==> file.Some?)
            && (file.Some? ==>
                  file.value.head.path == files[i].head.path && file.value.head.md5 == Some(c.md5(files[i].data)))
  {
    OffsetsTile(files, i);
    SharedSize(files);
  }

  lemma {:induction false} MisreadFile(c: Cfg, excluded: Path -> bool, files: seq<SmallFile>, data: bytes,
                                       i: nat, fs: FS,
                                       stats: Stats)
    requires UnitOk(Shared(files)) && DigestsOk(c, Shared(files)) && Foreign(c, files, data) && i < |files|
    ensures var after := RestoreSmall(EnvOf(c, excluded), fs, stats, FileAt(PackHeads(c, files), data, i)).1;
            && (after == stats || after == FileErr(stats)) &&
               (!excluded(files[i].head.path) ==> after == FileErr(stats))
            && (excluded(files[i].head.path) && TotalSize(files) <= |data| ==> after == stats)
  {
    hide WithParents, Open, IsFile, SetContent, SetAttrs, UnitOk, DigestsOk, FileAt, PackHeads, TotalSize;
    CutOut(c, files, data, i);
  }

  // ---- files without a footer

  /** What a large file comes to whose footer is missing: another footer is compared with its contents, any
      other header makes it an error, and it is kept. */
  function Footless(env: Env, head: ObjHead, content: bytes, rest: seq<Rec>, w: World): World {
    if env.excluded(head.path) then w
    else if FooterTaken(rest) && rest[0].FileFoot? then
      if rest[0].md5 == env.md5(content) then Perform(w, PutFile(head.path, content, head.attrs))
      else Perform(w, DropFile(head.path))
    else World(Perform(w, PutFile(head.path, content, head.attrs)).fs, FileErr(w.stats))
  }

  /** A large file whose footer is lost - or was never written - keeps what is received and is counted as an
      error, unless a footer comes next. The record behind it is swallowed if and only if it is not a block:
      the object behind it is lost without being counted. */
  lemma {:induction false} FooterLost(c: Cfg, excluded: Path -> bool, head: ObjHead, content: bytes,
                                      r: seq<Option<bytes>>, rest: seq<Rec>, w: World)
    requires CfgOk(c) && UnitOk(Large(head, content)) && content != [] && Usable(EnvOf(c, excluded), w.fs, head.path)
    requires ReceivedOk(content, 0, c.blksize, r) && Whole(r).Some?
    ensures var env := EnvOf(c, excluded);
            var queue, w' := DamagedChunks(content, 0, c.blksize, c.fsid, r) + rest,
                             Footless(env, head, Whole(r).value, rest, w);
            var after := RestoreUnique(env, Ex(queue, w.fs, w.stats), head);
            && after == Ex(if FooterTaken(rest) then rest[1..] else rest, w'.fs, w'.stats)
            && (after.queue != rest <==> rest != [] && !rest[0].Blk?)
            && ReadObjects(env, Ex([Obj(head, c.fsid)] + queue, w.fs, w.stats)) == ReadObjects(env, after)
  {
    hide RestoreUnique, Footless, BlockLoop, DamagedChunks, Whole, ReceivedOk, Usable;
    var env := EnvOf(c, excluded);
    var queue := DamagedChunks(content, 0, c.blksize, c.fsid, r) + rest;
    LoopComplete(content, [], c.blksize, c.fsid, r, rest);
    assert [] + Whole(r).value == Whole(r).value;
    NoFooter(env, Ex(queue, w.fs, w.stats), head, Whole(r).value, rest);
    assert ([Obj(head, c.fsid)] + queue)[1..] == queue;
    assert FooterTaken(rest) ==> |rest[1..]| < |rest|;
  }

  /** A large file that has lost its footer and a block - or could not be read to its end when it was saved -
      is dropped, and swallows the header behind it if and only if at most one of its blocks arrives behind
      the first missing one. */
  lemma {:induction false} BlockAndFooterLost(c: Cfg, excluded: Path -> bool, head: ObjHead, content: bytes,
                                              r: seq<Option<bytes>>, rest: seq<Rec>, w: World)
    requires CfgOk(c) && UnitOk(Large(head, content)) && ReceivedOk(content, 0, c.blksize, r) && Whole(r).None?
    requires Usable(EnvOf(c, excluded), w.fs, head.path) && rest != [] && !rest[0].Blk?
    ensures var env, w' := EnvOf(c, excluded), Perform(w, LargeOp(EnvOf(c, excluded), head, content, None));
            var queue := [Obj(head, c.fsid)] + (DamagedChunks(content, 0, c.blksize, c.fsid, r) + rest);
            ReadObjects(env, Ex(queue, w.fs, w.stats)) ==
            ReadObjects(env, Ex(if BehindGap(r) <= 1 then rest[1..] else rest, w'.fs, w'.stats))
  {
    hide RestoreUnique, Perform, BlockLoop, DamagedChunks, Whole, ReceivedOk, Usable, BehindGap;
    NotEmpty(content, c.blksize, r);
    var env := EnvOf(c, excluded);
    var chunks := DamagedChunks(content, 0, c.blksize, c.fsid, r);
    var left := LoopBroken(content, [], c.blksize, c.fsid, r, rest);
    UniqueDropped(env, Ex(chunks + rest, w.fs, w.stats), head);
    assert LargeOp(env, head, content, None) == LargeOp(env, head, [], None);
    assert ([Obj(head, c.fsid)] + (chunks + rest))[1..] == chunks + rest;
    if left == [] {
      assert left + rest == rest;
    } else {
      var w' := Perform(w, LargeOp(env, head, content, None));
      SkipContents(env, left, rest, w'.fs, w'.stats);
    }
  }

  lemma {:induction false} NoFooter(env: Env, ex: Ex, head: ObjHead, content: bytes, rest: seq<Rec>)
    requires Usable(env, ex.fs, head.path) && head.size > 0
    requires BlockLoop(head.size, [], ex.queue) == Loop(true, content, rest)
    ensures var w' := Footless(env, head, content, rest, World(ex.fs, ex.stats));
            RestoreUnique(env, ex, head) == Ex(if FooterTaken(rest) then rest[1..] else rest, w'.fs, w'.stats)
  {
    hide Open, SetContent, SetAttrs, Unlink, IsFile, BlockLoop, FsOk, WithParents, Blocked;
    if !env.excluded(head.path) {
      FreeBelow(ex.fs, head.path);
      OpenNew(WithParents(ex.fs, head.path), head.path, content, head.attrs);
    }
  }

  /** The end marker can be lost that way too: then restoring runs to the end of the queue and fails. */
  lemma {:induction false} FooterLostAtEnd(c: Cfg, excluded: Path -> bool, head: ObjHead, content: bytes, w: World)
    requires CfgOk(c) && UnitOk(Large(head, content)) && content != [] && Usable(EnvOf(c, excluded), w.fs, head.path)
    ensures var env := EnvOf(c, excluded);
            var queue := [Obj(head, c.fsid)] + (Chunks(content, 0, c.blksize, c.fsid) + [Other(DATF, c.fsid)]);
            ReadObjects(env, Ex(queue, w.fs, w.stats)) ==
            if excluded(head.path) then Abort(w.fs, w.stats)
            else Abort(Perform(w, PutFile(head.path, content, head.attrs)).fs, FileErr(w.stats))
  {
    hide RestoreUnique, Perform, Chunks, Usable, DamagedChunks, ReceivedOk, Whole;
    var r := NoneMissing(content, 0, c.blksize, c.fsid);
    assert content[0..] == content;
    FooterLost(c, excluded, head, content, r, [Other(DATF, c.fsid)], w);
  }

  // ---- excluded files

  /** Restoring removes what stands at the path of an excluded large file, if and only if a block of the
      file in the archive is missing and it is not a directory that stands there. Nothing else changes. */
  lemma {:induction false} ExcludedRemoved(c: Cfg, excluded: Path -> bool, head: ObjHead, content: bytes,
                                           r: seq<Option<bytes>>,
                                           tail: seq<Rec>, w: World)
    requires CfgOk(c) && UnitOk(Large(head, content)) && ReceivedOk(content, 0, c.blksize, r) && excluded(head.path)
    ensures var env := EnvOf(c, excluded);
            var queue := [Obj(head, c.fsid)] + DamagedChunks(content, 0, c.blksize, c.fsid, r) +
              Footer(c, content) + tail;
            var fs := if Whole(r).Some? then w.fs else Unlink(w.fs, head.path);
            && ReadObjects(env, Ex(queue, w.fs, w.stats)) == ReadObjects(env, Ex(tail, fs, w.stats))
            && (head.path in w.fs.names && head.path !in fs.names <==>
                Whole(r).None? && head.path in w.fs.names && !IsDir(w.fs, head.path))
            && forall p :: p != head.path ==> (p in fs.names <==> p in w.fs.names)
  {
    hide BlockLoop, DamagedChunks, Whole, ReceivedOk;
    var env := EnvOf(c, excluded);
    var chunks, rest := DamagedChunks(content, 0, c.blksize, c.fsid, r), Footer(c, content) + tail;
    var queue := [Obj(head, c.fsid)] + chunks + Footer(c, content) + tail;
    assert queue[1..] == chunks + rest && queue[0] == Obj(head, c.fsid);
    if Whole(r).Some? {
      LoopComplete(content, [], c.blksize, c.fsid, r, rest);
      assert if content == [] then rest == tail else rest[1..] == tail;
    } else {
      NotEmpty(content, c.blksize, r);
      FooterOf(c, content);
      hide Footer, Unlink, RestoreUnique;
      var blocks := LoopBroken(content, [], c.blksize, c.fsid, r, rest);
      ExcludedBroken(env, Ex(chunks + rest, w.fs, w.stats), head);
      if blocks == [] {
        assert blocks + rest == rest && rest[1..] == tail;
      } else {
        var left := blocks + Footer(c, content);
        assert blocks + rest == left + tail;
        SkipContents(env, left, tail, Unlink(w.fs, head.path), w.stats);
      }
    }
    ElseKept(w.fs, head.path);
  }

  lemma {:induction false} ExcludedBroken(env: Env, ex: Ex, head: ObjHead)
    requires env.excluded(head.path) && !BlockLoop(head.size, [], ex.queue).ok
    ensures var rest := BlockLoop(head.size, [], ex.queue).rest;
            RestoreUnique(env, ex, head) ==
            Ex(if head.size > 0 && FooterTaken(rest) then rest[1..] else rest, Unlink(ex.fs, head.path), ex.stats)
  {
    hide BlockLoop, Unlink;
  }

  /** What removing a name does to the names. */
  lemma {:induction false} ElseKept(fs: FS, path: Path)
    ensures var after := Unlink(fs, path);
            && (path in fs.names && path !in after.names <==> path in fs.names && !IsDir(fs, path))
            && forall p :: p != path ==> (p in after.names <==> p in fs.names)
  {}

  lemma {:induction false} NotEmpty(content: bytes, blksize: nat, r: seq<Option<bytes>>)
    requires blksize > 0 && ReceivedOk(content, 0, blksize, r) && Whole(r).None?
    ensures content != []
  {}
}
