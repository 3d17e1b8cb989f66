/** Restoring objects from the queue (src/oper_restore.c). Nothing fails but what the archive makes
    fail: writing succeeds, and so does setting attributes. */
module OperRestore {
  import opened Bytes
  import opened ArchiveItems
  import opened Records
  import opened FileSystem
  import opened RegMulti
  import DataFile

  /** The filesystem to restore, the digest, and the paths that are excluded by themselves or by a parent. */
  datatype Env = Env(fsid: u16, md5: bytes -> bytes, excluded: Path -> bool)

  datatype Stats = Stats(files: nat, fileErrors: nat, links: nat, linkErrors: nat, others: nat,
                         otherErrors: nat, errors: nat)

  const NoStats := Stats(0, 0, 0, 0, 0, 0, 0)

  /** What is still to come out of the queue, and what has been restored. */
  datatype Ex = Ex(queue: seq<Rec>, fs: FS, stats: Stats)

  datatype Outcome = Continue(ex: Ex) | Abort(fs: FS, stats: Stats)

  function FileOk(s: Stats): Stats { s.(files := s.files + 1) }
  function FileErr(s: Stats): Stats { s.(fileErrors := s.fileErrors + 1) }

  // ---- large files

  datatype Loop = Loop(ok: bool, content: bytes, rest: seq<Rec>)

  /** Blocks are taken while they continue the file; a block at another offset is lost, a header is not. */
  function BlockLoop(size: nat, acc: bytes, queue: seq<Rec>): (r: Loop)
    ensures |r.rest| <= |queue|
    decreases |queue|
  {
    if |acc| >= size then Loop(true, acc, queue)
    else if queue == [] || !queue[0].Blk? then Loop(false, acc, queue)
    else if queue[0].offset != |acc| then Loop(false, acc, queue[1..])
    else BlockLoop(size, acc + queue[0].data, queue[1..])
  }

  /** Whatever header comes next is taken for the footer. */
  function FooterTaken(queue: seq<Rec>): bool {
    queue != [] && !queue[0].Blk?
  }

  function RestoreUnique(env: Env, ex: Ex, head: ObjHead): (r: Ex)
    ensures |r.queue| <= |ex.queue|
  {
    var excluded := env.excluded(head.path);
    var base := if excluded then ex.fs else WithParents(ex.fs, head.path);
    var into := if excluded then Some(base) else Open(base, head.path);
    var loop := if into.Some? then BlockLoop(head.size, [], ex.queue) else Loop(false, [], ex.queue);
    var written := if into.None? then base else if excluded || !IsFile(into.value, head.path) then into.value
                   else SetContent(into.value, head.path, loop.content);
    var fs := if loop.ok && !excluded then SetAttrs(written, head.path, head.attrs) else written;
    var taken := head.size > 0 && FooterTaken(loop.rest);
    var rest := if taken then loop.rest[1..] else loop.rest;
    var footer := taken && loop.rest[0].FileFoot?;
    var corrupt := footer && loop.ok && !excluded && loop.rest[0].md5 != env.md5(loop.content);
    var good := loop.ok && (head.size == 0 || (taken && (excluded || (footer && !corrupt))));
    var del := corrupt || (into.Some? && !loop.ok);
    Ex(rest, if del then Unlink(fs, head.path) else fs,
       if excluded then ex.stats else if good then FileOk(ex.stats) else FileErr(ex.stats))
  }

  // ---- small files

  datatype Heads = Heads(heads: seq<ObjHead>, rest: seq<Rec>)

  function CollectHeads(count: nat, heads: seq<ObjHead>, queue: seq<Rec>): (r: Option<Heads>)
    ensures r.Some? ==> |r.value.rest| <= |queue|
    decreases |queue|
  {
    if |heads| >= count then Some(Heads(heads, queue))
    else if queue == [] || !queue[0].Obj? || |heads| >= MAX_SMALLFILECOUNT then None
    else CollectHeads(count, heads + [queue[0].head], queue[1..])
  }

  function RestoreSmall(env: Env, fs: FS, stats: Stats, file: Option<SmallFile>): (FS, Stats) {
    if file.None? then (fs, FileErr(stats))
    else
      var SmallFile(head, data) := file.value;
      var base := WithParents(fs, head.path);
      if env.excluded(head.path) then (fs, stats)
      else if head.md5.None? then (base, FileErr(stats))
      else
        var into := Open(base, head.path);
        if into.None? || !IsFile(into.value, head.path) then (base, FileErr(stats))
        else if env.md5(data) != head.md5.value then (SetContent(into.value, head.path, []), FileErr(stats))
        else (SetAttrs(SetContent(into.value, head.path, data), head.path, head.attrs), FileOk(stats))
  }

  /** The first n files behind the headers and their shared block. */
  function RestoreSmalls(env: Env, fs: FS, stats: Stats, heads: seq<ObjHead>, data: bytes, n: nat): (FS, Stats) {
    if n == 0 then (fs, stats)
    else
      var (fs1, stats1) := RestoreSmalls(env, fs, stats, heads, data, n - 1);
      RestoreSmall(env, fs1, stats1, FileAt(heads, data, n - 1))
  }

  function RestoreMulti(env: Env, ex: Ex, head: ObjHead): (r: Outcome)
    ensures r.Continue? ==> |r.ex.queue| <= |ex.queue|
  {
    var abort := Abort(ex.fs, ex.stats);
    if head.multiCount.None? then abort
    else
      match CollectHeads(head.multiCount.value, [head], ex.queue)
      case None => abort
      case Some(Heads(heads, rest)) =>
        if rest == [] || !rest[0].Blk? || |rest[0].data| > MAX_BLKSIZE then abort
        else
          var (fs, stats) := RestoreSmalls(env, ex.fs, ex.stats, heads, rest[0].data, head.multiCount.value);
          Continue(Ex(rest[1..], fs, stats))
  }

  // ---- the others

  function RestoreLink(env: Env, ex: Ex, head: ObjHead): Ex {
    var base := if env.excluded(head.path) then ex.fs else WithParents(ex.fs, head.path);
    var linked := if env.excluded(head.path) || head.link.None? then None else Link(base, head.link.value, head.path);
    match linked
    case None => Ex(ex.queue, base, ex.stats.(linkErrors := ex.stats.linkErrors + 1))
    case Some(fs) => Ex(ex.queue, SetAttrs(fs, head.path, head.attrs), ex.stats.(links := ex.stats.links + 1))
  }

  function RestoreOther(env: Env, ex: Ex, head: ObjHead): Ex {
    var base := if env.excluded(head.path) then ex.fs else WithParents(ex.fs, head.path);
    var made := if env.excluded(head.path) then None else Make(base, head.path, head.objtype);
    match made
    case None => Ex(ex.queue, base, ex.stats.(otherErrors := ex.stats.otherErrors + 1))
    case Some(fs) => Ex(ex.queue, SetAttrs(fs, head.path, head.attrs), ex.stats.(others := ex.stats.others + 1))
  }

  function Restored(env: Env, ex: Ex, head: ObjHead): (r: Outcome)
    ensures r.Continue? ==> |r.ex.queue| <= |ex.queue|
  {
    match head.objtype
    case REGFILEUNIQUE => Continue(RestoreUnique(env, ex, head))
    case REGFILEMULTI => RestoreMulti(env, ex, head)
    case HARDLINK => Continue(RestoreLink(env, ex, head))
    case _ => Continue(RestoreOther(env, ex, head))
  }

  /** Everything up to the end marker; what is neither an object header nor the marker is skipped. */
  function ReadObjects(env: Env, ex: Ex): (r: Outcome)
    decreases |ex.queue|
  {
    if ex.queue == [] then Abort(ex.fs, ex.stats)
    else
      match ex.queue[0]
      case Other(DATF, _) => Continue(ex)
      case Obj(head, fsid) =>
        var after := ex.(queue := ex.queue[1..]);
        if fsid != env.fsid then ReadObjects(env, after.(stats := after.stats.(errors := after.stats.errors + 1)))
        else
          var r := Restored(env, after, head);
          if r.Abort? then r else ReadObjects(env, r.ex)
      case _ => ReadObjects(env, ex.(queue := ex.queue[1..]))
  }

  // ---- the machine

  class Restorer {
    const env: Env
    var queue: seq<Rec>
    var fs: FS
    var stats: Stats

    constructor (env: Env, queue: seq<Rec>, fs: FS)
      ensures this.env == env && Now() == Ex(queue, fs, NoStats)
    {
      this.env, this.queue, this.fs, this.stats := env, queue, fs, NoStats;
    }

    ghost function Now(): Ex
      reads this
    {
      Ex(queue, fs, stats)
    }

    ghost predicate Reached(r: Outcome, ok: bool)
      reads this
    {
      if ok then r == Continue(Now()) else r == Abort(fs, stats)
    }

    method DequeueBlock() returns (r: Option<Rec>)
      modifies this`queue
      ensures r == if old(queue) != [] && old(queue)[0].Blk? then Some(old(queue)[0]) else None
      ensures queue == if r.Some? then old(queue)[1..] else old(queue)
    {
      if queue == [] || !queue[0].Blk? {
        return None;
      }
      r := Some(queue[0]);
      queue := queue[1..];
    }

    method DequeueHeader() returns (r: Option<Rec>)
      modifies this`queue
      ensures r == if FooterTaken(old(queue)) then Some(old(queue)[0]) else None
      ensures queue == if r.Some? then old(queue)[1..] else old(queue)
    {
      if queue == [] || queue[0].Blk? {
        return None;
      }
      r := Some(queue[0]);
      queue := queue[1..];
    }

    /** A large or empty file, with its blocks and its footer. */
    method RestoreObjRegfileUnique(head: ObjHead)
      modifies this
      ensures Now() == RestoreUnique(env, old(Now()), head)
    {
      var minorerr, delfile := false, false;
      var excluded := env.excluded(head.path);
      var datafile := new DataFile.DataFile();
      if !excluded {
        fs := MkdirRecursive(fs, head.path);
        var into := Open(fs, head.path);
        if into.None? {
          minorerr := true;
        } else {
          fs := into.value;
        }
      }
      ghost var into := !minorerr;
      if !minorerr {
        minorerr, delfile := ReceiveBlocks(datafile, head, excluded);
        // closed here, or when the file object is destroyed
        var closed := datafile.Close();
        if !excluded && IsFile(fs, head.path) {
          fs := SetContent(fs, head.path, datafile.file.contents);
        }
      }
      if !minorerr && !excluded {
        fs := SetAttrs(fs, head.path, head.attrs);
      }
      if head.size > 0 {
        var footer := DequeueHeader();
        if footer.None? {
          minorerr := true;
        } else if !excluded {
          if !footer.value.FileFoot? {
            minorerr := true;
          } else if !minorerr && footer.value.md5 != env.md5(datafile.fed) {
            delfile, minorerr := true, true;
          }
        }
      }
      if delfile {
        fs := Unlink(fs, head.path);
      }
      if !excluded {
        stats := if minorerr then FileErr(stats) else FileOk(stats);
      }
    }

    method ReceiveBlocks(datafile: DataFile.DataFile, head: ObjHead, excluded: bool)
      returns (minorerr: bool, delfile: bool)
      requires !datafile.open
      modifies this`queue, datafile
      ensures datafile.Valid() && datafile.open && datafile.simul == excluded
      ensures BlockLoop(head.size, [], old(queue)) == Loop(!minorerr, datafile.fed, queue)
      ensures delfile == minorerr
    {
      var o := datafile.OpenWrite(excluded, head.sparse);
      minorerr := false;
      var filepos := 0;
      while !minorerr && head.size > 0 && filepos < head.size
        invariant datafile.Valid() && datafile.open && datafile.simul == excluded && filepos == |datafile.fed|
        invariant BlockLoop(head.size, [], old(queue)) ==
                  if minorerr then Loop(false, datafile.fed, queue) else BlockLoop(head.size, datafile.fed, queue)
        decreases |queue|, !minorerr
      {
        var b := DequeueBlock();
        if b.None? || b.value.offset != filepos {
          minorerr := true;
        } else {
          var written := datafile.Write(b.value.data);
          filepos := filepos + |b.value.data|;
        }
      }
      delfile := minorerr;
    }

    /** All headers of the group, their block, and then file by file. */
    method RestoreObjRegfileMulti(head: ObjHead) returns (ok: bool)
      modifies this
      ensures Reached(RestoreMulti(env, old(Now()), head), ok)
    {
      hide RestoreSmall, FileAt, Open, SetAttrs;
      if head.multiCount.None? {
        return false;
      }
      var filescount := head.multiCount.value;
      var regmulti := new RegMulti(MAX_BLKSIZE);
      ok := regmulti.RestAddHeader(head);
      assert regmulti.heads == [head];
      var i := 1;
      while i < filescount
        invariant regmulti.Valid() && regmulti.usedsize == 0 && fresh(regmulti) && fresh(regmulti.objhead) &&
                  fresh(regmulti.data)
        invariant |regmulti.heads| == i && fs == old(fs) && stats == old(stats)
        invariant CollectHeads(filescount, [head], old(queue)) == CollectHeads(filescount, regmulti.heads, queue)
      {
        var h := DequeueHeader();
        if h.None? || !h.value.Obj? {
          return false;
        }
        ok := regmulti.RestAddHeader(h.value.head);
        if !ok {
          return false;
        }
        i := i + 1;
      }
      var b := DequeueBlock();
      if b.None? {
        return false;
      }
      ok := regmulti.RestSetDataBlock(b.value.data);
      if !ok {
        return false;
      }
      ghost var heads, start := regmulti.heads, queue;
      for j := 0 to filescount
        invariant regmulti.Valid() && regmulti.heads == heads && regmulti.data[..regmulti.usedsize] == b.value.data
        invariant (fs, stats) == RestoreSmalls(env, old(fs), old(stats), heads, b.value.data, j)
        invariant queue == start
      {
        var file := regmulti.RestGetFile(j);
        RestoreSmallFile(file);
      }
    }

    method RestoreSmallFile(file: Option<SmallFile>)
      modifies this`fs, this`stats
      ensures (fs, stats) == RestoreSmall(env, old(fs), old(stats), file)
    {
      if file.None? {
        stats := FileErr(stats);
        return;
      }
      var SmallFile(head, databuf) := file.value;
      if env.excluded(head.path) {
        return;
      }
      fs := MkdirRecursive(fs, head.path);
      var into := if head.md5.Some? then Open(fs, head.path) else None;
      if into.None? || !IsFile(into.value, head.path) {
        stats := FileErr(stats);
        return;
      }
      var datafile := new DataFile.DataFile();
      var o := datafile.OpenWrite(false, false);
      o := datafile.Write(databuf);
      o := datafile.Close();
      assert [] + databuf == databuf;
      fs := SetContent(into.value, head.path, datafile.file.contents);
      if env.md5(datafile.fed) != head.md5.value {
        fs := SetContent(fs, head.path, []);
        assert fs == SetContent(into.value, head.path, []);
        stats := FileErr(stats);
        return;
      }
      fs := SetAttrs(fs, head.path, head.attrs);
      stats := FileOk(stats);
    }

    method RestoreObjHardlink(head: ObjHead)
      modifies this`fs, this`stats
      ensures Now() == RestoreLink(env, old(Now()), head)
    {
      if !env.excluded(head.path) {
        fs := MkdirRecursive(fs, head.path);
        var linked := if head.link.Some? then Link(fs, head.link.value, head.path) else None;
        if linked.Some? {
          fs := SetAttrs(linked.value, head.path, head.attrs);
          stats := stats.(links := stats.links + 1);
          return;
        }
      }
      stats := stats.(linkErrors := stats.linkErrors + 1);
    }

    /** Directories, symbolic links, devices, pipes and sockets. */
    method RestoreObjOther(head: ObjHead)
      modifies this`fs, this`stats
      ensures Now() == RestoreOther(env, old(Now()), head)
    {
      if !env.excluded(head.path) {
        fs := MkdirRecursive(fs, head.path);
        var made := Make(fs, head.path, head.objtype);
        if made.Some? {
          fs := SetAttrs(made.value, head.path, head.attrs);
          stats := stats.(others := stats.others + 1);
          return;
        }
      }
      stats := stats.(otherErrors := stats.otherErrors + 1);
    }

    method RestoreObject(head: ObjHead) returns (ok: bool)
      modifies this
      ensures Reached(Restored(env, old(Now()), head), ok)
    {
      hide RestoreUnique, RestoreMulti, RestoreLink, RestoreOther;
      ok := true;
      if head.objtype == REGFILEUNIQUE {
        RestoreObjRegfileUnique(head);
      } else if head.objtype == REGFILEMULTI {
        ok := RestoreObjRegfileMulti(head);
      } else if head.objtype == HARDLINK {
        RestoreObjHardlink(head);
      } else {
        RestoreObjOther(head);
      }
    }

    method ExtractReadObjects() returns (ok: bool)
      modifies this
      ensures Reached(ReadObjects(env, old(Now())), ok)
    {
      hide Restored;
      while true
        invariant ReadObjects(env, old(Now())) == ReadObjects(env, Now())
        decreases |queue|
      {
        if queue == [] {
          return false;
        }
        var next := queue[0];
        if next.Other? && next.magic == DATF {
          return true;
        }
        queue := queue[1..];
        if next.Obj? {
          if next.fsid == env.fsid {
            ok := RestoreObject(next.head);
            if !ok {
              return false;
            }
          } else {
            stats := stats.(errors := stats.errors + 1);
          }
        }
      }
    }
  }
}
