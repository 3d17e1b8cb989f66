/** Restoring to a destination that is not empty: what stands there already, under the same path or another. */
module Overwrite {
  import opened Bytes
  import opened ArchiveItems
  import opened Records
  import opened FileSystem
  import opened RegMulti
  import opened OperSave
  import opened OperRestore
  import opened Damage

  /** Where a regular file can be written: the path is free or a regular file, and above it there are only
      directories, as far as there is anything. */
  predicate Writable(fs: FS, path: Path) {
    FsOk(fs) && !Blocked(fs, path) && (path in fs.names ==> IsFile(fs, path))
  }

  /** All names but one are as they were, and their inodes too unless they share that of the one; the
      directories above it are new where there were none. */
  ghost predicate OthersKept(fs: FS, path: Path, after: FS) {
    && (forall p :: p in fs.names && p != path ==> p in after.names && after.names[p] == fs.names[p])
    && (forall p :: p in after.names && p !in fs.names && p != path ==>
          Ancestor(p, path) && after.names[p] == OtherNode(DIR, []))
    && (forall p :: IsFile(fs, p) && p != path && (path in fs.names ==> fs.names[p] != fs.names[path]) ==>
          IsFile(after, p) && InodeOf(after, p) == InodeOf(fs, p))
  }

  /** The file stands there, under an inode of its own or the one that was there, and all else is as it was. */
  ghost predicate Written(fs: FS, path: Path, content: bytes, attrs: Attrs, after: FS) {
    && IsFile(after, path) && InodeOf(after, path) == Inode(content, attrs)
    && (path in fs.names ==> after.names[path] == fs.names[path])
    && OthersKept(fs, path, after)
  }

  /** The name is gone, and all else is as it was. */
  ghost predicate Removed(fs: FS, path: Path, after: FS) {
    path !in after.names && OthersKept(fs, path, after)
  }

  // ---- the calls

  lemma {:induction false} ParentsKeep(fs: FS, path: Path)
    requires Writable(fs, path)
    ensures Writable(WithParents(fs, path), path) && OthersKept(fs, path, WithParents(fs, path))
    ensures path in fs.names <==> path in WithParents(fs, path).names
    ensures path in fs.names ==> WithParents(fs, path).names[path] == fs.names[path]
  {
    hide WithParents, Blocked;
    ParentsMade(fs, path);
  }

  /** Writing all of a file, with or without one that is there. */
  lemma {:induction false} WriteOver(fs: FS, path: Path, content: bytes, attrs: Attrs)
    requires Writable(fs, path)
    ensures Open(fs, path).Some? && IsFile(Open(fs, path).value, path)
    ensures var put := SetContent(Open(fs, path).value, path, content);
            && IsFile(put, path) && InodeOf(put, path).content == content
            && Written(fs, path, content, attrs, SetAttrs(put, path, attrs))
  {
    hide Blocked;
  }

  /** Whatever was written, without its name. */
  lemma {:induction false} WriteAndUnlink(fs: FS, path: Path, content: bytes, attrs: Attrs)
    requires Writable(fs, path)
    ensures var put := SetContent(Open(fs, path).value, path, content);
            && Removed(fs, path, Unlink(put, path))
            && Removed(fs, path, Unlink(SetAttrs(put, path, attrs), path))
  {
    hide Blocked, Unlink, Removed, Ancestor;
    var put := SetContent(Open(fs, path).value, path, content);
    UnlinkKeeps(fs, path, put);
    UnlinkKeeps(fs, path, SetAttrs(put, path, attrs));
  }

  lemma {:induction false} UnlinkKeeps(fs: FS, path: Path, put: FS)
    requires IsFile(put, path) && OthersKept(fs, path, put)
    requires path in fs.names ==> put.names[path] == fs.names[path]
    requires path !in fs.names ==> forall p :: p in fs.names ==> fs.names[p] != put.names[path]
    ensures Removed(fs, path, Unlink(put, path))
  {
    var after := Unlink(put, path);
    forall p | IsFile(fs, p) && p != path && (path in fs.names ==> fs.names[p] != fs.names[path])
      ensures IsFile(after, p) && InodeOf(after, p) == InodeOf(fs, p)
    {
      assert IsFile(put, p) && put.names[p] != put.names[path];
    }
  }

  lemma {:induction false} KeptTwice(fs: FS, path: Path, base: FS, after: FS)
    requires OthersKept(fs, path, base) && OthersKept(base, path, after)
    requires path in base.names <==> path in fs.names
    requires path in fs.names ==> base.names[path] == fs.names[path]
    ensures OthersKept(fs, path, after)
  {
    hide Ancestor;
  }

  /** An inode goes with its last name, and stays as long as it has another. */
  lemma {:induction false} LastName(fs: FS, path: Path)
    requires IsFile(fs, path)
    ensures var after, ino := Unlink(fs, path), fs.names[path].ino;
            && path !in after.names && |after.inodes| == |fs.inodes|
            && ((exists p :: p in fs.names && p != path && fs.names[p] == fs.names[path]) ==>
                  after.inodes[ino] == fs.inodes[ino])
            && (!(exists p :: p in fs.names && p != path && fs.names[p] == fs.names[path]) ==>
                after.inodes[ino] == Freed)
            && forall i :: 0 <= i < |fs.inodes| && i != ino ==> after.inodes[i] == fs.inodes[i]
  {
    var names := fs.names - {path};
    assert fs.names[path] in names.Values <==> exists p :: p in names && names[p] == fs.names[path];
    if p :| p in fs.names && p != path && fs.names[p] == fs.names[path] {
      assert p in names && names[p] == fs.names[path];
    }
  }

  // ---- large files

  /** A large file of which all blocks arrive, with the right digest, stands there afterwards with what was saved,
      in place of whatever file was there; it is counted once as restored, and nothing else has changed. */
  lemma {:induction false} LargeOver(c: Cfg, excluded: Path -> bool, head: ObjHead, content: bytes,
                                     tail: seq<Rec>, w: World)
    returns (fs: FS)
    requires CfgOk(c) && UnitOk(Large(head, content)) && !excluded(head.path) && Writable(w.fs, head.path)
    ensures var env := EnvOf(c, excluded);
            ReadObjects(env, Ex(EmitUnit(c, Large(head, content)) + tail, w.fs, w.stats)) ==
            ReadObjects(env, Ex(tail, fs, w.stats.(files := w.stats.files + 1)))
    ensures Written(w.fs, head.path, content, head.attrs, fs)
  {
    hide RestoreUnique, BlockLoop, Written, Writable, EmitUnit;
    var env := EnvOf(c, excluded);
    var queue, rest := LargeQueue(c, head, content, tail);
    var ex := Ex(queue[1..], w.fs, w.stats);
    fs := RestoreUnique(env, ex, head).fs;
    UniqueOver(env, ex, head, content, rest);
  }

  /** What the block loop makes of an unaltered file. */
  lemma {:induction false} LargeQueue(c: Cfg, head: ObjHead, content: bytes, tail: seq<Rec>)
    returns (queue: seq<Rec>, rest: seq<Rec>)
    requires CfgOk(c) && UnitOk(Large(head, content))
    ensures queue == EmitUnit(c, Large(head, content)) + tail && queue != [] && queue[0] == Obj(head, c.fsid)
    ensures BlockLoop(head.size, [], queue[1..]) == Loop(true, content, rest)
    ensures content == [] ==> rest == tail
    ensures content != [] ==> rest != [] && rest[1..] == tail && rest[0] == FileFoot(c.md5(content), c.fsid)
  {
    hide BlockLoop, Chunks, DamagedChunks, Whole, ReceivedOk;
    var r := NoneMissing(content, 0, c.blksize, c.fsid);
    queue, rest := EmitUnit(c, Large(head, content)) + tail, Footer(c, content) + tail;
    LoopComplete(content, [], c.blksize, c.fsid, r, rest);
    assert content[0..] == content && [] + content == content;
    assert queue[1..] == Chunks(content, 0, c.blksize, c.fsid) + rest;
  }

  /** The same for a loop that has ended well, whatever comes next. */
  lemma {:induction false} UniqueOver(env: Env, ex: Ex, head: ObjHead, content: bytes, rest: seq<Rec>)
    requires !env.excluded(head.path) && Writable(ex.fs, head.path)
    requires BlockLoop(head.size, [], ex.queue) == Loop(true, content, rest)
    ensures var r := RestoreUnique(env, ex, head);
            var footer := rest != [] && rest[0].FileFoot?;
            && (head.size == 0 ==>
                  Written(ex.fs, head.path, content, head.attrs, r.fs) && r.queue == rest &&
                  r.stats == ex.stats.(files := ex.stats.files + 1))
            && (head.size > 0 && footer && rest[0].md5 == env.md5(content) ==>
                  Written(ex.fs, head.path, content, head.attrs, r.fs) && r.queue == rest[1..] &&
                  r.stats == ex.stats.(files := ex.stats.files + 1))
            && (head.size > 0 && footer && rest[0].md5 != env.md5(content) ==>
                  Removed(ex.fs, head.path, r.fs) && r.queue == rest[1..] &&
                  r.stats == ex.stats.(fileErrors := ex.stats.fileErrors + 1))
  {
    hide Open, SetContent, SetAttrs, Unlink, IsFile, BlockLoop, WithParents, Writable, OthersKept;
    var base := WithParents(ex.fs, head.path);
    ParentsKeep(ex.fs, head.path);
    WriteOver(base, head.path, content, head.attrs);
    WriteAndUnlink(base, head.path, content, head.attrs);
    var put := SetContent(Open(base, head.path).value, head.path, content);
    KeptTwice(ex.fs, head.path, base, SetAttrs(put, head.path, head.attrs));
    KeptTwice(ex.fs, head.path, base, Unlink(SetAttrs(put, head.path, head.attrs), head.path));
  }

  /** A large file of which a block is missing is not there afterwards, even if a file was there before. */
  lemma {:induction false} BrokenOver(env: Env, ex: Ex, head: ObjHead)
    requires !env.excluded(head.path) && Writable(ex.fs, head.path) && !BlockLoop(head.size, [], ex.queue).ok
    ensures var r, rest := RestoreUnique(env, ex, head), BlockLoop(head.size, [], ex.queue).rest;
            && Removed(ex.fs, head.path, r.fs) && r.stats == ex.stats.(fileErrors := ex.stats.fileErrors + 1)
            && r.queue == if rest != [] && !rest[0].Blk? then rest[1..] else rest
  {
    hide Open, SetContent, SetAttrs, Unlink, IsFile, WithParents, Writable, OthersKept;
    LoopNeeds(head.size, ex.queue);
    hide BlockLoop;
    var base := WithParents(ex.fs, head.path);
    var content := BlockLoop(head.size, [], ex.queue).content;
    ParentsKeep(ex.fs, head.path);
    WriteOver(base, head.path, content, head.attrs);
    WriteAndUnlink(base, head.path, content, head.attrs);
    KeptTwice(ex.fs, head.path, base, Unlink(SetContent(Open(base, head.path).value, head.path, content), head.path));
  }

  lemma {:induction false} LoopNeeds(size: nat, queue: seq<Rec>)
    ensures !BlockLoop(size, [], queue).ok ==> size > 0
  {}

  // ---- packed files

  /** A packed file with the right digest stands there afterwards, in place of whatever file was there; with a wrong
      one it is empty. */
  lemma {:induction false} SmallOver(env: Env, fs: FS, stats: Stats, head: ObjHead, data: bytes)
    requires !env.excluded(head.path) && Writable(fs, head.path) && head.md5.Some?
    ensures var (after, now) := RestoreSmall(env, fs, stats, Some(SmallFile(head, data)));
            && (head.md5.value == env.md5(data) ==>
                  Written(fs, head.path, data, head.attrs, after) && now == stats.(files := stats.files + 1))
            && (head.md5.value != env.md5(data) ==>
                  IsFile(after, head.path) && InodeOf(after, head.path).content == [] &&
                  OthersKept(fs, head.path, after) && now == stats.(fileErrors := stats.fileErrors + 1))
  {
    hide Open, SetContent, SetAttrs, IsFile, WithParents, Writable, OthersKept;
    var base := WithParents(fs, head.path);
    ParentsKeep(fs, head.path);
    WriteOver(base, head.path, data, head.attrs);
    EmptyOver(base, head.path);
    var put := SetContent(Open(base, head.path).value, head.path, data);
    KeptTwice(fs, head.path, base, SetAttrs(put, head.path, head.attrs));
    KeptTwice(fs, head.path, base, SetContent(Open(base, head.path).value, head.path, []));
  }

  lemma {:induction false} EmptyOver(fs: FS, path: Path)
    requires Writable(fs, path)
    ensures Open(fs, path).Some? && IsFile(Open(fs, path).value, path)
    ensures var put := SetContent(Open(fs, path).value, path, []);
            IsFile(put, path) && InodeOf(put, path).content == [] && OthersKept(fs, path, put)
  {
    hide Blocked;
  }

  // ---- the others

  /** A hard link is made if and only if it is not excluded, its path is free, and what it names is there and no
      directory; then it is a name of the same inode, with the attributes of the link. */
  lemma {:induction false} LinkOver(env: Env, ex: Ex, head: ObjHead)
    requires FsOk(ex.fs) && !Blocked(ex.fs, head.path) && head.link.Some?
    ensures var r, target := RestoreLink(env, ex, head), head.link.value;
            && r.queue == ex.queue
            && (if !env.excluded(head.path) && head.path !in ex.fs.names && IsFile(ex.fs, target) then
                  && head.path in r.fs.names && r.fs.names[head.path] == ex.fs.names[target]
                  && IsFile(r.fs, head.path)
                  && InodeOf(r.fs, head.path) == Inode(InodeOf(ex.fs, target).content, head.attrs)
                  && r.stats == ex.stats.(links := ex.stats.links + 1)
                else
                  env.excluded(head.path) || head.path in ex.fs.names || target !in ex.fs.names ||
                    IsDir(ex.fs, target) ==>
                    r.stats == ex.stats.(linkErrors := ex.stats.linkErrors + 1) &&
                    (head.path !in ex.fs.names ==> head.path !in r.fs.names))
            && forall p :: p in ex.fs.names ==> p in r.fs.names && r.fs.names[p] == ex.fs.names[p]
  {
    hide WithParents, Blocked, FsOk;
    ParentsMade(ex.fs, head.path);
    var target := head.link.value;
    assert target in WithParents(ex.fs, head.path).names && target !in ex.fs.names ==>
             IsDir(WithParents(ex.fs, head.path), target);
  }

  /** A directory may be there already and then takes the attributes; anything else is made if and only if its path
      is free. */
  lemma {:induction false} OtherOver(env: Env, ex: Ex, head: ObjHead)
    requires FsOk(ex.fs) && !Blocked(ex.fs, head.path)
    ensures var r := RestoreOther(env, ex, head);
            && r.queue == ex.queue
            && (if !env.excluded(head.path) && (head.path !in ex.fs.names || head.objtype == DIR) then
                  && head.path in r.fs.names && r.stats == ex.stats.(others := ex.stats.others + 1)
                  && (head.path !in ex.fs.names ==> r.fs.names[head.path] == OtherNode(head.objtype, head.attrs))
                  && (IsDir(ex.fs, head.path) ==> r.fs.names[head.path] == OtherNode(DIR, head.attrs))
                else
                  r.stats == ex.stats.(otherErrors := ex.stats.otherErrors + 1) &&
                  (head.path in ex.fs.names ==>
                    head.path in r.fs.names && r.fs.names[head.path] == ex.fs.names[head.path]) &&
                  (head.path !in ex.fs.names ==> head.path !in r.fs.names))
            && forall p :: p in ex.fs.names && p != head.path ==> p in r.fs.names && r.fs.names[p] == ex.fs.names[p]
  {
    hide WithParents, Blocked, FsOk;
    ParentsMade(ex.fs, head.path);
  }

  // ---- where nothing can be put

  lemma {:induction false} StillBlocked(fs: FS, path: Path)
    requires Blocked(fs, path)
    ensures Blocked(WithParents(fs, path), path)
  {
    hide WithParents;
    ParentsMade(fs, path);
    var k :| 0 < k < |path| && path[k] == SLASH && path[..k] in fs.names && !IsDir(fs, path[..k]);
    assert path[..k] in WithParents(fs, path).names && !IsDir(WithParents(fs, path), path[..k]);
  }

  /** Where something else than a directory is above the path, nothing is restored there, each try is an error, and
      what is there stays. */
  lemma {:induction false} NothingUnderFiles(env: Env, ex: Ex, head: ObjHead, data: bytes)
    requires Blocked(ex.fs, head.path) && !env.excluded(head.path)
    ensures RestoreUnique(env, ex, head).stats == ex.stats.(fileErrors := ex.stats.fileErrors + 1)
    ensures RestoreSmall(env, ex.fs, ex.stats, Some(SmallFile(head, data))).1 ==
            ex.stats.(fileErrors := ex.stats.fileErrors + 1)
    ensures RestoreLink(env, ex, head).stats == ex.stats.(linkErrors := ex.stats.linkErrors + 1)
    ensures RestoreOther(env, ex, head).stats == ex.stats.(otherErrors := ex.stats.otherErrors + 1)
    ensures forall p :: p in ex.fs.names ==>
              && p in RestoreUnique(env, ex, head).fs.names &&
                 RestoreUnique(env, ex, head).fs.names[p] == ex.fs.names[p]
              && p in RestoreLink(env, ex, head).fs.names && RestoreLink(env, ex, head).fs.names[p] == ex.fs.names[p]
              && p in RestoreOther(env, ex, head).fs.names && RestoreOther(env, ex, head).fs.names[p] == ex.fs.names[p]
  {
    hide WithParents, Blocked, BlockLoop;
    ParentsMade(ex.fs, head.path);
    StillBlocked(ex.fs, head.path);
  }

  /** A packed file whose header has no digest, or that does not lie within its block, is an error. */
  lemma {:induction false} SmallRefused(env: Env, fs: FS, stats: Stats, head: ObjHead, data: bytes)
    ensures RestoreSmall(env, fs, stats, None) == (fs, stats.(fileErrors := stats.fileErrors + 1))
    ensures !env.excluded(head.path) && head.md5 == None ==>
              RestoreSmall(env, fs, stats, Some(SmallFile(head, data))).1 == stats.(fileErrors := stats.fileErrors + 1)
    ensures env.excluded(head.path) ==> RestoreSmall(env, fs, stats, Some(SmallFile(head, data))) == (fs, stats)
  {
    hide WithParents, Open, IsFile;
  }
}
