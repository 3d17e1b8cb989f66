/** Saving a directory tree: large files in chunks, small files packed, later links to an inode as
    records (src/oper_save.c). */
module OperSave {
  import opened Bytes
  import opened ArchiveItems
  import opened Records
  import opened RegMulti
  import opened Walk
  import Dichl
  import Sums
  import Greedy

  /** Data block size, filesystem id, the digest of a file's contents, the names and paths to leave out, and
      the number of objects in the filesystems before. */
  datatype Cfg = Cfg(blksize: u32, fsid: u16, md5: bytes -> bytes, exclude: bytes -> bool, firstId: u64)

  /** Every block size that an option selects. */
  predicate CfgOk(c: Cfg) {
    0 < c.blksize <= MAX_BLKSIZE
  }

  /** Files below this size share blocks. */
  function Threshold(c: Cfg): nat {
    Min(c.blksize / 4, MAX_SMALLFILESIZE)
  }

  // ---- what is written for an object

  /** A group of records that belong together: a large (or empty) file, small files sharing a block, or a
      single header. */
  datatype Unit =
    | Large(head: ObjHead, content: bytes)
    | Shared(files: seq<SmallFile>)
    | Single(head: ObjHead)

  /** The data blocks of a large file from position pos on. */
  function Chunks(content: bytes, pos: nat, blksize: nat, fsid: u16): (recs: seq<Rec>)
    requires blksize > 0 && |content| < 0x1_0000_0000_0000_0000
    ensures pos >= |content| ==> recs == []
    decreases |content| - pos
  {
    if pos >= |content| then []
    else
      var n := Min(|content| - pos, blksize);
      [Blk(pos, content[pos..pos + n], fsid)] + Chunks(content, pos + n, blksize, fsid)
  }

  predicate UnitOk(u: Unit) {
    match u
    case Large(head, content) =>
      head.objtype == REGFILEUNIQUE && head.size == |content|
    case Shared(files) =>
      |files| <= MAX_SMALLFILECOUNT && TotalSize(files) <= MAX_BLKSIZE &&
      forall i :: 0 <= i < |files| ==> SmallOk(files[i]) && files[i].head.objtype == REGFILEMULTI
    case Single(head) =>
      head.objtype != REGFILEUNIQUE && head.objtype != REGFILEMULTI && (head.objtype == HARDLINK ==> head.link.Some?)
  }

  /** Empty files have no footer. */
  function Footer(c: Cfg, content: bytes): seq<Rec> {
    if content == [] then [] else [FileFoot(c.md5(content), c.fsid)]
  }

  function EmitUnit(c: Cfg, u: Unit): seq<Rec>
    requires CfgOk(c) && UnitOk(u)
  {
    match u
    case Large(head, content) => [Obj(head, c.fsid)] + Chunks(content, 0, c.blksize, c.fsid) + Footer(c, content)
    case Shared(files) => EmitPack(files, c.fsid)
    case Single(head) => [Obj(head, c.fsid)]
  }

  predicate UnitsOk(us: seq<Unit>) {
    forall i :: 0 <= i < |us| ==> UnitOk(us[i])
  }

  function Emit(c: Cfg, us: seq<Unit>): seq<Rec>
    requires CfgOk(c) && UnitsOk(us)
  {
    if us == [] then [] else Emit(c, us[..|us| - 1]) + EmitUnit(c, us[|us| - 1])
  }

  // ---- the walk

  /** Units written so far, small files waiting for their block, first paths of inodes with several
      links, the id of the next object, and files that could not be read in full. */
  datatype SaveState = SaveState(units: seq<Unit>, pending: seq<SmallFile>, links: seq<Dichl.Entry>,
                                 nextId: u64, errors: nat)

  function Start(c: Cfg): SaveState {
    SaveState([], [], [], c.firstId, 0)
  }

  /** The id of object i of the filesystem: 64 bits that wrap around. */
  function IdAt(c: Cfg, i: nat): u64 {
    (c.firstId + i) % 0x1_0000_0000_0000_0000
  }

  function HeadOf(v: Visit, objtype: ObjType, id: u64): ObjHead {
    ObjHead(id, objtype, v.path, v.size, v.attrs, None, v.FileVisit? && v.sparse, None, None, None)
  }

  /** What is saved as contents: a file that ended early is padded with zeros up to its size. */
  function ContentOf(v: Visit): (r: bytes)
    ensures |r| == v.size
  {
    Fit(if v.FileVisit? then v.data else [], v.size)
  }

  /** A file that could not be read up to its size counts as an error, although it is saved. */
  function Counted(s: SaveState, v: Visit): SaveState {
    if v.FileVisit? && |v.data| < v.size then s.(errors := s.errors + 1) else s
  }

  /** A full block is written before the file is added to a new one. */
  function PackFile(c: Cfg, s: SaveState, f: SmallFile): SaveState {
    if EnoughSpace(s.pending, c.blksize, |f.data|)
    then s.(pending := s.pending + [f])
    else s.(units := s.units + [Shared(s.pending)], pending := [f])
  }

  predicate IsSmall(c: Cfg, v: Visit) {
    v.FileVisit? && 0 < v.size < Threshold(c) && v.nlink == 1
  }

  /** The first path seen for the inode, if the file has several links and is not that first one. */
  function FirstLink(s: SaveState, v: Visit): Option<Path> {
    if v.FileVisit? && v.nlink > 1 then Dichl.Lookup(s.links, v.rdev, v.ino) else None
  }

  /** The header of an object: a further link to an inode seen before becomes a hard link. Files with
      several links are never packed, because the links must come after the file. */
  function HeadFor(c: Cfg, s: SaveState, v: Visit): ObjHead {
    if v.PlainVisit? then HeadOf(v, v.objtype, s.nextId)
    else if FirstLink(s, v).Some? then HeadOf(v, HARDLINK, s.nextId).(link := FirstLink(s, v), sparse := false)
    else HeadOf(v, if IsSmall(c, v) then REGFILEMULTI else REGFILEUNIQUE, s.nextId)
  }

  function NextId(id: u64): u64 {
    (id + 1) % 0x1_0000_0000_0000_0000
  }

  /** The object is counted, and the first link to an inode with several links is noted. */
  function Noted(s: SaveState, v: Visit): SaveState {
    var first := v.FileVisit? && v.nlink > 1 && FirstLink(s, v).None?;
    s.(nextId := NextId(s.nextId), links := s.links + if first then [Dichl.Entry(v.rdev, v.ino, v.path)] else [])
  }

  /** A packed file carries the digest of its contents in its header. */
  function Digested(c: Cfg, head: ObjHead, content: bytes): SmallFile {
    SmallFile(head.(md5 := Some(c.md5(content))), content)
  }

  function SavedContents(c: Cfg, s: SaveState, head: ObjHead, v: Visit): SaveState {
    match head.objtype
    case REGFILEUNIQUE => Counted(s.(units := s.units + [Large(head, ContentOf(v))]), v)
    case REGFILEMULTI => Counted(PackFile(c, s, Digested(c, head, ContentOf(v))), v)
    case _ => s.(units := s.units + [Single(head)])
  }

  function SaveVisit(c: Cfg, s: SaveState, v: Visit): SaveState {
    SavedContents(c, Noted(s, v), HeadFor(c, s, v), v)
  }

  function SaveVisits(c: Cfg, s: SaveState, vs: seq<Visit>): SaveState {
    if vs == [] then s else SaveVisit(c, SaveVisits(c, s, vs[..|vs| - 1]), vs[|vs| - 1])
  }

  lemma {:induction false} SaveVisitsConcat(c: Cfg, s: SaveState, a: seq<Visit>, b: seq<Visit>)
    ensures SaveVisits(c, s, a + b) == SaveVisits(c, SaveVisits(c, s, a), b)
  {
    hide SaveVisit;
    if b == [] {
      assert a + b == a;
    } else {
      SaveVisitsConcat(c, s, a, b[..|b| - 1]);
      assert (a + b)[..|a + b| - 1] == a + b[..|b| - 1];
    }
  }

  /** At the end of the walk the last shared block is written. */
  function Flush(s: SaveState): SaveState {
    if s.pending == [] then s else s.(units := s.units + [Shared(s.pending)], pending := [])
  }

  predicate StateOk(c: Cfg, s: SaveState) {
    && UnitsOk(s.units) && UnitOk(Shared(s.pending)) && TotalSize(s.pending) <= c.blksize
    && Dichl.UniqueKeys(s.links) && forall i :: 0 <= i < |s.links| ==> |s.links[i].str| < PATH_MAX
  }

  lemma {:induction false} LookupFits(links: seq<Dichl.Entry>, key1: u64, key2: u64)
    requires forall i :: 0 <= i < |links| ==> |links[i].str| < PATH_MAX
    ensures var r := Dichl.Lookup(links, key1, key2); r.Some? ==> |r.value| < PATH_MAX
  {
    if links != [] {
      LookupFits(links[1..], key1, key2);
    }
  }

  /** The type decides what is saved beside the header. */
  predicate HeadFits(c: Cfg, head: ObjHead, v: Visit) {
    && head.size == v.size && head.multiCount.None? && head.multiOffset.None?
    && (head.objtype in {REGFILEUNIQUE, REGFILEMULTI} ==> v.FileVisit?)
    && (head.objtype == REGFILEMULTI ==> 0 < v.size < Threshold(c))
    && (head.objtype == HARDLINK ==> head.link.Some?)
  }

  /** A small file always fits into an empty shared block. */
  lemma {:induction false} PackFileOk(c: Cfg, s: SaveState, f: SmallFile)
    requires CfgOk(c) && StateOk(c, s) && SmallOk(f) && f.head.objtype == REGFILEMULTI && |f.data| < Threshold(c)
    ensures StateOk(c, PackFile(c, s, f)) && EnoughSpace([], c.blksize, |f.data|)
  {
    hide UnitOk, EnoughSpace, TotalSize;
    PackMore(c, [], f);
    if EnoughSpace(s.pending, c.blksize, |f.data|) {
      PackMore(c, s.pending, f);
      PendingOk(c, s, s.units, s.pending + [f]);
    } else {
      assert [] + [f] == [f];
      PendingOk(c, s, s.units + [Shared(s.pending)], [f]);
    }
  }

  lemma {:induction false} NoBytes()
    ensures TotalSize([]) == 0
  {}

  lemma {:induction false} PendingOk(c: Cfg, s: SaveState, units: seq<Unit>, files: seq<SmallFile>)
    requires StateOk(c, s) && (units == s.units || units == s.units + [Shared(s.pending)])
    requires UnitOk(Shared(files)) && TotalSize(files) <= c.blksize
    ensures StateOk(c, s.(units := units, pending := files))
  {
    hide UnitOk, TotalSize;
  }

  lemma {:induction false} PackMore(c: Cfg, files: seq<SmallFile>, f: SmallFile)
    requires CfgOk(c) && SmallOk(f) && f.head.objtype == REGFILEMULTI && |f.data| < Threshold(c)
    requires files != [] ==> UnitOk(Shared(files)) && EnoughSpace(files, c.blksize, |f.data|)
    ensures EnoughSpace(files, c.blksize, |f.data|)
    ensures UnitOk(Shared(files + [f])) && TotalSize(files + [f]) <= c.blksize
  {
    hide Sums.SumBy;
    NoBytes();
    Sums.SumAppend(SizeOf, files, f);
  }

  lemma {:induction false} LinksOk(c: Cfg, s: SaveState)
    requires StateOk(c, s)
    ensures Dichl.UniqueKeys(s.links) && forall i :: 0 <= i < |s.links| ==> |s.links[i].str| < PATH_MAX
  {}

  lemma {:induction false} StateOkCounted(c: Cfg, s: SaveState)
    requires StateOk(c, s)
    ensures StateOk(c, s.(errors := s.errors + 1))
  {}

  lemma {:induction false} NotedOk(c: Cfg, s: SaveState, v: Visit)
    requires StateOk(c, s) && VisitOk(v)
    ensures StateOk(c, Noted(s, v))
  {
    hide UnitOk;
    if v.FileVisit? && v.nlink > 1 && Dichl.Lookup(s.links, v.rdev, v.ino).None? {
      assert forall i :: 0 <= i < |s.links| ==> !(s.links[i].key1 == v.rdev && s.links[i].key2 == v.ino);
    }
  }

  lemma {:induction false} SavedContentsOk(c: Cfg, s: SaveState, head: ObjHead, v: Visit)
    requires CfgOk(c) && StateOk(c, s) && HeadFits(c, head, v)
    ensures StateOk(c, SavedContents(c, s, head, v))
  {
    if head.objtype == REGFILEMULTI {
      PackFileOk(c, s, Digested(c, head, ContentOf(v)));
    }
  }

  lemma {:induction false} SaveVisitOk(c: Cfg, s: SaveState, v: Visit)
    requires CfgOk(c) && StateOk(c, s) && VisitOk(v)
    ensures StateOk(c, SaveVisit(c, s, v))
  {
    hide StateOk, SavedContents, Noted;
    NotedOk(c, s, v);
    SavedContentsOk(c, Noted(s, v), HeadFor(c, s, v), v);
  }

  lemma {:induction false} SaveVisitsOk(c: Cfg, vs: seq<Visit>)
    requires CfgOk(c) && VisitsOk(vs)
    ensures StateOk(c, SaveVisits(c, Start(c), vs)) && StateOk(c, Flush(SaveVisits(c, Start(c), vs)))
  {
    hide SaveVisit;
    if vs != [] {
      SaveVisitsOk(c, vs[..|vs| - 1]);
      SaveVisitOk(c, SaveVisits(c, Start(c), vs[..|vs| - 1]), vs[|vs| - 1]);
    }
  }

  lemma {:induction false} SaveOne(c: Cfg, s: SaveState, v: Visit)
    ensures SaveVisits(c, s, [v]) == SaveVisit(c, s, v)
  {
    assert [v][..0] == [];
  }

  lemma {:induction false} VisitOkHere(exclude: bytes -> bool, path: Path, t: Tree)
    requires VisitsOk(Visits(exclude, path, t))
    ensures VisitOk(VisitOf(path, t)) && (!t.DirTree? ==> Visits(exclude, path, t) == [VisitOf(path, t)])
    ensures t.DirTree? ==> VisitsOk(EntryVisits(exclude, path, t, |t.entries|))
  {
    assert Visits(exclude, path, t)[0] == VisitOf(path, t);
    assert t.DirTree? ==> EntryVisits(exclude, path, t, |t.entries|) == Visits(exclude, path, t)[1..];
  }

  lemma {:induction false} EntryOk(exclude: bytes -> bool, path: Path, t: Tree, i: nat, n: nat)
    requires t.DirTree? && i < n <= |t.entries| && VisitsOk(EntryVisits(exclude, path, t, n))
    ensures VisitsOk(VisitsOfEntry(exclude, path, t.entries[i]))
  {
    hide VisitOk, VisitsOk, VisitsOfEntry;
    VisitsOkSplit(EntryVisits(exclude, path, t, n - 1), VisitsOfEntry(exclude, path, t.entries[n - 1]));
    if i < n - 1 {
      EntryOk(exclude, path, t, i, n - 1);
    }
  }

  lemma {:induction false} VisitsOkSplit(a: seq<Visit>, b: seq<Visit>)
    requires VisitsOk(a + b)
    ensures VisitsOk(a) && VisitsOk(b)
  {
    hide VisitOk;
    forall i | 0 <= i < |a| ensures VisitOk(a[i]) {
      assert a[i] == (a + b)[i];
    }
    forall i | 0 <= i < |b| ensures VisitOk(b[i]) {
      assert b[i] == (a + b)[|a| + i];
    }
  }

  lemma {:induction false} EmitSnoc(c: Cfg, us: seq<Unit>, u: Unit)
    requires CfgOk(c) && UnitsOk(us) && UnitOk(u)
    ensures UnitsOk(us + [u]) && Emit(c, us + [u]) == Emit(c, us) + EmitUnit(c, u)
  {
    assert (us + [u])[..|us|] == us;
  }

  lemma {:induction false} SharedUnit(c: Cfg, files: seq<SmallFile>)
    requires CfgOk(c) && UnitOk(Shared(files))
    ensures EmitUnit(c, Shared(files)) == EmitPack(files, c.fsid)
  {}

  lemma {:induction false} ChunkStep(c: Cfg, content: bytes, pos: nat, queue: seq<Rec>)
    requires CfgOk(c) && pos < |content| < 0x1_0000_0000_0000_0000
    ensures var n := Min(|content| - pos, c.blksize);
            queue + Chunks(content, pos, c.blksize, c.fsid) ==
            queue + [Blk(pos, content[pos..pos + n], c.fsid)] + Chunks(content, pos + n, c.blksize, c.fsid)
  {
    var n := Min(|content| - pos, c.blksize);
    var rest := Chunks(content, pos + n, c.blksize, c.fsid);
    assert queue + ([Blk(pos, content[pos..pos + n], c.fsid)] + rest) ==
           queue + [Blk(pos, content[pos..pos + n], c.fsid)] + rest;
  }

  lemma {:induction false} LastChunk(c: Cfg, content: bytes)
    requires CfgOk(c) && |content| < 0x1_0000_0000_0000_0000
    ensures Chunks(content, |content|, c.blksize, c.fsid) == []
    ensures Footer(c, content) == if |content| > 0 then [FileFoot(c.md5(content), c.fsid)] else []
  {}

  class Saver {
    const c: Cfg
    const regmulti: RegMulti
    const dichardlinks: Dichl.Dichl
    var queue: seq<Rec> // what has been added to the queue
    var errors: nat
    var objectid: u64
    ghost var state: SaveState

    ghost predicate Packing(pending: seq<SmallFile>)
      reads regmulti, regmulti.objhead, regmulti.data
    {
      regmulti.Saving() && regmulti.files == pending && regmulti.maxblksize == c.blksize
    }

    ghost predicate Linking(links: seq<Dichl.Entry>)
      reads dichardlinks, dichardlinks.repr
    {
      dichardlinks.Valid() && dichardlinks.contents == links
    }

    ghost predicate Valid()
      reads this, regmulti, regmulti.objhead, regmulti.data, dichardlinks, dichardlinks.repr
    {
      && CfgOk(c) && StateOk(c, state) && Packing(state.pending) && Linking(state.links)
      && queue == Emit(c, state.units) && errors == state.errors && objectid == state.nextId
    }

    constructor (c: Cfg)
      requires CfgOk(c)
      ensures Valid() && state == Start(c) && this.c == c
      ensures fresh(regmulti) && fresh(regmulti.objhead) && fresh(regmulti.data) && fresh(dichardlinks)
      ensures dichardlinks.repr == {}
    {
      this.c := c;
      regmulti := new RegMulti(c.blksize);
      dichardlinks := new Dichl.Dichl();
      queue, errors, objectid, state := [], 0, c.firstId, Start(c);
    }

    /** Header, data blocks, and a footer unless the file is empty. A file that ends early is padded with
        zeros up to the size in its header. */
    method ObjRegfileUnique(header: ObjHead, data: bytes) returns (truncated: bool)
      requires CfgOk(c)
      modifies this`queue
      ensures queue == old(queue) + [Obj(header, c.fsid)] + Chunks(Fit(data, header.size), 0, c.blksize, c.fsid)
                       + Footer(c, Fit(data, header.size))
      ensures truncated <==> |data| < header.size
    {
      hide Chunks, Footer;
      ghost var content := Fit(data, header.size);
      var filesize := header.size;
      var eof, hashed := false, [];
      truncated := false;
      queue := queue + [Obj(header, c.fsid)];
      ghost var start := queue;
      var filepos := 0;
      while filesize > 0 && filepos < filesize
        invariant 0 <= filepos <= filesize
        invariant truncated == eof && (eof <==> |data| < filepos)
        invariant hashed == content[..filepos]
        invariant queue + Chunks(content, filepos, c.blksize, c.fsid) == start + Chunks(content, 0, c.blksize, c.fsid)
        decreases filesize - filepos
      {
        var remaining := filesize - filepos;
        var curblocksize := Min(remaining, c.blksize);
        var origblock := ReadBlock(data, filepos, curblocksize, eof);
        if !eof && |data| < filepos + curblocksize {
          eof, truncated := true, true;
        }
        assert origblock == content[filepos..filepos + curblocksize];
        hashed := hashed + origblock;
        ChunkStep(c, content, filepos, queue);
        queue := queue + [Blk(filepos, origblock, c.fsid)];
        filepos := filepos + curblocksize;
      }
      assert hashed == content;
      if filesize > 0 {
        queue := queue + [FileFoot(c.md5(hashed), c.fsid)];
      }
      LastChunk(c, content);
    }

    /** What read returns at filepos, padded with zeros; nothing is read any more behind the end. */
    static method ReadBlock(data: bytes, filepos: nat, n: nat, eof: bool) returns (block: bytes)
      requires eof <==> |data| < filepos
      ensures |block| == n
      ensures forall i :: 0 <= i < n ==> block[i] == if filepos + i < |data| then data[filepos + i] else 0
    {
      if eof {
        block := Zeros(n);
      } else {
        block := Fit(data[filepos..], n);
      }
    }

    /** Headers and contents of the waiting small files are queued, and the shared block is empty again. */
    method EnqueueShared()
      requires Valid()
      modifies this`queue, this`state, regmulti, regmulti.objhead
      ensures Valid() && state == old(state).(units := old(state).units + [Shared(old(state).pending)], pending := [])
    {
      hide EmitUnit, EmitPack, Emit, Linking;
      var queued := regmulti.SaveEnqueue(c.fsid);
      EmitSnoc(c, state.units, Shared(state.pending));
      SharedUnit(c, state.pending);
      queue := queue + queued;
      regmulti.Empty();
      state := state.(units := state.units + [Shared(state.pending)], pending := []);
    }

    /** Small files wait in the shared block; a full one is written first. */
    method ObjRegfileMulti(header: ObjHead, data: bytes) returns (truncated: bool)
      requires Valid() && header.multiCount.None? && header.multiOffset.None? && header.objtype == REGFILEMULTI
      requires 0 < header.size < Threshold(c)
      modifies this`queue, this`state, regmulti, regmulti.objhead, regmulti.data
      ensures Valid()
      ensures truncated <==> |data| < header.size
      ensures state == PackFile(c, old(state), Digested(c, header, Fit(data, header.size)))
    {
      hide EmitUnit, EmitPack, Emit, StateOk, Linking, TotalSize, RegMulti.Saving, SharedData;
      var databuf := Fit(data, header.size);
      truncated := |data| < header.size;
      var head := header.(md5 := Some(c.md5(databuf)));
      ghost var f := SmallFile(head, databuf);
      PackFileOk(c, state, f);
      var enough := regmulti.EnoughSpaceForNewFile(header.size);
      if !enough {
        EnqueueShared();
        assert [] + [f] == [f];
      }
      assert EnoughSpace(state.pending, c.blksize, header.size);
      var ok := regmulti.SaveAddFile(head, databuf);
      state := state.(pending := state.pending + [f]);
    }

    /** Standard attributes, and the type that decides how the contents are saved. */
    method ItemStdattr(v: Visit) returns (head: ObjHead)
      requires Valid() && VisitOk(v)
      modifies this`state, this`objectid, dichardlinks, dichardlinks.repr
      ensures Valid() && fresh(dichardlinks.repr - old(dichardlinks.repr))
      ensures head == HeadFor(c, old(state), v) && state == Noted(old(state), v)
    {
      hide EmitUnit, Emit, Packing, StateOk;
      NotedOk(c, state, v);
      LinksOk(c, state);
      assert state.links + [] == state.links;
      var id := objectid;
      objectid := NextId(objectid);
      ghost var s := state;
      state := state.(nextId := objectid);
      if v.PlainVisit? {
        return HeadOf(v, v.objtype, id);
      }
      if v.nlink > 1 {
        LookupFits(state.links, v.rdev, v.ino);
        var first := dichardlinks.Get(v.rdev, v.ino, PATH_MAX);
        if first.Some? {
          return HeadOf(v, HARDLINK, id).(link := first, sparse := false);
        }
        var added := dichardlinks.Add(v.rdev, v.ino, v.path);
        state := state.(links := state.links + [Dichl.Entry(v.rdev, v.ino, v.path)]);
      }
      var small := v.size > 0 && v.size < Min(c.blksize / 4, MAX_SMALLFILESIZE) && v.nlink == 1;
      head := HeadOf(v, if small then REGFILEMULTI else REGFILEUNIQUE, id);
    }

    /** Contents of regular files follow their header; the rest is a header. */
    method SaveContents(header: ObjHead, v: Visit)
      requires Valid() && HeadFits(c, header, v)
      modifies this`queue, this`errors, this`state, regmulti, regmulti.objhead, regmulti.data
      ensures Valid() && state == SavedContents(c, old(state), header, v)
    {
      hide Emit, PackFile, StateOk, Linking, Packing, Fit, Chunks, Footer, EmitPack, TotalSize, CfgOk, SmallOk;
      var truncated := false;
      if header.objtype == REGFILEUNIQUE {
        truncated := ObjRegfileUnique(header, v.data);
        AddUnit(Large(header, ContentOf(v)));
      } else if header.objtype == REGFILEMULTI {
        truncated := ObjRegfileMulti(header, v.data);
      } else {
        queue := queue + [Obj(header, c.fsid)];
        AddUnit(Single(header));
      }
      if truncated {
        CountError();
      }
    }

    method CountError()
      requires Valid()
      modifies this`errors, this`state
      ensures Valid() && state == old(state).(errors := old(state).errors + 1)
    {
      hide StateOk, Linking, Packing;
      StateOkCounted(c, state);
      errors := errors + 1;
      state := state.(errors := state.errors + 1);
    }

    method SaveFile(v: Visit)
      requires Valid() && VisitOk(v)
      modifies this`queue, this`errors, this`objectid, this`state, regmulti, regmulti.objhead, regmulti.data
      modifies dichardlinks, dichardlinks.repr
      ensures Valid() && fresh(dichardlinks.repr - old(dichardlinks.repr))
      ensures state == SaveVisit(c, old(state), v)
    {
      hide Packing, Linking, StateOk;
      var header := ItemStdattr(v);
      SaveContents(header, v);
    }

    /** The records of a unit are in the queue: note that it has been written. */
    ghost method AddUnit(u: Unit)
      requires CfgOk(c) && StateOk(c, state) && UnitOk(u)
      requires Packing(state.pending) && Linking(state.links)
      requires queue == Emit(c, state.units) + EmitUnit(c, u) && errors == state.errors && objectid == state.nextId
      modifies this`state
      ensures Valid() && state == old(state).(units := old(state).units + [u])
    {
      hide Packing, Linking, EmitUnit, Emit;
      EmitSnoc(c, state.units, u);
      state := state.(units := state.units + [u]);
    }

    /** The directory itself, then its entries, depth first. */
    method SaveDirectory(path: Path, t: Tree)
      requires Valid() && VisitsOk(Visits(c.exclude, path, t))
      modifies this`queue, this`errors, this`objectid, this`state, regmulti, regmulti.objhead, regmulti.data
      modifies dichardlinks, dichardlinks.repr
      ensures Valid() && fresh(dichardlinks.repr - old(dichardlinks.repr))
      ensures state == SaveVisits(c, old(state), Visits(c.exclude, path, t))
      decreases t, 0
    {
      hide SaveVisit, VisitsOk, VisitOk, VisitOf, Valid, SaveVisits, VisitsOfEntry;
      VisitOkHere(c.exclude, path, t);
      ghost var s0, visits := state, [VisitOf(path, t)];
      SaveFile(VisitOf(path, t));
      SaveOne(c, s0, VisitOf(path, t));
      if t.DirTree? {
        for i := 0 to |t.entries|
          invariant Valid() && fresh(dichardlinks.repr - old(dichardlinks.repr))
          invariant visits == [VisitOf(path, t)] + EntryVisits(c.exclude, path, t, i)
          invariant state == SaveVisits(c, s0, visits)
        {
          ghost var more := VisitsOfEntry(c.exclude, path, t.entries[i]);
          EntryOk(c.exclude, path, t, i, |t.entries|);
          SaveVisitsConcat(c, s0, visits, more);
          visits := visits + more;
          SaveEntry(path, t.entries[i]);
        }
      }
    }

    method SaveEntry(path: Path, e: DirEntry)
      requires Valid() && VisitsOk(VisitsOfEntry(c.exclude, path, e))
      modifies this`queue, this`errors, this`objectid, this`state, regmulti, regmulti.objhead, regmulti.data
      modifies dichardlinks, dichardlinks.repr
      ensures Valid() && fresh(dichardlinks.repr - old(dichardlinks.repr))
      ensures state == SaveVisits(c, old(state), VisitsOfEntry(c.exclude, path, e))
      decreases e.node, 1
    {
      hide SaveVisit, VisitsOk, VisitOk, VisitOf, Valid, Join;
      var relpath := ConcatenatePaths(path, e.name);
      if c.exclude(e.name) || c.exclude(relpath) {
        return;
      }
      if e.node.DirTree? {
        SaveDirectory(relpath, e.node);
      } else {
        VisitOkHere(c.exclude, relpath, e.node);
        SaveOne(c, state, VisitOf(relpath, e.node));
        SaveFile(VisitOf(relpath, e.node));
      }
    }

    /** The whole walk; at its end the last small files are written. */
    method SaveDirectoryWrapper(path: Path, t: Tree)
      requires Valid() && state == Start(c) && VisitsOk(Visits(c.exclude, path, t))
      modifies this`queue, this`errors, this`objectid, this`state, regmulti, regmulti.objhead, regmulti.data
      modifies dichardlinks, dichardlinks.repr
      ensures Valid() && state == SavedTree(c, path, t) && queue == Stream(c, path, t)
    {
      hide SaveVisit, Linking, EmitUnit;
      SaveDirectory(path, t);
      if regmulti.count > 0 {
        EnqueueShared();
      }
    }
  }

  /** Everything that is written for a tree. */
  function SavedTree(c: Cfg, path: Path, t: Tree): SaveState {
    Flush(SaveVisits(c, Start(c), Visits(c.exclude, path, t)))
  }

  function Stream(c: Cfg, path: Path, t: Tree): seq<Rec>
    requires CfgOk(c) && VisitsOk(Visits(c.exclude, path, t))
  {
    SaveVisitsOk(c, Visits(c.exclude, path, t));
    Emit(c, SavedTree(c, path, t).units)
  }

  // ---- what exactly is saved

  /** The inode of a file with several links has been met before. */
  predicate MetBefore(links: seq<Dichl.Entry>, v: Visit)
    requires v.FileVisit?
  {
    v.nlink > 1 && exists i :: 0 <= i < |links| && links[i].key1 == v.rdev && links[i].key2 == v.ino
  }

  /** The header has all that is known of the object. A file whose inode has been met before becomes a hard link
      to a path that was noted for it; a file with one link that is not empty and is smaller than a quarter of a
      block and than 128 KiB is packed; any other file has blocks of its own. */
  lemma {:induction false} HeaderSaved(c: Cfg, s: SaveState, v: Visit)
    ensures var h := HeadFor(c, s, v);
            && h.path == v.path && h.size == v.size && h.attrs == v.attrs && h.id == s.nextId
            && h.md5 == None && h.multiCount == None && h.multiOffset == None
            && (v.PlainVisit? ==> h.objtype == v.objtype && h.link == None && !h.sparse)
            && (v.FileVisit? && MetBefore(s.links, v) ==>
                  && h.objtype == HARDLINK && !h.sparse && h.link.Some?
                  && exists i :: 0 <= i < |s.links| && s.links[i] == Dichl.Entry(v.rdev, v.ino, h.link.value))
            && (v.FileVisit? && !MetBefore(s.links, v) ==>
                  && h.link == None && h.sparse == v.sparse && h.objtype in {REGFILEMULTI, REGFILEUNIQUE}
                  && (h.objtype == REGFILEMULTI <==>
                        0 < v.size && v.size < c.blksize / 4 && v.size < 131072 && v.nlink == 1))
  {
    if v.FileVisit? && MetBefore(s.links, v) {
      FoundEntry(s.links, v.rdev, v.ino);
    }
  }

  lemma {:induction false} FoundEntry(links: seq<Dichl.Entry>, key1: u64, key2: u64)
    requires Dichl.Lookup(links, key1, key2).Some?
    ensures exists i :: 0 <= i < |links| && links[i] == Dichl.Entry(key1, key2, Dichl.Lookup(links, key1, key2).value)
  {
    if links[0].key1 == key1 && links[0].key2 == key2 {
      assert links[0] == Dichl.Entry(key1, key2, links[0].str);
    } else {
      FoundEntry(links[1..], key1, key2);
      var i :| 0 <= i < |links[1..]| &&
               links[1..][i] == Dichl.Entry(key1, key2, Dichl.Lookup(links[1..], key1, key2).value);
      assert links[i + 1] == links[1..][i];
    }
  }

  /** What could be read, and zeros up to the size. */
  predicate IsContentOf(content: bytes, v: Visit)
    requires v.FileVisit?
  {
    |content| == v.size && forall k :: 0 <= k < v.size ==> content[k] == if k < |v.data| then v.data[k] else 0
  }

  /** One visit: its id is used up, its path is noted if it is the first of an inode with several links, what could
      not be read of a file is counted, and one object is added: by itself, or to the pack that waits, or to a new
      one. */
  lemma {:induction false} VisitSaved(c: Cfg, s: SaveState, v: Visit) returns (content: bytes)
    requires VisitOk(v)
    ensures v.FileVisit? ==> IsContentOf(content, v)
    ensures var t := SaveVisit(c, s, v);
            && t.nextId == (s.nextId + 1) % 0x1_0000_0000_0000_0000
            && t.links == s.links +
                 (if v.FileVisit? && v.nlink > 1 && !MetBefore(s.links, v) then [Dichl.Entry(v.rdev, v.ino, v.path)]
                  else [])
            && t.errors == s.errors +
                 (if v.FileVisit? && !MetBefore(s.links, v) && |v.data| < v.size then 1 else 0)
    ensures var t, h := SaveVisit(c, s, v), HeadFor(c, s, v);
            && (h.objtype != REGFILEUNIQUE && h.objtype != REGFILEMULTI ==>
                  t.units == s.units + [Single(h)] && t.pending == s.pending)
            && (h.objtype == REGFILEUNIQUE ==> t.units == s.units + [Large(h, content)] && t.pending == s.pending)
            && (h.objtype == REGFILEMULTI ==>
                  var f := SmallFile(h.(md5 := Some(c.md5(content))), content);
                  if |s.pending| < MAX_SMALLFILECOUNT && TotalSize(s.pending) + v.size <= c.blksize
                  then t.units == s.units && t.pending == s.pending + [f]
                  else t.units == s.units + [Shared(s.pending)] && t.pending == [f])
  {
    hide TotalSize;
    HeaderSaved(c, s, v);
    content := ContentOf(v);
  }

  /** Blocks that follow one another from a position on to the end of the file, all but the last of the block size. */
  predicate InRow(recs: seq<Rec>, content: bytes, pos: nat, blksize: nat, fsid: u16) {
    && (recs == [] <==> pos == |content|)
    && (forall k :: 0 <= k < |recs| ==> recs[k].Blk? && BlockAt(recs[k], content, recs[k].offset, blksize, fsid))
    && (forall k :: 0 < k < |recs| ==> recs[k].offset == recs[k - 1].offset + blksize)
    && (recs != [] ==> recs[0].offset == pos && recs[|recs| - 1].offset + |recs[|recs| - 1].data| == |content|)
  }

  lemma {:induction false} InRowMore(first: Rec, rest: seq<Rec>, content: bytes, pos: nat, blksize: nat, fsid: u16)
    requires blksize > 0 && pos < |content| && BlockAt(first, content, pos, blksize, fsid)
    requires InRow(rest, content, Min(pos + blksize, |content|), blksize, fsid)
    ensures InRow([first] + rest, content, pos, blksize, fsid)
  {
    var recs := [first] + rest;
    assert forall k :: 0 < k < |recs| ==> recs[k] == rest[k - 1];
  }

  /** The blocks of a large file are in a row. */
  lemma {:induction false} BlocksOfFile(content: bytes, pos: nat, blksize: nat, fsid: u16)
    requires blksize > 0 && pos <= |content| < 0x1_0000_0000_0000_0000
    ensures InRow(Chunks(content, pos, blksize, fsid), content, pos, blksize, fsid)
    decreases |content| - pos
  {
    hide InRow;
    if pos < |content| {
      var n := Min(|content| - pos, blksize);
      BlocksOfFile(content, pos + n, blksize, fsid);
      FirstChunk(content, pos, blksize, fsid);
      InRowMore(Blk(pos, content[pos..pos + n], fsid), Chunks(content, pos + n, blksize, fsid), content,
                pos, blksize, fsid);
    } else {
      NoBlocks(content, blksize, fsid);
    }
  }

  lemma {:induction false} NoBlocks(content: bytes, blksize: nat, fsid: u16)
    ensures InRow([], content, |content|, blksize, fsid)
  {}

  lemma {:induction false} FirstChunk(content: bytes, pos: nat, blksize: nat, fsid: u16)
    requires blksize > 0 && pos < |content| < 0x1_0000_0000_0000_0000
    ensures var n := Min(|content| - pos, blksize);
            Chunks(content, pos, blksize, fsid) ==
            [Blk(pos, content[pos..pos + n], fsid)] + Chunks(content, pos + n, blksize, fsid)
  {}

  predicate BlockAt(rec: Rec, content: bytes, at: int, blksize: nat, fsid: u16) {
    |content| < 0x1_0000_0000_0000_0000 && 0 <= at < |content| &&
      rec == Blk(at, content[at..Min(at + blksize, |content|)], fsid)
  }

  // ---- how small files are packed

  function PacksOf(us: seq<Unit>): seq<seq<SmallFile>> {
    if us == [] then []
    else
      var u := us[|us| - 1];
      PacksOf(us[..|us| - 1]) + if u.Shared? then [u.files] else []
  }

  /** A small file that is object number i. */
  function SmallAt(c: Cfg, v: Visit, i: nat): SmallFile {
    Digested(c, HeadOf(v, REGFILEMULTI, IdAt(c, i)), ContentOf(v))
  }

  function SmallFiles(c: Cfg, vs: seq<Visit>): seq<SmallFile> {
    if vs == [] then []
    else
      var v := vs[|vs| - 1];
      SmallFiles(c, vs[..|vs| - 1]) + if IsSmall(c, v) then [SmallAt(c, v, |vs| - 1)] else []
  }

  lemma {:induction false} PacksOfSnoc(us: seq<Unit>, u: Unit)
    ensures PacksOf(us + [u]) == PacksOf(us) + if u.Shared? then [u.files] else []
  {
    assert (us + [u])[..|us|] == us;
  }

  /** Every object has its own number, in the order of the walk. */
  lemma {:induction false} IdsCount(c: Cfg, vs: seq<Visit>)
    ensures SaveVisits(c, Start(c), vs).nextId == IdAt(c, |vs|)
  {
    hide SaveVisit, NextId;
    if vs != [] {
      var n := |vs| - 1;
      IdsCount(c, vs[..n]);
      var s := SaveVisits(c, Start(c), vs[..n]);
      OneMoreId(c, s, vs[n]);
      NextIdAt(c, n);
    }
  }

  lemma {:induction false} NextIdAt(c: Cfg, i: nat)
    ensures NextId(IdAt(c, i)) == IdAt(c, i + 1)
  {}

  lemma {:induction false} OneMoreId(c: Cfg, s: SaveState, v: Visit)
    ensures SaveVisit(c, s, v).nextId == NextId(s.nextId)
  {
    hide FirstLink, HeadFor, Digested, EnoughSpace, NextId;
  }

  /** The shared blocks are filled greedily, in the order in which the walk meets the small files. */
  lemma {:induction false} PacksAreGreedy(c: Cfg, vs: seq<Visit>)
    requires CfgOk(c) && VisitsOk(vs)
    ensures var s := SaveVisits(c, Start(c), vs);
            PacksOf(s.units) + [s.pending] == Greedy.Fill([], SmallFiles(c, vs), FitsPack(c.blksize))
  {
    hide FitsPack, EnoughSpace, Digested, PacksOf, PackFile, Greedy.Fill;
    if vs == [] {
      NoPacks(c);
    } else {
      var n := |vs| - 1;
      var v, s := vs[n], SaveVisits(c, Start(c), vs[..n]);
      PacksAreGreedy(c, vs[..n]);
      IdsCount(c, vs[..n]);
      var head := HeadFor(c, s, v);
      if head.objtype == REGFILEMULTI {
        var f := Digested(c, head, ContentOf(v));
        var s1 := Noted(s, v);
        PackGreedily(c, s1, f, SmallFiles(c, vs[..n]));
        assert SaveVisit(c, s, v) == Counted(PackFile(c, s1, f), v);
      } else {
        var u := if head.objtype == REGFILEUNIQUE then Large(head, ContentOf(v)) else Single(head);
        PacksOfSnoc(s.units, u);
        assert !IsSmall(c, v) && SmallFiles(c, vs) == SmallFiles(c, vs[..n]);
        assert SaveVisits(c, Start(c), vs).pending == s.pending;
        assert SaveVisits(c, Start(c), vs).units == s.units + [u];
      }
    }
  }

  lemma {:induction false} NoPacks(c: Cfg)
    ensures PacksOf([]) == [] && Greedy.Fill([], [], FitsPack(c.blksize)) == [[]]
  {}

  lemma {:induction false} PackGreedily(c: Cfg, s: SaveState, f: SmallFile, fs: seq<SmallFile>)
    requires PacksOf(s.units) + [s.pending] == Greedy.Fill([], fs, FitsPack(c.blksize))
    ensures var t := PackFile(c, s, f);
            PacksOf(t.units) + [t.pending] == Greedy.Fill([], fs + [f], FitsPack(c.blksize))
  {
    var bins, fits := PacksOf(s.units) + [s.pending], FitsPack(c.blksize);
    assert bins[|bins| - 1] == s.pending;
    Greedy.FillSnoc([], fs, f, fits);
    EnoughSpaceIsFit(s.pending, f, c.blksize);
    if EnoughSpace(s.pending, c.blksize, |f.data|) {
      assert bins[|bins| - 1 := s.pending + [f]] == PacksOf(s.units) + [s.pending + [f]];
    } else {
      PacksOfSnoc(s.units, Shared(s.pending));
      assert bins + [[f]] == PacksOf(s.units) + [s.pending] + [[f]];
    }
  }

  lemma {:induction false} SmallFilesSmall(c: Cfg, vs: seq<Visit>)
    ensures forall i :: 0 <= i < |SmallFiles(c, vs)| ==> 4 * |SmallFiles(c, vs)[i].data| < c.blksize
  {
    if vs != [] {
      SmallFilesSmall(c, vs[..|vs| - 1]);
    }
  }

  /** Every shared block but the last holds 512 files or is more than three quarters full, and no other
      way of cutting the same sequence of small files into blocks needs fewer of them. */
  lemma {:induction false} PackingIsOptimal(c: Cfg, vs: seq<Visit>, bins: seq<seq<SmallFile>>)
    requires CfgOk(c) && VisitsOk(vs)
    requires bins != [] && Greedy.Flatten(bins) == SmallFiles(c, vs)
    requires forall b :: b in bins ==> FitsPack(c.blksize)(b)
    ensures var s := SaveVisits(c, Start(c), vs);
            |PacksOf(s.units)| + 1 <= |bins| && WellFilled(PacksOf(s.units) + [s.pending], c.blksize)
  {
    PacksAreGreedy(c, vs);
    SmallFilesSmall(c, vs);
    BlocksWellFilled([], SmallFiles(c, vs), c.blksize);
    FewestBlocks(SmallFiles(c, vs), bins, c.blksize);
  }
}
