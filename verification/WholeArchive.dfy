/** The whole way: a tree is walked, its records are compressed and written to volumes; stored headers and
    data are altered; the volumes are read, decompressed and restored. */
module WholeArchive {
  import opened Bytes
  import opened ArchiveItems
  import opened Records
  import opened Walk
  import opened FileSystem
  import opened OperSave
  import opened OperRestore
  import opened Damage
  import opened SavedPuts
  import opened SaveRestore
  import opened RoundTrip
  import opened WholeTree
  import opened BlockTransform
  import opened Arrived
  import opened EndToEnd
  import opened TreeEncoding
  import Dico
  import Placement
  import RegMulti
  import Pipeline
  import Format
  import VolumeChain
  import Reader
  import ArchWriter
  import Archive
  import MainHeader

  /** How an archive is made and read: one filesystem, and the records of others in front of it and behind it,
      of which none is asked for. */
  datatype Job = Job(
    cfg: Cfg,
    codec: Codec,
    packing: Options,
    unpacking: Options,
    archid: u32,
    splitsize: u64,
    prefix: seq<Header>, // the main header and what else comes before the filesystems
    sel: Select,
    before: seq<Rec>,
    after: seq<Rec>)

  /** The records of the filesystem. */
  function OwnRecords(j: Job, vs: seq<Visit>): seq<Rec>
    requires CfgOk(j.cfg) && VisitsOk(vs)
  {
    SavedPutsExact(j.cfg, vs);
    Emit(j.cfg, Saved(j.cfg, vs)) + [Other(DATF, j.cfg.fsid)]
  }

  function RecordsOf(j: Job, vs: seq<Visit>): seq<Rec>
    requires CfgOk(j.cfg) && VisitsOk(vs)
  {
    j.before + OwnRecords(j, vs) + j.after
  }

  /** The number of the first item of the filesystem. */
  function Base(j: Job): nat {
    |j.prefix| + |j.before|
  }

  predicate NotAskedFor(sel: Select, recs: seq<Rec>) {
    forall i :: 0 <= i < |recs| ==> recs[i].fsid != Format.FILESYSID_NULL && !sel(recs[i].fsid)
  }

  predicate MainHeaderOk(j: Job) {
    && j.archid != 0 && j.prefix != [] && j.prefix[0].fsid == Format.FILESYSID_NULL
    && Dico.GetU32(j.prefix[0].dico, 0, Reader.MH_ARCHIVEID) == Some(j.archid)
    && VolumeChain.ItemOk(HeaderItem(j.prefix[0]))
    && ArchWriter.Fits(j.archid, j.splitsize)([HeaderItem(j.prefix[0])])
    && j.sel(j.cfg.fsid) && NotAskedFor(j.sel, j.before + j.after)
    && forall i :: 0 <= i < |j.prefix| ==> j.prefix[i].fsid == Format.FILESYSID_NULL || j.sel(j.prefix[i].fsid)
  }

  /** With the header that the program writes, and a split size that it accepts, this holds. */
  lemma {:induction false} MainHeaderFits(j: Job, m: MainHeader.Info)
    requires MainHeader.InfoOk(m) && j.archid == m.archid && MainHeader.SplitOk(j.splitsize)
    requires j.prefix != [] && j.prefix[0] == MainHeader.MainOf(m)
    requires j.sel(j.cfg.fsid) && NotAskedFor(j.sel, j.before + j.after)
    requires forall i :: 0 <= i < |j.prefix| ==> j.prefix[i].fsid == Format.FILESYSID_NULL || j.sel(j.prefix[i].fsid)
    ensures MainHeaderOk(j)
  {
    hide VolumeChain.ItemOk, Dico.GetU32, ArchWriter.Fits, MainHeader.MainDico;
    MainHeader.MainSmall(m);
    MainHeader.MainFits(m, j.splitsize);
  }

  ghost predicate JobOk(j: Job, vs: seq<Visit>) {
    && CfgOk(j.cfg) && VisitsOk(vs) && CodecOk(j.codec) && MainHeaderOk(j)
    && Encodable(j.codec, j.packing, j.prefix, RecordsOf(j, vs)) && |j.prefix| + |RecordsOf(j, vs)| < 0xffff_ffff
    && (j.packing.encrypting ==> j.unpacking.encrypting)
  }

  /** What reaches the writing thread. */
  function ItemsWritten(j: Job, vs: seq<Visit>): (items: seq<Item>)
    requires CfgOk(j.cfg) && VisitsOk(vs) && Encodable(j.codec, j.packing, j.prefix, RecordsOf(j, vs))
  {
    Written(j.codec, j.packing, j.prefix, RecordsOf(j, vs))
  }

  lemma {:induction false} ItemsOk(j: Job, vs: seq<Visit>)
    requires JobOk(j, vs)
    ensures ArchWriter.AllOk(ItemsWritten(j, vs)) && |ItemsWritten(j, vs)| < 0xffff_ffff
    ensures Archive.MainFirstItem(j.archid, ItemsWritten(j, vs)) && ItemsWritten(j, vs)[0] == HeaderItem(j.prefix[0])
  {
    hide CodecOk, Encodable, Written, VolumeChain.ItemOk, RecordsOf, ArchWriter.Fits, Dico.GetU32;
    EncodableRecs(j.codec, j.packing, j.prefix, RecordsOf(j, vs));
    WrittenOk(j.codec, j.packing, j.prefix, RecordsOf(j, vs));
    WrittenAt(j.codec, j.packing, j.prefix, RecordsOf(j, vs), 0);
  }

  /** Which items are read: the headers in front, and those of the filesystem. */
  lemma {:induction false} ItemWanted(j: Job, vs: seq<Visit>, i: nat)
    requires JobOk(j, vs) && i < |ItemsWritten(j, vs)|
    ensures IsWanted(j.sel, ItemsWritten(j, vs)[i]) <==>
            i < |j.prefix| || Base(j) <= i < Base(j) + |OwnRecords(j, vs)|
  {
    hide CodecOk, Encodable, Written, VolumeChain.ItemOk, Compressed, VisitsOk, OwnRecords, Dico.GetU32;
    hide ArchWriter.Fits;
    hide ObjCodec.EncRec, ObjCodec.RecOk;
    var recs := RecordsOf(j, vs);
    EncodableRecs(j.codec, j.packing, j.prefix, recs);
    WrittenAt(j.codec, j.packing, j.prefix, recs, i);
    if i >= |j.prefix| {
      var rec := recs[i - |j.prefix|];
      SameFsid(j.codec, j.packing, rec);
      if Base(j) <= i < Base(j) + |OwnRecords(j, vs)| {
        assert rec == OwnRecords(j, vs)[i - Base(j)];
        OneFilesystem(j, vs, i - Base(j));
      } else {
        var k := if i < Base(j) then i - |j.prefix| else i - |j.prefix| - |OwnRecords(j, vs)|;
        assert rec == (j.before + j.after)[k];
      }
    }
  }

  lemma {:induction false} SameFsid(c: Codec, o: Options, rec: Rec)
    requires ObjCodec.RecOk(rec)
    ensures FsidOf(ObjCodec.EncRec(rec)) == rec.fsid
    ensures ObjCodec.EncRec(rec).BlockItem? && Compressed(c, o, ObjCodec.EncRec(rec).block).Some? ==>
              Compressed(c, o, ObjCodec.EncRec(rec).block).value.fsid == rec.fsid
  {}

  /** All records of a filesystem carry its id. */
  lemma {:induction false} OneFilesystem(j: Job, vs: seq<Visit>, i: nat)
    requires CfgOk(j.cfg) && VisitsOk(vs) && i < |OwnRecords(j, vs)|
    ensures OwnRecords(j, vs)[i].fsid == j.cfg.fsid
  {
    hide Saved, EmitUnit;
    SavedPutsExact(j.cfg, vs);
    EmitFsid(j.cfg, Saved(j.cfg, vs));
  }

  lemma {:induction false} EmitFsid(c: Cfg, us: seq<Unit>)
    requires CfgOk(c) && UnitsOk(us)
    ensures forall r :: r in Emit(c, us) ==> r.fsid == c.fsid
  {
    hide EmitUnit;
    if us != [] {
      EmitFsid(c, us[..|us| - 1]);
      UnitFsid(c, us[|us| - 1]);
    }
  }

  lemma {:induction false} UnitFsid(c: Cfg, u: Unit)
    requires CfgOk(c) && UnitOk(u)
    ensures forall r :: r in EmitUnit(c, u) ==> r.fsid == c.fsid
  {
    if u.Large? {
      ChunksFsid(u.content, 0, c.blksize, c.fsid);
    }
  }

  lemma {:induction false} ChunksFsid(content: bytes, pos: nat, blksize: nat, fsid: u16)
    requires blksize > 0 && |content| < 0x1_0000_0000_0000_0000
    ensures forall r :: r in Chunks(content, pos, blksize, fsid) ==> r.fsid == fsid
    decreases |content| - pos
  {
    if pos < |content| {
      ChunksFsid(content, pos + Min(|content| - pos, blksize), blksize, fsid);
    }
  }

  // ---- the archive, damaged

  /** Altered stored data of any blocks, of the same length, with another checksum; headers and blocks whose
      dictionary, filesystem id, archive id or magic is altered; and nothing that could pass for a header
      of this archive. The headers in front of the filesystems and the end marker of the filesystem are
      whole, so is the footer of a large file whose header is, and packed files have lost none of their
      headers and not their block, or all their headers. */
  predicate DamageFits(j: Job, vs: seq<Visit>, damage: Archive.Damage)
    requires CfgOk(j.cfg) && VisitsOk(vs) && Encodable(j.codec, j.packing, j.prefix, RecordsOf(j, vs))
  {
    && Archive.DamageOk(j.archid, ItemsWritten(j, vs), damage) && MovedAway(j.sel, damage)
    && (forall i :: i in damage ==> |j.prefix| <= i)
    && LossFits(j, vs, Archive.Gone(damage))
  }

  predicate LossFits(j: Job, vs: seq<Visit>, gone: set<nat>)
    requires CfgOk(j.cfg) && VisitsOk(vs)
  {
    SavedPutsExact(j.cfg, vs);
    && AllGoneOk(j.cfg, Saved(j.cfg, vs), Base(j), gone)
    && Base(j) + |Emit(j.cfg, Saved(j.cfg, vs))| !in gone
  }

  function MarksFor(j: Job, vs: seq<Visit>, damage: Archive.Damage): Marks
    requires CfgOk(j.cfg) && VisitsOk(vs) && Encodable(j.codec, j.packing, j.prefix, RecordsOf(j, vs))
  {
    MarksOf(j.sel, ItemsWritten(j, vs), damage)
  }

  function StoredVolumes(j: Job, vs: seq<Visit>, damage: Archive.Damage): seq<bytes>
    requires CfgOk(j.cfg) && VisitsOk(vs) && Encodable(j.codec, j.packing, j.prefix, RecordsOf(j, vs)) &&
             DamageFits(j, vs, damage)
    requires ArchWriter.AllOk(ItemsWritten(j, vs)) && |ItemsWritten(j, vs)| < 0xffff_ffff
  {
    Archive.DamagedVolumes(j.archid, j.splitsize, ItemsWritten(j, vs), damage)
  }

  /** The damage as the restoring side meets it. */
  function Harms(j: Job, vs: seq<Visit>, damage: Archive.Damage): (hs: seq<Harm>)
    requires CfgOk(j.cfg) && VisitsOk(vs) && Encodable(j.codec, j.packing, j.prefix, RecordsOf(j, vs))
    ensures StreamOk(j.cfg, Saved(j.cfg, vs), hs)
  {
    SavedPutsExact(j.cfg, vs);
    ArrivedHarms(j.cfg, Saved(j.cfg, vs), Base(j), MarksFor(j, vs, damage))
  }

  lemma {:induction false} ArchiveRead(j: Job, vs: seq<Visit>, damage: Archive.Damage)
    requires JobOk(j, vs) && DamageFits(j, vs, damage)
    ensures ArchWriter.AllOk(ItemsWritten(j, vs)) && |ItemsWritten(j, vs)| < 0xffff_ffff
    ensures var r := Reader.ReadArchive(StoredVolumes(j, vs, damage), j.sel);
            r.complete && r.inputs == ReadInputs(ItemsWritten(j, vs), 0, MarksFor(j, vs, damage))
  {
    hide CodecOk, Encodable, Written, RecordsOf, ArchWriter.Fits, Archive.DamagedVolumes, Reader.ReadArchive;
    hide Archive.DamageOk;
    hide ArchWriter.AllOk, MarksOf, MovedAway, ReadInputs, Archive.MainFirstItem, VolumeChain.ItemOk, Dico.GetU32;
    ItemsOk(j, vs);
    Archive.DamageContained(j.archid, j.splitsize, ItemsWritten(j, vs), damage, j.sel);
    assert ItemsWritten(j, vs)[0..] == ItemsWritten(j, vs);
    YieldIsInputs(j.sel, ItemsWritten(j, vs), 0, damage);
  }

  /** The records that reach the restoring thread, whatever the order in which the threads ran. */
  lemma {:induction false} RecordsRead(j: Job, vs: seq<Visit>, damage: Archive.Damage, run: Schedule)
    requires JobOk(j, vs) && DamageFits(j, vs, damage)
    requires RanToEnd(ReadInputs(ItemsWritten(j, vs), 0, MarksFor(j, vs, damage)), Decompress(j.codec, j.unpacking),
                      run)
    ensures var items := Taken(ReadInputs(ItemsWritten(j, vs), 0, MarksFor(j, vs, damage)),
                               Decompress(j.codec, j.unpacking), run);
            |j.prefix| <= |items| &&
            DecRecs(items, |j.prefix|) == Some(BlindAll(EmitAllHarmed(j.cfg, Saved(j.cfg, vs), Harms(j, vs, damage)) +
                                                        [Other(DATF, j.cfg.fsid)]))
  {
    hide CodecOk, Encodable, ReadInputs, DamageFits, RanToEnd, Taken, DecRecs, BlindAll, MainHeaderOk;
    hide RecordsOf, ArrivedRecs, LossFits;
    hide EmitAllHarmed, Harms, Saved, Pipeline.ExpectedAll, Pipeline.RunTo, VisitsOk, StreamOk;
    var recs, m := RecordsOf(j, vs), MarksFor(j, vs, damage);
    var inputs := ReadInputs(ItemsWritten(j, vs), 0, m);
    DamageBehind(j, vs, damage);
    GoneWhere(j, vs, damage);
    StreamDelivered(j.codec, j.packing, j.unpacking, j.prefix, recs, m);
    TakenIsExpected(inputs, Decompress(j.codec, j.unpacking), run);
    RecordsArrive(j, vs, damage);
  }

  /** What does not arrive: none of the headers in front, everything of other filesystems, and of this one
      what is damaged beyond reading. */
  lemma {:induction false} GoneWhere(j: Job, vs: seq<Visit>, damage: Archive.Damage)
    requires JobOk(j, vs) && (forall i :: i in damage ==> |j.prefix| <= i)
    ensures var gone := MarksFor(j, vs, damage).gone;
            && (forall i :: i in gone ==> |j.prefix| <= i)
            && (forall i :: |j.prefix| <= i < Base(j) ==> i in gone)
            && (forall i :: Base(j) <= i < Base(j) + |OwnRecords(j, vs)| ==>
                  (i in gone <==> i in Archive.Gone(damage)))
            && (forall i :: Base(j) + |OwnRecords(j, vs)| <= i < |ItemsWritten(j, vs)| ==> i in gone)
  {
    hide JobOk, ItemsWritten, OwnRecords, IsWanted;
    JobWritten(j, vs);
    forall i | 0 <= i < |ItemsWritten(j, vs)|
      ensures IsWanted(j.sel, ItemsWritten(j, vs)[i]) <==>
              i < |j.prefix| || Base(j) <= i < Base(j) + |OwnRecords(j, vs)|
    {
      ItemWanted(j, vs, i);
    }
  }

  lemma {:induction false} DamageBehind(j: Job, vs: seq<Visit>, damage: Archive.Damage)
    requires JobOk(j, vs) && DamageFits(j, vs, damage)
    ensures (forall i :: i in damage ==> |j.prefix| <= i) && LossFits(j, vs, Archive.Gone(damage))
  {
    hide JobOk, Archive.DamageOk, LossFits, Archive.Gone;
  }

  lemma {:induction false} JobWritten(j: Job, vs: seq<Visit>)
    requires JobOk(j, vs)
    ensures CfgOk(j.cfg) && VisitsOk(vs) && Encodable(j.codec, j.packing, j.prefix, RecordsOf(j, vs))
    ensures |ItemsWritten(j, vs)| == Base(j) + |OwnRecords(j, vs)| + |j.after|
  {
    hide CodecOk, Encodable, OwnRecords;
    EncodableRecs(j.codec, j.packing, j.prefix, RecordsOf(j, vs));
  }

  lemma {:induction false} RecordsArrive(j: Job, vs: seq<Visit>, damage: Archive.Damage)
    requires JobOk(j, vs) && DamageFits(j, vs, damage)
    ensures ArrivedRecs(RecordsOf(j, vs), |j.prefix|, MarksFor(j, vs, damage)) ==
            EmitAllHarmed(j.cfg, Saved(j.cfg, vs), Harms(j, vs, damage)) + [Other(DATF, j.cfg.fsid)]
  {
    hide JobOk, DamageFits, OwnRecords, RecordsOf, ArrivedRecs, MarksFor, Harms, EmitAllHarmed, Saved, ItemsWritten;
    hide Encodable, LossFits, VisitsOk, CfgOk, Archive.Gone;
    JobWritten(j, vs);
    DamageBehind(j, vs, damage);
    OthersGone(j, vs, damage);
    OwnArrive(j, vs, damage);
  }

  /** Of other filesystems nothing arrives. */
  lemma {:induction false} OthersGone(j: Job, vs: seq<Visit>, damage: Archive.Damage)
    requires JobOk(j, vs) && (forall i :: i in damage ==> |j.prefix| <= i)
    ensures ArrivedRecs(RecordsOf(j, vs), |j.prefix|, MarksFor(j, vs, damage)) ==
            ArrivedRecs(OwnRecords(j, vs), Base(j), MarksFor(j, vs, damage))
  {
    hide JobOk, OwnRecords, ArrivedRecs, MarksFor, ItemsWritten, Encodable, VisitsOk, CfgOk, Archive.Gone;
    JobWritten(j, vs);
    GoneWhere(j, vs, damage);
    MiddleArrives(j.before, OwnRecords(j, vs), j.after, |j.prefix|, MarksFor(j, vs, damage));
  }

  lemma {:induction false} MiddleArrives(before: seq<Rec>, own: seq<Rec>, after: seq<Rec>, start: nat, m: Marks)
    requires forall i :: start <= i < start + |before| ==> i in m.gone
    requires forall i :: start + |before| + |own| <= i < start + |before| + |own| + |after| ==> i in m.gone
    ensures ArrivedRecs(before + own + after, start, m) == ArrivedRecs(own, start + |before|, m)
  {
    hide ArrivedRecs;
    ArrivedConcat(before + own, after, start, m);
    ArrivedConcat(before, own, start, m);
    NothingArrives(before, start, m);
    NothingArrives(after, start + |before| + |own|, m);
  }

  lemma {:induction false} NothingArrives(recs: seq<Rec>, start: nat, m: Marks)
    requires forall i :: start <= i < start + |recs| ==> i in m.gone
    ensures ArrivedRecs(recs, start, m) == []
  {
    NoneArrive(start, |recs|, m.gone);
  }

  lemma {:induction false} OwnArrive(j: Job, vs: seq<Visit>, damage: Archive.Damage)
    requires JobOk(j, vs) && DamageFits(j, vs, damage)
    ensures ArrivedRecs(OwnRecords(j, vs), Base(j), MarksFor(j, vs, damage)) ==
            EmitAllHarmed(j.cfg, Saved(j.cfg, vs), Harms(j, vs, damage)) + [Other(DATF, j.cfg.fsid)]
  {
    hide JobOk, DamageFits, EmitAllHarmed, ArrivedHarms, Saved, ArrivedRecs, MarksFor, ItemsWritten, Encodable;
    JobWritten(j, vs);
    DamageBehind(j, vs, damage);
    GoneWhere(j, vs, damage);
    FilesystemArrives(j, vs, MarksFor(j, vs, damage), Archive.Gone(damage));
  }

  lemma {:induction false} FilesystemArrives(j: Job, vs: seq<Visit>, m: Marks, gone: set<nat>)
    requires CfgOk(j.cfg) && VisitsOk(vs) && LossFits(j, vs, gone)
    requires forall i :: Base(j) <= i < Base(j) + |OwnRecords(j, vs)| ==> (i in m.gone <==> i in gone)
    ensures UnitsOk(Saved(j.cfg, vs))
    ensures ArrivedRecs(OwnRecords(j, vs), Base(j), m) ==
            EmitAllHarmed(j.cfg, Saved(j.cfg, vs), ArrivedHarms(j.cfg, Saved(j.cfg, vs), Base(j), m)) +
            [Other(DATF, j.cfg.fsid)]
  {
    hide Emit, EmitAllHarmed, ArrivedHarms, Saved, UnitsOk, DigestsOk, ArrivedRecs, AllGoneOk, Puts, VisitPuts;
    SavedPutsExact(j.cfg, vs);
    UnitsArrive(j.cfg, Saved(j.cfg, vs), Base(j), m, gone);
  }

  lemma {:induction false} UnitsArrive(c: Cfg, us: seq<Unit>, start: nat, m: Marks, gone: set<nat>)
    requires CfgOk(c) && UnitsOk(us) && AllGoneOk(c, us, start, gone) && start + |Emit(c, us)| !in gone
    requires forall i :: start <= i <= start + |Emit(c, us)| ==> (i in m.gone <==> i in gone)
    ensures ArrivedRecs(Emit(c, us) + [Other(DATF, c.fsid)], start, m) ==
            EmitAllHarmed(c, us, ArrivedHarms(c, us, start, m)) + [Other(DATF, c.fsid)]
  {
    hide Emit, EmitAllHarmed, ArrivedHarms, UnitsOk, ArrivedRecs, AllGoneOk;
    var last := Other(DATF, c.fsid);
    SameGone(c, us, start, gone, m.gone);
    ArrivedConcat(Emit(c, us), [last], start, m);
    ArrivedIsHarm(c, us, start, m);
    ArrivedOne(last, start + |Emit(c, us)|, m);
  }

  /** Only the numbers of its own records matter to a filesystem. */
  lemma {:induction false} SameGone(c: Cfg, us: seq<Unit>, start: nat, a: set<nat>, b: set<nat>)
    requires CfgOk(c) && UnitsOk(us) && AllGoneOk(c, us, start, a)
    requires forall i :: start <= i < start + |Emit(c, us)| ==> (i in a <==> i in b)
    ensures AllGoneOk(c, us, start, b)
  {
    hide EmitUnit, UnitOk, GoneOk;
    if us != [] {
      var n := |us| - 1;
      SameGone(c, us[..n], start, a, b);
      SameGoneUnit(c, us[n], start + |Emit(c, us[..n])|, a, b);
    }
  }

  lemma {:induction false} SameGoneUnit(c: Cfg, u: Unit, start: nat, a: set<nat>, b: set<nat>)
    requires CfgOk(c) && UnitOk(u) && GoneOk(c, u, start, a)
    requires forall i :: start <= i < start + |EmitUnit(c, u)| ==> (i in a <==> i in b)
    ensures GoneOk(c, u, start, b)
  {
    hide Chunks, RegMulti.PackedHeads, RegMulti.TotalSize;
  }

  /** The records that were taken, put back into an empty file system. */
  function RestoreFrom(j: Job, excluded: Path -> bool, items: seq<Item>): Option<Outcome>
    requires |j.prefix| <= |items|
  {
    match DecRecs(items, |j.prefix|)
    case None => None
    case Some(recs) => Some(ReadObjects(EnvOf(j.cfg, excluded), Ex(recs, Placement.Empty.fs, NoStats)))
  }

  /** The writing thread takes the same items in every complete run of the compressing threads. */
  lemma {:induction false} WrittenInAnyRun(j: Job, vs: seq<Visit>, run: Schedule)
    requires JobOk(j, vs)
    requires RanToEnd(Script(j.prefix, RecordsOf(j, vs)), Compress(j.codec, j.packing), run)
    ensures Taken(Script(j.prefix, RecordsOf(j, vs)), Compress(j.codec, j.packing), run) == ItemsWritten(j, vs)
  {
    hide CodecOk, RanToEnd, Taken, Pipeline.ExpectedAll, Pipeline.RunTo, RecordsOf, MainHeaderOk, RecsOk, HeadersOk;
    ScriptIsOk(j.prefix, RecordsOf(j, vs));
    TakenIsExpected(Script(j.prefix, RecordsOf(j, vs)), Compress(j.codec, j.packing), run);
  }

  lemma {:induction false} ScriptIsOk(prefix: seq<Header>, recs: seq<Rec>)
    requires RecsOk(recs)
    ensures Pipeline.ScriptOk(Script(prefix, recs))
  {
    hide ObjCodec.EncRec, RecsOk;
    RecsAreOk(recs);
    var script := Script(prefix, recs);
    forall i | 0 <= i < |script| ensures Pipeline.InputOk(script[i]) {
      assert i >= |prefix| ==> script[i] == Queued(ObjCodec.EncRec(recs[i - |prefix|]));
    }
  }

  lemma {:induction false} RecsAreOk(recs: seq<Rec>)
    requires RecsOk(recs)
    ensures forall i :: 0 <= i < |recs| ==> ObjCodec.RecOk(recs[i])
  {}

  /** Restoring came to the end of the filesystem, left everything that was saved but for the loss, and
      counted the damaged files. */
  ghost predicate RestoredExcept(out: Option<Outcome>, vs: seq<Visit>, l: Loss) {
    && out.Some? && out.value.Continue? && RestoredAs(vs, l, out.value.ex.fs, KeyAttrs(vs))
    && (Snapshot(vs) && KeysOk(vs) ==> Faithful(vs, l, out.value.ex.fs))
    && out.value.ex.stats.fileErrors == |DamagedFiles(l)|
  }

  /** Altered data in the volumes cost nothing but the files they belong to, and altered headers nothing
      but their objects. However the threads are scheduled on both sides, and whatever other filesystems the
      archive has, it is read to its end, and everything else is restored: with its contents and attributes,
      and with the same names sharing an inode. */
  lemma {:induction false} DamagedArchiveRestored(j: Job, vs: seq<Visit>, excluded: Path -> bool,
                                                  damage: Archive.Damage,
                                                  run: Schedule)
    requires JobOk(j, vs) && DistinctPaths(vs) && TreeShaped(vs) && DamageFits(j, vs, damage)
    requires AllDetected(j.cfg, Saved(j.cfg, vs), Harms(j, vs, damage))
    requires RanToEnd(ReadInputs(ItemsWritten(j, vs), 0, MarksFor(j, vs, damage)), Decompress(j.codec, j.unpacking),
                      run)
    ensures ArchWriter.AllOk(ItemsWritten(j, vs)) && |ItemsWritten(j, vs)| < 0xffff_ffff
    ensures var read := Reader.ReadArchive(StoredVolumes(j, vs, damage), j.sel);
            read.complete && read.inputs == ReadInputs(ItemsWritten(j, vs), 0, MarksFor(j, vs, damage))
    ensures var items := Taken(ReadInputs(ItemsWritten(j, vs), 0, MarksFor(j, vs, damage)),
                               Decompress(j.codec, j.unpacking), run);
            var hs := Harms(j, vs, damage);
            && |j.prefix| <= |items|
            && RestoredExcept(RestoreFrom(j, excluded, items), vs, LossFrom(j.cfg, vs, excluded, hs))
  {
    hide CodecOk, Encodable, DamageFits, RanToEnd, Taken, DecRecs, RecordsOf, MainHeaderOk, Pipeline.RunTo;
    hide Saved, Harms, ReadInputs;
    hide RestoredExcept, LossFrom, DistinctPaths, TreeShaped, VisitsOk, AllDetected, StreamOk;
    hide ArchWriter.AllOk, Reader.ReadArchive, StoredVolumes, ReadObjects, EmitAllHarmed, ItemsWritten;
    ArchiveRead(j, vs, damage);
    RecordsRead(j, vs, damage, run);
    RestoredFromStream(j, vs, excluded, Harms(j, vs, damage));
  }

  lemma {:induction false} RestoredFromStream(j: Job, vs: seq<Visit>, excluded: Path -> bool, hs: seq<Harm>)
    requires CfgOk(j.cfg) && VisitsOk(vs) && DistinctPaths(vs) && TreeShaped(vs) && DamageOk(j.cfg, vs, hs)
    ensures var stream := EmitAllHarmed(j.cfg, Saved(j.cfg, vs), hs) + [Other(DATF, j.cfg.fsid)];
            var out := ReadObjects(EnvOf(j.cfg, excluded), Ex(BlindAll(stream), Placement.Empty.fs, NoStats));
            RestoredExcept(Some(out), vs, LossFrom(j.cfg, vs, excluded, hs))
  {
    hide LossFrom, RestoredAs, Faithful, Snapshot, KeysOk, KeyAttrs, DistinctPaths, TreeShaped, VisitsOk, AllDetected;
    hide UnitOk, HarmOk, DigestsOk, ReadObjects, EmitAllHarmed, Saved, DamagedFiles, LostLinks, AllJunkErrors;
    var stream := EmitAllHarmed(j.cfg, Saved(j.cfg, vs), hs) + [Other(DATF, j.cfg.fsid)];
    BlindRead(EnvOf(j.cfg, excluded), Ex(stream, Placement.Empty.fs, NoStats));
    DamageIsContained(j.cfg, vs, excluded, hs);
    if Snapshot(vs) && KeysOk(vs) {
      DamagedTreeFaithful(j.cfg, vs, excluded, hs);
    }
  }

  // ---- without damage

  lemma {:induction false} NothingZeroed(content: bytes, pos: nat, blksize: nat, fsid: u16, i: nat, m: Marks)
    requires blksize > 0 && pos <= |content| < 0x1_0000_0000_0000_0000 && m.bad == {}
    requires forall k :: i <= k < i + |Chunks(content, pos, blksize, fsid)| ==> k !in m.gone
    ensures Whole(ArrivedBlocks(content, pos, blksize, i, m)) == Some(content[pos..])
    decreases |content| - pos
  {
    if pos < |content| {
      var n := Min(|content| - pos, blksize);
      NothingZeroed(content, pos + n, blksize, fsid, i + 1, m);
      var r := ArrivedBlocks(content, pos, blksize, i, m);
      assert r[1..] == ArrivedBlocks(content, pos + n, blksize, i + 1, m);
      assert content[pos..pos + n] + content[pos + n..] == content[pos..];
    } else {
      assert content[pos..] == [];
    }
  }

  lemma {:induction false} UnitUnharmed(c: Cfg, u: Unit, start: nat, m: Marks)
    requires CfgOk(c) && UnitOk(u) && m.bad == {}
    requires forall i :: start <= i < start + |EmitUnit(c, u)| ==> i !in m.gone
    ensures var kind := ArrivedKind(c, u, start, m);
            Detected(c, u, kind) && forall f :: f in UnitFates(c, u, kind) ==> f == Kept
  {
    hide Chunks, RegMulti.PackedHeads, ArrivedBlocks, Whole;
    if u.Large? {
      NothingZeroed(u.content, 0, c.blksize, c.fsid, start + 1, m);
      assert u.content[0..] == u.content;
    }
  }

  lemma {:induction false} NothingTouched(c: Cfg, us: seq<Unit>, start: nat, m: Marks)
    requires CfgOk(c) && UnitsOk(us) && m.bad == {} && forall i :: 0 <= i < |us| ==> DigestsOk(c, us[i])
    requires forall i :: start <= i < start + |Emit(c, us)| ==> i !in m.gone
    ensures var hs := ArrivedHarms(c, us, start, m);
            StreamOk(c, us, hs) && AllDetected(c, us, hs) && forall f :: f in Fates(c, us, hs) ==> f == Kept
  {
    hide EmitUnit, UnitOk, DigestsOk, UnitFates, ArrivedKind, Detected, KindOk;
    if us != [] {
      var n := |us| - 1;
      var hs := ArrivedHarms(c, us, start, m);
      NothingTouched(c, us[..n], start, m);
      UnitUnharmed(c, us[n], start + |Emit(c, us[..n])|, m);
      assert hs[..n] == ArrivedHarms(c, us[..n], start, m);
    }
  }

  /** An undamaged archive gives back the tree, if and only if no two devices have files with several
      links, the same inode number and the same st_rdev. */
  lemma {:induction false} ArchiveRoundTrip(j: Job, vs: seq<Visit>, run: Schedule)
    requires JobOk(j, vs) && DistinctPaths(vs) && TreeShaped(vs) && Snapshot(vs)
    requires RanToEnd(ReadInputs(ItemsWritten(j, vs), 0, MarksFor(j, vs, map[])), Decompress(j.codec, j.unpacking), run)
    ensures ArchWriter.AllOk(ItemsWritten(j, vs)) && |ItemsWritten(j, vs)| < 0xffff_ffff
    ensures var read := Reader.ReadArchive(ArchWriter.VolumesOf(j.archid, j.splitsize, ItemsWritten(j, vs)), j.sel);
            read.complete && read.inputs == ReadInputs(ItemsWritten(j, vs), 0, MarksFor(j, vs, map[]))
    ensures var items := Taken(ReadInputs(ItemsWritten(j, vs), 0, MarksFor(j, vs, map[])),
                               Decompress(j.codec, j.unpacking), run);
            && |j.prefix| <= |items|
            && var out := RestoreFrom(j, NoneExcluded, items);
               out.Some? && out.value.Continue? && (Faithful(vs, NoLoss, out.value.ex.fs) <==> KeysOk(vs))
  {
    hide CodecOk, Encodable, Pipeline.Enabled, Taken, RecordsOf, MainHeaderOk, Pipeline.RunTo, Saved;
    hide ReadInputs, ItemsWritten, DamageFits;
    hide RestoredAs, Faithful, Snapshot, KeysOk, KeyAttrs, DistinctPaths, TreeShaped, VisitsOk, AllDetected;
    hide LossFrom, Harms;
    hide ArchWriter.AllOk, ArchWriter.VolumesOf, Reader.ReadArchive, RestoreFrom, StoredVolumes;
    var damage: Archive.Damage := map[];
    ItemsOk(j, vs);
    NoDamageFits(j, vs);
    NothingHarmed(j, vs);
    DamagedArchiveRestored(j, vs, NoneExcluded, damage, run);
    var items := Taken(ReadInputs(ItemsWritten(j, vs), 0, MarksFor(j, vs, map[])), Decompress(j.codec, j.unpacking),
                       run);
    FaithfulIff(vs, RestoreFrom(j, NoneExcluded, items).value.ex.fs);
  }

  lemma {:induction false} NoneGone(c: Cfg, us: seq<Unit>, start: nat)
    requires CfgOk(c) && UnitsOk(us)
    ensures AllGoneOk(c, us, start, {})
  {
    hide EmitUnit, UnitOk;
    if us != [] {
      NoneGone(c, us[..|us| - 1], start);
    }
  }

  lemma {:induction false} NoDamageFits(j: Job, vs: seq<Visit>)
    requires JobOk(j, vs) && ArchWriter.AllOk(ItemsWritten(j, vs)) && |ItemsWritten(j, vs)| < 0xffff_ffff
    ensures DamageFits(j, vs, map[])
    ensures StoredVolumes(j, vs, map[]) == ArchWriter.VolumesOf(j.archid, j.splitsize, ItemsWritten(j, vs))
  {
    hide JobOk, Encodable, RecordsOf, ItemsWritten, ArchWriter.AllOk, ArchWriter.VolumesOf, LossFits;
    hide Archive.DamagedVolumes;
    JobWritten(j, vs);
    Archive.NoDamage(j.archid, j.splitsize, ItemsWritten(j, vs));
    NoLossFits(j, vs);
    assert Archive.Gone(map[]) == {};
  }

  lemma {:induction false} NoLossFits(j: Job, vs: seq<Visit>)
    requires CfgOk(j.cfg) && VisitsOk(vs)
    ensures LossFits(j, vs, {})
  {
    hide Saved, AllGoneOk;
    SavedPutsExact(j.cfg, vs);
    NoneGone(j.cfg, Saved(j.cfg, vs), Base(j));
  }

  lemma {:induction false} NothingHarmed(j: Job, vs: seq<Visit>)
    requires JobOk(j, vs)
    ensures var hs := Harms(j, vs, map[]);
            && AllDetected(j.cfg, Saved(j.cfg, vs), hs)
            && LossFrom(j.cfg, vs, NoneExcluded, hs) == NoLoss
  {
    hide JobOk, Saved, UnitOk, DigestsOk, ArrivedHarms, LossOf, Fates;
    var damage: Archive.Damage := map[];
    JobWritten(j, vs);
    GoneWhere(j, vs, damage);
    SavedPutsExact(j.cfg, vs);
    NothingTouched(j.cfg, Saved(j.cfg, vs), Base(j), MarksFor(j, vs, damage));
    NothingLost(j.cfg, Saved(j.cfg, vs), Harms(j, vs, damage));
  }

  // ---- for trees

  /** The algorithm is supported and the cipher works. */
  ghost predicate CompressionWorks(c: Codec, o: Options) {
    forall b: Block :: Clear(b) ==> Compressed(c, o, b).Some?
  }

  ghost predicate TreeJobOk(j: Job, vs: seq<Visit>) {
    && CfgOk(j.cfg) && VisitsOk(vs) && VisitsEncodable(vs) && DigestsShort(j.cfg)
    && CodecOk(j.codec) && CompressionWorks(j.codec, j.packing) && (j.packing.encrypting ==> j.unpacking.encrypting)
    && MainHeaderOk(j) && HeadersOk(j.prefix) && RecsOk(j.before) && RecsOk(j.after)
    && |j.prefix| + |RecordsOf(j, vs)| < 0xffff_ffff
  }

  /** Any tree with short paths and ordinary attributes can be archived. */
  lemma {:induction false} TreesFit(j: Job, vs: seq<Visit>)
    requires TreeJobOk(j, vs)
    ensures JobOk(j, vs)
  {
    hide CodecOk, CompressionWorks, Saved, RecsOk, VisitsEncodable, HeadersOk, MainHeaderOk;
    hide Pipeline.NeverFails, DigestsShort;
    SavedTreeFits(j.cfg, vs);
    AllRecsOk(j, vs);
    ScriptCompresses(j.codec, j.packing, j.prefix, RecordsOf(j, vs));
  }

  lemma {:induction false} AllRecsOk(j: Job, vs: seq<Visit>)
    requires CfgOk(j.cfg) && VisitsOk(vs) && RecsOk(j.before) && RecsOk(OwnRecords(j, vs)) && RecsOk(j.after)
    ensures RecsOk(RecordsOf(j, vs))
  {
    hide ObjCodec.RecOk, OwnRecords;
  }

  lemma {:induction false} ScriptCompresses(c: Codec, o: Options, prefix: seq<Header>, recs: seq<Rec>)
    requires RecsOk(recs) && CompressionWorks(c, o)
    ensures Pipeline.NeverFails(Script(prefix, recs), Compress(c, o))
  {
    hide RecsOk, Compressed, ObjCodec.HeadOk, ObjCodec.EncHead;
    RecsAreOk(recs);
    var script := Script(prefix, recs);
    forall i | 0 <= i < |script| && script[i].status == Todo && script[i].item.BlockItem?
      ensures Compress(c, o)(script[i].item.block).Some?
    {
      assert script[i] == Queued(ObjCodec.EncRec(recs[i - |prefix|]));
      assert Clear(script[i].item.block);
    }
  }

  /** A directory tree, archived and restored. */
  lemma {:induction false} TreeRoundTrip(j: Job, path: Path, t: Tree, run: Schedule)
    requires TreeOk(t) && t.DirTree? && Steady(j.cfg.exclude, path, t)
    requires var vs := Visits(j.cfg.exclude, path, t);
             TreeJobOk(j, vs) && JobOk(j, vs) &&
             RanToEnd(ReadInputs(ItemsWritten(j, vs), 0, MarksFor(j, vs, map[])), Decompress(j.codec, j.unpacking), run)
    ensures var vs := Visits(j.cfg.exclude, path, t);
            var items := Taken(ReadInputs(ItemsWritten(j, vs), 0, MarksFor(j, vs, map[])),
                               Decompress(j.codec, j.unpacking), run);
            |j.prefix| <= |items| &&
            var out := RestoreFrom(j, NoneExcluded, items);
            && out.Some? && out.value.Continue?
            && (IsTree(j.cfg.exclude, path, t, out.value.ex.fs) <==> KeysTell(j.cfg.exclude, path, t))
  {
    hide JobOk, TreeJobOk, Snapshot, RanToEnd, Faithful, KeysOk, TreeShaped, Steady, KeysTell, IsTree, TreeOk, Visits;
    hide Encodable, ItemsWritten, RecordsOf, VisitsOk, Taken, ReadInputs, MarksFor, RestoreFrom;
    hide Reader.ReadArchive, ArchWriter.VolumesOf;
    WalkDistinct(j.cfg.exclude, path, t);
    WalkShaped(j.cfg.exclude, path, t);
    SteadyIsSnapshot(j.cfg.exclude, path, t);
    KeysTellIff(j.cfg.exclude, path, t);
    var vs := Visits(j.cfg.exclude, path, t);
    JobWritten(j, vs);
    ArchiveRoundTrip(j, vs, run);
    forall fs ensures IsTree(j.cfg.exclude, path, t, fs) <==> Faithful(vs, NoLoss, fs) {
      TreeIffFaithful(j.cfg.exclude, path, t, fs);
    }
  }
}
