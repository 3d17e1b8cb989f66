/** Archives of given trees: that what the theorems ask for can be met, and inputs at which a promise of the
    documentation fails. */
module Examples {
  import opened Bytes
  import opened ArchiveItems
  import opened Records
  import opened Walk
  import opened OperSave
  import opened Damage
  import opened SavedPuts
  import opened SaveRestore
  import opened RoundTrip
  import opened Placement
  import opened BlockTransform
  import opened Arrived
  import opened ObjCodec
  import opened EndToEnd
  import opened TreeEncoding
  import opened WholeArchive
  import Dico
  import Fletcher
  import Sums
  import RegMulti
  import Format
  import Volumes
  import VolumeChain
  import Reader
  import ArchWriter
  import Archive
  import MainHeader

  /** The checksum as a digest. */
  function Digest(content: bytes): (md5: bytes)
    ensures |md5| == 4
  {
    Le32(Fletcher.Checksum(content))
  }

  lemma {:induction false} DigestsTell(a: bytes, b: bytes)
    requires Fletcher.Checksum(a) != Fletcher.Checksum(b)
    ensures Digest(a) != Digest(b)
  {
    DecodeEncode32(Fletcher.Checksum(a));
    DecodeEncode32(Fletcher.Checksum(b));
  }

  /** A build whose compressor always gives up. */
  const Stored: Codec :=
    Codec(true, a => a == COMPRESS_ZSTD, (_, _, _) => CompFailed, (_, _, _) => None, _ => None, _ => None)

  const Plainly := Options(COMPRESS_ZSTD, 3, false)

  lemma {:induction false} StoredOk()
    ensures CodecOk(Stored) && CompressionWorks(Stored, Plainly)
  {}

  /** Blocks are stored as they are. */
  lemma {:induction false} StoredAsIs(b: Block)
    requires Clear(b)
    ensures var p := Compressed(Stored, Plainly, b);
            && p.Some? && p.value.data == b.data && p.value.arSize == |b.data| && p.value.realSize == |b.data|
            && p.value.arcSum == Fletcher.Checksum(b.data)
  {
    hide Fletcher.Checksum;
  }

  // ---- one small file, behind another filesystem

  const SampleVisits: seq<Visit> := [FileVisit([SLASH, 97], 1, 0, 5, 1, 1, false, [], [7])]

  const SampleJob: Job := Job(
    Cfg(4096, 0, Digest, _ => false, 0), Stored, Plainly, Plainly, 1, 0,
    [Header(MAIN, Format.FILESYSID_NULL, [Dico.U32Item(0, Reader.MH_ARCHIVEID, 1)])], f => f == 0, [Other(DATF, 5)], [])

  lemma {:induction false} SampleVisitsOk()
    ensures VisitsOk(SampleVisits) && VisitsEncodable(SampleVisits) && DigestsShort(SampleJob.cfg)
    ensures DistinctPaths(SampleVisits) && TreeShaped(SampleVisits) && Snapshot(SampleVisits) && KeysOk(SampleVisits)
  {
    hide Digest;
  }

  lemma {:induction false} SampleHeaderOk()
    ensures MainHeaderOk(SampleJob) && HeadersOk(SampleJob.prefix)
  {
    hide Dico.GetU32;
    var d := [Dico.U32Item(0, Reader.MH_ARCHIVEID, 1)];
    Dico.GetItemAt(d, 0);
    Format.ShortPrintable(d);
  }

  const SampleFile: RegMulti.SmallFile := Digested(SampleJob.cfg, HeadOf(SampleVisits[0], REGFILEMULTI, 0), [7])

  /** One header, one shared block, and the end marker. */
  lemma {:induction false} SampleSaved()
    requires VisitsOk(SampleVisits)
    ensures Saved(SampleJob.cfg, SampleVisits) == [Shared([SampleFile])]
    ensures UnitOk(Shared([SampleFile])) && RegMulti.TotalSize([SampleFile]) == 1
    ensures OwnRecords(SampleJob, SampleVisits) ==
            [Obj(RegMulti.PackedHead([SampleFile], 0), 0), Blk(0, [7], 0), Other(DATF, 0)]
  {
    hide Digest, SaveVisit, RegMulti.EmitPack, UnitOk;
    var c, v, f := SampleJob.cfg, SampleVisits[0], SampleFile;
    SaveOne(c, Start(c), v);
    assert SampleVisits == [v];
    SampleVisitSaved();
    SampleFileOk();
    SavedPutsExact(c, SampleVisits);
    EmitSnoc(c, [], Shared([f]));
    assert [] + [Shared([f])] == [Shared([f])];
  }

  lemma {:induction false} SampleVisitSaved()
    ensures SaveVisit(SampleJob.cfg, Start(SampleJob.cfg), SampleVisits[0]) == SaveState([], [SampleFile], [], 1, 0)
  {
    hide Digest;
    assert ContentOf(SampleVisits[0]) == [7];
    NoBytes();
  }

  lemma {:induction false} SampleFileOk()
    ensures UnitOk(Shared([SampleFile])) && RegMulti.TotalSize([SampleFile]) == 1
    ensures RegMulti.EmitPack([SampleFile], 0) == [Obj(RegMulti.PackedHead([SampleFile], 0), 0), Blk(0, [7], 0)]
  {
    hide Digest;
    RegMulti.SharedSize([SampleFile]);
    assert [SampleFile][..0] == [] && [] + [7] == [7];
  }

  lemma {:induction false} SampleIsOk()
    ensures TreeJobOk(SampleJob, SampleVisits) && Snapshot(SampleVisits) && KeysOk(SampleVisits)
    ensures DistinctPaths(SampleVisits) && TreeShaped(SampleVisits)
  {
    hide CodecOk, CompressionWorks, MainHeaderOk, HeadersOk, OwnRecords, Snapshot, VisitsEncodable, DigestsShort;
    SampleVisitsOk();
    StoredOk();
    SampleHeaderOk();
    SampleSaved();
    assert RecOk(Other(DATF, 5));
  }

  /** The byte of the shared block is altered. */
  const SampleDamage: Archive.Damage := map[3 := Archive.Data([8])]

  lemma {:induction false} SampleItems()
    requires JobOk(SampleJob, SampleVisits)
    ensures var items := ItemsWritten(SampleJob, SampleVisits);
            && |items| == 5 && items[2].HeaderItem? && items[3].BlockItem? && Format.BlockOk(items[3].block)
            && items[3].block.data == [7] && items[3].block.arcSum == Fletcher.Checksum([7])
  {
    hide JobOk, Encodable, Digest, OwnRecords, Written, Compressed, Format.BlockOk, RecsOk;
    JobWritten(SampleJob, SampleVisits);
    SampleSaved();
    var recs := RecordsOf(SampleJob, SampleVisits);
    assert |recs| == 4 && recs[2] == Blk(0, [7], 0) && recs[1].Obj?;
    JobCodec(SampleJob, SampleVisits);
    WrittenAt(Stored, Plainly, SampleJob.prefix, recs, 2);
    RecWritten(SampleJob.prefix, recs, 3);
  }

  /** Records are written as they are, blocks with their checksum. */
  lemma {:induction false} RecWritten(prefix: seq<Header>, recs: seq<Rec>, i: nat)
    requires Encodable(Stored, Plainly, prefix, recs) && |prefix| <= i < |prefix| + |recs|
    ensures RecsOk(recs) && VolumeChain.ItemOk(Written(Stored, Plainly, prefix, recs)[i])
    ensures var w, rec := Written(Stored, Plainly, prefix, recs)[i], recs[i - |prefix|];
            && RecOk(rec)
            && (rec.Blk? ==> w.BlockItem? && Format.BlockOk(w.block) && w.block.data == rec.data &&
                             w.block.arcSum == Fletcher.Checksum(rec.data))
            && (!rec.Blk? ==> w == EncRec(rec))
  {
    hide Encodable, Written, Compressed, Format.BlockOk, RecsOk, HeadOk, EncHead, Fletcher.Checksum, Format.Printable;
    EncodableRecs(Stored, Plainly, prefix, recs);
    StoredOk();
    WrittenAt(Stored, Plainly, prefix, recs, i);
    if recs[i - |prefix|].Blk? {
      StoredAsIs(EncRec(recs[i - |prefix|]).block);
    }
  }

  lemma {:induction false} JobCodec(j: Job, vs: seq<Visit>)
    requires JobOk(j, vs)
    ensures CodecOk(j.codec) && RecsOk(RecordsOf(j, vs))
  {}

  lemma {:induction false} OtherSum()
    ensures Fletcher.Checksum([8]) != Fletcher.Checksum([7]) && Fletcher.Checksum([0]) != Fletcher.Checksum([7])
  {
    hide Fletcher.Checksum;
    var d: bytes := [7];
    assert d[0 := 8] == [8] && d[0 := 0] == [0];
    Fletcher.OneByteDetected(d, 0, 8);
    Fletcher.OneByteDetected(d, 0, 0);
  }

  lemma {:induction false} SampleDamageFits()
    requires JobOk(SampleJob, SampleVisits)
    ensures DamageFits(SampleJob, SampleVisits, SampleDamage)
  {
    hide JobOk, Archive.DamageOk, ItemsWritten, LossFits, Encodable;
    JobWritten(SampleJob, SampleVisits);
    SampleItems();
    ByteAltered(ItemsWritten(SampleJob, SampleVisits));
    NoLossFits(SampleJob, SampleVisits);
    assert Archive.Gone(SampleDamage) == {};
  }

  lemma {:induction false} ByteAltered(items: seq<Item>)
    requires |items| == 5 && items[3].BlockItem? && Format.BlockOk(items[3].block)
    requires items[3].block.data == [7] && items[3].block.arcSum == Fletcher.Checksum([7])
    ensures Archive.DamageOk(1, items, SampleDamage)
  {
    hide Fletcher.Checksum;
    OtherSum();
    assert Format.Resync([8]) == [];
  }

  lemma {:induction false} SampleHarms()
    requires JobOk(SampleJob, SampleVisits) && DamageFits(SampleJob, SampleVisits, SampleDamage)
    ensures Harms(SampleJob, SampleVisits, SampleDamage) == [Harm([], SharedBlock(Zeros(1)))]
  {
    hide JobOk, Encodable, ItemsWritten, Saved, RegMulti.TotalSize, UnitOk, MarksOf;
    JobWritten(SampleJob, SampleVisits);
    SampleSaved();
    DamageBehind(SampleJob, SampleVisits, SampleDamage);
    GoneWhere(SampleJob, SampleVisits, SampleDamage);
    var m := MarksFor(SampleJob, SampleVisits, SampleDamage);
    SpoiltMarked(SampleJob, SampleVisits, SampleDamage);
    assert 2 !in m.gone && 3 in m.bad;
    assert [Shared([SampleFile])][..0] == [];
  }

  lemma {:induction false} SpoiltMarked(j: Job, vs: seq<Visit>, damage: Archive.Damage)
    requires CfgOk(j.cfg) && VisitsOk(vs) && Encodable(j.codec, j.packing, j.prefix, RecordsOf(j, vs))
    ensures MarksFor(j, vs, damage).bad == Archive.Spoilt(damage)
  {
    hide Encodable, ItemsWritten;
  }

  /** The damage is seen, and costs the contents of the file. */
  lemma {:induction false} SampleDamaged()
    ensures JobOk(SampleJob, SampleVisits) && DamageFits(SampleJob, SampleVisits, SampleDamage)
    ensures var hs := Harms(SampleJob, SampleVisits, SampleDamage);
            && AllDetected(SampleJob.cfg, Saved(SampleJob.cfg, SampleVisits), hs)
            && LossFrom(SampleJob.cfg, SampleVisits, NoneExcluded, hs) == Loss(NoneExcluded, {}, {}, {[SLASH, 97]})
  {
    hide JobOk, TreeJobOk, DamageFits, Harms, Saved, Fletcher.Checksum, Digest;
    SampleIsOk();
    TreesFit(SampleJob, SampleVisits);
    SampleDamageFits();
    JobWritten(SampleJob, SampleVisits);
    SampleHarms();
    SampleSaved();
    OneAltered();
  }

  lemma {:induction false} OneAltered()
    requires UnitOk(Shared([SampleFile])) && RegMulti.TotalSize([SampleFile]) == 1
    ensures var c, us, hs := SampleJob.cfg, [Shared([SampleFile])], [Harm([], SharedBlock(Zeros(1)))];
            && StreamOk(c, us, hs) && AllDetected(c, us, hs)
            && LossOf(c, NoneExcluded, us, hs) == Loss(NoneExcluded, {}, {}, {[SLASH, 97]})
  {
    hide Digest, Fletcher.Checksum, RegMulti.TotalSize;
    var c, u, kind := SampleJob.cfg, Shared([SampleFile]), SharedBlock(Zeros(1));
    OtherSum();
    DigestsTell([0], [7]);
    RegMulti.OffsetsTile([SampleFile], 0);
    assert Received([SampleFile], Zeros(1), 0) == [0];
    assert UnitFates(c, u, kind) == [Altered];
    assert [u][..0] == [] && [Harm([], kind)][..0] == [];
    assert Fates(c, [u], [Harm([], kind)]) == [Altered];
    var put := PutFile([SLASH, 97], [7], []);
    assert Puts([u]) == [put];
    OnePath(put, Altered, Unseen);
    OnePath(put, Altered, Broken);
    OnePath(put, Altered, Altered);
  }

  lemma {:induction false} OnePath(put: Op, fate: Fate, f: Fate)
    ensures PathsWith([put], [fate], f) == if f == fate then {put.path} else {}
  {
    assert [put][0] == put && [fate][0] == fate;
  }

  // ---- one large file that fills a volume

  /** A directory with one file of n zeros. */
  function BigTree(n: u64): Tree {
    DirTree(0, [], [DirEntry([97], FileTree(1, 0, 5, 1, n, false, [], Zeros(n)))])
  }

  function BigVisits(n: u64): seq<Visit> {
    [PlainVisit(ROOT, DIR, 0, []), FileVisit([SLASH, 97], 1, 0, 5, 1, n, false, [], Zeros(n))]
  }

  /** With volumes of at most 1 MiB. */
  function BigJob(m: MainHeader.Info): Job {
    Job(Cfg(MAX_BLKSIZE, 0, Digest, NoneExcluded, 0), Stored, Plainly, Plainly, m.archid, Archive.MIB,
        [MainHeader.MainOf(m)], f => f == 0, [], [])
  }

  lemma {:induction false} BigWalk(n: u64)
    ensures TreeOk(BigTree(n)) && Visits(NoneExcluded, ROOT, BigTree(n)) == BigVisits(n)
  {
    var t, e := BigTree(n), BigTree(n).entries[0];
    assert Join(ROOT, e.name) == [SLASH, 97];
    assert VisitsOfEntry(NoneExcluded, ROOT, e) == [BigVisits(n)[1]];
    assert EntryVisits(NoneExcluded, ROOT, t, 0) == [];
    assert EntryVisits(NoneExcluded, ROOT, t, 1) == [BigVisits(n)[1]];
  }

  lemma {:induction false} BigVisitsOk(m: MainHeader.Info, n: u64)
    ensures VisitsOk(BigVisits(n)) && VisitsEncodable(BigVisits(n)) && DigestsShort(BigJob(m).cfg)
  {
    hide Digest, Zeros;
  }

  function PlainHead(id: u64, objtype: ObjType, path: Path, size: u64): ObjHead {
    ObjHead(id, objtype, path, size, [], None, false, None, None, None)
  }

  function BigUnits(n: u64): seq<Unit> {
    [Single(PlainHead(0, DIR, ROOT, 0)), Large(PlainHead(1, REGFILEUNIQUE, [SLASH, 97], n), Zeros(n))]
  }

  lemma {:induction false} BigSaved(m: MainHeader.Info, n: u64)
    requires n > MAX_BLKSIZE
    ensures Saved(BigJob(m).cfg, BigVisits(n)) == BigUnits(n)
  {
    hide Digest;
    var c, vs := BigJob(m).cfg, BigVisits(n);
    var s := SaveVisit(c, Start(c), vs[0]);
    SaveVisitsConcat(c, Start(c), [vs[0]], [vs[1]]);
    assert vs == [vs[0]] + [vs[1]];
    SaveOne(c, Start(c), vs[0]);
    SaveOne(c, s, vs[1]);
    assert s == SaveState([Single(PlainHead(0, DIR, ROOT, 0))], [], [], 1, 0);
    assert ContentOf(vs[1]) == Zeros(n);
    assert SaveVisit(c, s, vs[1]) == SaveState(BigUnits(n), [], [], 2, 0);
  }

  lemma {:induction false} BigRecords(m: MainHeader.Info, n: u64)
    requires MAX_BLKSIZE < n <= 2 * MAX_BLKSIZE && VisitsOk(BigVisits(n))
    ensures RecordsOf(BigJob(m), BigVisits(n)) ==
            [Obj(PlainHead(0, DIR, ROOT, 0), 0), Obj(PlainHead(1, REGFILEUNIQUE, [SLASH, 97], n), 0),
             Blk(0, Zeros(MAX_BLKSIZE), 0), Blk(MAX_BLKSIZE, Zeros(n - MAX_BLKSIZE), 0),
             FileFoot(Digest(Zeros(n)), 0), Other(DATF, 0)]
  {
    hide Digest, Saved, EmitUnit;
    var c := BigJob(m).cfg;
    BigSaved(m, n);
    SavedPutsExact(c, BigVisits(n));
    var u, v := BigUnits(n)[0], BigUnits(n)[1];
    EmitSnoc(c, [], u);
    EmitSnoc(c, [u], v);
    assert BigUnits(n) == [] + [u] + [v];
    BigEmitted(c, n);
  }

  lemma {:induction false} BigEmitted(c: Cfg, n: u64)
    requires c.blksize == MAX_BLKSIZE < n <= 2 * MAX_BLKSIZE && c.fsid == 0 && c.md5 == Digest && UnitOk(BigUnits(n)[1])
    ensures EmitUnit(c, BigUnits(n)[0]) == [Obj(PlainHead(0, DIR, ROOT, 0), 0)]
    ensures EmitUnit(c, BigUnits(n)[1]) ==
            [Obj(PlainHead(1, REGFILEUNIQUE, [SLASH, 97], n), 0), Blk(0, Zeros(MAX_BLKSIZE), 0),
             Blk(MAX_BLKSIZE, Zeros(n - MAX_BLKSIZE), 0), FileFoot(Digest(Zeros(n)), 0)]
  {
    hide Digest;
    var content := Zeros(n);
    assert content[0..MAX_BLKSIZE] == Zeros(MAX_BLKSIZE) && content[MAX_BLKSIZE..n] == Zeros(n - MAX_BLKSIZE);
    assert Chunks(content, n, c.blksize, 0) == [];
    assert Chunks(content, MAX_BLKSIZE, c.blksize, 0) == [Blk(MAX_BLKSIZE, content[MAX_BLKSIZE..n], 0)];
    assert Chunks(content, 0, c.blksize, 0) ==
           [Blk(0, content[0..MAX_BLKSIZE], 0), Blk(MAX_BLKSIZE, content[MAX_BLKSIZE..n], 0)];
    assert |content| == n && Footer(c, content) == [FileFoot(Digest(content), 0)];
  }

  // ---- its length

  lemma {:induction false} HeaderSize(magic: Magic, archid: u32, fsid: u16, d: seq<Dico.DicoItem>)
    requires Format.Printable(d)
    ensures |Format.EncHeader(magic, archid, fsid, d)| == 20 + Volumes.BodySize(d)
  {
    Volumes.EncItemsSize(d);
  }

  /** The size field of a header is of fixed length. */
  lemma {:induction false} PlainHeadSize(archid: u32, id: u64, objtype: ObjType, path: Path, size: u64)
    requires HeadOk(PlainHead(id, objtype, path, size))
    ensures |Format.EncHeader(OBJT, archid, 0, EncHead(PlainHead(id, objtype, path, size)))| == 65 + |path|
  {
    hide HeadOk, Format.Printable, Format.EncHeader;
    var h := PlainHead(id, objtype, path, size);
    HeadPrintable(h);
    HeaderSize(OBJT, archid, 0, EncHead(h));
    var f := FirstItems(h);
    assert EncHead(h) == f + TypeItems(h);
    Volumes.BodySizeConcat(f, TypeItems(h));
    Volumes.BodySize3(f[0], f[1], f[2]);
    assert TypeItems(h)[1..] == [];
    assert f == [f[0], f[1], f[2]];
  }

  lemma {:induction false} HeadPrintable(h: ObjHead)
    requires HeadOk(h)
    ensures Format.Printable(EncHead(h))
  {}

  function SizeOf(rec: Rec): nat {
    match rec
    case Obj(h, _) => 65 + |h.path|
    case Blk(_, data, _) => Volumes.BLOCKHEAD_SIZE + |data|
    case FileFoot(md5, _) => 26 + |md5|
    case Other(_, _) => 20
  }

  predicate IsPlain(rec: Rec) {
    rec.Obj? ==> rec.head == PlainHead(rec.head.id, rec.head.objtype, rec.head.path, rec.head.size) && rec.fsid == 0
  }

  lemma {:induction false} RecSize(prefix: seq<Header>, recs: seq<Rec>, i: nat, archid: u32)
    requires Encodable(Stored, Plainly, prefix, recs) && |prefix| <= i < |prefix| + |recs| &&
             IsPlain(recs[i - |prefix|])
    ensures RecsOk(recs) && VolumeChain.ItemOk(Written(Stored, Plainly, prefix, recs)[i])
    ensures ArchWriter.SizeIn(archid)(Written(Stored, Plainly, prefix, recs)[i]) == SizeOf(recs[i - |prefix|])
  {
    hide Encodable, Written, RecsOk, HeadOk, EncHead, Format.BlockOk, Format.Printable, Format.EncHeader;
    hide Format.EncBlock;
    RecWritten(prefix, recs, i);
    var rec, w := recs[i - |prefix|], Written(Stored, Plainly, prefix, recs)[i];
    if rec.Obj? {
      PlainHeadSize(archid, rec.head.id, rec.head.objtype, rec.head.path, rec.head.size);
    } else if rec.Blk? {
      Volumes.BlockOverhead(archid, w.block);
    } else {
      HeaderSize(w.header.magic, archid, w.header.fsid, w.header.dico);
      assert rec.FileFoot? ==> FootDico(rec.md5)[1..] == [];
    }
  }

  /** The dictionary of the header of the root directory, item by item: type, section, key, length and data. */
  lemma {:induction false} RootItems()
    ensures var d := EncHead(PlainHead(7, DIR, [SLASH], 0));
            && |d| == 4 && Dico.WellFormed(d)
            && Format.EncItem(d[0]) == [4, 0] + [1, 0] + [8, 0] + [7, 0, 0, 0, 0, 0, 0, 0] // the number of the object
            && Format.EncItem(d[1]) == [6, 0] + [2, 0] + [2, 0] + [47, 0]                  // the path
            && Format.EncItem(d[2]) == [4, 0] + [8, 0] + [8, 0] + [0, 0, 0, 0, 0, 0, 0, 0] // the size
            && Format.EncItem(d[3]) == [3, 0] + [3, 0] + [4, 0] + [1, 0, 0, 0]             // the type
  {
    hide Le16, Le32, Le64, EncHead;
    SmallNumbers();
    RootDico();
  }

  lemma {:induction false} RootDico()
    ensures EncHead(PlainHead(7, DIR, [SLASH], 0)) ==
            [Dico.U64Item(0, 1, 7), Dico.StringItem(0, 2, [SLASH]), Dico.U64Item(0, 8, 0), Dico.U32Item(0, 3, 1)]
  {
    hide Le16, Le32, Le64;
    var h := PlainHead(7, DIR, [SLASH], 0);
    assert EncHead(h) == FirstItems(h) + TypeItems(h);
  }

  lemma {:induction false} SmallNumbers()
    ensures Le16(0) == [0, 0] && Le16(1) == [1, 0] && Le16(2) == [2, 0] && Le16(3) == [3, 0] && Le16(4) == [4, 0]
    ensures Le16(8) == [8, 0] && Le32(1) == [1, 0, 0, 0] && Le32(48) == [48, 0, 0, 0]
    ensures Le64(0) == [0, 0, 0, 0, 0, 0, 0, 0] && Le64(7) == [7, 0, 0, 0, 0, 0, 0, 0]
  {}

  /** That header byte by byte, in archive number 1. */
  lemma {:induction false} RootHeaderBytes()
    ensures var d := EncHead(PlainHead(7, DIR, [SLASH], 0));
            && |d| == 4 && Format.Printable(d)
            && var body := [4, 0] + (Format.EncItem(d[0]) + (Format.EncItem(d[1]) +
                                     (Format.EncItem(d[2]) + Format.EncItem(d[3]))));
               && |body| == 48
               && Format.EncHeader(OBJT, 1, 0, d) ==
                  [0x4f, 0x62, 0x4a, 0x74] + [1, 0, 0, 0] + [0, 0] +
                    ([48, 0, 0, 0] + body + Le32(Fletcher.Checksum(body)))
  {
    hide Fletcher.Checksum, Le16, Le32, EncHead, Format.EncItem, Format.DicoBody, Dico.WellFormed, Format.EncHeader;
    RootItems();
    var d := EncHead(PlainHead(7, DIR, [SLASH], 0));
    Format.ShortPrintable(d);
    FourItems(d);
    RootHeader(d);
  }

  lemma {:induction false} RootHeader(d: seq<Dico.DicoItem>)
    requires Format.Printable(d) && |Format.DicoBody(d)| == 48
    ensures var body := Format.DicoBody(d);
            Format.EncHeader(OBJT, 1, 0, d) ==
            [0x4f, 0x62, 0x4a, 0x74] + [1, 0, 0, 0] + [0, 0] + ([48, 0, 0, 0] + body + Le32(Fletcher.Checksum(body)))
  {
    hide Fletcher.Checksum, Le16, Le32, Format.DicoBody, Dico.WellFormed;
    SmallNumbers();
  }

  lemma {:induction false} FourItems(d: seq<Dico.DicoItem>)
    requires |d| == 4 && Dico.WellFormed(d)
    ensures Format.DicoBody(d) ==
            [4, 0] + (Format.EncItem(d[0]) + (Format.EncItem(d[1]) + (Format.EncItem(d[2]) + Format.EncItem(d[3]))))
  {
    hide Le16, Format.EncItem;
    SmallNumbers();
    assert d == [d[0], d[1], d[2], d[3]];
    Volumes.EncFourItems(d[0], d[1], d[2], d[3]);
  }

  lemma {:induction false} RecSizes(prefix: seq<Header>, recs: seq<Rec>, archid: u32)
    requires Encodable(Stored, Plainly, prefix, recs) && forall i :: 0 <= i < |recs| ==> IsPlain(recs[i])
    ensures RecsOk(recs) && |Written(Stored, Plainly, prefix, recs)| == |prefix| + |recs|
    ensures var w := Written(Stored, Plainly, prefix, recs);
            forall i :: |prefix| <= i < |w| ==> ArchWriter.SizeIn(archid)(w[i]) == SizeOf(recs[i - |prefix|])
  {
    hide Encodable, Written, RecsOk, IsPlain, ArchWriter.SizeIn;
    EncodableRecs(Stored, Plainly, prefix, recs);
    var w := Written(Stored, Plainly, prefix, recs);
    forall i | |prefix| <= i < |w| ensures ArchWriter.SizeIn(archid)(w[i]) == SizeOf(recs[i - |prefix|]) {
      RecSize(prefix, recs, i, archid);
    }
  }

  // ---- too long

  /** The size of the file for which the archive fills the volume. */
  function BigSize(m: MainHeader.Info): (n: u64)
    requires MainHeader.InfoOk(m)
    ensures MAX_BLKSIZE < n <= 2 * MAX_BLKSIZE
  {
    MainHeader.MainSmall(m);
    Archive.MIB - Volumes.HEAD_SIZE - |VolumeChain.EncItemOf(m.archid, HeaderItem(MainHeader.MainOf(m)))| -
    2 * Volumes.BLOCKHEAD_SIZE - 66 - 67 - 30 - 20
  }

  lemma {:induction false} BigJobOk(m: MainHeader.Info)
    requires MainHeader.InfoOk(m)
    ensures TreeJobOk(BigJob(m), BigVisits(BigSize(m)))
  {
    hide CodecOk, CompressionWorks, MainHeaderOk, RecordsOf, VisitsEncodable, DigestsShort, MainHeader.MainDico;
    hide VolumeChain.ItemOk, BigSize;
    BigVisitsOk(m, BigSize(m));
    StoredOk();
    MainHeader.MainSmall(m);
    MainHeaderFits(BigJob(m), m);
    BigRecords(m, BigSize(m));
  }

  lemma {:induction false} SumSeven<T>(f: T -> nat, s: seq<T>)
    requires |s| == 7
    ensures Sums.SumBy(f, s) == f(s[0]) + f(s[1]) + f(s[2]) + f(s[3]) + f(s[4]) + f(s[5]) + f(s[6])
  {
    hide Sums.SumBy;
    Sums.SumOne(f, s[0]);
    assert s[..1] == [s[0]] && s[..7] == s;
    Sums.SumAppend(f, s[..1], s[1]);
    assert s[..2] == s[..1] + [s[1]];
    Sums.SumAppend(f, s[..2], s[2]);
    assert s[..3] == s[..2] + [s[2]];
    Sums.SumAppend(f, s[..3], s[3]);
    assert s[..4] == s[..3] + [s[3]];
    Sums.SumAppend(f, s[..4], s[4]);
    assert s[..5] == s[..4] + [s[4]];
    Sums.SumAppend(f, s[..5], s[5]);
    assert s[..6] == s[..5] + [s[5]];
    Sums.SumAppend(f, s[..6], s[6]);
    assert s[..7] == s[..6] + [s[6]];
  }

  lemma {:induction false} BigItems(m: MainHeader.Info)
    requires MainHeader.InfoOk(m) && JobOk(BigJob(m), BigVisits(BigSize(m)))
    ensures var items := ItemsWritten(BigJob(m), BigVisits(BigSize(m)));
            && ArchWriter.AllOk(items) && |items| == 7
            && Volumes.HEAD_SIZE + Sums.SumBy(ArchWriter.SizeIn(m.archid), items) == Archive.MIB
  {
    hide JobOk, Encodable, Written, ArchWriter.AllOk, ArchWriter.SizeIn, RecordsOf, Digest;
    hide MainHeader.MainOf, Sums.SumBy, BigSize, RecsOk, VisitsOk, BigVisits, Archive.MainFirstItem;
    var j, vs := BigJob(m), BigVisits(BigSize(m));
    JobWritten(j, vs);
    ItemsOk(j, vs);
    BigLength(m);
    var recs, items := RecordsOf(j, vs), ItemsWritten(j, vs);
    BigSizes(m, BigSize(m), recs);
    RecSizes(j.prefix, recs, m.archid);
    hide IsPlain, SizeOf;
    SumSeven(ArchWriter.SizeIn(m.archid), items);
  }

  lemma {:induction false} BigSizes(m: MainHeader.Info, n: u64, recs: seq<Rec>)
    requires MAX_BLKSIZE < n <= 2 * MAX_BLKSIZE && VisitsOk(BigVisits(n)) && recs == RecordsOf(BigJob(m), BigVisits(n))
    ensures |recs| == 6 && forall i :: 0 <= i < 6 ==> IsPlain(recs[i])
    ensures SizeOf(recs[0]) + SizeOf(recs[1]) + SizeOf(recs[2]) + SizeOf(recs[3]) + SizeOf(recs[4]) + SizeOf(recs[5])
            == n + 2 * Volumes.BLOCKHEAD_SIZE + 66 + 67 + 30 + 20
  {
    hide RecordsOf, Digest, BigVisits, VisitsOk, BigJob;
    BigRecords(m, n);
  }

  lemma {:induction false} BigLength(m: MainHeader.Info)
    requires MainHeader.InfoOk(m)
    ensures BigSize(m) + ArchWriter.SizeIn(m.archid)(HeaderItem(MainHeader.MainOf(m))) ==
            Archive.MIB - Volumes.HEAD_SIZE - 2 * Volumes.BLOCKHEAD_SIZE - 66 - 67 - 30 - 20
  {
    hide VolumeChain.ItemOk, VolumeChain.EncItemOf, MainHeader.MainOf;
    MainHeader.MainSmall(m);
  }

  /** With any main header that the program writes, and the smallest split size that it accepts, there is a
      directory with one file of which the archive is one volume, and that is too long by a footer. */
  lemma {:induction false} TreeCanExceed(m: MainHeader.Info) returns (j: Job, t: Tree)
    requires MainHeader.InfoOk(m)
    ensures TreeOk(t) && t.DirTree? && j.prefix == [MainHeader.MainOf(m)]
    ensures j.splitsize == Archive.MIB && MainHeader.SplitOk(j.splitsize)
    ensures TreeJobOk(j, Visits(j.cfg.exclude, ROOT, t)) && JobOk(j, Visits(j.cfg.exclude, ROOT, t))
    ensures var items := ItemsWritten(j, Visits(j.cfg.exclude, ROOT, t));
            && ArchWriter.AllOk(items) && |items| < 0xffff_ffff
            && |ArchWriter.VolumesOf(j.archid, j.splitsize, items)| == 1
            && |ArchWriter.VolumesOf(j.archid, j.splitsize, items)[0]| == j.splitsize + Volumes.FOOT_SIZE
  {
    hide TreeJobOk, JobOk, Visits, TreeOk, BigSize, ItemsWritten, ArchWriter.AllOk, ArchWriter.VolumesOf, Sums.SumBy;
    hide MainHeader.MainDico, Encodable;
    j, t := BigJob(m), BigTree(BigSize(m));
    BigWalk(BigSize(m));
    BigJobOk(m);
    TreesFit(j, BigVisits(BigSize(m)));
    JobWritten(j, BigVisits(BigSize(m)));
    BigItems(m);
    Archive.FilledExactly(m.archid, Archive.MIB, ItemsWritten(j, BigVisits(BigSize(m))));
  }
}
