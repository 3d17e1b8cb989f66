/** Written archives, intact or damaged in place, as they are read back. */
module Archive {
  import opened Bytes
  import opened ArchiveItems
  import opened Dico
  import opened Format
  import opened Reader
  import opened Volumes
  import opened VolumeChain
  import opened ArchWriter
  import opened Sums
  import Greedy
  import Fletcher

  /** What has happened to an item: the data of a block are altered; or a dictionary is, and then what stands
      where the data of the block were is of no importance; or the filesystem id is; or other bytes stand
      there altogether, such as an item with another magic or another archive id. */
  datatype Hurt = Data(raw: bytes) | Dict(body: bytes, sum: u32, raw: bytes) | Moved(fsid: u16) | Lost(raw: bytes)

  /** By position in the item sequence. */
  type Damage = map<nat, Hurt>

  /** Altered data are of the same length and have another checksum, an altered dictionary does not match
      its checksum, and nothing could pass for a header of this archive. The main header is whole. What is
      lost altogether stands alone: the bytes of two such items could make up a header together. */
  predicate DamageOk(archid: u32, items: seq<Item>, damage: Damage) {
    0 !in damage && forall i :: i in damage ==>
      i < |items| && HurtOk(archid, items[i], damage[i]) && Alone(items, i, damage)
  }

  predicate HurtOk(archid: u32, item: Item, hurt: Hurt) {
    (item.HeaderItem? ==> !hurt.Data?) && SegOk(archid, HurtSeg(item, hurt))
  }

  predicate Alone(items: seq<Item>, i: nat, damage: Damage)
    requires i in damage && i < |items|
  {
    damage[i].Lost? && i > 0 ==> !Searches(SegOf(items[i - 1], i - 1, damage))
  }

  function HurtSeg(item: Item, hurt: Hurt): Seg {
    match hurt
    case Data(raw) => if item.BlockItem? then BadBlock(item.block, raw) else Good(item)
    case Dict(body, sum, raw) =>
      if item.BlockItem? then LostBlock(item.block.fsid, body, sum, raw)
      else BadHeader(item.header.magic, item.header.fsid, body, sum)
    case Moved(fsid) =>
      Good(if item.BlockItem? then BlockItem(item.block.(fsid := fsid)) else HeaderItem(item.header.(fsid := fsid)))
    case Lost(raw) => Junk(raw)
  }

  /** The items with altered data, and those that are damaged in another way. */
  function Spoilt(damage: Damage): set<nat> {
    set i | i in damage && damage[i].Data?
  }

  function Gone(damage: Damage): set<nat> {
    set i | i in damage && !damage[i].Data?
  }

  /** Altering one or two bytes of a block, at most 256 apart, is such damage unless it makes up a header. */
  lemma {:induction false} NearBytesAreDamage(archid: u32, b: Block, i: nat, j: nat, x: byte, y: byte)
    requires BlockOk(b) && i < j < |b.data| && j - i <= 256 && (x != b.data[i] || y != b.data[j])
    requires Skippable(archid, b.data[i := x][j := y])
    ensures SegOk(archid, BadBlock(b, b.data[i := x][j := y]))
  {
    hide Fletcher.Checksum, Skippable;
    Fletcher.TwoNearBytesDetected(b.data, i, j, x, y);
  }

  function SegOf(item: Item, i: nat, damage: Damage): Seg {
    if i in damage then HurtSeg(item, damage[i]) else Good(item)
  }

  /** The pieces for items that start at position `start` of the whole sequence. */
  function SegsFrom(items: seq<Item>, start: nat, damage: Damage): (segs: seq<Seg>)
    ensures |segs| == |items|
  {
    seq(|items|, j requires 0 <= j < |items| => SegOf(items[j], start + j, damage))
  }

  function LayoutFrom(bins: seq<seq<Item>>, start: nat, damage: Damage): (layout: seq<seq<Seg>>)
    ensures |layout| == |bins|
  {
    if bins == [] then [] else [SegsFrom(bins[0], start, damage)] + LayoutFrom(bins[1..], start + |bins[0]|, damage)
  }

  lemma {:induction false} SegsFromOk(archid: u32, items: seq<Item>, part: seq<Item>, start: nat, damage: Damage)
    requires AllOk(items) && DamageOk(archid, items, damage)
    requires start + |part| <= |items| && part == items[start..start + |part|]
    ensures SegsOk(archid, SegsFrom(part, start, damage))
  {
    hide SegOk, SegOf;
    var segs := SegsFrom(part, start, damage);
    forall j | 0 <= j < |part|
      ensures SegOk(archid, segs[j]) && (j > 0 ==> Searches(segs[j - 1]) ==> !segs[j].Junk?)
    {
      assert part[j] == items[start + j] && (j > 0 ==> part[j - 1] == items[start + j - 1]);
      SegOfOk(archid, items, start + j, damage);
    }
    assert forall j :: 0 <= j < |part| - 1 ==> Searches(segs[j]) ==> !segs[j + 1].Junk?;
  }

  lemma {:induction false} SegOfOk(archid: u32, items: seq<Item>, i: nat, damage: Damage)
    requires AllOk(items) && DamageOk(archid, items, damage) && i < |items|
    ensures SegOk(archid, SegOf(items[i], i, damage))
    ensures SegOf(items[i], i, damage).Junk? ==> i > 0 && !Searches(SegOf(items[i - 1], i - 1, damage))
  {
    hide ItemOk, Format.BlockOk, Skippable, Fletcher.Checksum, Searches;
  }

  lemma {:induction false} LayoutFromOk(archid: u32, items: seq<Item>, bins: seq<seq<Item>>, start: nat, damage: Damage)
    requires AllOk(items) && DamageOk(archid, items, damage) && start <= |items| &&
             Greedy.Flatten(bins) == items[start..]
    ensures forall k :: 0 <= k < |bins| ==> SegsOk(archid, LayoutFrom(bins, start, damage)[k])
    decreases |bins|
  {
    hide SegsOk, AllOk, DamageOk;
    if bins != [] {
      var n := |bins[0]|;
      assert bins[0] == items[start..][..n] == items[start..start + n];
      assert Greedy.Flatten(bins[1..]) == items[start..][n..] == items[start + n..];
      SegsFromOk(archid, items, bins[0], start, damage);
      LayoutFromOk(archid, items, bins[1..], start + n, damage);
    }
  }

  lemma {:induction false} YieldConcat(sel: u16 -> bool, a: seq<Seg>, b: seq<Seg>)
    ensures YieldAll(sel, a + b) == Prepend(YieldAll(sel, a).inputs, YieldAll(sel, a).errors, YieldAll(sel, b))
  {
    hide Yield;
    if a == [] {
      assert a + b == b;
    } else {
      YieldConcat(sel, a[1..], b);
      assert (a + b)[1..] == a[1..] + b;
      var y, z := Yield(sel, a[0]), YieldAll(sel, a[1..]);
      PrependTwice(y.inputs, y.errors, z.inputs, z.errors, YieldAll(sel, b));
    }
  }

  lemma {:induction false} YieldComplete(sel: u16 -> bool, a: seq<Seg>)
    ensures YieldAll(sel, a).complete
  {
    if a != [] {
      YieldComplete(sel, a[1..]);
    }
  }

  lemma {:induction false} SegsFromConcat(a: seq<Item>, b: seq<Item>, start: nat, damage: Damage)
    ensures SegsFrom(a + b, start, damage) == SegsFrom(a, start, damage) + SegsFrom(b, start + |a|, damage)
  {
    hide SegOf;
  }

  /** Where the volumes begin and end makes no difference to what is read. */
  lemma {:induction false} YieldAcrossVolumes(sel: u16 -> bool, bins: seq<seq<Item>>, start: nat, damage: Damage)
    ensures YieldLayout(sel, LayoutFrom(bins, start, damage)) ==
            YieldAll(sel, SegsFrom(Greedy.Flatten(bins), start, damage))
    decreases |bins|
  {
    hide Yield, SegOf;
    if bins != [] {
      var n := |bins[0]|;
      YieldAcrossVolumes(sel, bins[1..], start + n, damage);
      var a, b := SegsFrom(bins[0], start, damage), SegsFrom(Greedy.Flatten(bins[1..]), start + n, damage);
      SegsFromConcat(bins[0], Greedy.Flatten(bins[1..]), start, damage);
      YieldConcat(sel, a, b);
      assert LayoutFrom(bins, start, damage)[1..] == LayoutFrom(bins[1..], start + n, damage);
    }
  }

  function LayoutOf(archid: u32, splitsize: u64, items: seq<Item>, damage: Damage): (layout: seq<seq<Seg>>)
    requires AllOk(items) && |items| < 0xffff_ffff && DamageOk(archid, items, damage)
    ensures LayoutOk(archid, layout)
  {
    var bins := BinsOf(archid, splitsize, items);
    Greedy.FillKeepsItems([], items, Fits(archid, splitsize));
    assert [] + items == items == items[0..];
    LayoutFromOk(archid, items, bins, 0, damage);
    LayoutFrom(bins, 0, damage)
  }

  /** The written volumes, with some items altered in place. */
  function DamagedVolumes(archid: u32, splitsize: u64, items: seq<Item>, damage: Damage): (vols: seq<bytes>)
    requires AllOk(items) && |items| < 0xffff_ffff && DamageOk(archid, items, damage)
    ensures Stored(archid, LayoutOf(archid, splitsize, items, damage), vols)
  {
    var layout := LayoutOf(archid, splitsize, items, damage);
    seq(|layout|, k requires 0 <= k < |layout| => EncVol(archid, k, layout[k], k + 1 == |layout|))
  }

  lemma {:induction false} ItemsOfHead(archid: u32, items: seq<Item>)
    requires AllOk(items) && items != []
    ensures ItemsOf(archid, items) == EncItemOf(archid, items[0]) + ItemsOf(archid, items[1..])
  {
    hide EncItemOf, ItemOk;
    var n := |items| - 1;
    if n == 0 {
      assert items[..0] == [] && items[1..] == [];
    } else {
      ItemsOfHead(archid, items[..n]);
      assert items[..n][1..] == items[1..][..n - 1];
    }
  }

  lemma {:induction false} GoodSegs(archid: u32, items: seq<Item>, start: nat)
    requires AllOk(items) && SegsOk(archid, SegsFrom(items, start, map[]))
    ensures EncSegs(archid, SegsFrom(items, start, map[])) == ItemsOf(archid, items)
    decreases |items|
  {
    hide EncItemOf, ItemOk;
    if items != [] {
      var segs := SegsFrom(items, start, map[]);
      assert segs[1..] == SegsFrom(items[1..], start + 1, map[]) && segs[0] == Good(items[0]);
      GoodSegs(archid, items[1..], start + 1);
      ItemsOfHead(archid, items);
    }
  }

  lemma {:induction false} GoodLayout(archid: u32, bins: seq<seq<Item>>, start: nat, k: nat)
    requires k < |bins| && AllOk(bins[k]) && SegsOk(archid, LayoutFrom(bins, start, map[])[k])
    ensures EncSegs(archid, LayoutFrom(bins, start, map[])[k]) == ItemsOf(archid, bins[k])
    decreases |bins|
  {
    hide SegsOk, AllOk, EncSegs, ItemsOf;
    if k == 0 {
      GoodSegs(archid, bins[0], start);
    } else {
      GoodLayout(archid, bins[1..], start + |bins[0]|, k - 1);
    }
  }

  /** Without damage these are the volumes as they were written. */
  lemma {:induction false} NoDamage(archid: u32, splitsize: u64, items: seq<Item>)
    requires AllOk(items) && |items| < 0xffff_ffff
    ensures DamagedVolumes(archid, splitsize, items, map[]) == VolumesOf(archid, splitsize, items)
  {
    hide EncVol, Closed, EncSegs, ItemsOf, SegsOk, AllOk;
    var bins := BinsOf(archid, splitsize, items);
    var a, b := DamagedVolumes(archid, splitsize, items, map[]), VolumesOf(archid, splitsize, items);
    forall k | 0 <= k < |bins| ensures a[k] == b[k] {
      GoodLayout(archid, bins, 0, k);
      ClosedVolume(archid, k, bins[k], LayoutFrom(bins, 0, map[])[k], k + 1 == |bins|);
    }
  }

  lemma {:induction false} ClosedVolume(archid: u32, k: u32, items: seq<Item>, segs: seq<Seg>, last: bool)
    requires AllOk(items) && SegsOk(archid, segs) && EncSegs(archid, segs) == ItemsOf(archid, items)
    ensures EncVol(archid, k, segs, last) == Closed(archid, k, items, last)
  {
    hide EncVolHead, EncVolFoot, EncSegs, ItemsOf;
  }

  // ---- reading back

  predicate MainFirstItem(archid: u32, items: seq<Item>) {
    && items != [] && items[0].HeaderItem? && items[0].header.fsid == FILESYSID_NULL
    && GetU32(items[0].header.dico, 0, MH_ARCHIVEID) == Some(archid)
  }

  /** Altered data of any number of blocks cost exactly those blocks: each becomes zeros of the same
      size. An altered dictionary costs its header, and the block that belongs to it; an altered magic or archive
      id does the same. Every other item of the wanted filesystems is read as it was written. */
  lemma {:induction false} DamageContained(archid: u32, splitsize: u64, items: seq<Item>, damage: Damage,
                                           sel: u16 -> bool)
    requires archid != 0 && AllOk(items) && |items| < 0xffff_ffff && DamageOk(archid, items, damage)
    requires MainFirstItem(archid, items) && Fits(archid, splitsize)([items[0]])
    ensures ReadArchive(DamagedVolumes(archid, splitsize, items, damage), sel) ==
            YieldAll(sel, SegsFrom(items, 0, damage))
  {
    hide ReadArchive, Fits, EncVol, GetU32, SegsOk, SegOk;
    var layout := LayoutOf(archid, splitsize, items, damage);
    var bins := BinsOf(archid, splitsize, items);
    Greedy.FillKeepsItems([], items, Fits(archid, splitsize));
    assert [] + items == items;
    FirstBin(archid, splitsize, items);
    assert layout[0][0] == SegOf(items[0], 0, damage);
    ReadDamagedArchive(archid, layout, DamagedVolumes(archid, splitsize, items, damage), sel, items[0].header);
    YieldAcrossVolumes(sel, bins, 0, damage);
  }

  /** The reader notices damage to the data of a block that is wanted, and to any dictionary. */
  predicate IsNoticed(item: Item, hurt: Hurt, sel: u16 -> bool) {
    hurt.Dict? || (hurt.Data? && item.BlockItem? && sel(item.block.fsid))
  }

  function Noticed(items: seq<Item>, start: nat, damage: Damage, sel: u16 -> bool): set<nat> {
    set i | i in damage && start <= i < start + |items| && IsNoticed(items[i - start], damage[i], sel)
  }

  predicate NoMagics(damage: Damage) {
    forall i :: i in damage && !damage[i].Moved? ==> Resync(damage[i].raw) == []
  }

  /** Unless altered bytes look like headers, one error is counted for each item of which damage is noticed. */
  lemma {:induction false} ErrorsCounted(items: seq<Item>, start: nat, damage: Damage, sel: u16 -> bool)
    requires NoMagics(damage)
    ensures YieldAll(sel, SegsFrom(items, start, damage)).errors == |Noticed(items, start, damage, sel)|
    decreases |items|
  {
    hide Yield, SegOf, IsNoticed, Resync;
    if items != [] {
      ErrorsCounted(items[1..], start + 1, damage, sel);
      assert SegsFrom(items, start, damage)[1..] == SegsFrom(items[1..], start + 1, damage);
      NoticedOne(items[0], start, damage, sel);
      var seen, later := Noticed(items, start, damage, sel), Noticed(items[1..], start + 1, damage, sel);
      if start in damage && IsNoticed(items[0], damage[start], sel) {
        assert seen == {start} + later;
      } else {
        assert seen == later;
      }
    }
  }

  lemma {:induction false} NoticedOne(item: Item, i: nat, damage: Damage, sel: u16 -> bool)
    requires NoMagics(damage)
    ensures Yield(sel, SegOf(item, i, damage)).errors == if i in damage && IsNoticed(item, damage[i], sel) then 1 else 0
  {}

  lemma {:induction false} FirstBin(archid: u32, splitsize: u64, items: seq<Item>)
    requires AllOk(items) && |items| < 0xffff_ffff && items != []
    ensures var bins := BinsOf(archid, splitsize, items);
            if Fits(archid, splitsize)([items[0]]) then bins[0] != [] && bins[0][0] == items[0] else bins[0] == []
  {
    hide Fits;
    assert [] + [items[0]] == [items[0]];
    if Fits(archid, splitsize)([items[0]]) {
      FirstStays([items[0]], items[1..], Fits(archid, splitsize));
    }
  }

  lemma {:induction false} FirstStays(cur: seq<Item>, items: seq<Item>, fits: seq<Item> -> bool)
    requires cur != []
    ensures Greedy.Fill(cur, items, fits)[0] != [] && Greedy.Fill(cur, items, fits)[0][0] == cur[0]
    decreases |items|
  {
    if items != [] && fits(cur + [items[0]]) {
      FirstStays(cur + [items[0]], items[1..], fits);
    }
  }

  function WantedAll(sel: u16 -> bool, items: seq<Item>): seq<Input> {
    if items == [] then [] else Wanted(sel, items[0]) + WantedAll(sel, items[1..])
  }

  lemma {:induction false} YieldGood(sel: u16 -> bool, items: seq<Item>, start: nat)
    ensures YieldAll(sel, SegsFrom(items, start, map[])) == Result(WantedAll(sel, items), 0, true)
    decreases |items|
  {
    if items != [] {
      YieldGood(sel, items[1..], start + 1);
      assert SegsFrom(items, start, map[])[1..] == SegsFrom(items[1..], start + 1, map[]);
    }
  }

  /** Reading the volumes of an archive in order gives back exactly the items of the wanted
      filesystems and the global headers, if and only if the first volume has room for the main
      header. */
  lemma {:induction false} VolumeChainRoundTrip(archid: u32, splitsize: u64, items: seq<Item>, sel: u16 -> bool)
    requires archid != 0 && AllOk(items) && |items| < 0xffff_ffff && MainFirstItem(archid, items)
    ensures ReadArchive(VolumesOf(archid, splitsize, items), sel) == Result(WantedAll(sel, items), 0, true)
            <==> Fits(archid, splitsize)([items[0]])
  {
    hide ReadArchive, Fits, GetU32;
    if Fits(archid, splitsize)([items[0]]) {
      DamageContained(archid, splitsize, items, map[], sel);
      NoDamage(archid, splitsize, items);
      YieldGood(sel, items, 0);
    } else {
      NoRoomForMain(archid, splitsize, items, sel);
    }
  }

  /** Otherwise the footer of the empty first volume is taken for the main header and reading stops. */
  lemma {:induction false} NoRoomForMain(archid: u32, splitsize: u64, items: seq<Item>, sel: u16 -> bool)
    requires archid != 0 && AllOk(items) && |items| < 0xffff_ffff && items != []
    requires !Fits(archid, splitsize)([items[0]])
    ensures ReadArchive(VolumesOf(archid, splitsize, items), sel) == Stop
  {
    hide Fits, ReadHeader, EncVolFoot, DetectVersion, VolHeaderAt, EncSegs, EncVol;
    NoDamage(archid, splitsize, items);
    FirstBin(archid, splitsize, items);
    var layout := LayoutOf(archid, splitsize, items, map[]);
    var vols := DamagedVolumes(archid, splitsize, items, map[]);
    NextHead(archid, layout, vols, 0);
    assert layout[0] == [];
    EmptyVolumeRead(archid, 1 == |layout|);
  }

  lemma {:induction false} EmptyVolumeRead(archid: u32, last: bool)
    requires archid != 0
    ensures EncSegs(archid, []) + EncVolFoot(archid, 0, last) == EncVolFoot(archid, 0, last)
    ensures var r := ReadHeader(EncVolFoot(archid, 0, last), archid, false);
            r.HeaderOk? && GetU32(r.dico, 0, MH_ARCHIVEID) == None
  {
    hide ReadHeader, EncHeader;
    var d := VolFootDico(archid, 0, last);
    ShortPrintable(d);
    assert EncVolFoot(archid, 0, last) + [] == EncVolFoot(archid, 0, last);
    HeaderRoundTrip(VOLF, archid, FILESYSID_NULL, d, [], archid, false);
    var i := IndexOf(d, 0, MH_ARCHIVEID);
  }

  // ---- sizes

  /** The exact length of every volume. */
  lemma {:induction false} VolumeSize(archid: u32, splitsize: u64, items: seq<Item>, k: nat)
    requires AllOk(items) && |items| < 0xffff_ffff && k < |VolumesOf(archid, splitsize, items)|
    ensures |VolumesOf(archid, splitsize, items)[k]| ==
            HEAD_SIZE + SumBy(SizeIn(archid), BinsOf(archid, splitsize, items)[k]) + FOOT_SIZE
  {
    hide EncVolHead, EncVolFoot, EncItemOf;
    var bins := BinsOf(archid, splitsize, items);
    VolumeOverhead(archid, k, k + 1 == |bins|);
    ItemsSize(archid, bins[k]);
  }

  /** A volume is longer than the split size exactly when its header and items leave less room than its
      footer needs. */
  lemma {:induction false} VolumeExceedsIff(archid: u32, splitsize: u64, items: seq<Item>, k: nat)
    requires AllOk(items) && |items| < 0xffff_ffff && k < |VolumesOf(archid, splitsize, items)|
    ensures |VolumesOf(archid, splitsize, items)[k]| > splitsize <==>
            splitsize - (HEAD_SIZE + SumBy(SizeIn(archid), BinsOf(archid, splitsize, items)[k])) < FOOT_SIZE
  {
    VolumeSize(archid, splitsize, items, k);
  }

  /** It is never longer than the split size and one footer, unless it holds a single item that is too
      long for any volume. */
  lemma {:induction false} VolumesBounded(archid: u32, splitsize: u64, items: seq<Item>, k: nat)
    requires AllOk(items) && |items| < 0xffff_ffff && HEAD_SIZE <= splitsize
    requires k < |VolumesOf(archid, splitsize, items)|
    ensures var bin := BinsOf(archid, splitsize, items)[k];
            |VolumesOf(archid, splitsize, items)[k]| <= splitsize + FOOT_SIZE
            || (|bin| == 1 && !Fits(archid, splitsize)(bin))
  {
    Greedy.FillFitsOrSingle([], items, Fits(archid, splitsize));
    VolumeSize(archid, splitsize, items, k);
  }

  /** Items that fill a volume up to the split size make it longer than that. */
  lemma {:induction false} FilledExactly(archid: u32, splitsize: u64, items: seq<Item>)
    requires AllOk(items) && |items| < 0xffff_ffff
    requires splitsize > 0 && HEAD_SIZE + SumBy(SizeIn(archid), items) == splitsize
    ensures |VolumesOf(archid, splitsize, items)| == 1
    ensures |VolumesOf(archid, splitsize, items)[0]| == splitsize + FOOT_SIZE
  {
    hide EncItemOf, BlockOk, ItemOk;
    assert [] + items == items && items + [] == items;
    FitsHereditary(archid, splitsize);
    Greedy.NoNewBin([], items, [], Fits(archid, splitsize));
    assert BinsOf(archid, splitsize, items) == [items];
    VolumeSize(archid, splitsize, items, 0);
  }

  const MIB: nat := 0x10_0000

  /** No order-preserving division of the items into volumes that keep to the split size uses fewer. */
  lemma {:induction false} FewestVolumes(archid: u32, splitsize: u64, items: seq<Item>, bins: seq<seq<Item>>)
    requires AllOk(items) && |items| < 0xffff_ffff
    requires bins != [] && Greedy.Flatten(bins) == items
    requires forall b :: b in bins ==> Fits(archid, splitsize)(b)
    ensures |VolumesOf(archid, splitsize, items)| <= |bins|
  {
    FitsHereditary(archid, splitsize);
    Greedy.FillOptimal(items, bins, Fits(archid, splitsize));
  }
}
