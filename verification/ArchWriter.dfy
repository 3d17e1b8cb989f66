/** The writing thread: queue items in, volumes out (src/archwriter.c, src/thread_archio.c). */
module ArchWriter {
  import opened Bytes
  import opened ArchiveItems
  import opened Dico
  import opened Format
  import opened Volumes
  import opened VolumeChain
  import opened Sums
  import Greedy
  import Reader
  import WriteBuf

  predicate AllOk(items: seq<Item>) {
    forall i :: 0 <= i < |items| ==> ItemOk(items[i])
  }

  function ItemsOf(archid: u32, items: seq<Item>): bytes
    requires AllOk(items)
  {
    if items == [] then [] else ItemsOf(archid, items[..|items| - 1]) + EncItemOf(archid, items[|items| - 1])
  }

  function SizeIn(archid: u32): Item -> nat {
    item => if ItemOk(item) then |EncItemOf(archid, item)| else 0
  }

  /** Items that fit in one volume together with its header; the footer is not counted. */
  function Fits(archid: u32, splitsize: u64): seq<Item> -> bool {
    items => splitsize == 0 || HEAD_SIZE + SumBy(SizeIn(archid), items) <= splitsize
  }

  lemma {:induction false} FitsHereditary(archid: u32, splitsize: u64)
    ensures Greedy.Hereditary(Fits(archid, splitsize))
  {
    forall a: seq<Item>, b: seq<Item> | Fits(archid, splitsize)(a + b)
      ensures Fits(archid, splitsize)(a) && Fits(archid, splitsize)(b)
    {
      SumConcat(SizeIn(archid), a, b);
    }
  }

  lemma {:induction false} ItemsSize(archid: u32, items: seq<Item>)
    requires AllOk(items)
    ensures |ItemsOf(archid, items)| == SumBy(SizeIn(archid), items)
  {
    if items != [] {
      ItemsSize(archid, items[..|items| - 1]);
    }
  }

  /** What is in volume k once it holds `items`, without its footer. */
  function Open(archid: u32, k: u32, items: seq<Item>): bytes
    requires AllOk(items)
  {
    EncVolHead(archid, k) + ItemsOf(archid, items)
  }

  /** Volume k after it has been closed. */
  function Closed(archid: u32, k: u32, items: seq<Item>, last: bool): bytes
    requires AllOk(items)
  {
    Open(archid, k, items) + EncVolFoot(archid, k, last)
  }

  class ArchWriter {
    var closed: seq<bytes> // the volumes that have been closed
    var file: bytes // the contents of the current volume
    var archid: u32
    var curvol: u32
    const splitsize: u64
    ghost var bins: seq<seq<Item>> // the items of every volume

    ghost predicate Valid()
      reads this
    {
      && |bins| == curvol as int + 1 && |closed| == curvol
      && (forall k :: 0 <= k <= curvol ==> AllOk(bins[k]))
      && (forall k :: 0 <= k < curvol ==> closed[k] == Closed(archid, k, bins[k], false))
      && file == Open(archid, curvol, bins[curvol])
    }

    /** The first volume is created and gets its header. */
    constructor (archid: u32, splitsize: u64)
      ensures Valid() && bins == [[]] && this.archid == archid && this.splitsize == splitsize
    {
      this.archid, this.splitsize, curvol, closed, file := archid, splitsize, 0, [], [];
      bins := [[]];
      new;
      WriteVolHeader();
      assert file == Open(archid, 0, []);
    }

    method WriteBuffer(wb: WriteBuf.WriteBuf) returns (ok: bool)
      modifies this`file
      ensures ok <==> wb.data != []
      ensures file == old(file) + wb.data
    {
      if |wb.data| == 0 {
        return false;
      }
      file := file + wb.data;
      ok := true;
    }

    /** A volume management header, built in a buffer and written in one piece. */
    method WriteHeader(magic: Magic, items: seq<DicoItem>)
      requires Printable(items)
      modifies this`file
      ensures file == old(file) + EncHeader(magic, archid, FILESYSID_NULL, items)
    {
      hide EncHeader;
      var wb := new WriteBuf.WriteBuf();
      var d := NewDico(items);
      var ok := wb.AddHeader(d, magic, archid, FILESYSID_NULL);
      ok := WriteBuffer(wb);
    }

    method WriteVolHeader()
      modifies this`file
      ensures file == old(file) + EncVolHead(archid, curvol)
    {
      ShortPrintable(VolHeadDico(archid, curvol));
      WriteHeader(VOLH, VolHeadDico(archid, curvol));
    }

    method WriteVolFooter(lastvol: bool)
      modifies this`file
      ensures file == old(file) + EncVolFoot(archid, curvol, lastvol)
    {
      ShortPrintable(VolFootDico(archid, curvol, lastvol));
      WriteHeader(VOLF, VolFootDico(archid, curvol, lastvol));
    }

    /** Would this item take the current volume past the split size? */
    method SplitCheck(size: nat, ghost item: Item) returns (split: bool)
      requires Valid() && ItemOk(item) && size == |EncItemOf(archid, item)|
      ensures split <==> !Fits(archid, splitsize)(bins[curvol] + [item])
    {
      hide EncItemOf, Open, Closed, ItemOk, Fits;
      SizeTest(archid, splitsize, curvol, bins[curvol], item);
      split := splitsize > 0 && |file| + size > splitsize;
    }

    method SplitIfNecessary(size: nat, ghost item: Item)
      requires Valid() && curvol < 0xffff_ffff && ItemOk(item) && size == |EncItemOf(archid, item)|
      modifies this`file, this`closed, this`curvol, this`bins
      ensures Valid()
      ensures bins ==
              if Fits(archid, splitsize)(old(bins)[old(curvol)] + [item]) then old(bins) else old(bins) + [[]]
    {
      hide EncVolHead, EncVolFoot, EncItemOf, Fits;
      var split := SplitCheck(size, item);
      if split {
        WriteVolFooter(false);
        closed := closed + [file];
        file := [];
        curvol := curvol + 1;
        WriteVolHeader();
        bins := bins + [[]];
        assert file == Open(archid, curvol, []);
      }
    }

    /** An item goes to the current volume in one piece, or to a new one. */
    method DoWrite(item: Item) returns (ok: bool)
      requires Valid() && ItemOk(item) && curvol < 0xffff_ffff
      modifies this`file, this`closed, this`curvol, this`bins
      ensures ok && Valid()
      ensures bins == Greedy.Add(old(bins), item, Fits(archid, splitsize))
    {
      hide EncItemOf, Open, Closed, Greedy.Add, Fits, ItemOk;
      var wb := BufferFor(archid, item);
      Greedy.OpenThenPut(bins, item, Fits(archid, splitsize));
      SplitIfNecessary(|wb.data|, item);
      AppendItem(archid, curvol, bins[curvol], item);
      ok := WriteBuffer(wb);
      bins := bins[curvol := bins[curvol] + [item]];
    }

    static method BufferFor(archid: u32, item: Item) returns (wb: WriteBuf.WriteBuf)
      requires ItemOk(item)
      ensures fresh(wb) && wb.data == EncItemOf(archid, item)
    {
      wb := new WriteBuf.WriteBuf();
      match item {
        case BlockItem(b) =>
          var ok := wb.AddBlock(b, archid);
        case HeaderItem(h) =>
          var d := NewDico(h.dico);
          var ok := wb.AddHeader(d, h.magic, archid, h.fsid);
      }
    }

    /** The writing thread, for everything that leaves the queue until it ends. */
    static method Run(archid: u32, splitsize: u64, items: seq<Item>) returns (vols: seq<bytes>)
      requires AllOk(items) && |items| < 0xffff_ffff
      ensures vols == VolumesOf(archid, splitsize, items)
    {
      hide Open, Closed, Fits, ItemOk, EncItemOf, EncVolHead, EncVolFoot;
      var ai := new ArchWriter(archid, splitsize);
      for i := 0 to |items|
        invariant fresh(ai) && ai.Valid() && ai.archid == archid && ai.splitsize == splitsize && ai.curvol <= i
        invariant ai.bins == Greedy.Fill([], items[..i], Fits(archid, splitsize))
      {
        assert items[..i + 1] == items[..i] + [items[i]];
        Greedy.FillSnoc([], items[..i], items[i], Fits(archid, splitsize));
        var ok := ai.DoWrite(items[i]);
      }
      assert items[..|items|] == items;
      vols := ai.Finish();
    }

    /** The last volume gets its footer. */
    method Finish() returns (vols: seq<bytes>)
      requires Valid()
      modifies this`file
      ensures |vols| == |bins|
      ensures forall k :: 0 <= k < |bins| ==> AllOk(bins[k]) && vols[k] == Closed(archid, k, bins[k], k + 1 == |bins|)
    {
      hide EncVolFoot, Open;
      WriteVolFooter(true);
      vols := closed + [file];
    }
  }

  lemma {:induction false} FillAllOk(cur: seq<Item>, items: seq<Item>, fits: seq<Item> -> bool)
    requires AllOk(cur) && AllOk(items)
    ensures forall b :: b in Greedy.Fill(cur, items, fits) ==> AllOk(b)
    ensures |Greedy.Fill(cur, items, fits)| <= |items| + 1
    decreases |items|
  {
    if items != [] {
      if fits(cur + [items[0]]) {
        FillAllOk(cur + [items[0]], items[1..], fits);
      } else {
        FillAllOk([items[0]], items[1..], fits);
      }
    }
  }

  function BinsOf(archid: u32, splitsize: u64, items: seq<Item>): (bins: seq<seq<Item>>)
    requires AllOk(items) && |items| < 0xffff_ffff
    ensures 0 < |bins| < 0x1_0000_0000 && forall k :: 0 <= k < |bins| ==> AllOk(bins[k])
  {
    FillAllOk([], items, Fits(archid, splitsize));
    Greedy.Fill([], items, Fits(archid, splitsize))
  }

  /** The volumes of an archive. */
  function VolumesOf(archid: u32, splitsize: u64, items: seq<Item>): (vols: seq<bytes>)
    requires AllOk(items) && |items| < 0xffff_ffff
    ensures |vols| == |BinsOf(archid, splitsize, items)|
  {
    var bins := BinsOf(archid, splitsize, items);
    seq(|bins|, k requires 0 <= k < |bins| => Closed(archid, k, bins[k], k + 1 == |bins|))
  }

  lemma {:induction false} AppendItem(archid: u32, k: u32, items: seq<Item>, item: Item)
    requires AllOk(items) && ItemOk(item)
    ensures Open(archid, k, items + [item]) == Open(archid, k, items) + EncItemOf(archid, item)
    ensures EncItemOf(archid, item) != []
  {
    hide EncVolHead, EncItemOf;
    assert (items + [item])[..|items|] == items;
    assert EncItemOf(archid, item) != [] by { ItemNotEmpty(archid, item); }
  }

  lemma {:induction false} ItemNotEmpty(archid: u32, item: Item)
    requires ItemOk(item)
    ensures EncItemOf(archid, item) != []
  {
  }

  /** The test on the file position is the test on the items of the volume. */
  lemma {:induction false} SizeTest(archid: u32, splitsize: u64, k: u32, items: seq<Item>, item: Item)
    requires AllOk(items) && ItemOk(item)
    ensures |Open(archid, k, items)| + |EncItemOf(archid, item)| == HEAD_SIZE + SumBy(SizeIn(archid), items + [item])
    ensures Fits(archid, splitsize)(items + [item]) <==>
            !(splitsize > 0 && |Open(archid, k, items)| + |EncItemOf(archid, item)| > splitsize)
  {
    hide EncVolHead, EncItemOf;
    VolumeOverhead(archid, k, false);
    ItemsSize(archid, items);
    SumAppend(SizeIn(archid), items, item);
  }
}
