/** Small files that share one data block (src/regmulti.c). */
module RegMulti {
  import opened Bytes
  import opened ArchiveItems
  import opened Records
  import opened Sums
  import Greedy

  datatype SmallFile = SmallFile(head: ObjHead, data: bytes)

  predicate SmallOk(f: SmallFile) {
    f.head.size == |f.data| && f.head.multiCount.None? && f.head.multiOffset.None?
  }

  function SizeOf(f: SmallFile): nat { |f.data| }

  function TotalSize(fs: seq<SmallFile>): nat { SumBy(SizeOf, fs) }

  /** The shared block: all contents in order. */
  function SharedData(fs: seq<SmallFile>): (data: bytes) {
    if fs == [] then [] else SharedData(fs[..|fs| - 1]) + fs[|fs| - 1].data
  }

  lemma {:induction false} SharedSize(fs: seq<SmallFile>)
    ensures |SharedData(fs)| == TotalSize(fs)
  {
    if fs != [] {
      SharedSize(fs[..|fs| - 1]);
    }
  }

  function OffsetOf(fs: seq<SmallFile>, i: nat): nat
    requires i <= |fs|
  {
    TotalSize(fs[..i])
  }

  /** Offsets tile the block: each file's bytes stand exactly between its offset and the next one. */
  lemma {:induction false} OffsetsTile(fs: seq<SmallFile>, i: nat)
    requires i < |fs|
    ensures OffsetOf(fs, i) + |fs[i].data| == OffsetOf(fs, i + 1) <= |SharedData(fs)|
    ensures SharedData(fs)[OffsetOf(fs, i)..OffsetOf(fs, i + 1)] == fs[i].data
    ensures OffsetOf(fs, 0) == 0 && OffsetOf(fs, |fs|) == |SharedData(fs)|
  {
    var n := |fs| - 1;
    SharedSize(fs);
    SharedSize(fs[..n]);
    assert fs[..|fs|] == fs;
    assert fs[..i + 1][..i] == fs[..i] && fs[..i + 1][i] == fs[i];
    if i == n {
      assert SharedData(fs) == SharedData(fs[..n]) + fs[n].data;
    } else {
      OffsetsTile(fs[..n], i);
      assert fs[..n][..i] == fs[..i] && fs[..n][..i + 1] == fs[..i + 1];
    }
  }

  predicate EnoughSpace(fs: seq<SmallFile>, maxblksize: nat, filesize: nat) {
    |fs| < MAX_SMALLFILECOUNT && TotalSize(fs) + filesize <= maxblksize
  }

  /** The header of file i as it is queued. */
  function PackedHead(fs: seq<SmallFile>, i: nat): ObjHead
    requires i < |fs| <= MAX_SMALLFILECOUNT && TotalSize(fs) <= MAX_BLKSIZE
  {
    SumPrefix(fs, i);
    fs[i].head.(multiCount := Some(|fs|), multiOffset := Some(OffsetOf(fs, i)))
  }

  lemma {:induction false} SumPrefix(fs: seq<SmallFile>, i: nat)
    requires i <= |fs|
    ensures OffsetOf(fs, i) <= TotalSize(fs)
  {
    assert fs == fs[..i] + fs[i..];
    SumConcat(SizeOf, fs[..i], fs[i..]);
  }

  function PackedHeads(fs: seq<SmallFile>, n: nat, fsid: u16): (recs: seq<Rec>)
    requires n <= |fs| <= MAX_SMALLFILECOUNT && TotalSize(fs) <= MAX_BLKSIZE
    ensures |recs| == n
  {
    seq(n, i requires 0 <= i < n => Obj(PackedHead(fs, i), fsid))
  }

  lemma {:induction false} NextOffset(fs: seq<SmallFile>, i: nat, fsid: u16)
    requires i < |fs| <= MAX_SMALLFILECOUNT && TotalSize(fs) <= MAX_BLKSIZE
    ensures OffsetOf(fs, i + 1) == OffsetOf(fs, i) + |fs[i].data| <= TotalSize(fs) && OffsetOf(fs, 0) == 0
    ensures PackedHead(fs, i) == fs[i].head.(multiCount := Some(|fs|), multiOffset := Some(OffsetOf(fs, i)))
    ensures PackedHeads(fs, i + 1, fsid) == PackedHeads(fs, i, fsid) + [Obj(PackedHead(fs, i), fsid)]
    ensures PackedHeads(fs, 0, fsid) == []
  {
    SumPrefix(fs, i + 1);
    assert fs[..i + 1] == fs[..i] + [fs[i]];
    SumAppend(SizeOf, fs[..i], fs[i]);
  }

  /** All headers, then the shared block; nothing for no files. */
  function EmitPack(fs: seq<SmallFile>, fsid: u16): seq<Rec>
    requires |fs| <= MAX_SMALLFILECOUNT && TotalSize(fs) <= MAX_BLKSIZE
  {
    if fs == [] then [] else PackedHeads(fs, |fs|, fsid) + [Blk(0, SharedData(fs), fsid)]
  }

  lemma {:induction false} SharedMore(fs: seq<SmallFile>, f: SmallFile)
    ensures SharedData(fs + [f]) == SharedData(fs) + f.data && TotalSize(fs + [f]) == TotalSize(fs) + |f.data|
  {
    assert (fs + [f])[..|fs|] == fs;
    SumAppend(SizeOf, fs, f);
  }

  /** memcpy to a position in the block. */
  method CopyIn(data: array<byte>, pos: nat, content: bytes)
    requires pos + |content| <= data.Length
    modifies data
    ensures data[..pos + |content|] == old(data[..pos]) + content
  {
    forall i | 0 <= i < |content| {
      data[pos + i] := content[i];
    }
  }

  class RegMulti {
    var count: nat
    const maxblksize: nat
    const objhead: array<Option<ObjHead>>
    const data: array<byte>
    var usedsize: nat
    ghost var heads: seq<ObjHead>
    ghost var files: seq<SmallFile> // while saving: what has been added

    ghost predicate Valid()
      reads this, objhead, data
    {
      && objhead.Length == MAX_SMALLFILECOUNT && data.Length == MAX_BLKSIZE
      && count == |heads| <= MAX_SMALLFILECOUNT && usedsize <= maxblksize <= MAX_BLKSIZE
      && forall i :: 0 <= i < count ==> objhead[i] == Some(heads[i])
    }

    ghost predicate Saving()
      reads this, objhead, data
    {
      && Valid() && count == |files| && usedsize == TotalSize(files)
      && (forall i :: 0 <= i < count ==> heads[i] == files[i].head && SmallOk(files[i]))
      && data[..usedsize] == SharedData(files)
    }

    constructor (maxblksize: nat)
      ensures Saving() && files == [] && heads == [] && this.maxblksize == Min(maxblksize, MAX_BLKSIZE)
      ensures fresh(objhead) && fresh(data)
    {
      objhead := new Option<ObjHead>[MAX_SMALLFILECOUNT];
      data := new byte[MAX_BLKSIZE];
      this.maxblksize := Min(maxblksize, MAX_BLKSIZE);
      count, usedsize := 0, 0;
      heads, files := [], [];
    }

    method Empty()
      requires Valid()
      modifies this, objhead
      ensures Saving() && files == [] && heads == []
    {
      count, usedsize := 0, 0;
      heads, files := [], [];
      forall i | 0 <= i < objhead.Length {
        objhead[i] := None;
      }
    }

    method EnoughSpaceForNewFile(filesize: nat) returns (enough: bool)
      requires Saving()
      ensures enough <==> EnoughSpace(files, maxblksize, filesize)
    {
      enough := count < objhead.Length && usedsize + filesize <= maxblksize;
    }

    method SaveAddFile(header: ObjHead, content: bytes) returns (ok: bool)
      requires Saving() && SmallOk(SmallFile(header, content))
      modifies this, objhead, data
      ensures Saving()
      ensures ok <==> EnoughSpace(old(files), maxblksize, |content|)
      ensures files == if ok then old(files) + [SmallFile(header, content)] else old(files)
    {
      hide SharedData, TotalSize;
      if count >= objhead.Length || usedsize + |content| > maxblksize {
        return false;
      }
      SharedMore(files, SmallFile(header, content));
      objhead[count] := Some(header);
      CopyIn(data, usedsize, content);
      heads, files := heads + [header], files + [SmallFile(header, content)];
      usedsize := usedsize + |content|;
      count := count + 1;
      ok := true;
    }

    /** Every header learns how many files there are and where its contents start, and is queued; the
        shared block follows. */
    method SaveEnqueue(fsid: u16) returns (queued: seq<Rec>)
      requires Saving()
      ensures queued == EmitPack(files, fsid)
    {
      hide OffsetOf, TotalSize, PackedHeads, PackedHead, SharedData;
      queued := [];
      if count == 0 {
        return;
      }
      NextOffset(files, 0, fsid);
      var offset := 0;
      for i := 0 to count
        invariant offset == OffsetOf(files, i) && queued == PackedHeads(files, i, fsid)
      {
        NextOffset(files, i, fsid);
        var header := objhead[i].value;
        queued := queued + [Obj(header.(multiCount := Some(count), multiOffset := Some(offset)), fsid)];
        offset := offset + header.size;
      }
      queued := queued + [Blk(0, data[..usedsize], fsid)];
    }

    method RestAddHeader(header: ObjHead) returns (ok: bool)
      requires Valid()
      modifies this, objhead
      ensures Valid() && usedsize == old(usedsize)
      ensures ok <==> |old(heads)| < MAX_SMALLFILECOUNT
      ensures heads == if ok then old(heads) + [header] else old(heads)
    {
      if count >= objhead.Length {
        return false;
      }
      objhead[count] := Some(header);
      heads := heads + [header];
      count := count + 1;
      ok := true;
    }

    method RestSetDataBlock(block: bytes) returns (ok: bool)
      requires Valid()
      modifies this`usedsize, data
      ensures Valid()
      ensures ok <==> old(usedsize) + |block| <= maxblksize
      ensures ok ==> data[..usedsize] == block
    {
      if usedsize + |block| > maxblksize {
        return false;
      }
      CopyIn(data, 0, block);
      usedsize := |block|;
      ok := true;
    }

    /** The header and the bytes of one file. */
    method RestGetFile(index: nat) returns (r: Option<SmallFile>)
      requires Valid()
      ensures r == FileAt(heads, data[..usedsize], index)
    {
      if index >= count {
        return None;
      }
      var header := objhead[index].value;
      if header.multiOffset.None? || header.multiOffset.value + header.size > usedsize {
        return None;
      }
      var offset := header.multiOffset.value;
      assert data[..usedsize][offset..offset + header.size] == data[offset..offset + header.size];
      r := Some(SmallFile(header, data[offset..offset + header.size]));
    }
  }

  /** The file with this index behind its headers and their shared block. */
  function FileAt(heads: seq<ObjHead>, block: bytes, index: nat): Option<SmallFile> {
    if index >= |heads| then None
    else
      match heads[index].multiOffset
      case None => None
      case Some(offset) =>
        if offset + heads[index].size > |block| then None
        else Some(SmallFile(heads[index], block[offset..offset + heads[index].size]))
  }

  function HeadsOf(recs: seq<Rec>): seq<ObjHead>
    requires forall i :: 0 <= i < |recs| ==> recs[i].Obj?
  {
    seq(|recs|, i requires 0 <= i < |recs| => recs[i].head)
  }

  /** Unpacking gives every file its own bytes. */
  lemma {:induction false} UnpackOwnBytes(fs: seq<SmallFile>, i: nat, fsid: u16)
    requires i < |fs| <= MAX_SMALLFILECOUNT && TotalSize(fs) <= MAX_BLKSIZE && SmallOk(fs[i])
    ensures var heads := HeadsOf(PackedHeads(fs, |fs|, fsid));
            FileAt(heads, SharedData(fs), i) == Some(SmallFile(PackedHead(fs, i), fs[i].data))
  {
    OffsetsTile(fs, i);
  }

  // ---- filling blocks

  function FitsPack(maxblksize: nat): seq<SmallFile> -> bool {
    fs => |fs| <= MAX_SMALLFILECOUNT && TotalSize(fs) <= maxblksize
  }

  lemma {:induction false} EnoughSpaceIsFit(fs: seq<SmallFile>, f: SmallFile, maxblksize: nat)
    ensures EnoughSpace(fs, maxblksize, |f.data|) <==> FitsPack(maxblksize)(fs + [f])
  {
    SumAppend(SizeOf, fs, f);
  }

  lemma {:induction false} FitsPackHereditary(maxblksize: nat)
    ensures Greedy.Hereditary(FitsPack(maxblksize))
  {
    forall a: seq<SmallFile>, b: seq<SmallFile> | FitsPack(maxblksize)(a + b)
      ensures FitsPack(maxblksize)(a) && FitsPack(maxblksize)(b)
    {
      SumConcat(SizeOf, a, b);
    }
  }

  /** A block that is not the last one holds 512 files or is more than three quarters full, when every
      file is smaller than a quarter of a block. */
  lemma {:induction false} BlocksWellFilled(cur: seq<SmallFile>, fs: seq<SmallFile>, maxblksize: nat)
    requires FitsPack(maxblksize)(cur)
    requires forall i :: 0 <= i < |fs| ==> 4 * |fs[i].data| < maxblksize
    ensures WellFilled(Greedy.Fill(cur, fs, FitsPack(maxblksize)), maxblksize)
    decreases |fs|
  {
    var fits := FitsPack(maxblksize);
    if fs != [] {
      EnoughSpaceIsFit(cur, fs[0], maxblksize);
      if fits(cur + [fs[0]]) {
        BlocksWellFilled(cur + [fs[0]], fs[1..], maxblksize);
      } else {
        SumOne(SizeOf, fs[0]);
        BlocksWellFilled([fs[0]], fs[1..], maxblksize);
        var rest := Greedy.Fill([fs[0]], fs[1..], fits);
        assert Greedy.Fill(cur, fs, fits) == [cur] + rest;
        assert forall k :: 0 <= k < |rest| - 1 ==> ([cur] + rest)[k + 1] == rest[k];
      }
    }
  }

  predicate WellFilled(bins: seq<seq<SmallFile>>, maxblksize: nat) {
    forall k :: 0 <= k < |bins| - 1 ==> |bins[k]| == MAX_SMALLFILECOUNT || 4 * TotalSize(bins[k]) > 3 * maxblksize
  }

  /** No division of the files into shared blocks in their order of arrival needs fewer blocks. */
  lemma {:induction false} FewestBlocks(fs: seq<SmallFile>, bins: seq<seq<SmallFile>>, maxblksize: nat)
    requires bins != [] && Greedy.Flatten(bins) == fs
    requires forall b :: b in bins ==> FitsPack(maxblksize)(b)
    ensures |Greedy.Fill([], fs, FitsPack(maxblksize))| <= |bins|
  {
    FitsPackHereditary(maxblksize);
    Greedy.FillOptimal(fs, bins, FitsPack(maxblksize));
  }
}
