/** The write buffer in which a header or a block is assembled before it goes to a volume in one
    piece (src/writebuf.c). */
module WriteBuf {
  import opened Bytes
  import opened ArchiveItems
  import opened Dico
  import opened Format
  import Fletcher

  lemma {:induction false} EncItemsSnoc(d: seq<DicoItem>, it: DicoItem)
    requires Storable(it) && forall i :: 0 <= i < |d| ==> Storable(d[i])
    ensures EncItems(d + [it]) == EncItems(d) + EncItem(it)
  {
    if d == [] {
      assert [] + [it] == [it] && EncItems([it]) == EncItem(it) + EncItems([]);
    } else {
      EncItemsSnoc(d[1..], it);
      assert (d + [it])[1..] == d[1..] + [it];
    }
  }

  lemma {:induction false} EncItemsPrefix(d: seq<DicoItem>, i: nat)
    requires i <= |d| && forall j :: 0 <= j < |d| ==> Storable(d[j])
    ensures |EncItems(d[..i])| <= |EncItems(d)|
    ensures i < |d| ==> |EncItems(d[..i])| + 6 + |d[i].data| <= |EncItems(d)|
    decreases |d| - i
  {
    if i == |d| {
      assert d[..i] == d;
    } else {
      assert d[..i + 1] == d[..i] + [d[i]];
      EncItemsSnoc(d[..i], d[i]);
      EncItemsPrefix(d, i + 1);
    }
  }

  lemma {:induction false} NoItems(d: seq<DicoItem>)
    requires Printable(d)
    ensures EncItems(d[..0]) == [] && |DicoBody(d)| == 2 + |EncItems(d)|
    ensures DicoBody(d) == Le16(|d| % 0x1_0000) + EncItems(d)
  {}

  lemma {:induction false} ItemAt(d: seq<DicoItem>, i: nat)
    requires Printable(d) && i < |d|
    ensures Storable(d[i]) && EncItems(d[..i + 1]) == EncItems(d[..i]) + EncItem(d[i])
    ensures |EncItems(d[..i])| + |EncItem(d[i])| <= |EncItems(d)|
  {
    hide EncItems;
    EncItemsPrefix(d, i);
    EncItemsSnoc(d[..i], d[i]);
    assert d[..i + 1] == d[..i] + [d[i]];
  }

  /** memcpy at a cursor; returns the cursor behind the copied bytes. */
  method Put(buffer: array<byte>, bufpos: nat, src: bytes) returns (next: nat)
    requires bufpos + |src| <= buffer.Length
    modifies buffer
    ensures next == bufpos + |src|
    ensures buffer[..next] == old(buffer[..bufpos]) + src
  {
    for i := 0 to |src|
      invariant buffer[..bufpos] == old(buffer[..bufpos])
      invariant buffer[bufpos..bufpos + i] == src[..i]
    {
      buffer[bufpos + i] := src[i];
      assert buffer[bufpos..bufpos + i + 1] == buffer[bufpos..bufpos + i] + [src[i]];
    }
    next := bufpos + |src|;
    assert buffer[..next] == buffer[..bufpos] + buffer[bufpos..next];
  }

  method PutItem(buffer: array<byte>, bufpos: nat, it: DicoItem) returns (next: nat)
    requires Storable(it) && bufpos + |EncItem(it)| <= buffer.Length
    modifies buffer
    ensures next == bufpos + |EncItem(it)|
    ensures buffer[..next] == old(buffer[..bufpos]) + EncItem(it)
  {
    next := Put(buffer, bufpos, [it.typ]);
    next := Put(buffer, next, [it.section]);
    next := Put(buffer, next, Le16(it.key));
    next := Put(buffer, next, Le16(|it.data|));
    assert buffer[..next] == old(buffer[..bufpos]) + ([it.typ, it.section] + Le16(it.key) + Le16(|it.data|));
    if |it.data| > 0 {
      next := Put(buffer, next, it.data);
    }
  }

  class WriteBuf {
    var data: bytes

    constructor ()
      ensures data == []
    {
      data := [];
    }

    /** Refuses to add nothing. */
    method AddData(src: bytes) returns (ok: bool)
      modifies this
      ensures ok <==> src != []
      ensures data == old(data) + src
    {
      if |src| == 0 {
        return false;
      }
      data := data + src;
      ok := true;
    }

    /** The buffer allocated for the computed length is filled exactly, and its checksum follows it. */
    method AddDico(d: Dico) returns (ok: bool)
      requires d.Valid() && Printable(d.contents)
      modifies this
      ensures ok && data == old(data) + EncDico(d.contents)
    {
      var count := d.CountAllSections();
      var headerlen := HeaderLength(d);
      var buffer := FillBuffer(d, count, headerlen);
      ok := AddData(Le32(headerlen));
      ok := AddData(buffer[..]);
      var checksum := Fletcher.Fletcher32(buffer);
      ok := AddData(Le32(checksum));
      assert old(data) + Le32(headerlen) + buffer[..] + Le32(checksum) == old(data) + EncDico(d.contents);
    }

    static method HeaderLength(d: Dico) returns (headerlen: nat)
      requires d.Valid()
      ensures headerlen == |DicoBody(d.contents)|
    {
      headerlen := 2;
      var item := d.head;
      ghost var i := 0;
      while item != null
        invariant 0 <= i <= |d.nodes| && item == if i < |d.nodes| then d.nodes[i] else null
        invariant headerlen == 2 + |EncItems(d.contents[..i])|
        decreases |d.nodes| - i
      {
        headerlen := headerlen + 6 + |item.item.data|;
        EncItemsSnoc(d.contents[..i], d.contents[i]);
        assert d.contents[..i + 1] == d.contents[..i] + [d.contents[i]];
        item := item.next;
        i := i + 1;
      }
      assert d.contents[..i] == d.contents;
    }

    static method FillBuffer(d: Dico, count: nat, headerlen: nat) returns (buffer: array<byte>)
      requires d.Valid() && Printable(d.contents)
      requires count == |d.contents| && headerlen == |DicoBody(d.contents)|
      ensures buffer[..] == DicoBody(d.contents)
    {
      hide EncItem, EncItems, Storable;
      NoItems(d.contents);
      buffer := new byte[headerlen];
      var bufpos := Put(buffer, 0, Le16(count % 0x1_0000));
      var item := d.head;
      ghost var i := 0;
      while item != null
        invariant 0 <= i <= |d.nodes| && item == if i < |d.nodes| then d.nodes[i] else null
        invariant bufpos == 2 + |EncItems(d.contents[..i])| <= buffer.Length
        invariant buffer[..bufpos] == Le16(count % 0x1_0000) + EncItems(d.contents[..i])
        decreases |d.nodes| - i
      {
        ItemAt(d.contents, i);
        var it := item.item;
        assert it == d.contents[i];
        bufpos := PutItem(buffer, bufpos, it);
        item := item.next;
        i := i + 1;
      }
      assert d.contents[..i] == d.contents;
      assert buffer[..bufpos] == buffer[..];
    }

    method AddHeader(d: Dico, magic: Magic, archid: u32, fsid: u16) returns (ok: bool)
      requires d.Valid() && Printable(d.contents)
      modifies this
      ensures ok && data == old(data) + EncHeader(magic, archid, fsid, d.contents)
    {
      ok := AddData(MagicBytes(magic));
      ok := AddData(Le32(archid));
      ok := AddData(Le16(fsid));
      ok := AddDico(d);
      assert old(data) + MagicBytes(magic) + Le32(archid) + Le16(fsid) + EncDico(d.contents)
          == old(data) + EncHeader(magic, archid, fsid, d.contents);
    }

    /** Empty blocks are refused; any other block is its header followed by its data. */
    method AddBlock(b: Block, archid: u32) returns (ok: bool)
      requires |b.data| == b.arSize
      modifies this
      ensures ok <==> b.arSize != 0
      ensures data == if ok then old(data) + EncBlock(b, archid) else old(data)
    {
      if b.arSize == 0 {
        return false;
      }
      var d := NewDico(BlockDico(b));
      BlockDicoPrintable(b);
      ok := AddHeader(d, BLKH, archid, b.fsid);
      ok := AddData(b.data);
    }
  }
}
