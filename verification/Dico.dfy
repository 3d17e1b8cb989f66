/** The dictionaries that hold all header data: ordered items, at most one per (section, key). */
module Dico {
  import opened Bytes
  import opened LinkedList

  // DicoItem types (src/dico.h)
  const TYPE_U16: byte := 2
  const TYPE_U32: byte := 3
  const TYPE_U64: byte := 4
  const TYPE_DATA: byte := 5
  const TYPE_STRING: byte := 6

  datatype DicoItem = DicoItem(typ: byte, section: byte, key: u16, data: bytes)

  /** The stored size is 16 bits wide. */
  predicate Storable(it: DicoItem) {
    |it.data| < 0x1_0000
  }

  predicate UniqueKeys(d: seq<DicoItem>) {
    forall i, j :: 0 <= i < j < |d| ==> !(d[i].section == d[j].section && d[i].key == d[j].key)
  }

  predicate WellFormed(d: seq<DicoItem>) {
    UniqueKeys(d) && forall i :: 0 <= i < |d| ==> Storable(d[i])
  }

  /** The index of the first item with this section and key, or |d|. */
  function IndexOf(d: seq<DicoItem>, section: byte, key: u16): (i: nat)
    ensures i <= |d|
    ensures i < |d| ==> d[i].section == section && d[i].key == key
    ensures forall j :: 0 <= j < i ==> !(d[j].section == section && d[j].key == key)
  {
    if d == [] then 0
    else if d[0].section == section && d[0].key == key then 0
    else
      var i := IndexOf(d[1..], section, key);
      assert forall j :: 1 <= j <= i ==> d[j] == d[1..][j - 1];
      i + 1
  }

  /** In a dictionary with unique keys every item can be looked up. */
  lemma {:induction false} UniqueFound(d: seq<DicoItem>, i: nat)
    requires UniqueKeys(d) && i < |d|
    ensures IndexOf(d, d[i].section, d[i].key) == i
  {
    var j := IndexOf(d, d[i].section, d[i].key);
    assert !(j < i);
  }

  datatype GetResult = GotEmptyDico | BadMaxSize | TooBig | NotFound | Got(data: bytes)

  /** What a lookup with room for `maxsize` bytes returns. */
  function Get(d: seq<DicoItem>, section: byte, key: u16, maxsize: u16): GetResult {
    var i := IndexOf(d, section, key);
    if d == [] then GotEmptyDico
    else if maxsize < 1 then BadMaxSize
    else if i == |d| then NotFound
    else if |d[i].data| > maxsize then TooBig
    else Got(d[i].data)
  }

  function GetU16(d: seq<DicoItem>, section: byte, key: u16): Option<u16> {
    match Get(d, section, key, 2)
    case Got(s) => if |s| == 2 then Some(De16(s)) else None
    case _ => None
  }

  function GetU32(d: seq<DicoItem>, section: byte, key: u16): Option<u32> {
    match Get(d, section, key, 4)
    case Got(s) => if |s| == 4 then Some(De32(s)) else None
    case _ => None
  }

  function GetU64(d: seq<DicoItem>, section: byte, key: u16): Option<u64> {
    match Get(d, section, key, 8)
    case Got(s) => if |s| == 8 then Some(De64(s)) else None
    case _ => None
  }

  function U16Item(section: byte, key: u16, x: u16): DicoItem { DicoItem(TYPE_U16, section, key, Le16(x)) }
  function U32Item(section: byte, key: u16, x: u32): DicoItem { DicoItem(TYPE_U32, section, key, Le32(x)) }
  function U64Item(section: byte, key: u16, x: u64): DicoItem { DicoItem(TYPE_U64, section, key, Le64(x)) }
  function DataItem(section: byte, key: u16, data: bytes): DicoItem { DicoItem(TYPE_DATA, section, key, data) }
  function StringItem(section: byte, key: u16, s: bytes): DicoItem { DicoItem(TYPE_STRING, section, key, s + [0]) }

  lemma {:induction false} GetItemAt(d: seq<DicoItem>, i: nat)
    requires UniqueKeys(d) && i < |d|
    ensures forall maxsize: u16 :: 1 <= maxsize && |d[i].data| <= maxsize ==>
              Get(d, d[i].section, d[i].key, maxsize) == Got(d[i].data)
    ensures forall x: u16 :: d[i].data == Le16(x) ==> GetU16(d, d[i].section, d[i].key) == Some(x)
    ensures forall x: u32 :: d[i].data == Le32(x) ==> GetU32(d, d[i].section, d[i].key) == Some(x)
    ensures forall x: u64 :: d[i].data == Le64(x) ==> GetU64(d, d[i].section, d[i].key) == Some(x)
  {
    UniqueFound(d, i);
    forall x: u16 | d[i].data == Le16(x) ensures De16(d[i].data) == x { DecodeEncode16(x); }
    forall x: u32 | d[i].data == Le32(x) ensures De32(d[i].data) == x { DecodeEncode32(x); }
    forall x: u64 | d[i].data == Le64(x) ensures De64(d[i].data) == x { DecodeEncode64(x); }
  }

  class Dico {
    var head: Node?<DicoItem>
    ghost var nodes: seq<Node<DicoItem>>
    ghost var repr: set<Node<DicoItem>>
    ghost var contents: seq<DicoItem>

    ghost predicate Valid()
      reads this, repr
    {
      && (forall i :: 0 <= i < |nodes| ==> nodes[i] in repr)
      && Chain(head, nodes, contents) && WellFormed(contents)
    }

    constructor ()
      ensures Valid() && contents == [] && repr == {}
    {
      head, nodes, repr, contents := null, [], {}, [];
    }

    /** Appends an item, or refuses it when its section and key are taken. */
    method AddGeneric(section: byte, key: u16, data: bytes, typ: byte) returns (ok: bool)
      requires Valid() && |data| < 0x1_0000
      modifies this, repr
      ensures Valid() && fresh(repr - old(repr))
      ensures ok <==>
                forall i :: 0 <= i < |old(contents)| ==>
                  !(old(contents)[i].section == section && old(contents)[i].key == key)
      ensures contents == if ok then old(contents) + [DicoItem(typ, section, key, data)] else old(contents)
    {
      var lnew := new Node(DicoItem(typ, section, key, data));
      if head == null {
        head := lnew;
      } else {
        var item, last := head, head;
        ghost var i := 0;
        while item != null
          invariant 0 <= i <= |nodes|
          invariant item == if i < |nodes| then nodes[i] else null
          invariant i > 0 ==> last == nodes[i - 1]
          invariant forall j :: 0 <= j < i ==> !(nodes[j].item.section == section && nodes[j].item.key == key)
          decreases |nodes| - i
        {
          last := item;
          if item.item.section == section && item.item.key == key {
            return false;
          }
          item := item.next;
          i := i + 1;
        }
        last.next := lnew;
      }
      nodes, repr, contents := nodes + [lnew], repr + {lnew}, contents + [lnew.item];
      ok := true;
    }

    method GetGeneric(section: byte, key: u16, maxsize: u16) returns (r: GetResult)
      requires Valid()
      ensures r == Get(contents, section, key, maxsize)
      ensures r == GotEmptyDico <==> contents == []
      ensures r == BadMaxSize <==> contents != [] && maxsize == 0
      ensures r == NotFound <==>
                contents != [] && maxsize > 0 &&
                forall i :: 0 <= i < |contents| ==> !(contents[i].section == section && contents[i].key == key)
      ensures r.Got? <==>
                contents != [] && maxsize > 0 &&
                exists i :: 0 <= i < |contents| && contents[i].section == section && contents[i].key == key &&
                  |contents[i].data| <= maxsize && r == Got(contents[i].data) &&
                  forall j :: 0 <= j < i ==> !(contents[j].section == section && contents[j].key == key)
    {
      if head == null {
        return GotEmptyDico;
      }
      if maxsize < 1 {
        return BadMaxSize;
      }
      var item := head;
      ghost var i := 0;
      while item != null
        invariant 0 <= i <= |nodes|
        invariant item == if i < |nodes| then nodes[i] else null
        invariant forall j :: 0 <= j < i ==> !(nodes[j].item.section == section && nodes[j].item.key == key)
        decreases |nodes| - i
      {
        if item.item.key == key && item.item.section == section {
          UniqueFound(contents, i);
          if |item.item.data| > maxsize {
            return TooBig;
          }
          return Got(item.item.data);
        }
        item := item.next;
        i := i + 1;
      }
      r := NotFound;
    }

    /** The items in order. */
    method Snapshot() returns (s: seq<DicoItem>)
      requires Valid()
      ensures s == contents
    {
      s := [];
      var item := head;
      while item != null
        invariant |s| <= |nodes| && item == if |s| < |nodes| then nodes[|s|] else null
        invariant s == contents[..|s|]
        decreases |nodes| - |s|
      {
        s := s + [item.item];
        item := item.next;
      }
    }

    method CountAllSections() returns (count: nat)
      requires Valid()
      ensures count == |contents|
    {
      count := 0;
      var item := head;
      while item != null
        invariant count <= |nodes|
        invariant item == if count < |nodes| then nodes[count] else null
        decreases |nodes| - count
      {
        count := count + 1;
        item := item.next;
      }
    }
  }

  /** A dictionary filled with one item after the other. */
  method NewDico(items: seq<DicoItem>) returns (d: Dico)
    requires WellFormed(items)
    ensures fresh(d) && d.Valid() && d.contents == items
  {
    d := new Dico();
    for i := 0 to |items|
      invariant fresh(d) && d.Valid() && d.contents == items[..i]
      invariant fresh(d.repr)
    {
      var ok := d.AddGeneric(items[i].section, items[i].key, items[i].data, items[i].typ);
      assert ok && items[..i + 1] == items[..i] + [items[i]];
    }
    assert items[..|items|] == items;
  }
}
