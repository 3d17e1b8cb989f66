/** The first path seen for every inode with several links (src/dichl.c). */
module Dichl {
  import opened Bytes
  import opened LinkedList

  datatype Entry = Entry(key1: u64, key2: u64, str: bytes)

  predicate UniqueKeys(d: seq<Entry>) {
    forall i, j :: 0 <= i < j < |d| ==> !(d[i].key1 == d[j].key1 && d[i].key2 == d[j].key2)
  }

  /** The path of the first entry with these keys. */
  function Lookup(d: seq<Entry>, key1: u64, key2: u64): (r: Option<bytes>)
    ensures r.Some? <==> exists i :: 0 <= i < |d| && d[i].key1 == key1 && d[i].key2 == key2
  {
    if d == [] then None
    else if d[0].key1 == key1 && d[0].key2 == key2 then Some(d[0].str)
    else
      assert forall i :: 1 <= i < |d| ==> d[i] == d[1..][i - 1];
      assert forall i :: 0 <= i < |d| - 1 ==> d[1..][i] == d[i + 1];
      Lookup(d[1..], key1, key2)
  }

  lemma {:induction false} LookupAt(d: seq<Entry>, i: nat)
    requires UniqueKeys(d) && i < |d|
    ensures Lookup(d, d[i].key1, d[i].key2) == Some(d[i].str)
  {
    if i > 0 {
      assert !(d[0].key1 == d[i].key1 && d[0].key2 == d[i].key2);
      LookupAt(d[1..], i - 1);
    }
  }

  /** What was found stays found, and a new entry answers for its own keys only. */
  lemma {:induction false} LookupSnoc(d: seq<Entry>, e: Entry, key1: u64, key2: u64)
    ensures Lookup(d + [e], key1, key2) ==
            if Lookup(d, key1, key2).Some? then Lookup(d, key1, key2)
            else if e.key1 == key1 && e.key2 == key2 then Some(e.str) else None
  {
    if d == [] {
      assert [] + [e] == [e];
    } else {
      assert (d + [e])[1..] == d[1..] + [e];
      LookupSnoc(d[1..], e, key1, key2);
    }
  }

  class Dichl {
    var head: Node?<Entry>
    ghost var nodes: seq<Node<Entry>>
    ghost var repr: set<Node<Entry>>
    ghost var contents: seq<Entry>

    ghost predicate Valid()
      reads this, repr
    {
      && (forall i :: 0 <= i < |nodes| ==> nodes[i] in repr)
      && Chain(head, nodes, contents) && UniqueKeys(contents)
    }

    constructor ()
      ensures Valid() && contents == [] && repr == {}
    {
      head, nodes, repr, contents := null, [], {}, [];
    }

    /** Appends an entry unless its keys are taken. */
    method Add(key1: u64, key2: u64, str: bytes) returns (ok: bool)
      requires Valid()
      modifies this, repr
      ensures Valid() && fresh(repr - old(repr))
      ensures ok <==> Lookup(old(contents), key1, key2).None?
      ensures contents == if ok then old(contents) + [Entry(key1, key2, str)] else old(contents)
    {
      var lnew := new Node(Entry(key1, key2, str));
      if head == null {
        head := lnew;
      } else {
        var item, last := head, head;
        ghost var i := 0;
        while item != null
          invariant 0 <= i <= |nodes| && item == if i < |nodes| then nodes[i] else null
          invariant i > 0 ==> last == nodes[i - 1]
          invariant forall j :: 0 <= j < i ==> !(contents[j].key1 == key1 && contents[j].key2 == key2)
          decreases |nodes| - i
        {
          last := item;
          if item.item.key1 == key1 && item.item.key2 == key2 {
            return false;
          }
          item := item.next;
          i := i + 1;
        }
        last.next := lnew;
      }
      nodes, repr, contents := nodes + [lnew], repr + {lnew}, contents + [lnew.item];
      ok := true;
    }

    /** The path, if there is one and the caller's buffer has room for it and its terminator. */
    method Get(key1: u64, key2: u64, bufsize: nat) returns (r: Option<bytes>)
      requires Valid()
      ensures r == match Lookup(contents, key1, key2)
                   case Some(str) => if bufsize < |str| + 1 then None else Some(str)
                   case None => None
    {
      var item := head;
      ghost var i := 0;
      while item != null
        invariant 0 <= i <= |nodes| && item == if i < |nodes| then nodes[i] else null
        invariant forall j :: 0 <= j < i ==> !(contents[j].key1 == key1 && contents[j].key2 == key2)
        decreases |nodes| - i
      {
        if item.item.key1 == key1 && item.item.key2 == key2 {
          LookupAt(contents, i);
          return if bufsize < |item.item.str| + 1 then None else Some(item.item.str);
        }
        item := item.next;
        i := i + 1;
      }
      r := None;
    }
  }
}
