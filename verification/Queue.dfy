/** The item queue shared by the producer, the (de)compression threads and the consumer (src/queue.c).
    Each method body is one critical section of the source; where the source would sleep on the
    condition variable and try again, the method reports Wait and changes nothing. */
module Queue {
  import opened Bytes
  import opened ArchiveItems
  import opened LinkedList
  import opened Sums

  datatype Entry = Entry(item: Item, status: Status, num: int)

  /** The abstract queue. */
  datatype State = State(entries: seq<Entry>, nextNum: int, blkMax: nat, ended: bool)

  datatype Outcome<+T> = Wait | EndOfQueue | WrongType | Taken(num: int, value: T)
  datatype AddOutcome = AddWait | AddEnded | Added
  datatype NextItem = NextBlock | NextHeader(magic: Magic)

  function BlockWeight(e: Entry): nat {
    if e.item.BlockItem? then 1 else 0
  }

  function NumBlocks(es: seq<Entry>): nat {
    SumBy(BlockWeight, es)
  }

  lemma {:induction false} NumBlocksAppend(es: seq<Entry>, e: Entry)
    ensures NumBlocks(es + [e]) == NumBlocks(es) + BlockWeight(e)
    ensures NumBlocks(es) <= |es|
  {
    SumAppend(BlockWeight, es, e);
    SumAtMost(BlockWeight, es, 1);
  }

  // ---- the abstract operations

  predicate AtEnd(s: State) { s.entries == [] && s.ended }

  predicate Full(s: State) { NumBlocks(s.entries) > s.blkMax }

  predicate HeadReady(s: State) { s.entries != [] && s.entries[0].status == Done }

  function AddResult(s: State): AddOutcome {
    if s.ended then AddEnded else if Full(s) then AddWait else Added
  }

  function AfterAdd(s: State, item: Item, status: Status): State {
    if AddResult(s) == Added
    then s.(entries := s.entries + [Entry(item, status, s.nextNum)], nextNum := s.nextNum + 1)
    else s
  }

  predicate IsTodo(e: Entry) { e.item.BlockItem? && e.status == Todo }

  /** The index of the first block that nobody has claimed, or the length. */
  function FirstTodo(es: seq<Entry>): (i: nat)
    ensures i <= |es|
    ensures i < |es| ==> IsTodo(es[i])
    ensures forall j :: 0 <= j < i ==> !IsTodo(es[j])
  {
    if es == [] then 0 else if IsTodo(es[0]) then 0
    else
      var i := FirstTodo(es[1..]);
      assert forall j :: 1 <= j <= i ==> es[j] == es[1..][j - 1];
      1 + i
  }

  function ClaimResult(s: State): Outcome<Block> {
    var i := FirstTodo(s.entries);
    if AtEnd(s) then EndOfQueue
    else if i == |s.entries| then Wait
    else Taken(s.entries[i].num, s.entries[i].item.block)
  }

  function AfterClaim(s: State): State {
    var i := FirstTodo(s.entries);
    if i == |s.entries| then s else s.(entries := s.entries[i := s.entries[i].(status := Progress)])
  }

  /** The index of the first entry with this number, or the length. */
  function IndexOfNum(es: seq<Entry>, num: int): (i: nat)
    ensures i <= |es|
    ensures i < |es| ==> es[i].num == num
    ensures forall j :: 0 <= j < i ==> es[j].num != num
  {
    if es == [] then 0 else if es[0].num == num then 0
    else
      var i := IndexOfNum(es[1..], num);
      assert forall j :: 1 <= j <= i ==> es[j] == es[1..][j - 1];
      1 + i
  }

  /** A header keeps its contents: the block slot of a header item is never read. */
  function Refill(item: Item, b: Block): Item {
    if item.BlockItem? then BlockItem(b) else item
  }

  function AfterReplace(s: State, num: int, b: Block, status: Status): State {
    var i := IndexOfNum(s.entries, num);
    if i == |s.entries| then s
    else s.(entries := s.entries[i := Entry(Refill(s.entries[i].item, b), status, num)])
  }

  function DropHead(s: State): State
    requires s.entries != []
  {
    s.(entries := s.entries[1..])
  }

  function DequeueFirstResult(s: State): Outcome<Item> {
    if AtEnd(s) then EndOfQueue
    else if !HeadReady(s) then Wait
    else Taken(s.entries[0].num, s.entries[0].item)
  }

  function DequeueBlockResult(s: State): Outcome<Block> {
    match DequeueFirstResult(s)
    case Taken(num, BlockItem(b)) => Taken(num, b)
    case Taken(_, HeaderItem(_)) => WrongType
    case EndOfQueue => EndOfQueue
    case _ => Wait
  }

  function DequeueHeaderResult(s: State): Outcome<Header> {
    match DequeueFirstResult(s)
    case Taken(num, HeaderItem(h)) => Taken(num, h)
    case Taken(_, BlockItem(_)) => WrongType
    case EndOfQueue => EndOfQueue
    case _ => Wait
  }

  function CheckNextResult(s: State): Outcome<NextItem> {
    match DequeueFirstResult(s)
    case Taken(num, BlockItem(_)) => Taken(num, NextBlock)
    case Taken(num, HeaderItem(h)) => Taken(num, NextHeader(h.magic))
    case EndOfQueue => EndOfQueue
    case _ => Wait
  }

  /** The destroying consumer takes any head that no thread is working on. */
  function DestroyResult(s: State): Outcome<()> {
    if AtEnd(s) then EndOfQueue
    else if s.entries == [] || s.entries[0].status == Progress then Wait
    else Taken(s.entries[0].num, ())
  }

  function AfterTake<T>(s: State, r: Outcome<T>): State {
    if r.Taken? && s.entries != [] then DropHead(s) else s
  }

  // ---- the queue itself

  predicate IsUndone(e: Entry) {
    e.item.BlockItem? && e.status != Done
  }

  /** The places of the blocks that are not done yet. */
  function Undone(entries: seq<Entry>): set<nat> {
    set i | 0 <= i < |entries| && IsUndone(entries[i])
  }

  lemma {:induction false} OneMoreUndone(entries: seq<Entry>, e: Entry)
    ensures |Undone(entries + [e])| == |Undone(entries)| + if IsUndone(e) then 1 else 0
  {
    assert Undone(entries + [e]) == Undone(entries) + if IsUndone(e) then {|entries|} else {};
  }

  class Queue {
    var head: Node?<Entry>
    var curitemnum: int
    var itemcount: u64
    var blkcount: u64
    var blkmax: u64
    var endofqueue: bool
    ghost var nodes: seq<Node<Entry>>
    ghost var entries: seq<Entry>

    /** The list is well linked and both counters are exact. */
    ghost predicate Valid()
      reads this, nodes
    {
      && Chain(head, nodes, entries)
      && itemcount == |nodes|
      && blkcount == NumBlocks(entries)
    }

    ghost function Abs(): State
      reads this
    {
      State(entries, curitemnum, blkmax, endofqueue)
    }

    constructor (blkmax: u64)
      ensures Valid() && Abs() == State([], 1, blkmax, false) && nodes == []
    {
      head, curitemnum, itemcount, blkcount := null, 1, 0, 0;
      this.blkmax, endofqueue := blkmax, false;
      nodes, entries := [], [];
    }

    method SetEndOfQueue(state: bool)
      requires Valid()
      modifies this`endofqueue
      ensures Valid() && Abs() == old(Abs()).(ended := state)
    {
      endofqueue := state;
    }

    method GetEndOfQueue() returns (res: bool)
      requires Valid()
      ensures res == AtEnd(Abs())
    {
      res := itemcount < 1 && endofqueue;
    }

    /** How many blocks are not done yet. */
    method CountItemsTodo() returns (count: nat)
      requires Valid()
      ensures count == |Undone(Abs().entries)|
      ensures count == 0 <==> forall e :: e in Abs().entries ==> e.item.BlockItem? ==> e.status == Done
      ensures count <= NumBlocks(Abs().entries)
    {
      count := 0;
      var cur := head;
      ghost var i := 0;
      while cur != null
        invariant 0 <= i <= |nodes| && cur == if i < |nodes| then nodes[i] else null
        invariant count == 0 <==> forall j :: 0 <= j < i ==> !IsUndone(nodes[j].item)
        invariant count <= NumBlocks(entries[..i]) && count == |Undone(entries[..i])|
        decreases |nodes| - i
      {
        if cur.item.item.BlockItem? && cur.item.status != Done {
          count := count + 1;
        }
        assert entries[..i + 1][..i] == entries[..i];
        OneMoreUndone(entries[..i], entries[i]);
        assert entries[..i + 1] == entries[..i] + [entries[i]];
        cur := cur.next;
        i := i + 1;
      }
      assert entries[..i] == entries;
    }

    /** Links a new node behind the last one. */
    method Append(node: Node<Entry>)
      requires Chain(head, nodes, entries) && node.next == null && node !in nodes
      modifies this`head, this`nodes, this`entries, nodes
      ensures Chain(head, nodes, entries) && nodes == old(nodes) + [node]
      ensures entries == old(entries) + [node.item] && node.item == old(node.item)
    {
      if head == null {
        head := node;
      } else {
        var cur := head;
        ghost var i := 0;
        while cur.next != null
          invariant 0 <= i < |nodes| && cur == nodes[i]
          decreases |nodes| - i
        {
          cur := cur.next;
          i := i + 1;
        }
        cur.next := node;
      }
      nodes, entries := nodes + [node], entries + [node.item];
    }

    /** queue_add_block and queue_add_header_internal differ only in what they append and count. */
    method Add(item: Item, status: Status) returns (r: AddOutcome)
      requires Valid() && itemcount < 0xffff_ffff_ffff_ffff
      modifies this, nodes
      ensures Valid() && fresh(set n | n in nodes && n !in old(nodes))
      ensures r == AddResult(old(Abs())) && Abs() == AfterAdd(old(Abs()), item, status)
      ensures r == AddEnded <==> old(endofqueue)
      ensures r == AddWait <==> !old(endofqueue) && old(blkcount) > blkmax
      ensures r != Added ==> Abs() == old(Abs())
      ensures r == Added ==> entries == old(entries) + [Entry(item, status, old(curitemnum))]
      ensures r == Added ==> curitemnum == old(curitemnum) + 1 && blkmax == old(blkmax) && !endofqueue
    {
      hide NumBlocks;
      if endofqueue {
        return AddEnded;
      }
      if blkcount > blkmax {
        return AddWait;
      }
      var entry := Entry(item, status, curitemnum);
      NumBlocksAppend(entries, entry);
      var node := new Node(entry);
      Append(node);
      assert entries == old(entries) + [entry];
      if item.BlockItem? {
        blkcount := blkcount + 1;
      }
      assert blkcount == NumBlocks(entries);
      itemcount := itemcount + 1;
      curitemnum := curitemnum + 1;
      r := Added;
    }

    /** Overwrites the entry of one node. */
    method SetEntry(node: Node<Entry>, ghost i: nat, e: Entry)
      requires Valid() && i < |nodes| && nodes[i] == node
      requires e.item.BlockItem? <==> node.item.item.BlockItem?
      modifies node`item, this`entries
      ensures Valid() && entries == old(entries)[i := e]
    {
      SumUpdate(BlockWeight, entries, i, e);
      node.item := e;
      entries := entries[i := e];
    }

    /** The unique entry with that number, if any, receives the block and the status. */
    method ReplaceBlock(itemnum: int, b: Block, newstatus: Status) returns (found: bool)
      requires Valid()
      modifies nodes, this`entries
      ensures Valid() && nodes == old(nodes)
      ensures found <==> IndexOfNum(old(Abs().entries), itemnum) < |old(Abs().entries)|
      ensures Abs() == AfterReplace(old(Abs()), itemnum, b, newstatus)
      ensures found <==> exists i :: 0 <= i < |old(entries)| && old(entries)[i].num == itemnum
      ensures !found ==> Abs() == old(Abs())
      ensures found ==>
                exists i :: 0 <= i < |old(entries)| && old(entries)[i].num == itemnum &&
                  (forall j :: 0 <= j < i ==> old(entries)[j].num != itemnum) &&
                  entries == old(entries)[i := Entry(Refill(old(entries)[i].item, b), newstatus, itemnum)]
    {
      var cur := head;
      ghost var i := 0;
      while cur != null
        invariant 0 <= i <= |nodes| && cur == if i < |nodes| then nodes[i] else null
        invariant forall j :: 0 <= j < i ==> nodes[j].item.num != itemnum
        decreases |nodes| - i
      {
        if cur.item.num == itemnum {
          assert IndexOfNum(entries, itemnum) == i;
          SetEntry(cur, i, Entry(Refill(cur.item.item, b), newstatus, itemnum));
          return true;
        }
        cur := cur.next;
        i := i + 1;
      }
      found := false;
    }

    /** A worker takes the first unclaimed block and marks it as in progress. */
    method GetFirstBlockTodo() returns (r: Outcome<Block>)
      requires Valid()
      modifies nodes, this`entries
      ensures Valid() && nodes == old(nodes)
      ensures r == ClaimResult(old(Abs())) && Abs() == AfterClaim(old(Abs()))
      ensures r == EndOfQueue <==> old(entries) == [] && endofqueue
      ensures r.Taken? <==> exists i :: 0 <= i < |old(entries)| && IsTodo(old(entries)[i])
      ensures !r.Taken? ==> r != WrongType && Abs() == old(Abs())
      ensures r.Taken? ==>
                exists i :: 0 <= i < |old(entries)| && IsTodo(old(entries)[i]) &&
                  (forall j :: 0 <= j < i ==> !IsTodo(old(entries)[j])) &&
                  r == Taken(old(entries)[i].num, old(entries)[i].item.block) &&
                  entries == old(entries)[i := old(entries)[i].(status := Progress)]
    {
      var atEnd := GetEndOfQueue();
      if atEnd {
        return EndOfQueue;
      }
      var cur := head;
      ghost var i := 0;
      while cur != null
        invariant 0 <= i <= |nodes| && cur == if i < |nodes| then nodes[i] else null
        invariant forall j :: 0 <= j < i ==> !IsTodo(nodes[j].item)
        decreases |nodes| - i
      {
        if cur.item.item.BlockItem? && cur.item.status == Todo {
          assert FirstTodo(entries) == i;
          r := Taken(cur.item.num, cur.item.item.block);
          SetEntry(cur, i, cur.item.(status := Progress));
          return;
        }
        cur := cur.next;
        i := i + 1;
      }
      r := Wait;
    }

    method RemoveHead()
      requires Valid() && head != null
      modifies this`head, this`nodes, this`entries, this`itemcount, this`blkcount
      ensures Valid() && nodes == old(nodes)[1..]
      ensures Abs() == DropHead(old(Abs()))
    {
      SumHead(BlockWeight, entries);
      if head.item.item.BlockItem? {
        blkcount := blkcount - 1;
      }
      head := head.next;
      nodes, entries := nodes[1..], entries[1..];
      itemcount := itemcount - 1;
    }

    /** The archive writer takes the head, whatever it is, once it is done. */
    method DequeueFirst() returns (r: Outcome<Item>)
      requires Valid()
      modifies this`head, this`nodes, this`entries, this`itemcount, this`blkcount
      ensures Valid()
      ensures r == DequeueFirstResult(old(Abs())) && Abs() == AfterTake(old(Abs()), r)
      ensures r == EndOfQueue <==> old(entries) == [] && endofqueue
      ensures r.Taken? <==> old(entries) != [] && old(entries)[0].status == Done
      ensures r.Taken? ==> r == Taken(old(entries)[0].num, old(entries)[0].item) && entries == old(entries)[1..]
      ensures !r.Taken? ==> r != WrongType && Abs() == old(Abs())
    {
      var atEnd := GetEndOfQueue();
      if atEnd {
        return EndOfQueue;
      }
      if head != null && head.item.status == Done {
        r := Taken(head.item.num, head.item.item);
        RemoveHead();
      } else {
        r := Wait;
      }
    }

    method DequeueBlock() returns (r: Outcome<Block>)
      requires Valid()
      modifies this`head, this`nodes, this`entries, this`itemcount, this`blkcount
      ensures Valid()
      ensures r == DequeueBlockResult(old(Abs())) && Abs() == AfterTake(old(Abs()), r)
      ensures r == EndOfQueue <==> old(entries) == [] && endofqueue
      ensures r == WrongType <==>
                old(entries) != [] && old(entries)[0].status == Done && old(entries)[0].item.HeaderItem?
      ensures r.Taken? <==> old(entries) != [] && old(entries)[0].status == Done && old(entries)[0].item.BlockItem?
      ensures r.Taken? ==> r == Taken(old(entries)[0].num, old(entries)[0].item.block) && entries == old(entries)[1..]
      ensures !r.Taken? ==> Abs() == old(Abs())
    {
      var atEnd := GetEndOfQueue();
      if (head == null || head.item.status != Done) && !atEnd {
        return Wait;
      }
      if atEnd {
        return EndOfQueue;
      }
      if head.item.item.BlockItem? && head.item.status == Done {
        r := Taken(head.item.num, head.item.item.block);
        RemoveHead();
      } else {
        r := WrongType;
      }
    }

    method DequeueHeader() returns (r: Outcome<Header>)
      requires Valid()
      modifies this`head, this`nodes, this`entries, this`itemcount, this`blkcount
      ensures Valid()
      ensures r == DequeueHeaderResult(old(Abs())) && Abs() == AfterTake(old(Abs()), r)
      ensures r == EndOfQueue <==> old(entries) == [] && endofqueue
      ensures r == WrongType <==>
                old(entries) != [] && old(entries)[0].status == Done && old(entries)[0].item.BlockItem?
      ensures r.Taken? <==> old(entries) != [] && old(entries)[0].status == Done && old(entries)[0].item.HeaderItem?
      ensures r.Taken? ==> r == Taken(old(entries)[0].num, old(entries)[0].item.header) && entries == old(entries)[1..]
      ensures !r.Taken? ==> Abs() == old(Abs())
    {
      var atEnd := GetEndOfQueue();
      if (head == null || head.item.status != Done) && !atEnd {
        return Wait;
      }
      if atEnd {
        return EndOfQueue;
      }
      if head.item.item.HeaderItem? {
        r := Taken(head.item.num, head.item.item.header);
        RemoveHead();
      } else {
        r := WrongType;
      }
    }

    method CheckNextItem() returns (r: Outcome<NextItem>)
      requires Valid()
      ensures r == CheckNextResult(Abs())
      ensures r == EndOfQueue <==> entries == [] && endofqueue
      ensures r.Taken? <==> entries != [] && entries[0].status == Done
      ensures r.Taken? ==> r.num == entries[0].num
      ensures r.Taken? ==> (r.value == NextBlock <==> entries[0].item.BlockItem?)
      ensures r.Taken? && r.value.NextHeader? ==> r.value.magic == entries[0].item.header.magic
      ensures r != WrongType
    {
      var atEnd := GetEndOfQueue();
      if (head == null || head.item.status != Done) && !atEnd {
        return Wait;
      }
      if atEnd {
        return EndOfQueue;
      }
      r := Taken(head.item.num, if head.item.item.BlockItem? then NextBlock
                 else NextHeader(head.item.item.header.magic));
    }

    /** Removes the head without reading it, unless a worker holds it. */
    method DestroyFirstItem() returns (r: Outcome<()>)
      requires Valid()
      modifies this`head, this`nodes, this`entries, this`itemcount, this`blkcount
      ensures Valid()
      ensures r == DestroyResult(old(Abs())) && Abs() == AfterTake(old(Abs()), r)
      ensures r == EndOfQueue <==> old(entries) == [] && endofqueue
      ensures r.Taken? <==> old(entries) != [] && old(entries)[0].status != Progress
      ensures r.Taken? ==> r.num == old(entries)[0].num && entries == old(entries)[1..]
      ensures !r.Taken? ==> r != WrongType && Abs() == old(Abs())
    {
      var atEnd := GetEndOfQueue();
      if (head == null || head.item.status == Progress) && !atEnd {
        return Wait;
      }
      if atEnd {
        return EndOfQueue;
      }
      r := Taken(head.item.num, ());
      RemoveHead();
    }
  }
}
