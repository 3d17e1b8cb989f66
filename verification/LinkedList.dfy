/** Singly linked chains, as the queue and both dictionaries thread them through `next` pointers. */
module LinkedList {

  class Node<T> {
    var item: T
    var next: Node?<T>

    constructor (item: T)
      ensures this.item == item && this.next == null
    {
      this.item, this.next := item, null;
    }
  }

  /** `nodes` are, in order, the nodes that can be reached from `head`, and they hold `items`. */
  ghost predicate Chain<T>(head: Node?<T>, nodes: seq<Node<T>>, items: seq<T>)
    reads nodes
  {
    && (head == if nodes == [] then null else nodes[0])
    && (forall i {:trigger nodes[i].next} :: 0 <= i < |nodes| ==>
          nodes[i].next == if i + 1 < |nodes| then nodes[i + 1] else null)
    && (forall i, j :: 0 <= i < j < |nodes| ==> nodes[i] != nodes[j])
    && |items| == |nodes|
    && (forall i :: 0 <= i < |nodes| ==> nodes[i].item == items[i])
  }
}
