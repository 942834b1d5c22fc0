/**
 * The singly linked list behind the unbounded list engine: nodes are boxed
 * and never moved, `push` links a new node after the tail, and the iterator
 * walks at most `end` nodes from the head, handing out each node so that its
 * item can be updated in place.
 */
module Linked {

  class Node<P> {
    var item: P
    var next: Node?<P>

    constructor (item: P)
      ensures this.item == item && next == null
    {
      this.item := item;
      next := null;
    }
  }

  /**
   * `LinkedList<P>`.  `tail` stands for the pointer to the slot the next node
   * goes into: `head` while empty, the last node's `next` afterwards.
   */
  class LinkedList<P> {
    var head: Node?<P>
    var tail: Node?<P>
    var len: nat
    ghost var nodes: seq<Node<P>>
    ghost var Contents: seq<P>
    ghost var Repr: set<object>

    ghost predicate Valid()
      reads this, Repr
    {
      this in Repr && (forall i :: 0 <= i < |nodes| ==> nodes[i] in Repr)
      && |nodes| == len && |Contents| == len
      && (forall i :: 0 <= i < len ==> nodes[i].item == Contents[i])
      && (forall i, j :: 0 <= i < j < len ==> nodes[i] != nodes[j])
      && head == (if len == 0 then null else nodes[0])
      && tail == (if len == 0 then null else nodes[len - 1])
      && (forall i :: 0 <= i < len - 1 ==> nodes[i].next == nodes[i + 1])
      && (len > 0 ==> nodes[len - 1].next == null)
    }

    /** `build`: an empty list whose tail slot is the head slot. */
    constructor ()
      ensures Valid() && fresh(Repr) && Contents == []
      ensures head == null && tail == head
    {
      head := null;
      tail := null;
      len := 0;
      nodes := [];
      Contents := [];
      Repr := {this};
    }

    /** `push`: one node linked at the end; the items before it are untouched. */
    method Push(item: P)
      requires Valid()
      modifies Repr
      ensures Valid() && fresh(Repr - old(Repr))
      ensures len == old(len) + 1
      ensures nodes[..old(len)] == old(nodes)
      ensures Contents == old(Contents) + [item]
    {
      var node := new Node(item);
      if tail == null {
        head := node;
      } else {
        tail.next := node;
      }
      tail := node;
      len := len + 1;
      nodes := nodes + [node];
      Contents := Contents + [item];
      Repr := Repr + {node};
    }

    /** A write through the `&mut P` the iterator handed out for the node at `i`. */
    method Put(n: Node<P>, ghost i: nat, item: P)
      requires Valid() && i < len && n == nodes[i]
      modifies this, n
      ensures Valid() && nodes == old(nodes) && Repr == old(Repr)
      ensures Contents == old(Contents)[i := item]
    {
      n.item := item;
      Contents := Contents[i := item];
    }

    /** `iter`: an iterator at position 0 that may visit every node. */
    method Iter() returns (it: ListIter<P>)
      requires Valid()
      ensures fresh(it) && it.Valid() && it.nodes == nodes
      ensures it.pos == 0 && it.end == len
    {
      it := new ListIter(head, len, nodes);
    }

    /**
     * `drop`: `len` steps from the head, each releasing one node's item.
     * Gives the items in the order they are released.
     */
    method Drop() returns (released: seq<P>)
      requires Valid()
      modifies this`head
      ensures released == old(Contents)
    {
      released := [];
      var k := 0;
      while k < len
        invariant 0 <= k <= len && |released| == k
        invariant released == Contents[..k]
        invariant head == if k < len then nodes[k] else null
      {
        var node := head;
        head := node.next;
        released := released + [node.item];
        k := k + 1;
      }
    }

    /** Every item, read through a fresh iterator until it gives out. */
    method Collect() returns (s: seq<P>)
      requires Valid()
      ensures s == Contents
    {
      var it := Iter();
      s := [];
      while true
        invariant it.Valid() && it.nodes == nodes && it.end == len
        invariant it.pos <= len && s == Contents[..it.pos]
        decreases len - it.pos
      {
        var n := it.Next(this);
        if n == null {
          break;
        }
        s := s + [n.item];
      }
    }
  }

  /** `ListIter`: `pos` nodes visited so far, at most `end` in all, `next` the next one. */
  class ListIter<P> {
    var pos: nat
    var end: nat
    var next: Node?<P>
    ghost const nodes: seq<Node<P>>

    ghost predicate Valid()
      reads this
    {
      pos <= |nodes| && end <= |nodes|
      && next == if pos < |nodes| then nodes[pos] else null
    }

    constructor (head: Node?<P>, len: nat, ghost nodes: seq<Node<P>>)
      requires |nodes| == len && head == if len == 0 then null else nodes[0]
      ensures Valid() && this.nodes == nodes && pos == 0 && end == len
    {
      pos := 0;
      end := len;
      next := head;
      this.nodes := nodes;
    }

    function Pos(): (p: nat)
      reads this
      requires Valid()
      ensures p <= |nodes|
    {
      pos
    }

    /** `limit`: the iteration can only get shorter. */
    method Limit(limit: nat)
      requires Valid()
      modifies this
      ensures Valid() && pos == old(pos) && next == old(next)
      ensures end == if old(end) <= limit then old(end) else limit
    {
      end := if end <= limit then end else limit;
    }

    /** `next`: nothing once `end` nodes were given, otherwise the next node, one step on. */
    method Next(list: LinkedList<P>) returns (n: Node?<P>)
      requires Valid() && list.Valid() && list.nodes == nodes
      modifies this
      ensures Valid() && end == old(end)
      ensures old(pos) >= old(end) ==> n == null && pos == old(pos)
      ensures old(pos) < old(end) ==> n == nodes[old(pos)] && pos == old(pos) + 1
    {
      if pos >= end {
        return null;
      }
      n := next;
      next := n.next;
      pos := pos + 1;
    }
  }

  /** The list's own test: two pushes read back in order, then a third. */
  method IteratorScenario() returns (first: seq<int>, second: seq<int>)
    ensures first == [42, 1337]
    ensures second == [42, 1337, 0xDEADBEEF]
  {
    var list := new LinkedList<int>();
    list.Push(42);
    list.Push(1337);
    first := list.Collect();
    list.Push(0xDEADBEEF);
    second := list.Collect();
  }
}
