/**
 * src/linkedList/linkedList.c: the singly linked list of packets.
 *
 * A node's `next` means something only for nodes before `tail`; past it the field holds
 * whatever malloc left, so the invariant says nothing about it.  `head` and `tail` mean
 * nothing in an empty list.
 */
module LinkedLists {
  import opened Bytes
  import opened Packets
  import opened Seqs

  class Node {
    var pkt: Packet
    var next: Node?

    /** malloc: `next` is left as it comes. */
    constructor (pkt: Packet)
      ensures this.pkt == pkt
    {
      this.pkt := pkt;
    }
  }

  ghost predicate Owned(nodes: seq<Node>, Repr: set<object>) {
    forall i :: 0 <= i < |nodes| ==> nodes[i] in Repr
  }

  ghost predicate Distinct(nodes: seq<Node>) {
    forall i, j :: 0 <= i < j < |nodes| ==> nodes[i] != nodes[j]
  }

  ghost predicate Chained(nodes: seq<Node>)
    reads nodes
  {
    forall i, j :: 0 <= i && j == i + 1 && j < |nodes| ==> nodes[i].next == nodes[j]
  }

  ghost predicate Hold(nodes: seq<Node>, packets: seq<Packet>)
    reads nodes
  {
    |nodes| == |packets| && forall i :: 0 <= i < |nodes| ==> nodes[i].pkt == packets[i]
  }

  lemma InsertKeepsChain(nodes: seq<Node>, i: nat, n: Node)
    requires 0 < i < |nodes| && n !in nodes && Distinct(nodes)
    requires nodes[i - 1].next == n && n.next == nodes[i]
    requires forall k, j :: 0 <= k && j == k + 1 && j < |nodes| && k != i - 1 ==> nodes[k].next == nodes[j]
    ensures Distinct(InsertAt(nodes, i, n)) && Chained(InsertAt(nodes, i, n))
  {
    var after := InsertAt(nodes, i, n);
    assert forall k :: i < k < |after| ==> after[k] == nodes[k - 1];
    forall k, j | 0 <= k && j == k + 1 && j < |after|
      ensures after[k].next == after[j]
    {
      assert k > i ==> after[k] == nodes[k - 1] && after[j] == nodes[k];
    }
  }

  lemma InsertKeepsPackets(nodes: seq<Node>, packets: seq<Packet>, i: nat, n: Node, Repr: set<object>)
    requires 0 < i < |nodes| && Hold(nodes, packets) && Owned(nodes, Repr)
    ensures var after := InsertAt(nodes, i, n);
            && Hold(after, InsertAt(packets, i, n.pkt)) && Owned(after, Repr + {n})
            && |after| == |nodes| + 1 && after[0] == nodes[0] && after[|after| - 1] == nodes[|nodes| - 1]
    ensures Distinct([]) && Chained([]) && Hold([], []) && Owned([], Repr + {n})
  {
  }

  lemma PrependKeepsChain(nodes: seq<Node>, packets: seq<Packet>, n: Node, Repr: set<object>)
    requires nodes != [] && n !in nodes && n.next == nodes[0]
    requires Distinct(nodes) && Chained(nodes) && Hold(nodes, packets) && Owned(nodes, Repr)
    ensures var after := [n] + nodes;
            && Distinct(after) && Chained(after) && Hold(after, [n.pkt] + packets) && Owned(after, Repr + {n})
            && |after| == |nodes| + 1 && after[0] == n && after[|after| - 1] == nodes[|nodes| - 1]
    ensures Distinct([]) && Chained([]) && Hold([], []) && Owned([], Repr + {n})
  {
  }

  class LinkedList {
    var head: Node?
    var tail: Node?
    var size: Byte

    ghost var nodes: seq<Node>
    ghost var packets: seq<Packet>  // the list as its users see it
    ghost var Repr: set<object>

    ghost predicate Valid()
      reads this, Repr
      ensures Valid() ==> this in Repr && size == |nodes| == |packets|
    {
      && this in Repr
      && Owned(nodes, Repr)
      && size == |nodes| == |packets|
      && Distinct(nodes)
      && Chained(nodes)
      && Hold(nodes, packets)
      && (nodes != [] ==> head == nodes[0] && tail == nodes[|nodes| - 1])
    }

    /** list->head->pkt */
    function First(): (p: Packet)
      requires Valid() && size > 0
      reads this, Repr
      ensures p == packets[0]
    {
      head.pkt
    }

    /** list->tail->pkt */
    function Last(): (p: Packet)
      requires Valid() && size > 0
      reads this, Repr
      ensures p == packets[|packets| - 1]
    {
      tail.pkt
    }

    /** What a walk that has reached position `i` finds there. */
    lemma Walk(i: nat)
      requires Valid() && i < |nodes|
      ensures nodes[i].pkt == packets[i] && nodes[i] in Repr
      ensures nodes[i] == tail <==> i == |nodes| - 1
      ensures i + 1 < |nodes| ==> nodes[i].next == nodes[i + 1]
      ensures nodes[0] == head
    {
    }

    /** linkedList_create */
    constructor ()
      ensures Valid() && nodes == [] && packets == [] && fresh(Repr)
    {
      size := 0;
      Repr := {this};
      nodes := [];
      packets := [];
    }

    /** linkedList_add.  `size` is one byte: the 256th node leaves a list that counts as empty. */
    method Add(n: Node) returns (r: int)
      requires Valid() && n !in nodes
      modifies Repr
      ensures Valid() && r == 0 && Repr == old(Repr) + {n}
      ensures nodes == Counted(old(nodes) + [n])
      ensures packets == Counted(old(packets) + [old(n.pkt)])
    {
      ghost var pkt := n.pkt;
      Repr := Repr + {n};
      if size == 0 {
        head := n;
        tail := n;
        size := 1;
        nodes, packets := [n], [pkt];
        return 0;
      }
      tail.next := n;
      tail := n;
      size := (size + 1) % 256;
      nodes, packets := Counted(nodes + [n]), Counted(packets + [pkt]);
      return 0;
    }

    /** linkedList_add_pkt */
    method AddPkt(pkt: Packet) returns (r: int)
      requires Valid()
      modifies Repr
      ensures Valid() && r == 0 && fresh(Repr - old(Repr))
      ensures packets == Counted(old(packets) + [pkt])
    {
      var node := new Node(pkt);
      r := Add(node);
    }

    /** linkedList_remove */
    method Remove() returns (r: int)
      requires Valid()
      modifies this
      ensures Valid() && Repr == old(Repr) && tail == old(tail)
      ensures r == if old(nodes) == [] then -1 else 0
      ensures nodes == if old(nodes) == [] then [] else old(nodes)[1..]
      ensures packets == if old(nodes) == [] then [] else old(packets)[1..]
    {
      if size == 0 {
        return -1;
      }
      if size == 1 {
        size := 0;
        nodes, packets := [], [];
        return 0;
      }
      assert head.next == nodes[1];
      head := head.next;
      size := size - 1;
      nodes, packets := nodes[1..], packets[1..];
      return 0;
    }

    /** linkedList_remove_end: the walk never follows the link of `tail`. */
    method RemoveEnd() returns (r: int)
      requires Valid()
      modifies this
      ensures Valid() && Repr == old(Repr)
      ensures r == if old(nodes) == [] then -1 else 0
      ensures nodes == if old(nodes) == [] then [] else old(nodes)[..|old(nodes)| - 1]
      ensures packets == if old(nodes) == [] then [] else old(packets)[..|old(packets)| - 1]
    {
      if size == 0 {
        return -1;
      }
      if size == 1 {
        size := 0;
        nodes, packets := [], [];
        return 0;
      }
      var current := head;
      ghost var i := 0;
      while current.next != tail
        invariant 0 <= i < |nodes| - 1 && current == nodes[i]
        invariant nodes[i].next == nodes[i + 1]
        decreases |nodes| - i
      {
        current := current.next;
        i := i + 1;
        assert i < |nodes| - 1;
      }
      assert i == |nodes| - 2;
      tail := current;
      size := size - 1;
      nodes, packets := nodes[..|nodes| - 1], packets[..|packets| - 1];
      return 0;
    }

    /** A packet of the list is changed in place. */
    method Replace(n: Node, pkt: Packet, ghost i: nat)
      requires Valid() && i < |nodes| && n == nodes[i]
      modifies this, n
      ensures Valid() && Repr == old(Repr)
      ensures nodes == old(nodes) && packets == old(packets)[i := pkt]
      ensures head == old(head) && tail == old(tail)
    {
      n.pkt := pkt;
      packets := packets[i := pkt];
    }

    /** linkedList_remove_middle: `current` is the interior node at position `i`. */
    method RemoveMiddle(previous: Node, current: Node, ghost i: nat)
      requires Valid() && 0 < i < |nodes| - 1
      requires previous == nodes[i - 1] && current == nodes[i]
      modifies this, previous
      ensures Valid() && Repr == old(Repr)
      ensures nodes == RemoveAt(old(nodes), i)
      ensures packets == RemoveAt(old(packets), i)
    {
      assert nodes[i].next == nodes[i + 1];
      previous.next := current.next;
      size := size - 1;
      nodes := RemoveAt(nodes, i);
      packets := RemoveAt(packets, i);
    }

    /** linkedList_add_increasing links a node in before the head. */
    method InsertAtHead(pkt: Packet)
      requires Valid() && nodes != []
      modifies this
      ensures Valid() && fresh(Repr - old(Repr))
      ensures packets == Counted([pkt] + old(packets))
    {
      hide Distinct, Chained, Hold, Owned;
      var n := new Node(pkt);
      n.next := head;
      head := n;
      size := (size + 1) % 256;
      PrependKeepsChain(nodes, packets, n, Repr);
      Repr := Repr + {n};
      nodes, packets := Counted([n] + nodes), Counted([pkt] + packets);
    }

    /** linkedList_add_increasing links a node in behind `previous`, which is not the tail. */
    method InsertBehind(previous: Node, pkt: Packet, ghost i: nat) returns (n: Node)
      requires Valid() && 0 < i < |nodes| && previous == nodes[i - 1]
      modifies this, previous
      ensures Valid() && fresh(n) && Repr == old(Repr) + {n}
      ensures nodes == Counted(InsertAt(old(nodes), i, n))
      ensures packets == Counted(InsertAt(old(packets), i, pkt))
    {
      hide Owned, InsertAt;
      n := new Node(pkt);
      ghost var was := nodes;
      assert was[i - 1].next == was[i];
      n.next := previous.next;
      previous.next := n;
      Repr := Repr + {n};
      size := (size + 1) % 256;
      nodes := Counted(InsertAt(nodes, i, n));
      packets := Counted(InsertAt(packets, i, pkt));
      InsertKeepsChain(was, i, n);
      InsertKeepsPackets(was, old(packets), i, n, old(Repr));
    }
  }
}
