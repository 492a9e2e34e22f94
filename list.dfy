/**
 * The singly linked FIFO list template `List<T>` of the Arduino firmware's
 * utility header: nodes linked through `next`, with pointers to the first
 * and the last node.  Popping or peeking at an empty list panics; here the
 * panic is the `None` outcome and leaves the list as it was.
 */
module FifoList {
  import opened Wrappers

  class Node<T> {
    var value: T
    var next: Node?<T>

    constructor (v: T)
      ensures value == v && next == null
    {
      value := v;
      next := null;
    }
  }

  class List<T> {
    var first: Node?<T>
    var last: Node?<T>

    /** The nodes from `first` to `last`, in link order. */
    ghost var nodes: seq<Node<T>>
    /** The values held, oldest first. */
    ghost var Contents: seq<T>
    ghost var Repr: set<object>

    /**
     * The list's invariants: `first` is null exactly when `last` is, the
     * nodes are linked in order from `first` to `last`, and `last->next`
     * is null.
     */
    ghost predicate Valid()
      reads this, Repr
    {
      this in Repr
      && |Contents| == |nodes|
      && (forall i :: 0 <= i < |nodes| ==> nodes[i] in Repr)
      && (first == null <==> nodes == [])
      && (last == null <==> nodes == [])
      && (nodes != [] ==> first == nodes[0] && last == nodes[|nodes| - 1] && last.next == null)
      && (forall i :: 0 <= i < |nodes| - 1 ==> nodes[i].next == nodes[i + 1])
      && (forall i :: 0 <= i < |nodes| ==> nodes[i].value == Contents[i])
      && (forall i, j :: 0 <= i < j < |nodes| ==> nodes[i] != nodes[j])
    }

    constructor ()
      ensures Valid() && fresh(Repr) && Contents == []
    {
      first, last := null, null;
      nodes, Contents := [], [];
      Repr := {this};
    }

    /** `is_empty`. */
    function IsEmpty(): (r: bool)
      reads this, Repr
      requires Valid()
      ensures r <==> Contents == []
    {
      first == null
    }

    /** `add_back`: a new node after `last`. */
    method AddBack(x: T)
      requires Valid()
      modifies this, last
      ensures Valid() && fresh(Repr - old(Repr))
      ensures Contents == old(Contents) + [x]
    {
      var node := new Node(x);
      if last == null {
        first, last := node, node;
      } else {
        last.next := node;
        last := node;
      }
      nodes, Contents := nodes + [node], Contents + [x];
      Repr := Repr + {node};
      forall i | 0 <= i < |nodes| - 2
        ensures nodes[i].next == nodes[i + 1]
      {
        assert old(nodes[i].next) == nodes[i + 1];
        assert nodes[i] != old(last) by {
          assert old(nodes[i].next) != null;
        }
      }
    }

    /** `peek_front`: the oldest value, or the panic on an empty list. */
    function PeekFront(): (r: Option<T>)
      reads this, Repr
      requires Valid()
      ensures r == if Contents == [] then None else Some(Contents[0])
    {
      if first == null then None else Some(first.value)
    }

    /**
     * `pop_front`: unlink the first node and return its value; on an empty
     * list, the panic.  Popping the only element leaves both `first` and
     * `last` null.
     */
    method PopFront() returns (r: Option<T>)
      requires Valid()
      modifies this
      ensures Valid() && Repr <= old(Repr)
      ensures old(Contents) == [] ==> r == None && Contents == []
      ensures old(Contents) != [] ==> r == Some(old(Contents)[0]) && Contents == old(Contents)[1..]
      ensures |old(Contents)| == 1 ==> first == null && last == null
    {
      if first == null {
        return None;
      }
      var node := first;
      assert |nodes| > 1 ==> node.next == nodes[1];
      first := node.next;
      if first == null {
        last := null;
      }
      r := Some(node.value);
      nodes, Contents := nodes[1..], Contents[1..];
      Repr := Repr - {node};
      forall i | 0 <= i < |nodes|
        ensures nodes[i] in Repr
      {
        assert nodes[i] == old(nodes)[i + 1] != old(nodes)[0];
      }
    }

    /** `clear`: pop until empty. */
    method Clear()
      requires Valid()
      modifies this
      ensures Valid() && Repr <= old(Repr) && Contents == []
    {
      while !IsEmpty()
        invariant Valid() && Repr <= old(Repr)
        decreases |Contents|
      {
        var _ := PopFront();
      }
    }
  }
}
