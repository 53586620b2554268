/** The doubly linked deque that holds the overflow transactions. */
module LinkedDeque {
  import opened Wrappers

  class Node<T> {
    const value: T
    var previous: Node?<T>
    var next: Node?<T>

    constructor (value: T)
      ensures this.value == value && previous == null && next == null
    {
      this.value := value;
      previous, next := null, null;
    }
  }

  class Deque<T> {
    var front: Node?<T>
    var back: Node?<T>
    var count: nat
    var version: nat
    /** The nodes from front to back. */
    ghost var nodes: seq<Node<T>>

    /** What position i of the chain must link to in either direction. */
    ghost predicate Linked(i: nat)
      requires i < |nodes|
      reads this, nodes
    {
      && nodes[i].next == (if i + 1 < |nodes| then nodes[i + 1] else null)
      && nodes[i].previous == (if i > 0 then nodes[i - 1] else null)
    }

    /** Following next from the front and previous from the back walks the same nodes in opposite orders. */
    ghost predicate Valid()
      reads this, nodes
    {
      && count == |nodes|
      && (forall i, j :: 0 <= i < j < |nodes| ==> nodes[i] != nodes[j])
      && (forall i :: 0 <= i < |nodes| ==> Linked(i))
      && (if |nodes| == 0 then front == null && back == null else front == nodes[0] && back == nodes[|nodes| - 1])
    }

    ghost function Contents(): seq<T>
      reads this
    {
      seq(|nodes|, i requires 0 <= i < |nodes| reads this => nodes[i].value)
    }

    constructor ()
      ensures Valid() && nodes == [] && Contents() == []
    {
      front, back, count, version := null, null, 0, 0;
      nodes := [];
    }

    method Clear()
      modifies this
      ensures Valid() && nodes == [] && Contents() == [] && version == old(version) + 1
    {
      count := 0;
      front, back := null, null;
      version := version + 1;
      nodes := [];
    }

    method PushFront(item: T)
      requires Valid()
      modifies this, nodes
      ensures Valid() && Contents() == [item] + old(Contents()) && version == old(version) + 1
      ensures |nodes| == |old(nodes)| + 1 && fresh(nodes[0]) && nodes[1..] == old(nodes)
    {
      var newNode := new Node(item);
      newNode.next := front;
      if count > 0 {
        front.previous := newNode;
      }
      front := newNode;
      count := count + 1;
      if count == 1 {
        back := front;
      }
      version := version + 1;
      nodes := [newNode] + nodes;
      forall i | 0 <= i < |nodes|
        ensures Linked(i)
      {
        if i > 0 {
          assert old(Linked(i - 1)) && nodes[i] == old(nodes)[i - 1] && nodes[i] != newNode;
          assert i + 1 < |nodes| ==> nodes[i + 1] == old(nodes)[i];
        }
      }
    }

    method PushBack(item: T)
      requires Valid()
      modifies this, nodes
      ensures Valid() && Contents() == old(Contents()) + [item] && version == old(version) + 1
      ensures |nodes| == |old(nodes)| + 1 && fresh(nodes[|nodes| - 1]) && nodes[..|nodes| - 1] == old(nodes)
    {
      var newNode := new Node(item);
      newNode.previous := back;
      if count > 0 {
        back.next := newNode;
      }
      back := newNode;
      count := count + 1;
      if count == 1 {
        front := back;
      }
      version := version + 1;
      nodes := nodes + [newNode];
      forall i | 0 <= i < |nodes|
        ensures Linked(i)
      {
        assert i < |old(nodes)| ==> old(Linked(i)) && nodes[i] == old(nodes)[i];
      }
    }

    /** An empty deque throws; the model returns nothing. */
    method PopFront() returns (item: Option<T>)
      requires Valid()
      modifies this, nodes
      ensures Valid()
      ensures if old(Contents()) == [] then item.None? && nodes == old(nodes) && version == old(version)
              else item == Some(old(Contents())[0]) && Contents() == old(Contents())[1..] && nodes == old(nodes)[1..] && version == old(version) + 1
    {
      if count == 0 {
        return None;
      }
      assert Linked(0);
      item := Some(front.value);
      front := front.next;
      count := count - 1;
      if count > 0 {
        front.previous := null;
      } else {
        back := null;
      }
      version := version + 1;
      nodes := nodes[1..];
      forall i | 0 <= i < |nodes|
        ensures Linked(i)
      {
        assert old(Linked(i + 1)) && nodes[i] == old(nodes)[i + 1];
      }
    }

    method PopBack() returns (item: Option<T>)
      requires Valid()
      modifies this, nodes
      ensures Valid()
      ensures if old(Contents()) == [] then item.None? && nodes == old(nodes) && version == old(version)
              else item == Some(old(Contents())[|old(Contents())| - 1]) && Contents() == old(Contents())[..|old(Contents())| - 1]
                   && nodes == old(nodes)[..|old(nodes)| - 1] && version == old(version) + 1
    {
      if count == 0 {
        return None;
      }
      assert Linked(|nodes| - 1);
      item := Some(back.value);
      back := back.previous;
      count := count - 1;
      if count > 0 {
        back.next := null;
      } else {
        front := null;
      }
      version := version + 1;
      nodes := nodes[..|nodes| - 1];
      forall i | 0 <= i < |nodes|
        ensures Linked(i)
      {
        assert old(Linked(i)) && nodes[i] == old(nodes)[i];
      }
    }

    method PeekFront() returns (item: Option<T>)
      requires Valid()
      ensures item == if Contents() == [] then None else Some(Contents()[0])
    {
      item := if count == 0 then None else Some(front.value);
    }

    method PeekBack() returns (item: Option<T>)
      requires Valid()
      ensures item == if Contents() == [] then None else Some(Contents()[|Contents()| - 1])
    {
      item := if count == 0 then None else Some(back.value);
    }

    /** Walks the forward chain, as the enumerator does. */
    method ToArray() returns (s: seq<T>)
      requires Valid()
      ensures s == Contents()
    {
      s := [];
      var current := front;
      ghost var i := 0;
      while current != null
        invariant 0 <= i <= |nodes|
        invariant current == if i < |nodes| then nodes[i] else null
        invariant s == Contents()[..i]
        decreases |nodes| - i
      {
        assert Linked(i);
        s := s + [current.value];
        current := current.next;
        i := i + 1;
      }
    }

    /** The simulator's own consistency check: both walks end together, each at the other's start. */
    method AssertValid() returns (ok: bool)
      requires Valid()
      ensures ok
    {
      var n := 0;
      var current := front;
      while current != null
        invariant 0 <= n <= |nodes|
        invariant current == if n < |nodes| then nodes[n] else null
        decreases |nodes| - n
      {
        assert Linked(n);
        n := n + 1;
        current := current.next;
      }
      ok := n == count;
      if count > 0 {
        var f, b := front, back;
        assert Linked(0) && Linked(|nodes| - 1);
        ghost var i := 0;
        while f.next != null && b.previous != null
          invariant f != null && b != null
          invariant 0 <= i < |nodes| && f == nodes[i] && b == nodes[|nodes| - 1 - i]
          decreases |nodes| - i
        {
          assert Linked(i) && Linked(|nodes| - 1 - i);
          f, b := f.next, b.previous;
          i := i + 1;
        }
        assert Linked(i) && Linked(|nodes| - 1 - i);
        ok := ok && f.next == null && b.previous == null && f == back && b == front;
      } else {
        ok := ok && front == null && back == null;
      }
    }
  }
}
