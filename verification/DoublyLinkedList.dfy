/**
 The heap-allocated doubly linked list that keeps the cache's recency order. The ghost sequence
 `nodes` lists the nodes from head to tail; freeing a node is leaving that sequence.
 */
module DoublyLinkedList {
  import opened Wrappers

  class Node<T> {
    var prev: Node?<T>
    var next: Node?<T>
    const data: T // copied in when the node is made, never overwritten

    constructor (data: T)
      ensures this.data == data && prev == null && next == null
    {
      this.data := data;
      prev, next := null, null;
    }
  }

  function Moved<T>(s: seq<T>, i: nat): (r: seq<T>)
    requires i < |s|
    ensures |r| == |s|
  {
    [s[i]] + s[..i] + s[i + 1..]
  }

  lemma MovedAt<T>(s: seq<T>, i: nat)
    requires i < |s|
    ensures Moved(s, i)[0] == s[i]
    ensures forall j :: 1 <= j <= i ==> Moved(s, i)[j] == s[j - 1]
    ensures forall j :: i < j < |s| ==> Moved(s, i)[j] == s[j]
    ensures Distinct(s) ==> Distinct(Moved(s, i))
  {
  }

  lemma MovedHead<T>(s: seq<T>)
    requires s != []
    ensures Moved(s, 0) == s
  {
  }

  lemma LastAfterMove<T>(s: seq<T>, i: nat)
    requires 0 < i < |s| && Distinct(s)
    ensures Moved(s, i)[|s| - 1] == s[|s| - 1] <==> s[i] != s[|s| - 1]
    ensures s[i] == s[|s| - 1] ==> Moved(s, i)[|s| - 1] == s[|s| - 2]
  {
    if i == |s| - 1 {
      assert s[i - 1] != s[i];
    }
  }

  lemma MovedContents<T>(nodes: seq<Node<T>>, i: nat)
    requires i < |nodes|
    ensures DataOf(Moved(nodes, i)) == Moved(DataOf(nodes), i)
  {
  }

  ghost predicate Distinct<T>(s: seq<T>) {
    forall i, j :: 0 <= i < j < |s| ==> s[i] != s[j]
  }

  ghost function DataOf<T>(nodes: seq<Node<T>>): (s: seq<T>)
    ensures |s| == |nodes|
    ensures forall i :: 0 <= i < |nodes| ==> s[i] == nodes[i].data
  {
    seq(|nodes|, i requires 0 <= i < |nodes| => nodes[i].data)
  }

  /** Where the node is in the list; behind the end if it is not. */
  ghost function Spot<T>(nodes: seq<Node<T>>, n: Node?<T>): (j: nat)
    ensures j <= |nodes|
    ensures j < |nodes| ==> nodes[j] == n
    ensures j == |nodes| ==> forall k :: 0 <= k < |nodes| ==> nodes[k] != n
  {
    if nodes == [] || nodes[0] == n then 0 else 1 + Spot(nodes[1..], n)
  }

  class LinkedList<T> {
    var length: nat
    var head: Node?<T>
    var tail: Node?<T>
    ghost var nodes: seq<Node<T>>

    /** The links among the nodes and the head are right. */
    ghost predicate Links()
      reads this`head, this`nodes, nodes`prev, nodes`next
    {
      && Distinct(nodes)
      && head == (if |nodes| == 0 then null else nodes[0])
      && (forall i {:trigger nodes[i].prev} :: 0 <= i < |nodes| ==>
            nodes[i].prev == if i == 0 then null else nodes[i - 1])
      && (forall i {:trigger nodes[i].next} :: 0 <= i < |nodes| ==>
            nodes[i].next == if i == |nodes| - 1 then null else nodes[i + 1])
    }

    /** Everything but the tail pointer is right. */
    ghost predicate Linked()
      reads this`length, this`head, this`nodes, nodes`prev, nodes`next
    {
      length == |nodes| && Links()
    }

    /** The tail pointer is at one of the nodes, not necessarily the last. */
    ghost predicate TailListed()
      reads this`tail, this`nodes
    {
      if nodes == [] then tail == null else tail != null && tail in nodes
    }

    ghost predicate TailRight()
      reads this
    {
      tail == if |nodes| == 0 then null else nodes[|nodes| - 1]
    }

    ghost predicate Valid()
      reads this, nodes
    {
      Linked() && TailRight()
    }

    ghost function Contents(): seq<T>
      reads this
    {
      DataOf(nodes)
    }

    ghost function Front(): set<Node<T>>
      reads this
    {
      if |nodes| == 0 then {} else {nodes[0]}
    }

    ghost function Tail(): set<Node<T>>
      reads this
    {
      if tail == null then {} else {tail}
    }

    constructor ()
      ensures Valid() && nodes == [] && Contents() == []
    {
      length, head, tail := 0, null, null;
      nodes := [];
    }

    /** The index-th node from the head. A negative index is compared as a huge unsigned number, so
        it is always out of bounds. */
    method Get(index: int) returns (r: Node?<T>)
      requires Linked()
      ensures r == if 0 <= index < |nodes| then nodes[index] else null
    {
      if index < 0 || index >= length {
        return null;
      }
      if index == 0 {
        return head;
      }
      r := head;
      var i := 0;
      while i < index
        invariant 0 <= i <= index && r == nodes[i]
      {
        r := r.next;
        i := i + 1;
      }
    }

    method PushFront(data: T) returns (node: Node<T>)
      requires Linked()
      modifies this, Front()`prev
      ensures Linked() && fresh(node) && node.data == data
      ensures nodes == [node] + old(nodes)
      ensures Contents() == [data] + old(Contents())
      ensures old(nodes) == [] || tail == old(tail)
      ensures Valid() <==> old(nodes) == [] || old(Valid())
    {
      node := new Node(data);
      node.next := head;
      if head == null {
        tail := node;
      } else {
        node.next.prev := node;
      }
      head := node;
      node.prev := null;
      length := length + 1;
      nodes := [node] + nodes;
    }

    /** Appends behind the node the tail pointer is at; nodes behind that one drop out of the list, though
        not out of its length. */
    method PushBack(data: T) returns (node: Node<T>)
      requires Linked() && TailListed()
      modifies this, Tail()`next
      ensures fresh(node) && node.data == data
      ensures Links() && TailRight() && length == old(length) + 1
      ensures nodes == if old(nodes) == [] then [node] else old(nodes)[..Spot(old(nodes), old(tail)) + 1] + [node]
      ensures Valid() <==> old(Valid())
    {
      hide Spot, DataOf;
      node := new Node(data);
      node.prev := tail;
      if tail == null {
        head := node;
        tail := node;
      } else {
        node.prev.next := node;
      }
      ghost var before := if nodes == [] then [] else nodes[..Spot(nodes, tail) + 1];
      tail := node;
      node.next := null;
      length := length + 1;
      nodes := before + [node];
    }

    method PopHead() returns (r: Option<T>)
      requires Linked() && TailListed()
      modifies this, Members(nodes)`prev
      ensures Linked()
      ensures old(nodes) == [] ==> r == None && nodes == []
      ensures old(nodes) != [] ==>
                && r == Some(old(Contents())[0])
                && nodes == old(nodes)[1..]
                && Contents() == old(Contents())[1..]
                && tail == if |old(nodes)| > 1 then old(tail) else null
      ensures Valid() <==> old(Valid())
    {
      if length == 0 {
        return None;
      }
      r := Some(head.data);
      if length > 1 {
        head := head.next;
        head.prev := null;
      } else {
        head := null;
        tail := null;
      }
      length := length - 1;
      nodes := nodes[1..];
    }

    /** Takes the node the tail pointer is at; nodes behind it drop out of the list as well, though not out
        of its length. The source follows the tail's `prev`, so the tail must not be the head of several. */
    method PopTail() returns (r: Option<T>)
      requires Linked() && TailListed() && (length > 1 ==> tail != head)
      modifies this, Members(nodes)`next
      ensures Links() && TailRight() && length == if old(nodes) == [] then 0 else old(length) - 1
      ensures old(nodes) == [] ==> r == None && nodes == []
      ensures old(nodes) != [] ==>
                var j := Spot(old(nodes), old(tail));
                && r == Some(old(Contents())[j])
                && nodes == old(nodes)[..j] && Contents() == old(Contents())[..j]
      ensures Valid() <==> old(Valid())
    {
      if length == 0 {
        return None;
      }
      ghost var j := Spot(nodes, tail);
      r := Some(tail.data);
      if length > 1 {
        tail := tail.prev;
        tail.next := null;
      } else {
        head := null;
        tail := null;
      }
      length := length - 1;
      nodes := nodes[..j];
    }

    /** The pointer surgery of move_to_front on a node that is not the head. */
    method Relink(node: Node<T>, ghost i: nat)
      requires Linked() && 0 < i < |nodes| && nodes[i] == node
      modifies this`head, Members(nodes)`prev, Members(nodes)`next
      ensures head == node && Relinked(nodes, i)
    {
      node.prev.next := node.next;
      if node.next != null {
        node.next.prev := node.prev;
      }
      node.next := head;
      head.prev := node;
      head := node;
      node.prev := null;
    }

    /** The move as the source has it: the forward order always comes out right, but the tail
        pointer stays where it was. Starting from a valid list the result is valid exactly when
        the node was the head already or was not the tail. */
    method MoveToFront(node: Node<T>) returns (ghost i: nat)
      requires Linked() && node in nodes
      modifies this, Members(nodes)`prev, Members(nodes)`next
      ensures Linked()
      ensures i < |old(nodes)| && old(nodes)[i] == node
      ensures nodes == Moved(old(nodes), i)
      ensures Contents() == Moved(old(Contents()), i)
      ensures tail == old(tail)
      ensures old(Valid()) ==> (Valid() <==> node == old(head) || node != old(tail))
    {
      hide Linked, Relinked, Moved, DataOf;
      LinkedFacts(this);
      ghost var ns := nodes;
      if head == node {
        MovedHead(ns);
        MovedHead(DataOf(ns));
        return 0;
      }
      i :| 0 < i < |ns| && ns[i] == node;
      LastAfterMove(ns, i);
      Relink(node, i);
      nodes := Moved(ns, i);
      LinksAfterMove(this, ns, i);
      MovedContents(ns, i);
    }

    /** The repaired twin: it also moves the tail pointer back when the tail node leaves the end. */
    method MoveToFrontRepaired(node: Node<T>) returns (ghost i: nat)
      requires Valid() && node in nodes
      modifies this, Members(nodes)`prev, Members(nodes)`next
      ensures Valid()
      ensures i < |old(nodes)| && old(nodes)[i] == node
      ensures nodes == Moved(old(nodes), i)
      ensures Contents() == Moved(old(Contents()), i)
    {
      hide Linked, Moved, DataOf;
      LinkedFacts(this);
      if head != node && tail == node {
        var last := node.prev;
        ghost var ns := nodes;
        i := MoveToFront(node);
        LastAfterMove(ns, i);
        tail := last;
      } else {
        i := MoveToFront(node);
      }
    }
  }

  /** The links among `ns` when its i-th node has been taken out and put before the first. */
  ghost predicate Relinked<T>(ns: seq<Node<T>>, i: nat)
    reads ns`prev, ns`next
  {
    && 0 < i < |ns|
    && ns[i].prev == null && ns[i].next == ns[0]
    && (forall j {:trigger ns[j].next} :: 0 <= j < |ns| && j != i ==>
          ns[j].next == if j == i - 1 then if i == |ns| - 1 then null else ns[i + 1]
                        else if j == |ns| - 1 then null else ns[j + 1])
    && (forall j {:trigger ns[j].prev} :: 0 <= j < |ns| && j != i ==>
          ns[j].prev == if j == 0 then ns[i] else if j == i + 1 then ns[i - 1] else ns[j - 1])
  }

  lemma LinksAfterMove<T>(l: LinkedList<T>, ns: seq<Node<T>>, i: nat)
    requires Relinked(ns, i) && Distinct(ns)
    requires l.nodes == Moved(ns, i) && l.length == |ns| && l.head == ns[i]
    ensures l.Linked()
  {
    MovedAt(ns, i);
    var m := l.nodes;
    assert m[0] == ns[i] && m[1] == ns[0];
    forall k | 0 <= k < |m|
      ensures m[k].prev == if k == 0 then null else m[k - 1]
      ensures m[k].next == if k == |m| - 1 then null else m[k + 1]
    {
      if k == 0 {
        assert m[k].next == m[1];
      } else if k < i {
        assert m[k] == ns[k - 1] && m[k + 1] == ns[k] && m[k - 1] == ns[if k == 1 then i else k - 2];
      } else if k == i {
        assert m[k] == ns[k - 1] && m[k - 1] == ns[if k == 1 then i else k - 2];
        assert k + 1 < |m| ==> m[k + 1] == ns[k + 1];
      } else {
        assert m[k] == ns[k] && m[k - 1] == ns[if k == i + 1 then i - 1 else k - 1];
        assert k + 1 < |m| ==> m[k + 1] == ns[k + 1];
      }
    }
  }

  lemma LinkedFacts<T>(l: LinkedList<T>)
    requires l.Linked()
    ensures l.length == |l.nodes| && Distinct(l.nodes)
    ensures l.nodes != [] ==> l.head == l.nodes[0]
    ensures |l.nodes| > 1 ==> l.nodes[|l.nodes| - 1].prev == l.nodes[|l.nodes| - 2]
  {
  }

  // ---------- the two walks ----------

  ghost function WalkNext<T>(n: Node?<T>, among: set<Node<T>>, k: nat): seq<Node<T>>
    reads among
    decreases k
  {
    if n == null || n !in among || k == 0 then [] else [n] + WalkNext(n.next, among, k - 1)
  }

  ghost function WalkPrev<T>(n: Node?<T>, among: set<Node<T>>, k: nat): seq<Node<T>>
    reads among
    decreases k
  {
    if n == null || n !in among || k == 0 then [] else [n] + WalkPrev(n.prev, among, k - 1)
  }

  function Reverse<T>(s: seq<T>): (r: seq<T>)
    ensures |r| == |s|
    ensures forall i :: 0 <= i < |s| ==> r[i] == s[|s| - 1 - i]
  {
    seq(|s|, i requires 0 <= i < |s| => s[|s| - 1 - i])
  }

  ghost function Members<T>(s: seq<T>): set<T> {
    set x | x in s
  }

  lemma {:induction false} WalkNextFrom<T>(l: LinkedList<T>, i: nat, k: nat)
    requires l.Linked() && i < |l.nodes| && k >= |l.nodes| - i
    ensures WalkNext(l.nodes[i], Members(l.nodes), k) == l.nodes[i..]
    decreases |l.nodes| - i
  {
    if i + 1 < |l.nodes| {
      WalkNextFrom(l, i + 1, k - 1);
    }
  }

  lemma {:induction false} WalkPrevFrom<T>(l: LinkedList<T>, i: nat, k: nat)
    requires l.Linked() && i < |l.nodes| && k > i
    ensures WalkPrev(l.nodes[i], Members(l.nodes), k) == Reverse(l.nodes[..i + 1])
  {
    if i > 0 {
      WalkPrevFrom(l, i - 1, k - 1);
    }
  }

  /** The walk from the head along `next` gives the whole sequence; the walk from the tail along
      `prev` gives its mirror image exactly when the list is valid. */
  lemma WalksMirror<T>(l: LinkedList<T>)
    requires l.Linked() && l.nodes != []
    ensures WalkNext(l.head, Members(l.nodes), l.length) == l.nodes
    ensures l.Valid() <==> WalkPrev(l.tail, Members(l.nodes), l.length) == Reverse(l.nodes)
  {
    WalkNextFrom(l, 0, l.length);
    assert l.nodes[0..] == l.nodes;
    if l.tail != null && l.tail in l.nodes {
      var j :| 0 <= j < |l.nodes| && l.nodes[j] == l.tail;
      WalkPrevFrom(l, j, l.length);
      assert |WalkPrev(l.tail, Members(l.nodes), l.length)| == j + 1;
      assert l.nodes[..|l.nodes|] == l.nodes;
    }
  }

  /** What the unrepaired move leads to on the smallest list: two elements in the right order, but a
      tail pointer at the head. */
  method StaleTailWitness() returns (l: LinkedList<int>)
    ensures l.Linked() && l.TailListed() && l.Contents() == [2, 1] && !l.Valid()
    ensures l.length == 2 && l.tail != null && l.tail.prev == null
    ensures fresh(l) && fresh(Members(l.nodes))
  {
    l := new LinkedList();
    var two := l.PushFront(2);
    var one := l.PushFront(1);
    var _ := l.MoveToFront(two);
  }

  /** A push_front followed by a pop_tail, which is what the cache does next, then takes the wrong
      element and loses the last one with it. */
  method StaleTailLosesElement() returns (l: LinkedList<int>, popped: Option<int>)
    ensures popped == Some(2) && l.Contents() == [3] && l.length == 2
  {
    l := StaleTailWitness();
    ghost var ns := l.nodes;
    assert DataOf(ns) == [2, 1] && ns[0].data == 2;
    assert ns[0] in Members(ns) && ns[1] in Members(ns);
    var three := l.PushFront(3);
    assert l.nodes[1] == ns[0] == l.tail;
    popped := l.PopTail();
    assert l.nodes == [three];
  }
}
