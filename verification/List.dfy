/** The doubly linked list of src/list.c, proved to be one sequence of nodes. */
module List {
  import opened Wrappers

  // ---------- Sequences ----------

  function InsertAt<T>(s: seq<T>, i: nat, x: T): seq<T>
    requires i <= |s|
  {
    s[..i] + [x] + s[i..]
  }

  function RemoveAt<T>(s: seq<T>, i: nat): seq<T>
    requires i < |s|
  {
    s[..i] + s[i + 1..]
  }

  /** The last element moved to the front. */
  function Rotated<T>(s: seq<T>): seq<T> {
    if |s| <= 1 then s else [s[|s| - 1]] + s[..|s| - 1]
  }

  /** Position meant by a signed index: from the front, or from the back when negative. */
  function Position(index: int, len: nat): Option<nat> {
    if 0 <= index < len then Some(index)
    else if index < 0 && 0 <= len + index then Some(len + index)
    else None
  }

  /** Index k counts from the head, -1 - k from the tail; past the other end there is no node. */
  lemma PositionFromEnds(k: nat, len: nat)
    ensures Position(k, len) == if k < len then Some(k) else None
    ensures Position(-1 - k, len) == if k < len then Some(len - 1 - k) else None
  {
  }

  function RotatedBy<T>(s: seq<T>, n: nat): seq<T> { if n == 0 then s else Rotated(RotatedBy(s, n - 1)) }

  /** n rotations bring the last n elements to the front in their order. */
  lemma {:induction false} RotatedByIs<T>(s: seq<T>, n: nat)
    requires n <= |s|
    ensures RotatedBy(s, n) == s[|s| - n..] + s[..|s| - n]
  {
    if n > 0 {
      RotatedByIs(s, n - 1);
      var m := |s| - n;
      assert s[m + 1..] + s[..m + 1] == s[m + 1..] + s[..m] + [s[m]];
      assert [s[m]] + (s[m + 1..] + s[..m]) == s[m..] + s[..m];
    } else {
      assert s[|s|..] + s[..|s|] == s;
    }
  }

  /** As many rotations as there are elements change nothing. */
  lemma RotateAround<T>(s: seq<T>)
    ensures RotatedBy(s, |s|) == s
  {
    RotatedByIs(s, |s|);
    assert s[0..] + s[..0] == s;
  }

  /** Deleting what was inserted undoes it. */
  lemma InsertRemove<T>(s: seq<T>, i: nat, x: T)
    requires i <= |s|
    ensures RemoveAt(InsertAt(s, i, x), i) == s
    ensures i < |s| ==> InsertAt(RemoveAt(s, i), i, s[i]) == s
  {
    assert s[..i] + s[i..] == s;
    if i < |s| { assert RemoveAt(s, i)[..i] == s[..i] && RemoveAt(s, i)[i..] == s[i + 1..]; }
  }

  // ---------- The list ----------

  class Node<T> {
    const value: T
    var prev: Node?<T>
    var next: Node?<T>

    /** listCreateNode */
    constructor (value: T)
      ensures this.value == value && prev == null && next == null
    {
      this.value, prev, next := value, null, null;
    }
  }

  /** The i-th node, or null on either side. */
  function NodeAt<T>(ns: seq<Node<T>>, i: int): Node?<T> { if 0 <= i < |ns| then ns[i] else null }

  ghost predicate Distinct<T>(ns: seq<Node<T>>) { forall i, j :: 0 <= i < j < |ns| ==> ns[i] != ns[j] }

  /** Both chains run through ns in order. */
  ghost predicate Chained<T>(ns: seq<Node<T>>)
    reads ns
  {
    && (forall i :: 0 <= i < |ns| ==> ns[i].prev == NodeAt(ns, i - 1))
    && (forall i :: 0 <= i < |ns| ==> ns[i].next == NodeAt(ns, i + 1))
  }

  lemma NodeAtInsert<T>(ns: seq<Node<T>>, p: nat, x: Node<T>, i: int)
    requires p <= |ns|
    ensures NodeAt(InsertAt(ns, p, x), i) == if i < p then NodeAt(ns, i) else if i == p then x else NodeAt(ns, i - 1)
  {
  }

  lemma NodeAtRemove<T>(ns: seq<Node<T>>, p: nat, i: int)
    requires p < |ns|
    ensures NodeAt(RemoveAt(ns, p), i) == NodeAt(ns, if i < p then i else i + 1)
  {
  }

  lemma NodeAtRotated<T>(ns: seq<Node<T>>, i: int)
    requires |ns| > 1
    ensures NodeAt(Rotated(ns), i) ==
            if i == 0 then ns[|ns| - 1] else if i < |ns| then NodeAt(ns, i - 1) else null
  {
  }

  /** A node linked in at position p. */
  lemma ChainedInsert<T>(ns: seq<Node<T>>, p: nat, x: Node<T>)
    requires p <= |ns| && x.prev == NodeAt(ns, p - 1) && x.next == NodeAt(ns, p)
    requires forall j :: 0 <= j < |ns| ==> ns[j].prev == if j == p then x else NodeAt(ns, j - 1)
    requires forall j :: 0 <= j < |ns| ==> ns[j].next == if j == p - 1 then x else NodeAt(ns, j + 1)
    ensures Chained(InsertAt(ns, p, x))
  {
    hide NodeAt;
    var ms := InsertAt(ns, p, x);
    forall i | 0 <= i < |ms| ensures ms[i].prev == NodeAt(ms, i - 1) && ms[i].next == NodeAt(ms, i + 1) {
      NodeAtInsert(ns, p, x, i - 1);
      NodeAtInsert(ns, p, x, i + 1);
      if i < p { assert ms[i] == ns[i]; } else if i > p { assert ms[i] == ns[i - 1]; }
    }
  }

  /** A node passed over at position p. */
  lemma ChainedRemove<T>(ns: seq<Node<T>>, p: nat)
    requires p < |ns|
    requires forall j :: 0 <= j < |ns| && j != p ==> ns[j].prev == NodeAt(ns, if j == p + 1 then p - 1 else j - 1)
    requires forall j :: 0 <= j < |ns| && j != p ==> ns[j].next == NodeAt(ns, if j == p - 1 then p + 1 else j + 1)
    ensures Chained(RemoveAt(ns, p))
  {
    hide NodeAt;
    var ms := RemoveAt(ns, p);
    forall i | 0 <= i < |ms| ensures ms[i].prev == NodeAt(ms, i - 1) && ms[i].next == NodeAt(ms, i + 1) {
      NodeAtRemove(ns, p, i - 1);
      NodeAtRemove(ns, p, i + 1);
      assert ms[i] == ns[if i < p then i else i + 1];
    }
  }

  lemma ChainedRotate<T>(ns: seq<Node<T>>)
    requires |ns| > 1
    requires forall j :: 0 <= j < |ns| ==>
               ns[j].prev == if j == 0 then ns[|ns| - 1] else if j == |ns| - 1 then null else NodeAt(ns, j - 1)
    requires forall j :: 0 <= j < |ns| ==>
               ns[j].next == if j == |ns| - 1 then ns[0] else if j == |ns| - 2 then null else NodeAt(ns, j + 1)
    ensures Chained(Rotated(ns))
  {
    var ms, n := Rotated(ns), |ns|;
    assert forall i :: 0 <= i < n ==> ms[i] == if i == 0 then ns[n - 1] else ns[i - 1];
    forall i | 0 <= i < n ensures ms[i].prev == NodeAt(ms, i - 1) && ms[i].next == NodeAt(ms, i + 1) {
      hide NodeAt;
      NodeAtRotated(ns, i - 1);
      NodeAtRotated(ns, i + 1);
      NodeAtInside(ns, i);
      NodeAtInside(ns, i - 2);
    }
  }

  lemma NodeAtInside<T>(ns: seq<Node<T>>, i: int)
    ensures NodeAt(ns, i) == if 0 <= i < |ns| then ns[i] else null
  {
  }

  lemma DistinctKept<T>(ns: seq<Node<T>>, p: nat, x: Node<T>)
    requires Distinct(ns)
    ensures p <= |ns| && x !in ns ==> Distinct(InsertAt(ns, p, x))
    ensures p < |ns| ==> Distinct(RemoveAt(ns, p))
    ensures Distinct(Rotated(ns))
  {
  }

  /** No other position holds the node at position p. */
  lemma DistinctFrom<T>(ns: seq<Node<T>>, p: int)
    requires Distinct(ns)
    ensures 0 <= p < |ns| ==> forall j :: 0 <= j < |ns| && j != p ==> ns[j] != ns[p]
  {
  }

  class List<T> {
    var head: Node?<T>
    var tail: Node?<T>
    var len: nat
    ghost var nodes: seq<Node<T>>

    /** Forward chain, backward chain, both ends and the length agree with `nodes`. */
    ghost predicate Valid()
      reads this, nodes
    {
      && len == |nodes| && Distinct(nodes) && Chained(nodes)
      && head == NodeAt(nodes, 0) && tail == NodeAt(nodes, |nodes| - 1)
    }

    /** listCreate */
    constructor ()
      ensures Valid() && nodes == []
    {
      head, tail, len, nodes := null, null, 0, [];
    }

    /** listAddNodeHead */
    method AddHead(node: Node<T>)
      requires Valid() && node !in nodes
      modifies this, node`prev, node`next, nodes`prev
      ensures Valid() && nodes == [node] + old(nodes)
    {
      hide NodeAt, Distinct;
      ghost var ns := nodes;
      Ends(ns);
      DistinctFrom(ns, 0);
      DistinctKept(ns, 0, node);
      if len == 0 {
        head, tail := node, node;
        node.prev, node.next := null, null;
      } else {
        node.prev := null;
        node.next := head;
        head.prev := node;
        head := node;
      }
      len := len + 1;
      ChainedInsert(ns, 0, node);
      nodes := InsertAt(ns, 0, node);
      Ends(nodes);
      assert nodes == [node] + ns;
    }

    /** listAddNodeTail */
    method AddTail(node: Node<T>)
      requires Valid() && node !in nodes
      modifies this, node`prev, node`next, nodes`next
      ensures Valid() && nodes == old(nodes) + [node]
    {
      hide NodeAt, Distinct;
      ghost var ns := nodes;
      Ends(ns);
      DistinctFrom(ns, |ns| - 1);
      DistinctKept(ns, |ns|, node);
      if len == 0 {
        head, tail := node, node;
        node.prev, node.next := null, null;
      } else {
        node.prev := tail;
        node.next := null;
        tail.next := node;
        tail := node;
      }
      len := len + 1;
      ChainedInsert(ns, |ns|, node);
      nodes := InsertAt(ns, |ns|, node);
      Ends(nodes);
      assert nodes == ns + [node];
    }

    /** listInsertNode: before or after the node at position i. */
    method Insert(oldNode: Node<T>, newNode: Node<T>, after: bool, ghost i: nat)
      requires Valid() && newNode !in nodes && i < |nodes| && nodes[i] == oldNode
      modifies this, newNode`prev, newNode`next, nodes`prev, nodes`next
      ensures Valid() && nodes == InsertAt(old(nodes), if after then i + 1 else i, newNode)
    {
      hide NodeAt, Distinct;
      ghost var ns, p := nodes, if after then i + 1 else i;
      Ends(ns);
      NodeAtInside(ns, p - 1);
      NodeAtInside(ns, p);
      DistinctFrom(ns, p - 1);
      DistinctFrom(ns, p);
      DistinctKept(ns, p, newNode);
      if after {
        newNode.prev := oldNode;
        newNode.next := oldNode.next;
        if tail == oldNode { tail := newNode; }
      } else {
        newNode.next := oldNode;
        newNode.prev := oldNode.prev;
        if head == oldNode { head := newNode; }
      }
      if newNode.prev != null { newNode.prev.next := newNode; }
      if newNode.next != null { newNode.next.prev := newNode; }
      len := len + 1;
      ChainedInsert(ns, p, newNode);
      nodes := InsertAt(ns, p, newNode);
      Ends(nodes);
    }

    /** listDelNode, without freeing. */
    method Delete(node: Node<T>, ghost i: nat)
      requires Valid() && i < |nodes| && nodes[i] == node
      modifies this, nodes`prev, nodes`next
      ensures Valid() && nodes == RemoveAt(old(nodes), i)
    {
      hide NodeAt, Distinct;
      ghost var ns := nodes;
      Ends(ns);
      NodeAtInside(ns, i - 1);
      NodeAtInside(ns, i + 1);
      DistinctFrom(ns, i - 1);
      DistinctFrom(ns, i);
      DistinctFrom(ns, i + 1);
      DistinctKept(ns, i, node);
      if node.prev != null { node.prev.next := node.next; } else { head := node.next; }
      if node.next != null { node.next.prev := node.prev; } else { tail := node.prev; }
      len := len - 1;
      ChainedRemove(ns, i);
      nodes := RemoveAt(ns, i);
      Ends(nodes);
    }

    /** listRotate */
    method Rotate()
      requires Valid()
      modifies this, nodes`prev, nodes`next
      ensures Valid() && nodes == Rotated(old(nodes))
    {
      hide NodeAt, Distinct;
      if len <= 1 { return; }
      ghost var ns := nodes;
      Ends(ns);
      NodeAtInside(ns, |ns| - 2);
      DistinctFrom(ns, 0);
      DistinctFrom(ns, |ns| - 2);
      DistinctFrom(ns, |ns| - 1);
      DistinctKept(ns, 0, tail);
      var last := tail;
      tail := last.prev;
      tail.next := null;
      last.prev := null;
      last.next := head;
      head.prev := last;
      head := last;
      ChainedRotate(ns);
      nodes := Rotated(ns);
      Ends(nodes);
    }

    /** listIndex */
    method Index(index: int) returns (node: Node?<T>)
      requires Valid()
      ensures node == match Position(index, |nodes|) case None => null case Some(i) => nodes[i]
    {
      var left := index;
      if index < 0 {
        left := -index - 1;
        node := tail;
        while left != 0 && node != null
          invariant 0 <= left <= -index - 1 && node == NodeAt(nodes, |nodes| + index + left)
          decreases left
        {
          node := node.prev;
          left := left - 1;
        }
      } else {
        node := head;
        while left != 0 && node != null
          invariant 0 <= left <= index && node == NodeAt(nodes, index - left)
          decreases left
        {
          node := node.next;
          left := left - 1;
        }
      }
    }
  }

  lemma Ends<T>(ns: seq<Node<T>>)
    ensures NodeAt(ns, -1) == null && NodeAt(ns, |ns|) == null
    ensures ns != [] ==> NodeAt(ns, 0) == ns[0] && NodeAt(ns, |ns| - 1) == ns[|ns| - 1]
    ensures ns == [] ==> NodeAt(ns, 0) == null
  {
  }

  /** listSearchKey with no compare function: the first node with this value. */
  method Search<T(==)>(list: List<T>, key: T) returns (node: Node?<T>, ghost at: nat)
    requires list.Valid()
    ensures at <= |list.nodes| && forall j :: 0 <= j < at ==> list.nodes[j].value != key
    ensures node == if at < |list.nodes| then list.nodes[at] else null
    ensures node != null ==> node.value == key
  {
    node, at := list.head, 0;
    while node != null
      invariant at <= |list.nodes| && node == NodeAt(list.nodes, at)
      invariant forall j :: 0 <= j < at ==> list.nodes[j].value != key
      decreases |list.nodes| - at
    {
      if node.value == key { return; }
      node, at := node.next, at + 1;
    }
  }
}
