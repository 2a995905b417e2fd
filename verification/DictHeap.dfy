/** The dictionary as it lies in memory: bucket arrays of linked entries, updated in place,
    and proved step by step against module DictSpec. */
module DictHeap {
  import opened Wrappers
  import opened Bits
  import opened DictSpec
  import opened DictLaws

  /** dictEntry. The ghost field is the bucket the node hangs in. */
  class Node<V> {
    const key: Key
    var val: V
    var next: Node?<V>
    ghost var bucket: nat

    constructor (key: Key, val: V)
      ensures this.key == key && this.val == val
    {
      this.key, this.val, this.next, this.bucket := key, val, null, 0;
    }
  }

  function NextIn<V>(ns: seq<Node<V>>, i: nat): Node?<V> { if i + 1 < |ns| then ns[i + 1] else null }

  ghost predicate NodeOk<V>(b: nat, node: Node<V>, e: Entry<V>)
    reads node
  {
    node.bucket == b && node.key == e.key && node.val == e.val
  }

  /** The nodes ns form the chain c and hang, in order, from `head` in bucket b. */
  ghost predicate ChainOk<V>(b: nat, head: Node?<V>, ns: seq<Node<V>>, c: Chain<V>)
    reads ns
  {
    && |ns| == |c| && head == (if ns == [] then null else ns[0])
    && (forall i :: 0 <= i < |ns| ==> NodeOk(b, ns[i], c[i]))
    && (forall i :: 0 <= i < |ns| ==> ns[i].next == NextIn(ns, i))
  }

  lemma ChainCons<V>(b: nat, e: Node<V>, head: Node?<V>, ns: seq<Node<V>>, c: Chain<V>)
    requires ChainOk(b, head, ns, c) && e.bucket == b && e.next == head
    ensures ChainOk(b, e, [e] + ns, [Entry(e.key, e.val)] + c)
  {
    var ms, d := [e] + ns, [Entry(e.key, e.val)] + c;
    forall i | 0 <= i < |ms| ensures NodeOk(b, ms[i], d[i]) && ms[i].next == NextIn(ms, i) {
      if i > 0 { assert ms[i] == ns[i - 1] && d[i] == c[i - 1] && NodeOk(b, ns[i - 1], c[i - 1]); }
    }
  }

  /** Leaving out position i, once the node before it points past it. */
  lemma ChainWithout<V>(b: nat, head: Node?<V>, ns: seq<Node<V>>, c: Chain<V>, i: nat)
    requires i < |ns| == |c|
    requires forall j :: 0 <= j < |ns| ==> NodeOk(b, ns[j], c[j])
    requires forall j :: 0 <= j < |ns| && j != i && j + 1 != i ==> ns[j].next == NextIn(ns, j)
    requires if i == 0 then head == NextIn(ns, 0) else head == ns[0] && ns[i - 1].next == NextIn(ns, i)
    ensures ChainOk(b, head, Drop(ns, i), Drop(c, i))
  {
    hide Drop;
    var ms, d := Drop(ns, i), Drop(c, i);
    forall j | 0 <= j < |ms| ensures NodeOk(b, ms[j], d[j]) && ms[j].next == NextIn(ms, j) {
      var s := if j < i then j else j + 1;
      assert ms[j] == ns[s] && d[j] == c[s] && NodeOk(b, ns[s], c[s]);
    }
  }

  /** In a chain with distinct keys all nodes are distinct. */
  lemma ChainDistinct<V>(b: nat, head: Node?<V>, ns: seq<Node<V>>, c: Chain<V>)
    requires ChainOk(b, head, ns, c) && DistinctKeys(c)
    ensures forall i, j :: 0 <= i < j < |ns| ==> ns[i] != ns[j]
  {
    forall i, j | 0 <= i < j < |ns| ensures ns[i] != ns[j] {
      assert NodeOk(b, ns[i], c[i]) && NodeOk(b, ns[j], c[j]);
    }
  }

  /** prev->next = entry->next, inside one chain. */
  method SkipNode<V>(b: nat, head: Node?<V>, ghost ns: seq<Node<V>>, ghost c: Chain<V>, ghost i: nat, prev: Node<V>, node: Node<V>)
    requires ChainOk(b, head, ns, c) && 0 < i < |ns| && DistinctKeys(c) && prev == ns[i - 1] && node == ns[i]
    modifies prev`next
    ensures ChainOk(b, head, Drop(ns, i), Drop(c, i))
  {
    hide Drop;
    ChainDistinct(b, head, ns, c);
    assert node.next == NextIn(ns, i);
    prev.next := node.next;
    forall j | 0 <= j < |ns| ensures NodeOk(b, ns[j], c[j]) {
      assert old(NodeOk(b, ns[j], c[j]));
    }
    ChainWithout(b, head, ns, c, i);
  }

  /** entry->v.val = val, inside one chain. */
  method SetNode<V>(b: nat, head: Node?<V>, ghost ns: seq<Node<V>>, ghost c: Chain<V>, ghost i: nat, node: Node<V>, v: V)
    requires ChainOk(b, head, ns, c) && i < |ns| && DistinctKeys(c) && node == ns[i]
    modifies node`val
    ensures ChainOk(b, head, ns, c[i := c[i].(val := v)])
  {
    ChainDistinct(b, head, ns, c);
    node.val := v;
    forall j | 0 <= j < |ns| ensures NodeOk(b, ns[j], c[i := c[i].(val := v)][j]) {
      assert old(NodeOk(b, ns[j], c[j]));
    }
  }

  lemma ChainRest<V>(b: nat, head: Node?<V>, ns: seq<Node<V>>, c: Chain<V>)
    requires ChainOk(b, head, ns, c) && ns != []
    ensures ChainOk(b, ns[0].next, Drop(ns, 0), Drop(c, 0))
  {
    hide Drop;
    assert ns[0].next == NextIn(ns, 0);
    ChainWithout(b, ns[0].next, ns, c, 0);
  }

  lemma ChainBuckets<V>(b: nat, head: Node?<V>, ns: seq<Node<V>>, c: Chain<V>)
    requires ChainOk(b, head, ns, c)
    ensures forall n :: n in ns ==> n.bucket == b
  {
    forall i | 0 <= i < |ns| ensures ns[i].bucket == b {
      assert NodeOk(b, ns[i], c[i]);
    }
  }

  lemma DropMembers<V>(ns: seq<Node<V>>, i: nat)
    requires i < |ns| && forall j, k :: 0 <= j < k < |ns| ==> ns[j] != ns[k]
    ensures forall n :: n in Drop(ns, i) ==> n in ns && n != ns[i]
  {
    hide Drop;
    var rest := Drop(ns, i);
    forall n | n in rest ensures n in ns && n != ns[i] {
      var j :| 0 <= j < |rest| && rest[j] == n;
      assert n == ns[if j < i then j else j + 1];
    }
  }

  /** Walks a chain for a key; also returns the node before. */
  method WalkChain<V>(head: Node?<V>, k: Key, ghost b: nat, ghost ns: seq<Node<V>>, ghost c: Chain<V>)
    returns (node: Node?<V>, prev: Node?<V>, ghost i: nat)
    requires ChainOk(b, head, ns, c)
    ensures i == FindIn(c, k)
    ensures node == if i < |ns| then ns[i] else null
    ensures prev == if i == 0 then null else ns[i - 1]
  {
    node, prev, i := head, null, 0;
    while node != null
      invariant i <= |ns| && node == (if i < |ns| then ns[i] else null)
      invariant prev == if i == 0 then null else ns[i - 1]
      invariant forall j :: 0 <= j < i ==> c[j].key != k
      decreases |ns| - i
    {
      assert NodeOk(b, ns[i], c[i]);
      if node.key == k { break; }
      assert ns[i].next == NextIn(ns, i);
      prev, node, i := node, node.next, i + 1;
    }
    FindInIs(c, k, i);
  }

  /** Every chained node is in the set. */
  ghost predicate Members<V>(nodes: seq<seq<Node<V>>>, repr: set<Node<V>>) {
    forall b, n :: 0 <= b < |nodes| && n in nodes[b] ==> n in repr
  }

  lemma MembersPush<V>(nodes: seq<seq<Node<V>>>, repr: set<Node<V>>, b: nat, e: Node<V>)
    requires Members(nodes, repr) && b < |nodes|
    ensures Members(nodes[b := [e] + nodes[b]], repr + {e})
  {
  }

  lemma MembersDrop<V>(nodes: seq<seq<Node<V>>>, repr: set<Node<V>>, b: nat, i: nat)
    requires Members(nodes, repr) && b < |nodes| && i < |nodes[b]|
    requires forall x :: 0 <= x < |nodes| && x != b ==> nodes[b][i] !in nodes[x]
    requires forall j, k :: 0 <= j < k < |nodes[b]| ==> nodes[b][j] != nodes[b][k]
    ensures Members(nodes[b := Drop(nodes[b], i)], repr - {nodes[b][i]})
  {
    hide Drop;
    DropMembers(nodes[b], i);
  }

  /** dictHT: `table` is the bucket array, its length the size. `m` is the table as a value,
      `nodes` the entries of each chain in order, `repr` all of them. */
  class DictHT<V> {
    var table: array<Node?<V>>
    var used: int
    ghost var m: Table<V>
    ghost var nodes: seq<seq<Node<V>>>
    ghost var repr: set<Node<V>>

    ghost predicate Linked()
      reads this, table, repr
    {
      && table.Length == |nodes| == |m.buckets| && m.used == used
      && (forall b, n :: 0 <= b < |nodes| && n in nodes[b] ==> n in repr)
      && (forall b :: 0 <= b < |nodes| ==> ChainOk(b, table[b], nodes[b], m.buckets[b]))
    }

    /** calloc: size empty buckets. */
    constructor (size: nat)
      ensures Linked() && m == NewTable(size) && fresh(table) && repr == {}
    {
      table := new Node?<V>[size](_ => null);
      used := 0;
      m, nodes, repr := NewTable(size), seq(size, i => []), {};
    }

    /** Facts about the node at position i of bucket b. */
    lemma NodeFacts(b: nat, i: nat)
      requires Linked() && b < |nodes| && i < |nodes[b]|
      ensures |nodes[b]| == |m.buckets[b]| && Members(nodes, repr)
      ensures ChainOk(b, table[b], nodes[b], m.buckets[b])
      ensures var n := nodes[b][i];
              && n in repr && n.bucket == b && n.next == NextIn(nodes[b], i)
              && n.key == m.buckets[b][i].key && n.val == m.buckets[b][i].val
              && forall x :: 0 <= x < |nodes| && x != b ==> n !in nodes[x]
    {
      var n := nodes[b][i];
      assert NodeOk(b, n, m.buckets[b][i]);
      forall x | 0 <= x < |nodes| && x != b ensures n !in nodes[x] {
        ChainBuckets(x, table[x], nodes[x], m.buckets[x]);
      }
    }

    lemma EmptyBucket(b: nat)
      requires Linked() && b < |nodes|
      ensures |nodes[b]| == |m.buckets[b]|
      ensures table[b] == null <==> m.buckets[b] == []
      ensures table[b] != null ==> table[b] == nodes[b][0]
    {
      assert ChainOk(b, table[b], nodes[b], m.buckets[b]);
    }

    /** Walks bucket b for a key; also returns the node before. */
    method Walk(b: nat, k: Key) returns (node: Node?<V>, prev: Node?<V>, ghost i: nat)
      requires Linked() && b < table.Length
      ensures b < |m.buckets| == |nodes| && i == FindIn(m.buckets[b], k) && |nodes[b]| == |m.buckets[b]|
      ensures node == if i < |nodes[b]| then nodes[b][i] else null
      ensures prev == if i == 0 then null else nodes[b][i - 1]
      ensures node != null ==> node.key == k && node in repr && node.val == m.buckets[b][i].val
    {
      assert ChainOk(b, table[b], nodes[b], m.buckets[b]);
      node, prev, i := WalkChain(table[b], k, b, nodes[b], m.buckets[b]);
      if node != null { NodeFacts(b, i); }
    }

    /** Hangs a detached node in front of bucket b. */
    method Push(b: nat, e: Node<V>)
      requires Linked() && b < table.Length && e !in repr
      modifies this`used, this`m, this`nodes, this`repr, table, e`next, e`bucket
      ensures Linked() && m == Put(old(m), b, Entry(e.key, e.val)) && repr == old(repr) + {e} && table == old(table)
    {
      hide ChainOk;
      ghost var ns, c := nodes[b], m.buckets[b];
      assert ChainOk(b, table[b], ns, c);
      assert forall x :: 0 <= x < |nodes| ==> e !in nodes[x];
      e.next := table[b];
      e.bucket := b;
      ChainCons(b, e, table[b], ns, c);
      MembersPush(nodes, repr, b, e);
      table[b] := e;
      used := used + 1;
      nodes := nodes[b := [e] + ns];
      m := Put(m, b, Entry(e.key, e.val));
      repr := repr + {e};
    }

    /** Takes the first node out of bucket b. */
    method UnlinkFirst(b: nat, node: Node<V>)
      requires Linked() && b < table.Length && 0 < |nodes[b]| == |m.buckets[b]| && node == nodes[b][0]
      requires DistinctKeys(m.buckets[b])
      modifies this`used, this`m, this`nodes, this`repr, table
      ensures Linked() && m == Remove(old(m), b, 0) && repr == old(repr) - {node} && table == old(table)
    {
      hide ChainOk, Drop;
      ghost var ns, c := nodes[b], m.buckets[b];
      NodeFacts(b, 0);
      ChainDistinct(b, table[b], ns, c);
      MembersDrop(nodes, repr, b, 0);
      ChainRest(b, table[b], ns, c);
      table[b] := node.next;
      used := used - 1;
      nodes := nodes[b := Drop(ns, 0)];
      m := Remove(m, b, 0);
      repr := repr - {node};
    }

    /** Takes the node at position i > 0 out of bucket b; `prev` is the node before it. */
    method UnlinkAfter(b: nat, node: Node<V>, prev: Node<V>, ghost i: nat)
      requires Linked() && b < table.Length && 0 < i < |nodes[b]| == |m.buckets[b]|
      requires node == nodes[b][i] && prev == nodes[b][i - 1]
      requires DistinctKeys(m.buckets[b])
      modifies this`used, this`m, this`nodes, this`repr, prev`next
      ensures Linked() && m == Remove(old(m), b, i) && repr == old(repr) - {node} && table == old(table)
    {
      hide ChainOk, Drop;
      ghost var ns, c := nodes[b], m.buckets[b];
      NodeFacts(b, i);
      NodeFacts(b, i - 1);
      ChainDistinct(b, table[b], ns, c);
      MembersDrop(nodes, repr, b, i);
      SkipNode(b, table[b], ns, c, i, prev, node);
      used := used - 1;
      nodes := nodes[b := Drop(ns, i)];
      m := Remove(m, b, i);
      repr := repr - {node};
    }

    /** The unlinking of dictDelete. */
    method Unlink(b: nat, node: Node<V>, prev: Node?<V>, ghost i: nat)
      requires Linked() && b < table.Length && i < |nodes[b]| == |m.buckets[b]| && node == nodes[b][i]
      requires prev == if i == 0 then null else nodes[b][i - 1]
      requires DistinctKeys(m.buckets[b])
      modifies this`used, this`m, this`nodes, this`repr, table, repr`next
      ensures Linked() && m == Remove(old(m), b, i) && repr == old(repr) - {node} && table == old(table)
    {
      hide ChainOk, Drop;
      if i > 0 { NodeFacts(b, i - 1); }
      if prev == null { UnlinkFirst(b, node); } else { UnlinkAfter(b, node, prev, i); }
    }

    /** dictSetVal on the node at position i of bucket b. */
    method Assign(b: nat, node: Node<V>, v: V, ghost i: nat)
      requires Linked() && b < table.Length && i < |nodes[b]| == |m.buckets[b]| && node == nodes[b][i]
      requires DistinctKeys(m.buckets[b])
      modifies this`m, node`val
      ensures Linked() && m == SetVal(old(m), b, i, v)
    {
      hide ChainOk;
      NodeFacts(b, i);
      SetNode(b, table[b], nodes[b], m.buckets[b], i, node, v);
      m := SetVal(m, b, i, v);
    }
  }

  lemma HomePow2<V>(d: DictSpec.Dict<V>)
    requires DictSpec.Valid(d)
    ensures |d.ht0.buckets| > 0 ==> IsPow2(|d.ht0.buckets|)
    ensures |d.ht1.buckets| > 0 ==> IsPow2(|d.ht1.buckets|)
    ensures forall b :: 0 <= b < |d.ht0.buckets| ==> DistinctKeys(d.ht0.buckets[b])
    ensures forall b :: 0 <= b < |d.ht1.buckets| ==> DistinctKeys(d.ht1.buckets[b])
  {
  }

  /** dict: two hash tables and the rehash cursor. */
  class Dict<V> {
    const hash: Key -> nat
    var ht0: DictHT<V>
    var ht1: DictHT<V>
    var rehashidx: int

    ghost function Repr(): set<object>
      reads this, ht0, ht1
    {
      {this, ht0, ht1, ht0.table, ht1.table} + ht0.repr + ht1.repr
    }

    /** The dictionary as a value of module DictSpec. */
    ghost function Model(): DictSpec.Dict<V>
      reads this, ht0, ht1
    {
      DictSpec.Dict(hash, ht0.m, ht1.m, rehashidx)
    }

    ghost predicate Separate()
      reads this, ht0, ht1
    {
      ht0 != ht1 && ht0.table != ht1.table && ht0.repr !! ht1.repr
    }

    ghost predicate Valid()
      reads Repr()
    {
      Separate() && ht0.Linked() && ht1.Linked() && DictSpec.Valid(Model())
    }

    /** _dictInit: no tables, no rehash. */
    constructor (hash: Key -> nat)
      ensures Valid() && Model() == Empty(hash) && fresh(Repr())
    {
      this.hash := hash;
      ht0 := new DictHT<V>(0);
      ht1 := new DictHT<V>(0);
      rehashidx := NO_REHASH;
      new;
      assert NewTable<V>(0) == NoTable<V>();
    }

    /** hash & sizemask, as in the C code. */
    method Index(k: Key, size: nat) returns (b: nat)
      requires size > 0 && IsPow2(size)
      ensures b == Bucket(hash(k), size)
    {
      b := And(hash(k) % 0x1_0000_0000, size - 1);
      BucketIsMask(hash(k), size);
    }

    /** The skipping loop of _dictRehashStep. */
    method SkipEmpty()
      requires Valid() && 0 <= rehashidx <= ht0.table.Length
      modifies this`rehashidx
      ensures Separate() && ht0.Linked() && ht1.Linked()
      ensures rehashidx == FirstFull(ht0.m.buckets, old(rehashidx))
    {
      while rehashidx < ht0.table.Length && ht0.table[rehashidx] == null
        modifies this`rehashidx
        invariant 0 <= rehashidx <= ht0.table.Length
        invariant FirstFull(ht0.m.buckets, old(rehashidx)) == FirstFull(ht0.m.buckets, rehashidx)
        decreases ht0.table.Length - rehashidx
      {
        ht0.EmptyBucket(rehashidx);
        rehashidx := rehashidx + 1;
      }
      if rehashidx < ht0.table.Length { ht0.EmptyBucket(rehashidx); }
    }

    /** Moves the first entry of bucket r of ht[0] to ht[1]. */
    method MoveFirst(r: nat)
      requires Separate() && ht0.Linked() && ht1.Linked()
      requires r < |ht0.m.buckets| && ht0.m.buckets[r] != [] && DistinctKeys(ht0.m.buckets[r])
      requires |ht1.m.buckets| > 0 && IsPow2(|ht1.m.buckets|)
      modifies ht0, ht1, ht0.table, ht1.table, ht0.repr
      ensures ht0 == old(ht0) && ht1 == old(ht1) && ht0.table == old(ht0.table) && ht1.table == old(ht1.table)
      ensures Separate() && ht0.Linked() && ht1.Linked() && ht0.repr + ht1.repr == old(ht0.repr + ht1.repr)
      ensures var e := old(ht0.m.buckets[r][0]);
              && ht0.m == Remove(old(ht0.m), r, 0)
              && ht1.m == Put(old(ht1.m), Home(old(ht1.m), hash, e.key), e)
    {
      hide DictHT.Linked, Remove, Put;
      assert r < |ht0.nodes| && r < ht0.table.Length && |ht1.m.buckets| == ht1.table.Length by { LinkedLengths(ht0); LinkedLengths(ht1); }
      ht0.EmptyBucket(r);
      var entry := ht0.table[r];
      ht0.NodeFacts(r, 0);
      ht0.UnlinkFirst(r, entry);
      var idx := Index(entry.key, ht1.table.Length);
      ht1.Push(idx, entry);
    }

    /** _dictRehashStep: skips empty buckets, moves the first entry of the next full one, and
        swaps the tables when ht[0] is drained. */
    method RehashStep()
      requires Valid() && Movable(Model())
      modifies Repr()
      ensures Valid() && Model() == DictSpec.RehashStep(old(Model())) && fresh(Repr() - old(Repr()))
    {
      hide DictHT.Linked, TableOk, Remove, Put, FirstFull;
      ghost var d := Model();
      MovableIff(d);
      RehashStepOk(d);
      HomePow2(d);
      LinkedLengths(ht0);
      SkipEmpty();
      MoveFirst(rehashidx);
      LinkedLengths(ht0);
      if ht0.used == 0 {
        ht0 := ht1;
        ht1 := new DictHT<V>(0);
        rehashidx := NO_REHASH;
        assert NewTable<V>(0) == NoTable<V>();
      }
    }

    /** dictExpand */
    method Expand(size: nat)
      requires Valid() && rehashidx == NO_REHASH && size > 0 && IsPow2(size)
      modifies this
      ensures Valid() && Model() == DictSpec.Expand(old(Model()), size) && fresh(Repr() - old(Repr()))
      ensures ht0.repr + ht1.repr <= old(ht0.repr + ht1.repr)
    {
      hide DictHT.Linked, TableOk, Bucket;
      LinkedLengths(ht0);
      ExpandOk(Model(), size);
      var dh := new DictHT<V>(size);
      if ht0.table.Length == 0 {
        ht0 := dh;
      } else {
        ht1 := dh;
        rehashidx := 0;
      }
    }

    /** dictExpandIfNeed */
    method ExpandIfNeed()
      requires Valid()
      modifies this
      ensures Valid() && Model() == DictSpec.ExpandIfNeed(old(Model())) && fresh(Repr() - old(Repr()))
      ensures ht0.repr + ht1.repr <= old(ht0.repr + ht1.repr)
    {
      hide DictHT.Linked, DictSpec.Valid, NextPow, DictSpec.Expand;
      if rehashidx != NO_REHASH { return; }
      LinkedLengths(ht0);
      UsedNotNegative(Model());
      if ht0.table.Length == 0 {
        assert 4 == Pow2(2);
        Expand(INITIAL_SIZE);
      } else if ht0.used == ht0.table.Length {
        NextPowIs(ht0.used * 2);
        var size := NextPower(ht0.used * 2);
        Expand(size);
      } else if 5 * ht0.used < ht0.table.Length {
        NextPowIs(ht0.used);
        var size := NextPower(ht0.used);
        if size > INITIAL_SIZE { Expand(size); }
      }
    }

    /** dictFind */
    method Find(k: Key) returns (node: Node?<V>)
      requires Valid()
      ensures node == null <==> DictSpec.Find(Model(), k).None?
      ensures node != null ==> node.key == k && DictSpec.Find(Model(), k) == Some(node.val)
    {
      hide DictHT.Linked, TableOk, Bucket, FindIn;
      LinkedLengths(ht0);
      LinkedLengths(ht1);
      if ht0.table.Length == 0 { return null; }
      HomePow2(Model());
      var b := Index(k, ht0.table.Length);
      var prev;
      ghost var i;
      node, prev, i := ht0.Walk(b, k);
      if node != null || rehashidx == NO_REHASH { return; }
      b := Index(k, ht1.table.Length);
      node, prev, i := ht1.Walk(b, k);
    }

    /** dictAddEntry during a rehash: into ht[1], then one rehash step. */
    method AddDuringRehash(e: Node<V>)
      requires Valid() && e !in ht0.repr + ht1.repr && rehashidx != NO_REHASH
      requires DictSpec.Lookup(Model(), e.key).None? && !Stuck(Model())
      modifies Repr(), e
      ensures var x := old(Model());
              var y := x.(ht1 := Put(x.ht1, Home(x.ht1, x.hash, e.key), Entry(e.key, old(e.val))));
              Valid() && Movable(y) && Model() == DictSpec.RehashStep(y)
      ensures fresh(Repr() - old(Repr()) - {e})
    {
      hide DictHT.Linked, TableOk, Bucket, DictSpec.RehashStep, Movable, Put;
      ghost var x := Model();
      HomePow2(x);
      LinkedLengths(ht1);
      PutDuringRehash(x, Entry(e.key, e.val));
      var idx := Index(e.key, ht1.table.Length);
      ht1.Push(idx, e);
      RehashStep();
    }

    /** dictAddEntry outside a rehash: into ht[0]. */
    method AddDirect(e: Node<V>)
      requires Valid() && e !in ht0.repr + ht1.repr && rehashidx == NO_REHASH
      requires DictSpec.Lookup(Model(), e.key).None? && ht0.m.buckets != []
      modifies Repr(), e
      ensures var x := old(Model());
              Valid() && Model() == x.(ht0 := Put(x.ht0, Home(x.ht0, x.hash, e.key), Entry(e.key, old(e.val))))
      ensures fresh(Repr() - old(Repr()) - {e})
    {
      hide DictHT.Linked, TableOk, Bucket, Put;
      HomePow2(Model());
      LinkedLengths(ht0);
      PutOk(ht0.m, hash, Entry(e.key, e.val));
      var idx := Index(e.key, ht0.table.Length);
      ht0.Push(idx, e);
    }

    /** dictAddEntry, with the key and value already in the node. */
    method AddEntry(e: Node<V>)
      requires Valid() && e !in ht0.repr + ht1.repr
      requires DictSpec.Lookup(Model(), e.key).None? && DictSpec.AddEntry(Model(), Entry(e.key, e.val)).Some?
      modifies Repr(), e
      ensures Valid() && Some(Model()) == DictSpec.AddEntry(old(Model()), Entry(e.key, old(e.val)))
      ensures fresh(Repr() - old(Repr()) - {e})
    {
      hide DictHT.Linked, DictSpec.Valid, DictSpec.Lookup, Movable, DictSpec.ExpandIfNeed, DictSpec.RehashStep, Put, Home;
      AddFacts(Model(), Entry(e.key, e.val));
      ExpandIfNeed();
      if rehashidx != NO_REHASH { AddDuringRehash(e); } else { AddDirect(e); }
    }

    /** dictAdd. The dictionary must not be stuck when the key is new. */
    method Add(k: Key, v: V) returns (ok: bool)
      requires Valid() && DictSpec.Add(Model(), k, v).Did?
      modifies Repr()
      ensures Valid() && DictSpec.Add(old(Model()), k, v) == Did(Model(), ok) && fresh(Repr() - old(Repr()))
    {
      hide DictSpec.Valid, DictHT.Linked, DictSpec.AddEntry, DictSpec.Find, DictSpec.Lookup;
      FindIsLookup(Model(), k);
      var found := Find(k);
      if found != null { return false; }
      var e := new Node<V>(k, v);
      AddEntry(e);
      return true;
    }

    /** dictReplace */
    method Replace(k: Key, v: V) returns (ok: bool)
      requires Valid()
      modifies ht0, ht1, ht0.repr, ht1.repr
      ensures Valid() && DictSpec.Replace(old(Model()), k, v) == Did(Model(), ok)
    {
      hide DictHT.Linked, TableOk, Bucket, FindIn, SetVal;
      ReplaceOk(Model(), k, v);
      LinkedLengths(ht0);
      LinkedLengths(ht1);
      if ht0.table.Length == 0 { return false; }
      HomePow2(Model());
      var b := Index(k, ht0.table.Length);
      var node, prev, i := ht0.Walk(b, k);
      if node != null {
        ht0.Assign(b, node, v, i);
        return true;
      }
      if rehashidx == NO_REHASH { return false; }
      b := Index(k, ht1.table.Length);
      node, prev, i := ht1.Walk(b, k);
      if node == null { return false; }
      ht1.Assign(b, node, v, i);
      return true;
    }

    /** dictFetchValue */
    method FetchValue(k: Key) returns (val: Option<V>)
      requires Valid() && Fetch(Model()).Some?
      modifies Repr()
      ensures Valid() && Fetch(old(Model())) == Some(Model()) && val == DictSpec.Find(Model(), k)
      ensures fresh(Repr() - old(Repr()))
    {
      hide DictSpec.Valid, DictHT.Linked, DictSpec.RehashStep, DictSpec.Find;
      if rehashidx != NO_REHASH { RehashStep(); }
      var node := Find(k);
      return if node == null then None else Some(node.val);
    }

    /** The resize check and rehash step at the start of dictDelete. */
    method StepFirst()
      requires Valid() && StepIfRehashing(DictSpec.ExpandIfNeed(Model())).Some?
      modifies Repr()
      ensures Valid() && StepIfRehashing(DictSpec.ExpandIfNeed(old(Model()))) == Some(Model())
      ensures ht0.m.buckets != [] && fresh(Repr() - old(Repr()))
    {
      hide DictSpec.Valid, DictHT.Linked, DictSpec.RehashStep, DictSpec.ExpandIfNeed, Movable;
      DeleteHasBuckets(Model());
      ExpandIfNeed();
      if rehashidx != NO_REHASH { RehashStep(); }
    }

    /** dictDelete. The dictionary must not be stuck. */
    method Delete(k: Key) returns (ok: bool)
      requires Valid() && DictSpec.Delete(Model(), k).Did?
      modifies Repr()
      ensures Valid() && DictSpec.Delete(old(Model()), k) == Did(Model(), ok) && fresh(Repr() - old(Repr()))
    {
      hide DictSpec.Valid, DictHT.Linked, StepIfRehashing, DictSpec.ExpandIfNeed, DictSpec.Unlink;
      NotStuckAfterStep(Model(), k);
      StepFirst();
      ok := UnlinkKey(k);
    }

    /** The search and unlinking loops of dictDelete. */
    method UnlinkKey(k: Key) returns (ok: bool)
      requires Valid() && ht0.m.buckets != [] && !Stuck(Model())
      modifies ht0, ht1, ht0.table, ht1.table, ht0.repr, ht1.repr
      ensures Valid() && DictSpec.Unlink(old(Model()), k) == Did(Model(), ok) && Repr() <= old(Repr())
    {
      hide DictHT.Linked, TableOk, Bucket, FindIn, Remove;
      UnlinkOk(Model(), k);
      LinkedLengths(ht0);
      LinkedLengths(ht1);
      HomePow2(Model());
      var b := Index(k, ht0.table.Length);
      var node, prev, i := ht0.Walk(b, k);
      if node != null {
        ht0.Unlink(b, node, prev, i);
        return true;
      }
      if rehashidx == NO_REHASH { return false; }
      b := Index(k, ht1.table.Length);
      node, prev, i := ht1.Walk(b, k);
      if node == null { return false; }
      ht1.Unlink(b, node, prev, i);
      return true;
    }

    /** dictSize */
    method Size() returns (n: int)
      requires Valid()
      ensures n == Model().ht0.used + Model().ht1.used
    {
      hide DictHT.Linked, TableOk;
      LinkedLengths(ht0);
      LinkedLengths(ht1);
      return ht0.used + ht1.used;
    }
  }

  lemma PutDuringRehash<V>(x: DictSpec.Dict<V>, e: Entry<V>)
    requires DictSpec.Valid(x) && x.Rehashing() && !Stuck(x) && Lookup(x, e.key).None?
    ensures var y := x.(ht1 := Put(x.ht1, Home(x.ht1, x.hash, e.key), e));
            DictSpec.Valid(y) && Movable(y)
  {
    hide TableOk, Bucket;
    PutOk(x.ht1, x.hash, e);
    MovableIff(x.(ht1 := Put(x.ht1, Home(x.ht1, x.hash, e.key), e)));
  }

  /** After the resize check the key is still absent, ht[0] has buckets, and an add is not stuck. */
  lemma AddFacts<V>(d: DictSpec.Dict<V>, e: Entry<V>)
    requires DictSpec.Valid(d) && Lookup(d, e.key).None? && AddEntry(d, e).Some?
    ensures var x := DictSpec.ExpandIfNeed(d);
            !Stuck(x) && Lookup(x, e.key).None? && (!x.Rehashing() ==> x.ht0.buckets != [])
  {
    hide TableOk, Bucket, DictSpec.ExpandIfNeed;
    AddNotStuck(d, e);
    ExpandIfNeedOk(d);
  }

  lemma AddNotStuck<V>(d: DictSpec.Dict<V>, e: Entry<V>)
    requires DictSpec.Valid(d) && Lookup(d, e.key).None? && AddEntry(d, e).Some?
    ensures !Stuck(DictSpec.ExpandIfNeed(d))
  {
    hide TableOk, Bucket, DictSpec.ExpandIfNeed;
    ExpandIfNeedOk(d);
    var x := DictSpec.ExpandIfNeed(d);
    if x.Rehashing() {
      PutOk(x.ht1, x.hash, e);
      MovableIff(x.(ht1 := Put(x.ht1, Home(x.ht1, x.hash, e.key), e)));
    }
  }

  lemma NotStuckAfterStep<V>(d: DictSpec.Dict<V>, k: Key)
    requires DictSpec.Valid(d)
    ensures var s := StepIfRehashing(DictSpec.ExpandIfNeed(d));
            s.Some? ==> !Stuck(s.value)
  {
    hide TableOk, Bucket, DictSpec.ExpandIfNeed;
    ExpandIfNeedOk(d);
    FetchOk(DictSpec.ExpandIfNeed(d), k);
  }

  lemma DeleteHasBuckets<V>(d: DictSpec.Dict<V>)
    requires DictSpec.Valid(d) && StepIfRehashing(DictSpec.ExpandIfNeed(d)).Some?
    ensures StepIfRehashing(DictSpec.ExpandIfNeed(d)).value.ht0.buckets != []
  {
    hide TableOk, Bucket, DictSpec.ExpandIfNeed;
    ExpandIfNeedOk(d);
  }

  lemma LinkedLengths<V>(t: DictHT<V>)
    requires t.Linked()
    ensures t.table.Length == |t.nodes| == |t.m.buckets| && t.used == t.m.used
  {
  }
}
