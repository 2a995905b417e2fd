/** Iteration over a dictionary, and exactly when it reaches every entry. */
module DictIteration {
  import opened Wrappers
  import opened DictSpec

  /** dictIterator: table number, bucket index, and the rest of the chain that its entry
      pointer stands for. */
  datatype Iter<V> = Iter(htidx: nat, index: int, rest: Chain<V>)

  /** dictGetIterator */
  function Start<V>(): Iter<V> { Iter(0, -1, []) }

  function TableAt<V>(d: Dict<V>, htidx: nat): Table<V> { if htidx == 0 then d.ht0 else d.ht1 }

  predicate IterOk<V>(d: Dict<V>, it: Iter<V>) {
    it.htidx < 2 ==>
      && -1 <= it.index && (it.index <= 0 || it.index < |TableAt(d, it.htidx).buckets|)
      && (it.htidx == 0 && d.ht0.used == 0 ==> it.index == -1)
  }

  /** dictIterNext. On leaving ht[0] the index is set to 0 and incremented before use. */
  function IterNext<V>(d: Dict<V>, it: Iter<V>): (r: (Iter<V>, Option<Entry<V>>))
    requires Valid(d) && IterOk(d, it)
    ensures IterOk(d, r.0)
    decreases 2 - it.htidx
  {
    if it.htidx >= 2 then (it, None)
    else
      var t := TableAt(d, it.htidx);
      if t.used == 0 then IterNext(d, it.(htidx := it.htidx + 1))
      else if it.rest != [] then (it.(rest := it.rest[1..]), Some(it.rest[0]))
      else
        BucketsIfUsed(d, it.htidx);
        var j := FirstFull(t.buckets, it.index + 1);
        if j == |t.buckets| then IterNext(d, Iter(it.htidx + 1, 0, []))
        else (Iter(it.htidx, j, t.buckets[j][1..]), Some(t.buckets[j][0]))
  }

  lemma BucketsIfUsed<V>(d: Dict<V>, htidx: nat)
    requires Valid(d) && TableAt(d, htidx).used != 0
    ensures |TableAt(d, htidx).buckets| > 0
  {
  }

  function Flatten<V>(buckets: seq<Chain<V>>): seq<Entry<V>>
  {
    if buckets == [] then [] else buckets[0] + Flatten(buckets[1..])
  }

  /** The entries still to come. */
  function Remaining<V>(d: Dict<V>, it: Iter<V>): seq<Entry<V>>
    requires Valid(d) && IterOk(d, it)
    decreases 2 - it.htidx
  {
    if it.htidx >= 2 then []
    else
      var t := TableAt(d, it.htidx);
      if t.used == 0 then Remaining(d, it.(htidx := it.htidx + 1))
      else
        BucketsIfUsed(d, it.htidx);
        it.rest + Flatten(t.buckets[it.index + 1..]) + Remaining(d, Iter(it.htidx + 1, 0, []))
  }

  lemma {:induction false} FlattenSkip<V>(buckets: seq<Chain<V>>, i: nat, j: nat)
    requires i <= j <= |buckets| && forall b :: i <= b < j ==> buckets[b] == []
    ensures Flatten(buckets[i..]) == Flatten(buckets[j..])
    decreases j - i
  {
    if i < j {
      FlattenSkip(buckets, i + 1, j);
      assert buckets[i..][0] == [] && buckets[i..][1..] == buckets[i + 1..];
      assert [] + Flatten(buckets[i + 1..]) == Flatten(buckets[i + 1..]);
    }
  }

  /** One call yields the first of the remaining entries, or none when none remains. */
  lemma {:induction false} IterNextTakes<V>(d: Dict<V>, it: Iter<V>)
    requires Valid(d) && IterOk(d, it)
    ensures match IterNext(d, it).1
            case None => Remaining(d, it) == []
            case Some(e) => Remaining(d, it) == [e] + Remaining(d, IterNext(d, it).0)
    decreases 2 - it.htidx
  {
    hide Valid, Flatten, FirstFull;
    if it.htidx < 2 {
      var t := TableAt(d, it.htidx);
      var after := Remaining(d, Iter(it.htidx + 1, 0, []));
      if t.used == 0 {
        IterNextTakes(d, it.(htidx := it.htidx + 1));
      } else if it.rest != [] {
        BucketsIfUsed(d, it.htidx);
        assert it.rest == [it.rest[0]] + it.rest[1..];
        Regroup(it.rest[0], it.rest[1..], Flatten(t.buckets[it.index + 1..]), after);
      } else {
        BucketsIfUsed(d, it.htidx);
        var j := FirstFull(t.buckets, it.index + 1);
        FlattenSkip(t.buckets, it.index + 1, j);
        if j == |t.buckets| {
          assert t.buckets[j..] == [] && [] + Flatten(t.buckets[j..]) + after == after by { FlattenNil<V>(); }
          IterNextTakes(d, Iter(it.htidx + 1, 0, []));
        } else {
          FlattenFirst(t.buckets[j..]);
          assert t.buckets[j..][1..] == t.buckets[j + 1..];
          Regroup(t.buckets[j][0], t.buckets[j][1..], Flatten(t.buckets[j + 1..]), after);
        }
      }
    }
  }

  lemma FlattenNil<V>()
    ensures Flatten<V>([]) == []
  {
  }

  lemma FlattenFirst<V>(buckets: seq<Chain<V>>)
    requires buckets != [] && buckets[0] != []
    ensures [] + Flatten(buckets) == ([buckets[0][0]] + buckets[0][1..]) + Flatten(buckets[1..])
  {
    assert buckets[0] == [buckets[0][0]] + buckets[0][1..];
  }

  lemma Regroup<V>(e: Entry<V>, a: seq<Entry<V>>, b: seq<Entry<V>>, c: seq<Entry<V>>)
    ensures ([e] + a) + b + c == [e] + (a + b + c)
  {
  }

  /** What repeated calls yield until the first None. */
  function Yield<V>(d: Dict<V>, it: Iter<V>): seq<Entry<V>>
    requires Valid(d) && IterOk(d, it)
    decreases |Remaining(d, it)|
  {
    IterNextTakes(d, it);
    match IterNext(d, it).1
    case None => []
    case Some(e) => [e] + Yield(d, IterNext(d, it).0)
  }

  lemma {:induction false} YieldsRemaining<V>(d: Dict<V>, it: Iter<V>)
    requires Valid(d) && IterOk(d, it)
    ensures Yield(d, it) == Remaining(d, it)
    decreases |Remaining(d, it)|
  {
    hide IterNext, Remaining, Valid;
    IterNextTakes(d, it);
    if IterNext(d, it).1.Some? { YieldsRemaining(d, IterNext(d, it).0); }
  }

  // ---------- Completeness ----------

  lemma {:induction false} FlattenLength<V>(buckets: seq<Chain<V>>)
    ensures |Flatten(buckets)| == Count(buckets)
  {
    if buckets != [] { FlattenLength(buckets[1..]); }
  }

  lemma {:induction false} FlattenMember<V>(buckets: seq<Chain<V>>, e: Entry<V>)
    ensures e in Flatten(buckets) <==> exists b :: 0 <= b < |buckets| && e in buckets[b]
  {
    if buckets != [] {
      FlattenMember(buckets[1..], e);
      if e in Flatten(buckets[1..]) {
        var b :| 0 <= b < |buckets| - 1 && e in buckets[1..][b];
        assert e in buckets[b + 1];
      }
      if b :| 0 < b < |buckets| && e in buckets[b] { assert e in buckets[1..][b - 1]; }
    }
  }

  /** A table's flattened entries are what it holds. */
  lemma FlattenHolds<V>(t: Table<V>, hash: Key -> nat, k: Key, v: V)
    requires TableOk(t, hash)
    ensures Entry(k, v) in Flatten(t.buckets) <==> At(t, hash, k) == Some(v)
  {
    hide Count, Bucket;
    FlattenMember(t.buckets, Entry(k, v));
    if b :| 0 <= b < |t.buckets| && Entry(k, v) in t.buckets[b] {
      var i :| 0 <= i < |t.buckets[b]| && t.buckets[b][i] == Entry(k, v);
      FindInIs(t.buckets[b], k, i);
    }
  }

  /** The first bucket of ht[1] is passed over when iteration comes to it from ht[0]. */
  predicate SkipsBucket<V>(d: Dict<V>) {
    d.ht0.used != 0 && d.ht1.used != 0 && d.ht1.buckets != [] && d.ht1.buckets[0] != []
  }

  /** The sequence lists every entry of the dictionary exactly once. */
  ghost predicate Complete<V(!new)>(d: Dict<V>, entries: seq<Entry<V>>) {
    && |entries| == d.ht0.used + d.ht1.used
    && forall k, v :: Entry(k, v) in entries <==> Lookup(d, k) == Some(v)
  }

  lemma RemainingSecond<V>(d: Dict<V>, index: int)
    requires Valid(d) && -1 <= index <= 0
    ensures d.ht1.used == 0 ==> Remaining(d, Iter(1, index, [])) == []
    ensures d.ht1.used != 0 ==>
              index + 1 <= |d.ht1.buckets| && Remaining(d, Iter(1, index, [])) == Flatten(d.ht1.buckets[index + 1..])
  {
    hide Flatten, TableOk, Valid;
    assert Remaining(d, Iter(2, 0, [])) == [];
    if d.ht1.used != 0 {
      BucketsIfUsed(d, 1);
      var f := Flatten(d.ht1.buckets[index + 1..]);
      assert [] + f + [] == f;
    }
  }

  lemma YieldIs<V>(d: Dict<V>)
    requires Valid(d)
    ensures d.ht0.used != 0 && d.ht1.used != 0 ==> d.ht1.buckets != []
    ensures Yield(d, Start()) ==
            if d.ht0.used == 0 then (if d.ht1.used == 0 then [] else Flatten(d.ht1.buckets))
            else Flatten(d.ht0.buckets) + if d.ht1.used == 0 then [] else Flatten(d.ht1.buckets[1..])
  {
    hide Flatten, TableOk, Yield, IterNext, Valid;
    YieldsRemaining(d, Start());
    RemainingSecond(d, 0);
    RemainingSecond(d, -1);
    var b0, b1 := d.ht0.buckets, d.ht1.buckets;
    assert b0[0..] == b0 && b1[0..] == b1;
    if d.ht0.used != 0 { BucketsIfUsed(d, 0); }
    var f := Flatten(b0);
    assert [] + f == f;
  }

  /** Iterating an unchanged table ends and yields every entry exactly once, across buckets,
      chains and both tables, if and only if ht[0] is empty or bucket 0 of ht[1] is. */
  lemma IterationComplete<V(!new)>(d: Dict<V>)
    requires Valid(d)
    ensures Complete(d, Yield(d, Start())) <==> !SkipsBucket(d)
  {
    hide Flatten, Yield, Count, TableOk, At, IterNext;
    var b0, b1 := d.ht0.buckets, d.ht1.buckets;
    YieldIs(d);
    Lengths(d);
    if SkipsBucket(d) {
      FlattenSplit(b1);
    } else {
      if d.ht0.used != 0 && d.ht1.used != 0 {
        FlattenSkip(b1, 0, 1);
        assert b1[0..] == b1;
      }
      forall k, v ensures Entry(k, v) in Yield(d, Start()) <==> Lookup(d, k) == Some(v) {
        FlattenHolds(d.ht0, d.hash, k, v);
        FlattenHolds(d.ht1, d.hash, k, v);
        assert At(d.ht0, d.hash, k).None? || At(d.ht1, d.hash, k).None?;
      }
    }
  }

  lemma Lengths<V>(d: Dict<V>)
    requires Valid(d)
    ensures |Flatten(d.ht0.buckets)| == d.ht0.used && |Flatten(d.ht1.buckets)| == d.ht1.used
  {
    FlattenLength(d.ht0.buckets);
    FlattenLength(d.ht1.buckets);
  }

  lemma FlattenSplit<V>(buckets: seq<Chain<V>>)
    requires buckets != []
    ensures |Flatten(buckets)| == |buckets[0]| + |Flatten(buckets[1..])|
  {
  }

  /** Whatever is yielded is held, even when a bucket is passed over. */
  lemma YieldHeld<V>(d: Dict<V>, e: Entry<V>)
    requires Valid(d) && e in Yield(d, Start())
    ensures Lookup(d, e.key) == Some(e.val)
  {
    hide Yield, Count, TableOk, At, IterNext, Flatten;
    YieldIs(d);
    FlattenHolds(d.ht0, d.hash, e.key, e.val);
    FlattenHolds(d.ht1, d.hash, e.key, e.val);
    if d.ht1.buckets != [] { FlattenTail(d.ht1.buckets, e); }
    assert At(d.ht0, d.hash, e.key).None? || At(d.ht1, d.hash, e.key).None?;
  }

  lemma FlattenTail<V>(buckets: seq<Chain<V>>, e: Entry<V>)
    requires buckets != []
    ensures e in Flatten(buckets[1..]) ==> e in Flatten(buckets)
  {
  }

  /** The key of the first entry of a bucket that is passed over is never yielded. */
  lemma SkippedMissing<V>(d: Dict<V>, k: Key)
    requires Valid(d) && SkipsBucket(d) && k == d.ht1.buckets[0][0].key
    ensures Lookup(d, k).Some? && forall e :: e in Yield(d, Start()) ==> e.key != k
  {
    hide Yield, Count, At, IterNext, Flatten, Bucket;
    YieldIs(d);
    var b1 := d.ht1.buckets;
    var x := b1[0][0];
    FlattenMember(b1, x);
    FlattenHolds(d.ht1, d.hash, k, x.val);
    assert At(d.ht0, d.hash, k).None? || At(d.ht1, d.hash, k).None?;
    forall e | e in Yield(d, Start()) ensures e.key != k {
      FlattenHolds(d.ht0, d.hash, e.key, e.val);
      if e in Flatten(b1[1..]) {
        FlattenMember(b1[1..], e);
        var b :| 0 <= b < |b1[1..]| && e in b1[1..][b];
        var i :| 0 <= i < |b1[b + 1]| && b1[b + 1][i] == e;
        assert Home(d.ht1, d.hash, e.key) == b + 1 && Home(d.ht1, d.hash, k) == 0;
      }
    }
  }
}
