/** How a rehash runs to its end while calls keep coming, and what becomes of the load bound. */
module DictRehash {
  import opened Bits
  import opened DictSpec
  import opened DictLaws
  import opened DictRuns
  import DictIteration

  /** Dictionary e is d after one entry has moved to ht[1] and `added` more were put there. */
  predicate Moved<V>(d: Dict<V>, e: Dict<V>, added: nat) {
    if d.ht0.used == 1 then
      !e.Rehashing() && e.ht0.used == d.ht1.used + 1 + added && |e.ht0.buckets| == |d.ht1.buckets|
    else
      && e.Rehashing() && e.ht0.used == d.ht0.used - 1
      && e.ht1.used == d.ht1.used + 1 + added && |e.ht1.buckets| == |d.ht1.buckets|
  }

  lemma StepMoves<V>(d: Dict<V>)
    requires Valid(d) && d.Rehashing() && !Stuck(d)
    ensures Movable(d) && Moved(d, RehashStep(d), 0)
  {
    hide Count, TableOk, At, Bucket, FirstFull;
    MovableIff(d);
  }

  /** No entry moves, and no size and no count changes. */
  predicate Still<V>(d: Dict<V>, e: Dict<V>) {
    && e.Rehashing() == d.Rehashing() && e.ht0.used == d.ht0.used && e.ht1.used == d.ht1.used
    && |e.ht0.buckets| == |d.ht0.buckets| && |e.ht1.buckets| == |d.ht1.buckets|
  }

  predicate Adds<V>(d: Dict<V>, op: Op<V>) { op.AddOp? && NeedsStep(d, op) }

  /** During a rehash each call that needs a step moves one entry, and the others none. */
  lemma OpMoves<V>(d: Dict<V>, op: Op<V>)
    requires Valid(d) && d.Rehashing() && !Stuck(d) && !IsDelete(op)
    ensures DictOp(d, op).Some?
    ensures var e := DictOp(d, op).value.0;
            if NeedsStep(d, op) then Moved(d, e, if Adds(d, op) then 1 else 0) else Still(d, e)
  {
    hide Valid, Lookup, TableOk, At, RehashStep, Find, Bucket;
    OpUnstuck(d, op);
    match op
    case AddOp(k, v) =>
      if Find(d, k).None? { AddMoves(d, k, v); }
    case ReplaceOp(k, v) => ReplaceOk(d, k, v);
    case FetchOp(_) => StepMoves(d);
    case FindOp(_) =>
  }

  lemma AddMoves<V>(d: Dict<V>, k: Key, v: V)
    requires Valid(d) && d.Rehashing() && !Stuck(d) && Find(d, k).None? && Add(d, k, v).Did?
    ensures Moved(d, Add(d, k, v).d, 1)
  {
    hide RehashStep, TableOk, Bucket;
    FindIsLookup(d, k);
    PutOk(d.ht1, d.hash, Entry(k, v));
    var y := d.(ht1 := Put(d.ht1, Home(d.ht1, d.hash, k), Entry(k, v)));
    assert Valid(y);
    StepMoves(y);
  }

  lemma StillOp<V>(d: Dict<V>, op: Op<V>)
    requires Valid(d) && !IsDelete(op) && !NeedsStep(d, op)
    ensures DictOp(d, op).Some? && Still(d, DictOp(d, op).value.0)
  {
    hide Valid, TableOk, Find;
    if op.ReplaceOp? { ReplaceOk(d, op.k, op.v); }
  }

  /** How many calls of a run need a step. */
  function Ticks<V>(d: Dict<V>, ops: seq<Op<V>>): nat
    requires Valid(d)
    decreases |ops|
  {
    if ops == [] then 0
    else match DictOp(d, ops[0])
      case None => 0
      case Some((e, _)) =>
        OpValid(d, ops[0]);
        (if NeedsStep(d, ops[0]) then 1 else 0) + Ticks(e, ops[1..])
  }

  /** How many calls of a run add a key. */
  function Added<V>(d: Dict<V>, ops: seq<Op<V>>): nat
    requires Valid(d)
    decreases |ops|
  {
    if ops == [] then 0
    else match DictOp(d, ops[0])
      case None => 0
      case Some((e, _)) =>
        OpValid(d, ops[0]);
        (if Adds(d, ops[0]) then 1 else 0) + Added(e, ops[1..])
  }

  /** A rehash ends with the call that makes as many steps as ht[0] had entries, whatever the
      calls are, adds and fetches in any order; then the one table left has the size of ht[1]
      and the entries of both, with those added meanwhile. */
  lemma {:induction false} RehashEnds<V>(d: Dict<V>, ops: seq<Op<V>>)
    requires Valid(d) && d.Rehashing() && !Stuck(d) && Ticks(d, ops) <= d.ht0.used
    requires forall i :: 0 <= i < |ops| ==> !IsDelete(ops[i])
    ensures DictRun(d, ops).Some?
    ensures var e, n := DictRun(d, ops).value.0, Ticks(d, ops);
            if n == d.ht0.used then
              !e.Rehashing() && e.ht0.used == d.ht1.used + n + Added(d, ops) && |e.ht0.buckets| == |d.ht1.buckets|
            else
              && e.Rehashing() && e.ht0.used == d.ht0.used - n
              && e.ht1.used == d.ht1.used + n + Added(d, ops) && |e.ht1.buckets| == |d.ht1.buckets|
    decreases |ops|
  {
    hide DictOp, Valid, NeedsStep, IsDelete;
    if ops != [] {
      OpMoves(d, ops[0]);
      OpUnstuck(d, ops[0]);
      var e := DictOp(d, ops[0]).value.0;
      if e.Rehashing() { RehashEnds(e, ops[1..]); } else { NoMoreTicks(e, ops[1..]); }
    }
  }

  lemma {:induction false} NoMoreTicks<V>(d: Dict<V>, ops: seq<Op<V>>)
    requires Valid(d) && !d.Rehashing() && Ticks(d, ops) == 0
    requires forall i :: 0 <= i < |ops| ==> !IsDelete(ops[i])
    ensures DictRun(d, ops).Some? && Still(d, DictRun(d, ops).value.0) && Added(d, ops) == 0
    decreases |ops|
  {
    hide DictOp, Valid, NeedsStep, IsDelete;
    if ops != [] {
      OpUnstuck(d, ops[0]);
      StillOp(d, ops[0]);
      NoMoreTicks(DictOp(d, ops[0]).value.0, ops[1..]);
    }
  }

  // ---------- Adds alone ----------

  function AddOps<V>(es: seq<Entry<V>>): seq<Op<V>> {
    seq(|es|, i requires 0 <= i < |es| => AddOp(es[i].key, es[i].val))
  }

  /** Distinct keys that the dictionary does not hold. */
  predicate NewKeys<V>(d: Dict<V>, es: seq<Entry<V>>) {
    DistinctKeys(es) && forall i :: 0 <= i < |es| ==> Lookup(d, es[i].key).None?
  }

  lemma {:induction false} AddsTick<V>(d: Dict<V>, es: seq<Entry<V>>)
    requires Valid(d) && !Stuck(d) && NewKeys(d, es)
    ensures Ticks(d, AddOps(es)) == |es| && Added(d, AddOps(es)) == |es|
    decreases |es|
  {
    hide Valid, Lookup, Add, Find;
    if es != [] {
      var op := AddOp(es[0].key, es[0].val);
      FindIsLookup(d, es[0].key);
      AddOk(d, es[0].key, es[0].val);
      assert AddOps(es)[0] == op && AddOps(es)[1..] == AddOps(es[1..]);
      OpUnstuck(d, op);
      AddsTick(DictOp(d, op).value.0, es[1..]);
    }
  }

  /** As many adds as ht[0] has entries end the rehash; the load bound then holds if and only if
      it held, in its rehashing form, at the start. */
  lemma AddsEnd<V>(d: Dict<V>, es: seq<Entry<V>>)
    requires Valid(d) && d.Rehashing() && !Stuck(d) && NewKeys(d, es) && |es| == d.ht0.used
    ensures DictRun(d, AddOps(es)).Some?
    ensures var e := DictRun(d, AddOps(es)).value.0;
            && !e.Rehashing() && e.ht0.used == d.ht1.used + 2 * d.ht0.used
            && (e.ht0.used <= |e.ht0.buckets| <==> LoadOk(d))
  {
    hide Valid, NewKeys, DictRun, Ticks, Added;
    AddsTick(d, es);
    RehashEnds(d, AddOps(es));
  }

  /** Every shrink that starts within the load bound can break it: when as many adds follow as
      there are entries, the rehash ends with more entries than buckets. */
  lemma ShrinkOverloads<V>(d: Dict<V>, es: seq<Entry<V>>)
    requires Valid(d) && LoadOk(d) && WantsShrink(d) && NewKeys(d, es) && |es| == d.ht0.used
    ensures DictRun(d, AddOps(es)).Some?
    ensures var e := DictRun(d, AddOps(es)).value.0; !e.Rehashing() && e.ht0.used > |e.ht0.buckets|
  {
    hide Valid, Lookup, DictRun, LoadOk, TableOk;
    var x := ExpandIfNeed(d);
    ExpandIfNeedOk(d);
    ExpandLoad(d);
    ShrinkStarts(d);
    assert NewKeys(x, es);
    AddsEnd(x, es);
    FirstAdd(d, es);
  }

  lemma ShrinkStarts<V>(d: Dict<V>)
    requires Valid(d) && WantsShrink(d)
    ensures var x := ExpandIfNeed(d); x.Rehashing() && x.ht0.used == d.ht0.used > 0
  {
    hide TableOk, At;
    assert NextPow(0) == 1;
  }

  /** The first add makes the resize check, so a run of adds starts as well after it. */
  lemma FirstAdd<V>(d: Dict<V>, es: seq<Entry<V>>)
    requires Valid(d) && Valid(ExpandIfNeed(d)) && es != [] && NewKeys(d, es) && ExpandIfNeed(d).Rehashing()
    ensures DictRun(d, AddOps(es)) == DictRun(ExpandIfNeed(d), AddOps(es))
  {
    hide Valid, Lookup, Find, RehashStep;
    var x, k := ExpandIfNeed(d), es[0].key;
    ExpandIfNeedOk(d);
    FindIsLookup(d, k);
    FindIsLookup(x, k);
    assert Lookup(d, k).None? && ExpandIfNeed(x) == x;
    assert Add(d, k, es[0].val) == Add(x, k, es[0].val);
    assert AddOps(es)[0] == AddOp(k, es[0].val);
  }

  /** A dictionary in the middle of a rehash, one add after its table was full, whose iterator
      passes over a bucket. */
  lemma SkipReached()
    ensures Valid(FullDict()) && Add(FullDict(), "aaaa", 0) == Did(GrownDict(), true)
    ensures DictIteration.SkipsBucket(GrownDict())
  {
    FullToGrown();
  }
}
