/** Whole runs of dictionary operations against a plain map, resize bounds, and iteration. */
module DictRuns {
  import opened Wrappers
  import opened Bits
  import opened DictSpec
  import opened DictLaws

  // ---------- Runs against a plain map ----------

  datatype Op<V> = AddOp(k: Key, v: V) | ReplaceOp(k: Key, v: V) | FetchOp(k: Key) | FindOp(k: Key) | DeleteOp(k: Key)

  datatype Answer<V> = Success(ok: bool) | Value(val: Option<V>)

  predicate IsDelete<V>(op: Op<V>) { op.DeleteOp? }

  /** One call; None when it crashes. */
  function DictOp<V>(d: Dict<V>, op: Op<V>): Option<(Dict<V>, Answer<V>)>
    requires Valid(d)
  {
    match op
    case AddOp(k, v) => (match Add(d, k, v) case Did(e, ok) => Some((e, Success(ok))) case Crash => None)
    case ReplaceOp(k, v) => (match Replace(d, k, v) case Did(e, ok) => Some((e, Success(ok))) case Crash => None)
    case FetchOp(k) => (match Fetch(d) case Some(e) => Some((e, Value(Find(e, k)))) case None => None)
    case FindOp(k) => Some((d, Value(Find(d, k))))
    case DeleteOp(k) => (match Delete(d, k) case Did(e, ok) => Some((e, Success(ok))) case Crash => None)
  }

  function Get<V>(m: map<Key, V>, k: Key): Option<V> { if k in m then Some(m[k]) else None }

  /** The same call on a plain finite map. */
  function MapOp<V>(m: map<Key, V>, op: Op<V>): (map<Key, V>, Answer<V>) {
    match op
    case AddOp(k, v) => if k in m then (m, Success(false)) else (m[k := v], Success(true))
    case ReplaceOp(k, v) => if k in m then (m[k := v], Success(true)) else (m, Success(false))
    case FetchOp(k) => (m, Value(Get(m, k)))
    case FindOp(k) => (m, Value(Get(m, k)))
    case DeleteOp(k) => (m - {k}, Success(k in m))
  }

  /** Both tables together hold exactly the map, one entry a key. */
  ghost predicate Represents<V>(d: Dict<V>, m: map<Key, V>) {
    Valid(d) && (forall k :: Get(m, k) == Lookup(d, k)) && |m| == d.ht0.used + d.ht1.used
  }

  /** Whether the call takes a rehash step when a rehash is on. */
  predicate NeedsStep<V>(d: Dict<V>, op: Op<V>) {
    match op
    case AddOp(k, _) => Find(d, k).None?
    case FetchOp(_) => true
    case DeleteOp(_) => true
    case _ => false
  }

  lemma RemoveSize<V>(m: map<Key, V>, k: Key)
    ensures |m - {k}| == |m| - if k in m then 1 else 0
  {
    if k in m {
      assert (m - {k}).Keys == m.Keys - {k};
      assert |m.Keys| == |m.Keys - {k}| + 1;
    } else {
      assert m - {k} == m;
    }
  }

  lemma SetRepresents<V>(d: Dict<V>, e: Dict<V>, m: map<Key, V>, k: Key, v: V)
    requires Represents(d, m) && Valid(e) && Updated(d, e, k, Some(v))
    requires e.ht0.used + e.ht1.used == d.ht0.used + d.ht1.used + if k in m then 0 else 1
    ensures Represents(e, m[k := v])
  {
    hide Valid, Lookup;
    if k in m { assert m[k := v].Keys == m.Keys; }
  }

  lemma RemoveRepresents<V>(d: Dict<V>, e: Dict<V>, m: map<Key, V>, k: Key)
    requires Represents(d, m) && Valid(e) && Updated(d, e, k, None) && k in m
    requires e.ht0.used + e.ht1.used == d.ht0.used + d.ht1.used - 1
    ensures Represents(e, m - {k})
  {
    hide Valid, Lookup;
    RemoveSize(m, k);
  }

  lemma SameRepresents<V>(d: Dict<V>, e: Dict<V>, m: map<Key, V>)
    requires Represents(d, m) && Valid(e) && SameMap(d, e)
    ensures Represents(e, m)
  {
    hide Valid, Lookup;
  }

  /** Each call answers as the map does and again represents the map's result; it crashes
      exactly when the dictionary is stuck and the call needs a rehash step. */
  lemma OpRefines<V>(d: Dict<V>, m: map<Key, V>, op: Op<V>)
    requires Represents(d, m)
    ensures DictOp(d, op).None? <==> Stuck(d) && NeedsStep(d, op)
    ensures DictOp(d, op).Some? ==>
              DictOp(d, op).value.1 == MapOp(m, op).1 && Represents(DictOp(d, op).value.0, MapOp(m, op).0)
  {
    hide Valid, Lookup, Add, Replace, Fetch, Delete, Find, Updated, SameMap, Stuck;
    assert Get(m, op.k) == Lookup(d, op.k);
    FindIsLookup(d, op.k);
    match op
    case AddOp(k, v) =>
      AddOk(d, k, v);
      if Add(d, k, v).Did? && k !in m { SetRepresents(d, Add(d, k, v).d, m, k, v); }
    case ReplaceOp(k, v) =>
      ReplaceOk(d, k, v);
      if k in m { SetRepresents(d, Replace(d, k, v).d, m, k, v); }
    case FetchOp(k) =>
      FetchOk(d, k);
      if Fetch(d).Some? { SameRepresents(d, Fetch(d).value, m); }
    case FindOp(k) =>
    case DeleteOp(k) =>
      DeleteOk(d, k);
      if Delete(d, k).Did? {
        if k in m {
          RemoveRepresents(d, Delete(d, k).d, m, k);
        } else {
          assert m - {k} == m;
          SameRepresents(d, Delete(d, k).d, m);
        }
      }
  }

  function DictRun<V>(d: Dict<V>, ops: seq<Op<V>>): Option<(Dict<V>, seq<Answer<V>>)>
    requires Valid(d)
    decreases |ops|
  {
    if ops == [] then Some((d, []))
    else match DictOp(d, ops[0])
      case None => None
      case Some((e, a)) =>
        OpValid(d, ops[0]);
        match DictRun(e, ops[1..])
        case None => None
        case Some((f, more)) => Some((f, [a] + more))
  }

  lemma OpValid<V>(d: Dict<V>, op: Op<V>)
    requires Valid(d)
    ensures DictOp(d, op).Some? ==> Valid(DictOp(d, op).value.0)
  {
    hide Valid, Lookup, Add, Replace, Fetch, Delete, Find;
    match op
    case AddOp(k, v) => AddOk(d, k, v);
    case ReplaceOp(k, v) => ReplaceOk(d, k, v);
    case FetchOp(k) => FetchOk(d, k);
    case FindOp(k) =>
    case DeleteOp(k) => DeleteOk(d, k);
  }

  function MapRun<V>(m: map<Key, V>, ops: seq<Op<V>>): (map<Key, V>, seq<Answer<V>>)
    decreases |ops|
  {
    if ops == [] then (m, [])
    else
      var (m1, a) := MapOp(m, ops[0]);
      var (m2, more) := MapRun(m1, ops[1..]);
      (m2, [a] + more)
  }

  /** The dictionary refines a map: every run that does not crash gives the map's answers, in
      order, and ends representing the map's contents. */
  lemma {:induction false} RunRefines<V>(d: Dict<V>, m: map<Key, V>, ops: seq<Op<V>>)
    requires Represents(d, m) && DictRun(d, ops).Some?
    ensures var (e, answers) := DictRun(d, ops).value;
            var (n, expected) := MapRun(m, ops);
            answers == expected && Represents(e, n)
    decreases |ops|
  {
    hide DictOp, MapOp, Represents;
    if ops != [] {
      assert Valid(d) by { RepresentsValid(d, m); }
      OpRefines(d, m, ops[0]);
      OpValid(d, ops[0]);
      RunRefines(DictOp(d, ops[0]).value.0, MapOp(m, ops[0]).0, ops[1..]);
    }
  }

  /** Without deletes no call gets stuck, and none crashes. */
  lemma OpUnstuck<V>(d: Dict<V>, op: Op<V>)
    requires Valid(d) && !Stuck(d) && !IsDelete(op)
    ensures DictOp(d, op).Some? && Valid(DictOp(d, op).value.0) && !Stuck(DictOp(d, op).value.0)
  {
    hide Valid, Lookup, Add, Replace, Fetch, Find, Stuck;
    match op
    case AddOp(k, v) => AddOk(d, k, v);
    case ReplaceOp(k, v) => ReplaceOk(d, k, v);
    case FetchOp(k) => FetchOk(d, k);
    case FindOp(k) =>
  }

  lemma {:induction false} RunUnstuck<V>(d: Dict<V>, ops: seq<Op<V>>)
    requires Valid(d) && !Stuck(d) && forall i :: 0 <= i < |ops| ==> !IsDelete(ops[i])
    ensures DictRun(d, ops).Some? && Valid(DictRun(d, ops).value.0) && !Stuck(DictRun(d, ops).value.0)
    decreases |ops|
  {
    hide DictOp, Valid, Stuck, IsDelete;
    if ops != [] {
      OpUnstuck(d, ops[0]);
      RunUnstuck(DictOp(d, ops[0]).value.0, ops[1..]);
    }
  }

  /** From an empty dictionary, every run without deletes is a run of an empty map. */
  lemma RunFromEmpty<V>(hash: Key -> nat, ops: seq<Op<V>>)
    requires forall i :: 0 <= i < |ops| ==> !IsDelete(ops[i])
    ensures Valid(Empty<V>(hash)) && DictRun(Empty(hash), ops).Some?
    ensures var (e, answers) := DictRun(Empty(hash), ops).value;
            var (n, expected) := MapRun(map[], ops);
            answers == expected && Represents(e, n)
  {
    hide DictRun, MapRun;
    EmptyRepresents<V>(hash);
    RunUnstuck(Empty<V>(hash), ops);
    RunRefines(Empty<V>(hash), map[], ops);
  }

  lemma RepresentsValid<V>(d: Dict<V>, m: map<Key, V>)
    requires Represents(d, m)
    ensures Valid(d)
  {
  }

  lemma EmptyRepresents<V>(hash: Key -> nat)
    ensures Represents(Empty<V>(hash), map[])
  {
  }

  // ---------- The stuck state, and its repair ----------

  /** The completion check of the rehash step, run once more. */
  function Complete<V>(d: Dict<V>): Dict<V> {
    if Stuck(d) then Dict(d.hash, d.ht1, NoTable(), NO_REHASH) else d
  }

  /** Run after a delete, the completion check would always prevent the crash. */
  lemma CompleteOk<V>(d: Dict<V>)
    requires Valid(d)
    ensures Valid(Complete(d)) && SameMap(d, Complete(d)) && !Stuck(Complete(d))
  {
    if Stuck(d) { DrainedEmpty(d.ht0, d.hash); }
  }

  /** A call with the completion check run after it. */
  function RepairedOp<V>(d: Dict<V>, op: Op<V>): Option<(Dict<V>, Answer<V>)>
    requires Valid(d)
  {
    match DictOp(d, op)
    case None => None
    case Some((e, a)) => Some((Complete(e), a))
  }

  lemma RepairedOpOk<V>(d: Dict<V>, m: map<Key, V>, op: Op<V>)
    requires Represents(d, m) && !Stuck(d)
    ensures RepairedOp(d, op).Some?
    ensures var (e, a) := RepairedOp(d, op).value;
            Valid(e) && !Stuck(e) && a == MapOp(m, op).1 && Represents(e, MapOp(m, op).0)
  {
    hide DictOp, MapOp, Complete, Lookup;
    OpRefines(d, m, op);
    var e := DictOp(d, op).value.0;
    CompleteOk(e);
    CompleteUsed(e);
  }

  lemma CompleteUsed<V>(d: Dict<V>)
    requires Valid(d)
    ensures Complete(d).ht0.used + Complete(d).ht1.used == d.ht0.used + d.ht1.used
  {
  }

  function RepairedRun<V>(d: Dict<V>, ops: seq<Op<V>>): Option<(Dict<V>, seq<Answer<V>>)>
    requires Valid(d)
    decreases |ops|
  {
    if ops == [] then Some((d, []))
    else match RepairedOp(d, ops[0])
      case None => None
      case Some((e, a)) =>
        OpValid(d, ops[0]);
        CompleteOk(DictOp(d, ops[0]).value.0);
        match RepairedRun(e, ops[1..])
        case None => None
        case Some((f, more)) => Some((f, [a] + more))
  }

  /** With the completion check after each call no run crashes, deletes included, and every run
      answers as the map does. */
  lemma {:induction false} RepairedRefines<V>(d: Dict<V>, m: map<Key, V>, ops: seq<Op<V>>)
    requires Represents(d, m) && !Stuck(d)
    ensures Valid(d) && RepairedRun(d, ops).Some?
    ensures var (e, answers) := RepairedRun(d, ops).value;
            var (n, expected) := MapRun(m, ops);
            answers == expected && Represents(e, n) && !Stuck(e)
    decreases |ops|
  {
    hide RepairedOp, MapOp, Represents, Stuck;
    RepresentsValid(d, m);
    if ops != [] {
      RepairedOpOk(d, m, ops[0]);
      RepairedRefines(RepairedOp(d, ops[0]).value.0, MapOp(m, ops[0]).0, ops[1..]);
    }
  }

  // ---------- Resizing ----------

  /** The load bound: entries never outnumber buckets once a rehash is over. */
  predicate LoadOk<V>(d: Dict<V>) {
    if d.Rehashing() then d.ht1.used + 2 * d.ht0.used <= |d.ht1.buckets| else d.ht0.used <= |d.ht0.buckets|
  }

  /** A resize keeps the load bound if and only if it is not a shrink: a shrink starts with
      more entries than it can take while adds arrive as fast as entries move. */
  lemma ExpandLoad<V>(d: Dict<V>)
    requires Valid(d) && LoadOk(d)
    ensures LoadOk(ExpandIfNeed(d)) <==> !WantsShrink(d)
  {
    hide Count, TableOk, NextPow;
    if !d.Rehashing() {
      assert d.ht0.used >= 0 by { UsedNotNegative(d); }
      NextPowIs(d.ht0.used);
      NextPowIs(d.ht0.used * 2);
    }
  }

  lemma StepLoad<V>(d: Dict<V>)
    requires Valid(d) && d.Rehashing() && !Stuck(d) && LoadOk(d)
    ensures Movable(d) && LoadOk(RehashStep(d))
    ensures |d.ht1.buckets| == if d.ht0.used == 1 then |RehashStep(d).ht0.buckets| else |RehashStep(d).ht1.buckets|
  {
    hide Count, TableOk, At, Bucket;
    MovableIff(d);
  }

  /** Every call that starts no shrink keeps the load bound. */
  lemma OpLoad<V>(d: Dict<V>, op: Op<V>)
    requires Valid(d) && LoadOk(d) && DictOp(d, op).Some?
    requires WantsShrink(d) ==> !NeedsStep(d, op) || op.FetchOp?
    ensures LoadOk(DictOp(d, op).value.0)
  {
    hide Valid, TableOk, At, RehashStep, ExpandIfNeed, Movable, WantsShrink, FirstFull, Bucket, Count;
    ExpandIfNeedOk(d);
    ExpandLoad(d);
    var x := ExpandIfNeed(d);
    match op
    case AddOp(k, v) => if Find(d, k).None? { AddLoad(d, x, k, v); }
    case ReplaceOp(_, _) =>
    case FetchOp(_) =>
      if d.Rehashing() {
        assert Movable(d) && !Stuck(d) by { MovableIff(d); }
        StepLoad(d);
      }
    case FindOp(_) =>
    case DeleteOp(k) =>
      if x.Rehashing() {
        assert Movable(x) && !Stuck(x) by { MovableIff(x); }
        StepLoad(x);
      }
  }

  lemma AddLoad<V>(d: Dict<V>, x: Dict<V>, k: Key, v: V)
    requires Valid(d) && x == ExpandIfNeed(d) && Valid(x) && LoadOk(x) && Find(d, k).None? && Add(d, k, v).Did?
    requires Lookup(x, k) == Lookup(d, k)
    ensures LoadOk(Add(d, k, v).d)
  {
    hide Count, Bucket, RehashStep;
    FindIsLookup(d, k);
    if x.Rehashing() {
      PutOk(x.ht1, x.hash, Entry(k, v));
      var y := x.(ht1 := Put(x.ht1, Home(x.ht1, x.hash, k), Entry(k, v)));
      PutLoad(y);
    } else {
      RoomAfterExpand(d);
    }
  }

  /** One entry over the bound, then one moved: back within the bound. */
  lemma PutLoad<V>(y: Dict<V>)
    requires y.Rehashing() && Movable(y) && y.ht1.used - 1 + 2 * y.ht0.used <= |y.ht1.buckets|
    ensures LoadOk(RehashStep(y))
  {
    hide FirstFull, Bucket;
  }

  /** When no rehash is on after the resize check, there is room for one more entry. */
  lemma RoomAfterExpand<V>(d: Dict<V>)
    requires Valid(d) && LoadOk(d) && !ExpandIfNeed(d).Rehashing()
    ensures ExpandIfNeed(d).ht0.used < |ExpandIfNeed(d).ht0.buckets|
  {
    hide TableOk, NextPow, WantsShrink;
    if d.ht0.buckets == [] { CountZero(d.ht0.buckets); }
  }

  /** In a run without deletes the tables never thin out, so no shrink ever starts. */
  predicate Dense<V>(d: Dict<V>) {
    if d.Rehashing() then 2 * (d.ht0.used + d.ht1.used) >= |d.ht1.buckets|
    else |d.ht0.buckets| <= INITIAL_SIZE || 2 * d.ht0.used >= |d.ht0.buckets|
  }

  lemma DenseNoShrink<V>(d: Dict<V>)
    requires Valid(d) && Dense(d)
    ensures !WantsShrink(d)
  {
    hide TableOk, At;
    assert NextPow(0) == 1;
  }

  lemma ExpandDense<V>(d: Dict<V>)
    requires Valid(d) && Dense(d)
    ensures Dense(ExpandIfNeed(d))
  {
    hide TableOk, At, NextPow;
    DenseNoShrink(d);
    if !d.Rehashing() {
      assert d.ht0.used >= 0 by { UsedNotNegative(d); }
      NextPowIs(d.ht0.used * 2);
      if d.ht0.used == |d.ht0.buckets| && d.ht0.used > 0 { DoubleIsPow2(d.ht0.used, d); }
    }
  }

  lemma DoubleIsPow2<V>(n: nat, d: Dict<V>)
    requires Valid(d) && n == |d.ht0.buckets| && n > 0
    ensures NextPow(2 * n) == 2 * n
  {
    var k: nat :| n == Pow2(k);
    assert 2 * n == Pow2(k + 1);
    NextPowOfPow2(2 * n);
  }

  lemma StepDense<V>(d: Dict<V>)
    requires Valid(d) && d.Rehashing() && !Stuck(d) && Dense(d)
    ensures Movable(d) && Dense(RehashStep(d))
  {
    hide Count, TableOk, At, Bucket;
    MovableIff(d);
  }

  lemma OpDense<V>(d: Dict<V>, op: Op<V>)
    requires Valid(d) && Dense(d) && !IsDelete(op) && DictOp(d, op).Some?
    ensures Dense(DictOp(d, op).value.0)
  {
    hide Valid, TableOk, At, RehashStep, ExpandIfNeed, Movable, FirstFull, Bucket, Count;
    match op
    case AddOp(k, v) =>
      if Find(d, k).None? {
        ExpandIfNeedOk(d);
        ExpandDense(d);
        var x := ExpandIfNeed(d);
        if x.Rehashing() { PutDense(x.(ht1 := Put(x.ht1, Home(x.ht1, x.hash, k), Entry(k, v)))); }
      }
    case FetchOp(_) =>
      if d.Rehashing() {
        assert Movable(d) && !Stuck(d) by { MovableIff(d); }
        StepDense(d);
      }
    case _ =>
  }

  lemma PutDense<V>(y: Dict<V>)
    requires y.Rehashing() && Movable(y) && 2 * (y.ht0.used + y.ht1.used) >= |y.ht1.buckets|
    ensures Dense(RehashStep(y))
  {
    hide FirstFull, Bucket;
  }

  /** Runs without deletes: no shrink ever starts and the load bound holds throughout. */
  lemma {:induction false} RunLoad<V>(d: Dict<V>, ops: seq<Op<V>>)
    requires Valid(d) && !Stuck(d) && LoadOk(d) && Dense(d)
    requires forall i :: 0 <= i < |ops| ==> !IsDelete(ops[i])
    ensures DictRun(d, ops).Some?
    ensures var e := DictRun(d, ops).value.0;
            LoadOk(e) && Dense(e) && !WantsShrink(e) &&
            (!e.Rehashing() ==> e.ht0.used <= |e.ht0.buckets|)
    decreases |ops|
  {
    hide DictOp, WantsShrink, Dense, Valid, Stuck;
    if ops == [] {
      DenseNoShrink(d);
      assert LoadOk(d) && (!d.Rehashing() ==> d.ht0.used <= |d.ht0.buckets|);
    } else {
      DenseNoShrink(d);
      OpUnstuck(d, ops[0]);
      OpLoad(d, ops[0]);
      OpDense(d, ops[0]);
      RunLoad(DictOp(d, ops[0]).value.0, ops[1..]);
    }
  }

  function Drain<V>(d: Dict<V>, n: nat): Option<Dict<V>>
    decreases n
  {
    if n == 0 then Some(d) else if Movable(d) then Drain(RehashStep(d), n - 1) else None
  }

  /** Each rehash ends within ht[0].used further steps, and not before. */
  lemma {:induction false} DrainEnds<V>(d: Dict<V>, n: nat)
    requires Valid(d) && d.Rehashing() && n <= d.ht0.used
    ensures Drain(d, n).Some? && SameMap(d, Drain(d, n).value)
    ensures n == 0 || (Drain(d, n).value.Rehashing() <==> n < d.ht0.used)
    decreases n
  {
    hide RehashStep, Valid, Lookup;
    if n > 0 {
      assert Valid(d) && !Stuck(d);
      RehashStepOk(d);
      var e := RehashStep(d);
      if n > 1 { DrainEnds(e, n - 1); }
    }
  }

  // ---------- The stuck state is reached ----------

  function ByLength(): Key -> nat { (k: Key) => |k| }

  function E(k: Key): Entry<int> { Entry(k, 0) }

  /** Four keys in the four initial buckets. */
  function FullDict(): Dict<int> {
    Dict(ByLength(), Table([[E("")], [E("a")], [E("aa")], [E("aaa")]], 4), NoTable(), NO_REHASH)
  }

  /** After a fifth add: the table grew to eight buckets and the first key has moved. */
  function GrownDict(): Dict<int> {
    Dict(ByLength(), Table([[], [E("a")], [E("aa")], [E("aaa")]], 3),
         Table([[E("")], [], [], [], [E("aaaa")], [], [], []], 2), 0)
  }

  /** After a fetch: the second key has moved. */
  function FetchedDict(): Dict<int> {
    Dict(ByLength(), Table([[], [], [E("aa")], [E("aaa")]], 2),
         Table([[E("")], [E("a")], [], [], [E("aaaa")], [], [], []], 3), 1)
  }

  /** In the delete, after its rehash step: one key is left in ht[0]. */
  function SteppedDict(): Dict<int> {
    Dict(ByLength(), Table([[], [], [], [E("aaa")]], 1),
         Table([[E("")], [E("a")], [E("aa")], [], [E("aaaa")], [], [], []], 4), 2)
  }

  /** The first i of those four keys, i at least 1. */
  function Filled(i: nat): Dict<int>
    requires 1 <= i <= 4
  {
    Dict(ByLength(), Table([[E("")], if i > 1 then [E("a")] else [], if i > 2 then [E("aa")] else [],
                            if i > 3 then [E("aaa")] else []], i), NoTable(), NO_REHASH)
  }

  lemma PlainAdd<V>(d: Dict<V>, k: Key, v: V)
    requires Valid(d) && Find(d, k).None? && !ExpandIfNeed(d).Rehashing()
    ensures var x := ExpandIfNeed(d);
            Add(d, k, v) == Did(x.(ht0 := Put(x.ht0, Home(x.ht0, x.hash, k), Entry(k, v))), true)
  {
    hide Valid, Find, ExpandIfNeed;
  }

  lemma FirstFill()
    ensures Valid(Empty<int>(ByLength())) && Add(Empty(ByLength()), "", 0) == Did(Filled(1), true)
  {
    hide Valid, TableOk, Add;
    EmptyRepresents<int>(ByLength());
    RepresentsValid(Empty<int>(ByLength()), map[]);
    PlainAdd(Empty<int>(ByLength()), "", 0);
    var t := NewTable<int>(4);
    assert t.buckets == [[], [], [], []];
    assert [E("")] + [] == [E("")];
    assert Put(t, 0, E("")).buckets == [[E("")], [], [], []];
  }

  lemma NextFill(i: nat, k: Key)
    requires 1 <= i < 4 && |k| == i && k == ["", "a", "aa", "aaa"][i] && Valid(Filled(i))
    ensures Add(Filled(i), k, 0) == Did(Filled(i + 1), true)
  {
    hide Valid, TableOk, Add;
    var d := Filled(i);
    PlainAdd(d, k, 0);
    assert [E(k)] + [] == [E(k)];
    assert Home(d.ht0, d.hash, k) == i && d.ht0.buckets[i] == [];
    assert Put(d.ht0, i, E(k)).buckets == Filled(i + 1).ht0.buckets;
  }

  lemma RunStep<V>(d: Dict<V>, op: Op<V>, ops: seq<Op<V>>)
    requires Valid(d) && DictOp(d, op).Some?
    ensures var e := DictOp(d, op).value.0;
            && Valid(e) && (DictRun(d, [op] + ops).Some? <==> DictRun(e, ops).Some?)
            && (DictRun(e, ops).Some? ==> DictRun(d, [op] + ops).value.0 == DictRun(e, ops).value.0)
  {
    hide DictOp, Valid;
    OpValid(d, op);
    assert ([op] + ops)[1..] == ops;
  }

  /** That dictionary is reached from an empty one, by four adds. */
  lemma FullReached()
    ensures var ops := [AddOp("", 0), AddOp("a", 0), AddOp("aa", 0), AddOp("aaa", 0)];
            && Valid(Empty<int>(ByLength())) && DictRun(Empty(ByLength()), ops).Some?
            && DictRun(Empty(ByLength()), ops).value.0 == FullDict()
  {
    hide Add, Valid, Filled;
    FirstFill();
    OpValid(Empty<int>(ByLength()), AddOp("", 0));
    NextFill(1, "a");
    OpValid(Filled(1), AddOp("a", 0));
    NextFill(2, "aa");
    OpValid(Filled(2), AddOp("aa", 0));
    NextFill(3, "aaa");
    OpValid(Filled(3), AddOp("aaa", 0));
    LastFill();
    RunStep(Filled(3), AddOp("aaa", 0), []);
    RunStep(Filled(2), AddOp("aa", 0), [AddOp("aaa", 0)]);
    RunStep(Filled(1), AddOp("a", 0), [AddOp("aa", 0), AddOp("aaa", 0)]);
    RunStep(Empty<int>(ByLength()), AddOp("", 0), [AddOp("a", 0), AddOp("aa", 0), AddOp("aaa", 0)]);
    assert [AddOp("aaa", 0)] + [] == [AddOp("aaa", 0)];
    assert [AddOp("aa", 0)] + [AddOp("aaa", 0)] == [AddOp("aa", 0), AddOp("aaa", 0)];
    assert [AddOp("a", 0)] + [AddOp("aa", 0), AddOp("aaa", 0)] == [AddOp("a", 0), AddOp("aa", 0), AddOp("aaa", 0)];
    assert [AddOp("", 0)] + [AddOp("a", 0), AddOp("aa", 0), AddOp("aaa", 0)]
        == [AddOp("", 0), AddOp("a", 0), AddOp("aa", 0), AddOp("aaa", 0)];
  }

  lemma LastFill()
    ensures Filled(4) == FullDict()
  {
  }

  /** In the fifth add, after the resize: a table of eight empty buckets. */
  function ResizedDict(): Dict<int> { FullDict().(ht1 := Table([[], [], [], [], [], [], [], []], 0), rehashidx := 0) }

  lemma FullToResized()
    ensures ExpandIfNeed(FullDict()) == ResizedDict()
  {
    assert NextPow(8) == 8;
    assert NewTable<int>(8).buckets == [[], [], [], [], [], [], [], []];
  }

  lemma ResizedToGrown(y: Dict<int>)
    requires y == ResizedDict().(ht1 := Table([[], [], [], [], [E("aaaa")], [], [], []], 1))
    ensures Movable(y) && RehashStep(y) == GrownDict()
  {
    assert FirstFull(y.ht0.buckets, 0) == 0;
    assert [E("")] + [] == [E("")];
    assert RehashStep(y).ht0 == GrownDict().ht0;
    assert RehashStep(y).ht1 == GrownDict().ht1;
  }

  lemma FullToGrown()
    ensures Valid(FullDict()) && Add(FullDict(), "aaaa", 0) == Did(GrownDict(), true)
  {
    hide Count, Valid, ExpandIfNeed, RehashStep;
    FullValid(FullDict(), E(""), E("a"), E("aa"), E("aaa"));
    FullToResized();
    var x := ResizedDict();
    assert [E("aaaa")] + [] == [E("aaaa")] && Home(x.ht1, x.hash, "aaaa") == 4;
    var t := Put(x.ht1, 4, E("aaaa"));
    assert t.buckets == [[], [], [], [], [E("aaaa")], [], [], []];
    ResizedToGrown(x.(ht1 := t));
  }

  lemma GrownToFetched()
    ensures Fetch(GrownDict()) == Some(FetchedDict())
  {
    var d := GrownDict();
    assert FirstFull(d.ht0.buckets, 1) == 1;
    assert [E("a")] + [] == [E("a")];
    assert RehashStep(d).ht0 == FetchedDict().ht0;
    assert RehashStep(d).ht1 == FetchedDict().ht1;
  }

  lemma FetchedToStepped()
    ensures StepIfRehashing(ExpandIfNeed(FetchedDict())) == Some(SteppedDict())
  {
    var d := FetchedDict();
    assert FirstFull(d.ht0.buckets, 2) == 2;
    assert [E("aa")] + [] == [E("aa")];
    assert RehashStep(d).ht0 == SteppedDict().ht0;
    assert RehashStep(d).ht1 == SteppedDict().ht1;
  }

  lemma FetchedToStuck()
    ensures Delete(FetchedDict(), "aaa").Did? && Stuck(Delete(FetchedDict(), "aaa").d)
  {
    hide StepIfRehashing, ExpandIfNeed, FetchedDict;
    FetchedToStepped();
    assert PlaceOf(SteppedDict(), "aaa") == Place(false, 3, 0);
  }

  /** Four keys, then: an add starts a rehash and moves one entry, a fetch moves another, and a
      delete moves a third and unlinks the fourth. The rehash is on with nothing to move. */
  lemma StuckReachable()
    ensures var ops := [AddOp("aaaa", 0), FetchOp(""), DeleteOp("aaa")];
            Valid(FullDict()) && DictRun(FullDict(), ops).Some? && Stuck(DictRun(FullDict(), ops).value.0)
  {
    hide Valid, Add, Fetch, Delete, FullDict, GrownDict, FetchedDict, Find, Stuck;
    FullToGrown();
    GrownToFetched();
    FetchedToStuck();
    var ops := [AddOp("aaaa", 0), FetchOp(""), DeleteOp("aaa")];
    OpValid(FullDict(), ops[0]);
    OpValid(GrownDict(), ops[1]);
    OpValid(FetchedDict(), ops[2]);
    var last := Delete(FetchedDict(), "aaa").d;
    assert ops[1..] == [ops[1], ops[2]] && ops[1..][1..] == [ops[2]] && [ops[2]][1..] == [];
    assert DictRun(last, []).Some?;
    assert DictRun(FetchedDict(), [ops[2]]).Some? && DictRun(FetchedDict(), [ops[2]]).value.0 == last;
    assert DictRun(GrownDict(), [ops[1], ops[2]]).Some? && DictRun(GrownDict(), [ops[1], ops[2]]).value.0 == last;
  }

  lemma FullValid(d: Dict<int>, e0: Entry<int>, e1: Entry<int>, e2: Entry<int>, e3: Entry<int>)
    requires d == Dict(ByLength(), Table([[e0], [e1], [e2], [e3]], 4), NoTable(), NO_REHASH)
    requires |e0.key| == 0 && |e1.key| == 1 && |e2.key| == 2 && |e3.key| == 3
    ensures Valid(d)
  {
    var b := d.ht0.buckets;
    assert 4 == Pow2(2);
    assert b[1..] == [[e1], [e2], [e3]] && b[1..][1..] == [[e2], [e3]] && b[1..][1..][1..] == [[e3]];
    assert Count([[e3]]) == 1;
    assert Count([[e2], [e3]]) == 2;
    assert Count([[e1], [e2], [e3]]) == 3;
    assert Count(b) == 4;
  }
}
