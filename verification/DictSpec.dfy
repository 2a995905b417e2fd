/** The incremental-rehash dictionary as a value: two bucket tables, one of which is drained
    into the other one entry per operation. */
module DictSpec {
  import opened Wrappers
  import opened Bits

  type Key = string

  datatype Entry<V> = Entry(key: Key, val: V)

  /** A bucket, head of the chain first. */
  type Chain<V> = seq<Entry<V>>

  /** A dictHT: the bucket array (its length is `size`) and the entry counter. */
  datatype Table<V> = Table(buckets: seq<Chain<V>>, used: int)

  datatype Dict<V> = Dict(hash: Key -> nat, ht0: Table<V>, ht1: Table<V>, rehashidx: int)
  {
    predicate Rehashing() { rehashidx != -1 }
  }

  const INITIAL_SIZE := 4
  const NO_REHASH := -1

  function NoTable<V>(): Table<V> { Table([], 0) }

  function Empty<V>(hash: Key -> nat): Dict<V> { Dict(hash, NoTable(), NoTable(), NO_REHASH) }

  // ---------- Chains and tables ----------

  /** The hash is cut to 32 bits and masked; for a power of two that is the remainder. */
  function Bucket(h: nat, size: nat): (b: nat)
    requires size > 0
    ensures b < size
  {
    h % 0x1_0000_0000 % size
  }

  lemma BucketIsMask(h: nat, size: nat)
    requires size > 0 && IsPow2(size)
    ensures And(h % 0x1_0000_0000, size - 1) == Bucket(h, size)
  {
    var k: nat :| size == Pow2(k);
    MaskIsRemainder(h % 0x1_0000_0000, k);
  }

  /** Position of the first entry with key k, or the length of the chain. */
  function FindIn<V>(c: Chain<V>, k: Key): (i: nat)
    ensures i <= |c|
    ensures i < |c| ==> c[i].key == k
    ensures forall j :: 0 <= j < i ==> c[j].key != k
  {
    if c == [] || c[0].key == k then 0 else 1 + FindIn(c[1..], k)
  }

  function Home<V>(t: Table<V>, hash: Key -> nat, k: Key): nat
    requires |t.buckets| > 0
  {
    Bucket(hash(k), |t.buckets|)
  }

  /** What a table holds for key k. */
  function At<V>(t: Table<V>, hash: Key -> nat, k: Key): Option<V> {
    if |t.buckets| == 0 then None
    else
      var c := t.buckets[Home(t, hash, k)];
      var i := FindIn(c, k);
      if i < |c| then Some(c[i].val) else None
  }

  function Count<V>(buckets: seq<Chain<V>>): nat
  {
    if buckets == [] then 0 else |buckets[0]| + Count(buckets[1..])
  }

  ghost predicate TableOk<V>(t: Table<V>, hash: Key -> nat) {
    && (|t.buckets| == 0 || IsPow2(|t.buckets|))
    && t.used == Count(t.buckets)
    && (forall b, i :: 0 <= b < |t.buckets| && 0 <= i < |t.buckets[b]| ==> Home(t, hash, t.buckets[b][i].key) == b)
    && (forall b, i, j :: 0 <= b < |t.buckets| && 0 <= i < j < |t.buckets[b]| ==>
          t.buckets[b][i].key != t.buckets[b][j].key)
  }

  ghost predicate Valid<V>(d: Dict<V>) {
    && TableOk(d.ht0, d.hash) && TableOk(d.ht1, d.hash) && -1 <= d.rehashidx
    && (!d.Rehashing() ==> d.ht1 == NoTable())
    && (d.Rehashing() ==>
          |d.ht0.buckets| > 0 && |d.ht1.buckets| > 0 && d.rehashidx <= |d.ht0.buckets| &&
          forall b :: 0 <= b < d.rehashidx ==> d.ht0.buckets[b] == [])
    && (forall k :: At(d.ht0, d.hash, k).None? || At(d.ht1, d.hash, k).None?)
  }

  /** A rehash is on but ht[0] has nothing left to move: the state in which the next rehash
      step reads past the bucket array. */
  predicate Stuck<V>(d: Dict<V>) { d.Rehashing() && d.ht0.used == 0 }

  /** The dictionary as one finite map over both tables. */
  function Lookup<V>(d: Dict<V>, k: Key): Option<V> {
    if At(d.ht0, d.hash, k).Some? then At(d.ht0, d.hash, k) else At(d.ht1, d.hash, k)
  }

  // ---------- Table updates ----------

  function Put<V>(t: Table<V>, b: nat, e: Entry<V>): Table<V>
    requires b < |t.buckets|
  {
    Table(t.buckets[b := [e] + t.buckets[b]], t.used + 1)
  }

  /** A sequence without the element at position i. */
  function Drop<T>(c: seq<T>, i: nat): (r: seq<T>)
    requires i < |c|
    ensures |r| == |c| - 1
    ensures forall j :: 0 <= j < |r| ==> r[j] == c[if j < i then j else j + 1]
  {
    c[..i] + c[i + 1..]
  }

  function Remove<V>(t: Table<V>, b: nat, i: nat): Table<V>
    requires b < |t.buckets| && i < |t.buckets[b]|
  {
    Table(t.buckets[b := Drop(t.buckets[b], i)], t.used - 1)
  }

  function SetVal<V>(t: Table<V>, b: nat, i: nat, v: V): Table<V>
    requires b < |t.buckets| && i < |t.buckets[b]|
  {
    t.(buckets := t.buckets[b := t.buckets[b][i := t.buckets[b][i].(val := v)]])
  }

  lemma {:induction false} CountUpdate<V>(buckets: seq<Chain<V>>, b: nat, c: Chain<V>)
    requires b < |buckets|
    ensures Count(buckets[b := c]) == Count(buckets) - |buckets[b]| + |c|
  {
    if b == 0 {
      assert buckets[b := c][1..] == buckets[1..];
    } else {
      assert buckets[b := c][1..] == buckets[1..][b - 1 := c];
      CountUpdate(buckets[1..], b - 1, c);
    }
  }

  lemma {:induction false} CountZero<V>(buckets: seq<Chain<V>>)
    ensures Count(buckets) == 0 <==> forall b :: 0 <= b < |buckets| ==> buckets[b] == []
  {
    if buckets != [] {
      CountZero(buckets[1..]);
      assert forall b :: 0 < b < |buckets| ==> buckets[b] == buckets[1..][b - 1];
      assert forall b :: 0 <= b < |buckets| - 1 ==> buckets[1..][b] == buckets[b + 1];
    }
  }

  lemma FindInIs<V>(c: Chain<V>, k: Key, i: nat)
    requires i <= |c| && (i < |c| ==> c[i].key == k)
    requires forall j :: 0 <= j < i ==> c[j].key != k
    ensures FindIn(c, k) == i
  {
  }

  /** Adding an absent key adds exactly it. */
  lemma PutOk<V>(t: Table<V>, hash: Key -> nat, e: Entry<V>)
    requires TableOk(t, hash) && |t.buckets| > 0 && At(t, hash, e.key).None?
    ensures var u := Put(t, Home(t, hash, e.key), e);
            TableOk(u, hash) && forall k :: At(u, hash, k) == if k == e.key then Some(e.val) else At(t, hash, k)
  {
    hide Count, Bucket, IsPow2;
    var b := Home(t, hash, e.key);
    var c := t.buckets[b];
    var u := Put(t, b, e);
    CountUpdate(t.buckets, b, [e] + c);
    forall k ensures At(u, hash, k) == if k == e.key then Some(e.val) else At(t, hash, k) {
      if Home(t, hash, k) == b {
        if k == e.key { FindInIs([e] + c, k, 0); } else { FindInIs([e] + c, k, FindIn(c, k) + 1); }
      }
    }
  }

  predicate DistinctKeys<V>(c: Chain<V>) { forall i, j :: 0 <= i < j < |c| ==> c[i].key != c[j].key }

  lemma DropChain<V>(c: Chain<V>, i: nat)
    requires i < |c| && DistinctKeys(c)
    ensures var rest := Drop(c, i);
            DistinctKeys(rest) &&
            forall k :: var f, g := FindIn(c, k), FindIn(rest, k);
                        if k == c[i].key then g == |rest| else g == (if f > i then f - 1 else f)
  {
    hide Drop;
    var rest := Drop(c, i);
    forall k ensures var f, g := FindIn(c, k), FindIn(rest, k);
                     if k == c[i].key then g == |rest| else g == (if f > i then f - 1 else f)
    {
      var f := FindIn(c, k);
      FindInIs(rest, k, if k == c[i].key then |rest| else if f > i then f - 1 else f);
    }
  }

  /** Removing an entry removes exactly its key. */
  lemma RemoveOk<V>(t: Table<V>, hash: Key -> nat, b: nat, i: nat)
    requires TableOk(t, hash) && b < |t.buckets| && i < |t.buckets[b]|
    ensures var u := Remove(t, b, i);
            TableOk(u, hash) && forall k :: At(u, hash, k) == if k == t.buckets[b][i].key then None else At(t, hash, k)
  {
    hide Count, Bucket, IsPow2, Drop;
    var c := t.buckets[b];
    var u := Remove(t, b, i);
    DropChain(c, i);
    CountUpdate(t.buckets, b, Drop(c, i));
    forall k ensures At(u, hash, k) == if k == c[i].key then None else At(t, hash, k) {
      if k == c[i].key { assert Home(t, hash, k) == b; }
    }
  }

  /** Overwriting a value changes exactly its key. */
  lemma SetValOk<V>(t: Table<V>, hash: Key -> nat, b: nat, i: nat, v: V)
    requires TableOk(t, hash) && b < |t.buckets| && i < |t.buckets[b]|
    ensures var u := SetVal(t, b, i, v);
            TableOk(u, hash) && forall k :: At(u, hash, k) == if k == t.buckets[b][i].key then Some(v) else At(t, hash, k)
  {
    hide Count, Bucket, IsPow2;
    var c := t.buckets[b];
    var u := SetVal(t, b, i, v);
    CountUpdate(t.buckets, b, u.buckets[b]);
    forall k ensures At(u, hash, k) == if k == c[i].key then Some(v) else At(t, hash, k) {
      if Home(t, hash, k) == b { FindInIs(u.buckets[b], k, FindIn(c, k)); }
    }
  }

  // ---------- Operations ----------

  /** First bucket at or after i that is not empty, or the number of buckets. */
  function FirstFull<V>(buckets: seq<Chain<V>>, i: nat): (r: nat)
    requires i <= |buckets|
    ensures i <= r <= |buckets|
    ensures r < |buckets| ==> buckets[r] != []
    ensures forall b :: i <= b < r ==> buckets[b] == []
    decreases |buckets| - i
  {
    if i == |buckets| || buckets[i] != [] then i else FirstFull(buckets, i + 1)
  }

  predicate Movable<V>(d: Dict<V>) {
    && 0 <= d.rehashidx <= |d.ht0.buckets| && |d.ht1.buckets| > 0
    && FirstFull(d.ht0.buckets, d.rehashidx) < |d.ht0.buckets|
  }

  /** Exactly when a rehash step finds an entry to move. */
  lemma MovableIff<V>(d: Dict<V>)
    requires Valid(d) && d.Rehashing()
    ensures Movable(d) <==> !Stuck(d)
  {
    CountZero(d.ht0.buckets);
    var r := FirstFull(d.ht0.buckets, d.rehashidx);
    if r < |d.ht0.buckets| { assert d.ht0.buckets[r] != []; }
  }

  /** _dictRehashStep: moves one entry; when ht[0] is drained, ht[1] takes its place. */
  function RehashStep<V>(d: Dict<V>): Dict<V>
    requires Movable(d)
  {
    var r := FirstFull(d.ht0.buckets, d.rehashidx);
    var e := d.ht0.buckets[r][0];
    var t0 := Remove(d.ht0, r, 0);
    var t1 := Put(d.ht1, Home(d.ht1, d.hash, e.key), e);
    if t0.used == 0 then Dict(d.hash, t1, NoTable(), NO_REHASH) else Dict(d.hash, t0, t1, r)
  }

  function NewTable<V>(size: nat): Table<V> { Table(seq(size, i => []), 0) }

  /** dictExpand */
  function Expand<V>(d: Dict<V>, size: nat): Dict<V> {
    if d.ht0.buckets == [] then d.(ht0 := NewTable(size)) else d.(ht1 := NewTable(size), rehashidx := 0)
  }

  /** used / size < 0.2 and the smaller table would still exceed the initial size. */
  predicate WantsShrink<V>(d: Dict<V>) {
    && !d.Rehashing() && d.ht0.buckets != [] && d.ht0.used != |d.ht0.buckets|
    && 5 * d.ht0.used < |d.ht0.buckets| && d.ht0.used >= 0 && NextPow(d.ht0.used) > INITIAL_SIZE
  }

  /** dictExpandIfNeed */
  function ExpandIfNeed<V>(d: Dict<V>): (r: Dict<V>)
    ensures d.Rehashing() ==> r == d
    ensures |r.ht0.buckets| > 0 || d.Rehashing()
    ensures r.Rehashing() && !d.Rehashing() ==> |r.ht1.buckets| > 0
  {
    if d.Rehashing() then d
    else if d.ht0.buckets == [] then Expand(d, INITIAL_SIZE)
    else if d.ht0.used == |d.ht0.buckets| then Expand(d, NextPow(d.ht0.used * 2))
    else if WantsShrink(d) then Expand(d, NextPow(d.ht0.used))
    else d
  }

  /** dictFind, up to the value: the second table is looked at only during a rehash. */
  function Find<V>(d: Dict<V>, k: Key): Option<V> {
    if d.ht0.buckets == [] then None
    else if At(d.ht0, d.hash, k).Some? then At(d.ht0, d.hash, k)
    else if !d.Rehashing() then None
    else At(d.ht1, d.hash, k)
  }

  /** dictAddEntry; None when the rehash step finds no entry to move. */
  function AddEntry<V>(d: Dict<V>, e: Entry<V>): Option<Dict<V>>
    requires Valid(d)
  {
    var x := ExpandIfNeed(d);
    if x.Rehashing() then
      var y := x.(ht1 := Put(x.ht1, Home(x.ht1, x.hash, e.key), e));
      if Movable(y) then Some(RehashStep(y)) else None
    else Some(x.(ht0 := Put(x.ht0, Home(x.ht0, x.hash, e.key), e)))
  }

  /** The outcome of an operation; Crash when a rehash step finds no entry to move. */
  datatype Outcome<V> = Did(d: Dict<V>, ok: bool) | Crash

  /** dictAdd */
  function Add<V>(d: Dict<V>, k: Key, v: V): Outcome<V>
    requires Valid(d)
  {
    if Find(d, k).Some? then Did(d, false)
    else match AddEntry(d, Entry(k, v))
      case None => Crash
      case Some(e) => Did(e, true)
  }

  /** Where key k is found: table, bucket and position. */
  datatype Place = Nowhere | Place(second: bool, b: nat, i: nat)

  function PlaceIn<V>(t: Table<V>, hash: Key -> nat, k: Key, second: bool): (p: Place)
    ensures p.Place? ==> p.second == second && p.b < |t.buckets| && p.i < |t.buckets[p.b]| && t.buckets[p.b][p.i].key == k
    ensures p.Place? <==> At(t, hash, k).Some?
  {
    if |t.buckets| == 0 then Nowhere
    else
      var b := Home(t, hash, k);
      var i := FindIn(t.buckets[b], k);
      if i < |t.buckets[b]| then Place(second, b, i) else Nowhere
  }

  function PlaceOf<V>(d: Dict<V>, k: Key): (p: Place)
    ensures p.Place? ==>
              var t := if p.second then d.ht1 else d.ht0;
              p.b < |t.buckets| && p.i < |t.buckets[p.b]| && t.buckets[p.b][p.i].key == k
  {
    var p := PlaceIn(d.ht0, d.hash, k, false);
    if p.Place? then p else if d.Rehashing() then PlaceIn(d.ht1, d.hash, k, true) else Nowhere
  }

  /** dictReplace */
  function Replace<V>(d: Dict<V>, k: Key, v: V): Outcome<V> {
    match PlaceOf(d, k)
    case Nowhere => Did(d, false)
    case Place(second, b, i) =>
      Did(if second then d.(ht1 := SetVal(d.ht1, b, i, v)) else d.(ht0 := SetVal(d.ht0, b, i, v)), true)
  }

  /** The rehash step that fetch and delete take first. */
  function StepIfRehashing<V>(d: Dict<V>): Option<Dict<V>> {
    if !d.Rehashing() then Some(d) else if Movable(d) then Some(RehashStep(d)) else None
  }

  /** dictFetchValue: the dictionary afterwards; the value is then Find's. */
  function Fetch<V>(d: Dict<V>): Option<Dict<V>> { StepIfRehashing(d) }

  /** dictDelete after the rehash step: unlink the entry. No completion check follows. */
  function Unlink<V>(d: Dict<V>, k: Key): Outcome<V> {
    match PlaceOf(d, k)
    case Nowhere => Did(d, false)
    case Place(second, b, i) =>
      Did(if second then d.(ht1 := Remove(d.ht1, b, i)) else d.(ht0 := Remove(d.ht0, b, i)), true)
  }

  /** dictDelete */
  function Delete<V>(d: Dict<V>, k: Key): Outcome<V> {
    match StepIfRehashing(ExpandIfNeed(d))
    case None => Crash
    case Some(e) => Unlink(e, k)
  }
}
