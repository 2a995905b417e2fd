/** The dictionary behaves as one finite map at every moment of every run, except that one
    delete can leave it in a state whose next rehash step crashes. */
module DictLaws {
  import opened Wrappers
  import opened Bits
  import opened DictSpec

  /** Same map, and as many entries. */
  ghost predicate SameMap<V>(d: Dict<V>, e: Dict<V>) {
    && e.hash == d.hash && (forall k :: Lookup(e, k) == Lookup(d, k))
    && e.ht0.used + e.ht1.used == d.ht0.used + d.ht1.used
  }

  lemma FindIsLookup<V>(d: Dict<V>, k: Key)
    requires Valid(d)
    ensures Find(d, k) == Lookup(d, k)
  {
  }

  lemma {:induction false} CountEmpty<V>(size: nat)
    ensures Count(NewTable<V>(size).buckets) == 0
  {
    CountZero(NewTable<V>(size).buckets);
  }

  lemma NewTableOk<V>(size: nat, hash: Key -> nat)
    requires IsPow2(size)
    ensures TableOk(NewTable<V>(size), hash) && forall k :: At(NewTable<V>(size), hash, k).None?
  {
    CountEmpty<V>(size);
  }

  lemma ExpandOk<V>(d: Dict<V>, size: nat)
    requires Valid(d) && !d.Rehashing() && IsPow2(size) && size > 0
    ensures var e := Expand(d, size);
            Valid(e) && SameMap(d, e) && (e.Rehashing() <==> d.ht0.buckets != []) && e.ht0.used == d.ht0.used
  {
    hide Count;
    NewTableOk<V>(size, d.hash);
    var e := Expand(d, size);
    if d.ht0.buckets == [] { assert d.ht0.used == 0 by { CountZero(d.ht0.buckets); } }
  }

  /** Without a rehash a new key goes to the head of its chain, in front of the entries it had. */
  lemma AddsAtHead<V>(d: Dict<V>, k: Key, v: V)
    requires Valid(d) && Find(d, k).None? && !ExpandIfNeed(d).Rehashing()
    ensures var r := Add(d, k, v);
            && r.Did? && r.ok && !r.d.Rehashing()
            && var t := r.d.ht0;
               && |t.buckets| > 0
               && t.buckets[Home(t, d.hash, k)] == [Entry(k, v)] + if d.ht0.buckets == [] then [] else d.ht0.buckets[Home(t, d.hash, k)]
  {
    hide Count, Bucket, NextPow, TableOk, At;
  }

  /** A rehash step takes the head of the first bucket that is not empty, and puts it at the head
      of its chain in the second table. */
  lemma StepMovesHead<V>(d: Dict<V>, b: nat)
    requires Movable(d) && d.rehashidx <= b < |d.ht0.buckets| && d.ht0.buckets[b] != []
    requires forall x :: d.rehashidx <= x < b ==> d.ht0.buckets[x] == []
    ensures var r, e := RehashStep(d), d.ht0.buckets[b][0];
            var t, h := if r.Rehashing() then r.ht1 else r.ht0, Home(d.ht1, d.hash, e.key);
            && t.buckets == d.ht1.buckets[h := [e] + d.ht1.buckets[h]]
            && (r.Rehashing() <==> d.ht0.used != 1)
            && (r.Rehashing() ==> r.ht0.buckets == d.ht0.buckets[b := d.ht0.buckets[b][1..]] && r.rehashidx == b)
  {
    hide Bucket;
    var f := FirstFull(d.ht0.buckets, d.rehashidx);
    assert f == b;
    assert Drop(d.ht0.buckets[b], 0) == d.ht0.buckets[b][1..];
  }

  /** Exactly when the table is resized, and to what: the first table has four buckets; a table
      with as many entries as buckets doubles; one with more than four entries in more than five
      times as many buckets shrinks to the power of two at or above its entries. */
  lemma ResizeIff<V>(d: Dict<V>)
    requires Valid(d) && !d.Rehashing()
    ensures var e, size, used := ExpandIfNeed(d), |d.ht0.buckets|, d.ht0.used;
            && used >= 0
            && (if size == 0 then !e.Rehashing() && |e.ht0.buckets| == 4
                else
                  && e.ht0 == d.ht0
                  && (e.Rehashing() <==> used == size || (used > 4 && 5 * used < size))
                  && (e.Rehashing() ==>
                        && e.rehashidx == 0 && IsPow2(|e.ht1.buckets|)
                        && if used == size then |e.ht1.buckets| == 2 * size else used <= |e.ht1.buckets| < 2 * used))
  {
    hide Count, Bucket, NextPow, IsPow2;
    var used := d.ht0.used;
    if |d.ht0.buckets| > 0 {
      NextPowIs(used);
      if used == |d.ht0.buckets| {
        DoublePow2(used);
        NextPowOfPow2(used * 2);
      } else {
        PowAboveFour(used);
      }
    }
  }

  lemma DoublePow2(n: nat)
    requires IsPow2(n)
    ensures IsPow2(n * 2)
  {
    var k: nat :| n == Pow2(k);
    assert Pow2(k + 1) == n * 2;
  }

  lemma PowAboveFour(n: nat)
    ensures NextPow(n) > 4 <==> n > 4
  {
    NextPowIs(n);
    if n <= 4 { assert NextPowFrom(1, n) <= 4; }
  }

  lemma ExpandIfNeedOk<V>(d: Dict<V>)
    requires Valid(d)
    ensures var e := ExpandIfNeed(d);
            Valid(e) && SameMap(d, e) && (Stuck(e) <==> Stuck(d))
  {
    hide Valid, Lookup, NextPow, Count;
    if !d.Rehashing() {
      UsedNotNegative(d);
      if d.ht0.buckets == [] {
        assert Pow2(2) == 4;
        ExpandOk(d, INITIAL_SIZE);
      } else if d.ht0.used == |d.ht0.buckets| {
        NextPowIs(d.ht0.used * 2);
        ExpandOk(d, NextPow(d.ht0.used * 2));
      } else if WantsShrink(d) {
        NextPowIs(d.ht0.used);
        ExpandOk(d, NextPow(d.ht0.used));
      }
    }
  }

  lemma UsedNotNegative<V>(d: Dict<V>)
    requires Valid(d)
    ensures d.ht0.used >= 0 && d.ht1.used >= 0
  {
  }

  /** A rehash step moves an entry without changing the map, and never leaves the
      dictionary stuck. */
  lemma RehashStepOk<V>(d: Dict<V>)
    requires Valid(d) && d.Rehashing() && !Stuck(d)
    ensures Movable(d)
    ensures var e := RehashStep(d);
            && Valid(e) && SameMap(d, e) && !Stuck(e)
            && (if d.ht0.used == 1 then !e.Rehashing() else e.Rehashing() && e.ht0.used == d.ht0.used - 1)
  {
    hide Count, Bucket;
    MovableIff(d);
    var r := FirstFull(d.ht0.buckets, d.rehashidx);
    var entry := d.ht0.buckets[r][0];
    var t0 := Remove(d.ht0, r, 0);
    var t1 := Put(d.ht1, Home(d.ht1, d.hash, entry.key), entry);
    assert FindIn(d.ht0.buckets[r], entry.key) == 0;
    assert At(d.ht0, d.hash, entry.key) == Some(entry.val);
    RemoveOk(d.ht0, d.hash, r, 0);
    PutOk(d.ht1, d.hash, entry);
    NoTableOk<V>(d.hash);
    if t0.used == 0 { DrainedEmpty(t0, d.hash); }
  }

  lemma NoTableOk<V>(hash: Key -> nat)
    ensures TableOk(NoTable<V>(), hash)
  {
  }

  lemma DrainedEmpty<V>(t: Table<V>, hash: Key -> nat)
    requires TableOk(t, hash) && t.used == 0
    ensures forall k :: At(t, hash, k).None?
  {
    CountZero(t.buckets);
  }

  // ---------- One operation ----------

  /** Map e is map d with key k set to v (None: removed). */
  ghost predicate Updated<V>(d: Dict<V>, e: Dict<V>, k: Key, v: Option<V>) {
    && e.hash == d.hash && forall x :: Lookup(e, x) == if x == k then v else Lookup(d, x)
  }

  /** dictAdd: refuses a present key; otherwise adds it, or crashes exactly when stuck. */
  lemma AddOk<V>(d: Dict<V>, k: Key, v: V)
    requires Valid(d)
    ensures match Add(d, k, v)
            case Did(e, ok) =>
              && Valid(e) && ok == Lookup(d, k).None?
              && (if ok then Updated(d, e, k, Some(v)) && e.ht0.used + e.ht1.used == d.ht0.used + d.ht1.used + 1 else e == d)
              && (ok ==> !Stuck(d)) && (Stuck(e) <==> !ok && Stuck(d))
            case Crash => Lookup(d, k).None? && Stuck(d)
  {
    hide Count, Bucket, TableOk, ExpandIfNeed, RehashStep;
    FindIsLookup(d, k);
    if Lookup(d, k).None? {
      ExpandIfNeedOk(d);
      var x := ExpandIfNeed(d);
      assert Lookup(x, k).None?;
      var e := Entry(k, v);
      if x.Rehashing() {
        PutOk(x.ht1, x.hash, e);
        var y := x.(ht1 := Put(x.ht1, Home(x.ht1, x.hash, k), e));
        assert Valid(y) && Updated(x, y, k, Some(v));
        MovableIff(y);
        if !Stuck(y) { RehashStepOk(y); }
      } else {
        PutOk(x.ht0, x.hash, e);
      }
    }
  }

  /** dictReplace never rehashes: it overwrites a present key in whichever table holds it. */
  lemma ReplaceOk<V>(d: Dict<V>, k: Key, v: V)
    requires Valid(d)
    ensures match Replace(d, k, v)
            case Did(e, ok) =>
              && Valid(e) && ok == Lookup(d, k).Some? && e.ht0.used == d.ht0.used && e.ht1.used == d.ht1.used
              && (if ok then Updated(d, e, k, Some(v)) else e == d) && (Stuck(e) <==> Stuck(d))
            case Crash => false
  {
    hide Count, Bucket, TableOk;
    match PlaceOf(d, k)
    case Nowhere =>
    case Place(false, b, i) => SetValOk(d.ht0, d.hash, b, i, v);
    case Place(true, b, i) => SetValOk(d.ht1, d.hash, b, i, v);
  }

  /** dictFetchValue: one rehash step, same map; crashes exactly when stuck. */
  lemma FetchOk<V>(d: Dict<V>, k: Key)
    requires Valid(d)
    ensures Fetch(d).None? <==> Stuck(d)
    ensures Fetch(d).Some? ==>
              Valid(Fetch(d).value) && SameMap(d, Fetch(d).value) && !Stuck(Fetch(d).value) &&
              Find(Fetch(d).value, k) == Lookup(d, k)
  {
    hide RehashStep, Valid, Lookup;
    if d.Rehashing() {
      MovableIff(d);
      if !Stuck(d) { RehashStepOk(d); }
    }
    if Fetch(d).Some? { FindIsLookup(Fetch(d).value, k); }
  }

  lemma UnlinkOk<V>(d: Dict<V>, k: Key)
    requires Valid(d) && !Stuck(d)
    ensures match Unlink(d, k)
            case Did(e, ok) =>
              && Valid(e) && ok == Lookup(d, k).Some?
              && (if ok then Updated(d, e, k, None) && e.ht0.used + e.ht1.used == d.ht0.used + d.ht1.used - 1 else e == d)
              && (Stuck(e) <==> d.Rehashing() && d.ht0.used == 1 && At(d.ht0, d.hash, k).Some?)
            case Crash => false
  {
    hide Count, Bucket, TableOk;
    match PlaceOf(d, k)
    case Nowhere =>
    case Place(false, b, i) => RemoveOk(d.ht0, d.hash, b, i);
    case Place(true, b, i) => RemoveOk(d.ht1, d.hash, b, i);
  }

  /** dictDelete: removes the key after a resize check and a rehash step; crashes exactly when
      stuck; and leaves the dictionary stuck exactly when the rehash is still on after its
      step, one entry is left in ht[0], and that entry is the deleted one. */
  lemma DeleteOk<V>(d: Dict<V>, k: Key)
    requires Valid(d)
    ensures match Delete(d, k)
            case Did(e, ok) =>
              && !Stuck(d) && Valid(e) && ok == Lookup(d, k).Some? && e.hash == d.hash
              && (if ok then Updated(d, e, k, None) && e.ht0.used + e.ht1.used == d.ht0.used + d.ht1.used - 1
                  else SameMap(d, e))
              && var s := StepIfRehashing(ExpandIfNeed(d)).value;
                 (Stuck(e) <==> s.Rehashing() && s.ht0.used == 1 && At(s.ht0, s.hash, k).Some?)
            case Crash => Stuck(d)
  {
    hide RehashStep, ExpandIfNeed, Valid, Lookup, Unlink, At;
    ExpandIfNeedOk(d);
    var x := ExpandIfNeed(d);
    FetchOk(x, k);
    if !Stuck(x) { UnlinkOk(StepIfRehashing(x).value, k); }
  }
}
