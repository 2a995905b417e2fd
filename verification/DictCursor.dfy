/** The dictionary iterator on the heap, proved against module DictIteration. */
module DictCursor {
  import opened Wrappers
  import opened DictSpec
  import opened DictIteration
  import DictHeap

  /** What a valid dictionary guarantees about its tables. */
  lemma Tables<V>(d: DictHeap.Dict<V>)
    requires d.Valid()
    ensures d.ht0.Linked() && d.ht1.Linked() && DictSpec.Valid(d.Model())
    ensures d.ht0.table.Length == |d.ht0.nodes| == |d.ht0.m.buckets| && d.ht0.used == d.ht0.m.used
    ensures d.ht1.table.Length == |d.ht1.nodes| == |d.ht1.m.buckets| && d.ht1.used == d.ht1.m.used
  {
  }

  /** dictIterNext case by case. */
  lemma NextStep<V>(d: DictSpec.Dict<V>, it: Iter<V>)
    requires DictSpec.Valid(d) && IterOk(d, it) && it.htidx < 2
    ensures var t := TableAt(d, it.htidx);
            var over := Iter(it.htidx + 1, 0, []);
            if t.used == 0 then
              IterOk(d, it.(htidx := it.htidx + 1)) && IterNext(d, it) == IterNext(d, it.(htidx := it.htidx + 1))
            else if it.rest != [] then
              IterNext(d, it) == (it.(rest := it.rest[1..]), Some(it.rest[0]))
            else
              && -1 <= it.index < |t.buckets|
              && var j := FirstFull(t.buckets, it.index + 1);
                 if j == |t.buckets| then IterOk(d, over) && IterNext(d, it) == IterNext(d, over)
                 else
                   && IterOk(d, Iter(it.htidx, j, []))
                   && IterNext(d, it) == (Iter(it.htidx, j, t.buckets[j][1..]), Some(t.buckets[j][0]))
  {
    hide DictSpec.Valid;
    if TableAt(d, it.htidx).used != 0 { BucketsIfUsed(d, it.htidx); }
  }

  lemma NextAfterLast<V>(d: DictSpec.Dict<V>, it: Iter<V>)
    requires DictSpec.Valid(d) && IterOk(d, it) && it.htidx >= 2
    ensures IterNext(d, it) == (it, None)
  {
  }

  /** The rest of the chain does not matter to IterOk. */
  lemma OkRest<V>(d: DictSpec.Dict<V>, it: Iter<V>, rest: Chain<V>)
    requires IterOk(d, it)
    ensures IterOk(d, it.(rest := rest))
  {
  }

  /** dictIterator. `entry` is the next node to yield; `pos` its position in its chain. */
  class Iterator<V> {
    const dict: DictHeap.Dict<V>
    var htidx: nat
    var index: int
    var entry: DictHeap.Node?<V>
    ghost var pos: nat

    /** dictGetIterator */
    constructor (dict: DictHeap.Dict<V>)
      requires dict.Valid()
      ensures this.dict == dict && Valid() && Value() == Start()
    {
      this.dict := dict;
      htidx, index, entry, pos := 0, -1, null, 0;
    }

    ghost function Table(): DictHeap.DictHT<V>
      reads this, dict
    {
      if htidx == 0 then dict.ht0 else dict.ht1
    }

    /** The iterator as a value of module DictIteration. */
    ghost function Value(): Iter<V>
      reads this, dict, dict.ht0, dict.ht1
    {
      Iter(htidx, index,
           if entry != null && 0 <= index < |Table().m.buckets| && pos <= |Table().m.buckets[index]|
           then Table().m.buckets[index][pos..] else [])
    }

    ghost predicate AtEntry()
      reads this, dict, dict.ht0, dict.ht1
    {
      && htidx < 2 && Table().used != 0
      && 0 <= index < |Table().nodes| == |Table().m.buckets|
      && pos < |Table().nodes[index]| == |Table().m.buckets[index]|
      && entry == Table().nodes[index][pos]
    }

    ghost predicate Valid()
      reads this, dict, dict.Repr()
    {
      this !in dict.Repr() && dict.Valid() && IterOk(dict.Model(), Value()) && (entry != null ==> AtEntry())
    }

    /** Sets the position, which leaves the dictionary alone. */
    method Seek(htidx: nat, index: int)
      requires this !in dict.Repr() && dict.Valid()
      modifies this`htidx, this`index, this`pos
      ensures this !in dict.Repr() && dict.Valid()
      ensures this.htidx == htidx && this.index == index && pos == 0
    {
      hide DictHeap.DictHT.Linked, DictSpec.Valid;
      this.htidx, this.index, pos := htidx, index, 0;
    }

    method Hold(entry: DictHeap.Node?<V>, ghost pos: nat)
      requires this !in dict.Repr() && dict.Valid()
      modifies this`entry, this`pos
      ensures this !in dict.Repr() && dict.Valid() && this.entry == entry && this.pos == pos
    {
      hide DictHeap.DictHT.Linked, DictSpec.Valid;
      this.entry, this.pos := entry, pos;
    }

    /** The inner loop of dictIterNext: on to the next bucket with an entry. */
    method NextBucket(t: DictHeap.DictHT<V>) returns (cur: DictHeap.Node?<V>)
      requires this !in dict.Repr() && dict.Valid() && t.Linked() && -1 <= index < t.table.Length
      modifies this`htidx, this`index, this`pos
      ensures this !in dict.Repr() && dict.Valid() && t.Linked()
      ensures htidx == old(htidx) && pos == 0 && index == FirstFull(t.m.buckets, old(index) + 1)
      ensures t.table.Length == |t.nodes| == |t.m.buckets|
      ensures cur == null <==> index == t.table.Length
      ensures cur != null ==> 0 < |t.nodes[index]| == |t.m.buckets[index]| && cur == t.nodes[index][0]
    {
      hide DictHeap.DictHT.Linked, DictSpec.Valid;
      DictHeap.LinkedLengths(t);
      var i := index + 1;
      while i < t.table.Length && t.table[i] == null
        modifies {}
        invariant 0 <= i <= t.table.Length && FirstFull(t.m.buckets, index + 1) == FirstFull(t.m.buckets, i)
        decreases t.table.Length - i
      {
        t.EmptyBucket(i);
        i := i + 1;
      }
      cur := null;
      if i < t.table.Length {
        t.EmptyBucket(i);
        cur := t.table[i];
      }
      Seek(htidx, i);
    }

    /** iter->entry = cur->next, for the node at position pos of the current bucket. */
    method Take(t: DictHeap.DictHT<V>, cur: DictHeap.Node<V>)
      requires this !in dict.Repr() && dict.Valid() && htidx < 2 && t == Table() && t.used != 0 && t.Linked()
      requires 0 <= index < |t.nodes| == |t.m.buckets| && pos < |t.nodes[index]| == |t.m.buckets[index]|
      requires cur == t.nodes[index][pos] && IterOk(dict.Model(), Iter(htidx, index, []))
      modifies this`entry, this`pos
      ensures Valid() && Value() == Iter(htidx, index, t.m.buckets[index][old(pos) + 1..])
      ensures Entry(cur.key, cur.val) == t.m.buckets[index][old(pos)]
    {
      hide DictHeap.DictHT.Linked, DictHeap.Dict.Valid, DictHeap.Dict.Repr, IterOk;
      t.NodeFacts(index, pos);
      OkRest(dict.Model(), Iter(htidx, index, []), t.m.buckets[index][pos + 1..]);
      Hold(cur.next, pos + 1);
    }

    /** dictIterNext */
    method Next() returns (cur: DictHeap.Node?<V>)
      requires Valid()
      modifies this
      ensures Valid()
      ensures IterNext(dict.Model(), old(Value())) ==
              (Value(), if cur == null then None else Some(Entry(cur.key, cur.val)))
    {
      hide DictHeap.DictHT.Linked, DictSpec.Valid, FirstFull, DictHeap.Dict.Valid, DictHeap.Dict.Repr, IterOk, IterNext;
      Tables(dict);
      ghost var d := dict.Model();
      while htidx < 2
        modifies this
        invariant Valid() && IterNext(d, Value()) == IterNext(d, old(Value()))
        decreases 2 - htidx
      {
        var t := if htidx == 0 then dict.ht0 else dict.ht1;
        cur := entry;
        NextStep(d, Value());
        if t.used == 0 {
          Seek(htidx + 1, index);
          continue;
        }
        if cur == null {
          cur := NextBucket(t);
          if cur == null {
            Seek(htidx + 1, 0);
            continue;
          }
        }
        OkRest(d, Value(), []);
        Take(t, cur);
        return;
      }
      NextAfterLast(d, Value());
      return null;
    }
  }
}
