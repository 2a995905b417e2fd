/** The command table: once loaded it is for ever in the middle of a rehash, and yet the iterator
    that lookups use meets every command. */
module CommandTable {
  import opened Wrappers
  import opened Bits
  import opened Djb2
  import opened DictSpec
  import opened DictRuns
  import DictIteration

  /** commandsTable, in order. */
  const NAMES: seq<string> :=
    ["SET", "GET", "DEL", "OBJECT", "BYE", "SLAVEOF", "PING", "REPLCONF", "SYNC", "REPLACK", "INFO", "HEARTBEAT",
     "SELECT", "EXPIRE", "TTL", "MULTI", "EXEC", "WATCH"]

  /** loadCommands, up to the i-th command; a command is held by its place. */
  function Loads(i: nat): seq<Op<nat>>
    requires i <= |NAMES|
  {
    seq(i, j requires 0 <= j < i => AddOp(NAMES[j], j))
  }

  function Loaded(i: nat): map<Key, nat>
    requires i <= |NAMES|
  {
    map j | 0 <= j < i :: NAMES[j] := j
  }

  lemma NamesDistinct()
    ensures forall i, j :: 0 <= i < j < |NAMES| ==> NAMES[i] != NAMES[j]
  {
  }

  lemma LoadedNext(i: nat)
    requires i < |NAMES|
    ensures NAMES[i] !in Loaded(i) && Loaded(i + 1) == Loaded(i)[NAMES[i] := i] && |Loaded(i + 1)| == |Loaded(i)| + 1
  {
    NamesDistinct();
    hide NAMES, Loaded;
    LoadedKeys(i);
    LoadedKeys(i + 1);
    var n, m := Loaded(i)[NAMES[i] := i], Loaded(i + 1);
    forall k ensures k in m <==> k in n {
      if k in Loaded(i) { assert k == NAMES[Loaded(i)[k]]; }
    }
    forall k | k in m ensures m[k] == n[k] {
      var x, y := m[k], n[k];
      assert NAMES[x] == k && NAMES[y] == k;
    }
    MapAdds(Loaded(i), NAMES[i], i);
  }

  lemma LoadedKeys(i: nat)
    requires i <= |NAMES|
    ensures forall k :: k in Loaded(i) <==> exists j :: 0 <= j < i && k == NAMES[j]
    ensures forall k :: k in Loaded(i) ==> 0 <= Loaded(i)[k] < i && NAMES[Loaded(i)[k]] == k
  {
    NamesDistinct();
    hide NAMES;
  }

  lemma MapAdds<V>(m: map<Key, V>, k: Key, v: V)
    requires k !in m
    ensures |m[k := v]| == |m| + 1
  {
    assert m[k := v].Keys == m.Keys + {k};
  }

  lemma {:induction false} LoadedSize(i: nat)
    requires i <= |NAMES|
    ensures |Loaded(i)| == i
  {
    if i == 0 {
      assert Loaded(0) == map[];
    } else {
      LoadedSize(i - 1);
      LoadedNext(i - 1);
    }
  }

  lemma {:induction false} MapLoads(i: nat)
    requires i <= |NAMES|
    ensures MapRun(Loaded(i), Loads(|NAMES|)[i..]).0 == Loaded(|NAMES|)
    decreases |NAMES| - i
  {
    hide Loaded, NAMES;
    var ops := Loads(|NAMES|)[i..];
    if i < |NAMES| {
      LoadedNext(i);
      assert ops[0] == AddOp(NAMES[i], i) && ops[1..] == Loads(|NAMES|)[i + 1..];
      assert MapOp(Loaded(i), ops[0]).0 == Loaded(i + 1);
      MapLoads(i + 1);
    }
  }

  /** The table after loadCommands. */
  function Commands(): Option<Dict<nat>>
  {
    RepresentsValid(Empty<nat>(KeyHash), map[]);
    match DictRun(Empty(KeyHash), Loads(|NAMES|))
    case None => None
    case Some((d, _)) => Some(d)
  }

  lemma CommandsFacts()
    ensures Commands().Some? && Represents(Commands().value, Loaded(|NAMES|)) && LoadOk(Commands().value) && Dense(Commands().value)
    ensures Commands().value.hash == KeyHash
  {
    hide Loaded, MapRun, DictRun, Represents, Valid;
    EmptyRepresents<nat>(KeyHash);
    RepresentsValid(Empty<nat>(KeyHash), map[]);
    var ops := Loads(|NAMES|);
    RunFromEmpty(KeyHash, ops);
    EmptyLoad();
    RunLoad(Empty<nat>(KeyHash), ops);
    HashKept(Empty<nat>(KeyHash), ops);
    assert Loaded(0) == map[] by { LoadedNone(); }
    assert ops[0..] == ops;
    MapLoads(0);
  }

  lemma LoadedNone()
    ensures Loaded(0) == map[]
  {
  }

  lemma EmptyLoad()
    ensures LoadOk(Empty<nat>(KeyHash)) && Dense(Empty<nat>(KeyHash)) && !Stuck(Empty<nat>(KeyHash))
  {
  }

  lemma {:induction false} HashKept<V>(d: Dict<V>, ops: seq<Op<V>>)
    requires Valid(d) && DictRun(d, ops).Some?
    ensures DictRun(d, ops).value.0.hash == d.hash
    decreases |ops|
  {
    hide DictOp, Valid;
    if ops != [] {
      OpHash(d, ops[0]);
      OpValid(d, ops[0]);
      HashKept(DictOp(d, ops[0]).value.0, ops[1..]);
    }
  }

  lemma OpHash<V>(d: Dict<V>, op: Op<V>)
    requires Valid(d) && DictOp(d, op).Some?
    ensures DictOp(d, op).value.0.hash == d.hash
  {
    hide Valid, Find, FirstFull, PlaceOf, TableOk, WantsShrink;
  }

  /** No command's name goes to the first of 32 buckets. */
  lemma NoneFirst(i: nat)
    requires i < |NAMES|
    ensures KeyHash(NAMES[i]) % 0x1_0000_0000 % 32 != 0
  {
    Ascii();
    LowSums();
    hide KeyHash, NAMES, Codes;
    InThirtyTwo(NAMES[i]);
  }

  lemma LowSums()
    ensures forall i :: 0 <= i < |NAMES| ==> Codes(NAMES[i], |NAMES[i]|) % 32 != 0
  {
    hide Codes;
    FirstSums();
    LastSums();
  }

  lemma FirstSums()
    ensures Codes("SET", 3) == 241 && Codes("GET", 3) == 229 && Codes("DEL", 3) == 218
    ensures Codes("OBJECT", 6) == 444 && Codes("BYE", 3) == 229 && Codes("SLAVEOF", 7) == 533
    ensures Codes("PING", 4) == 307 && Codes("REPLCONF", 8) == 606 && Codes("SYNC", 4) == 322
  {
  }

  lemma LastSums()
    ensures Codes("REPLACK", 7) == 519 && Codes("INFO", 4) == 305 && Codes("HEARTBEAT", 9) == 661
    ensures Codes("SELECT", 6) == 453 && Codes("EXPIRE", 6) == 466 && Codes("TTL", 3) == 249
    ensures Codes("MULTI", 5) == 400 && Codes("EXEC", 4) == 298 && Codes("WATCH", 5) == 380
  {
  }

  lemma Ascii()
    ensures forall i, j :: 0 <= i < |NAMES| && 0 <= j < |NAMES[i]| ==> NAMES[i][j] < 128 as char
  {
  }

  /** A pair of bounds that leaves one power of two. */
  lemma ThirtyTwo(p: nat)
    requires IsPow2(p) && 18 < p <= 36
    ensures p == 32
  {
    var k: nat :| p == Pow2(k);
    assert Pow2(4) == 16 && Pow2(5) == 32 && Pow2(6) == 64;
    if k < 5 { Pow2Grows(k, 4); }
    if k > 5 { Pow2Grows(6, k); }
  }

  lemma {:induction false} Pow2Grows(j: nat, k: nat)
    requires j <= k
    ensures Pow2(j) <= Pow2(k)
    decreases k
  {
    if j < k { Pow2Grows(j, k - 1); }
  }

  lemma NothingSkipped()
    ensures Commands().Some? && Valid(Commands().value) && !DictIteration.SkipsBucket(Commands().value)
  {
    hide Loaded, Commands, NAMES, KeyHash, Lookup;
    CommandsFacts();
    LoadedSize(|NAMES|);
    var d := Commands().value;
    RepresentsValid(d, Loaded(|NAMES|));
    if DictIteration.SkipsBucket(d) {
      assert |NAMES| == 18 by { Eighteen(); }
      ThirtyTwo(|d.ht1.buckets|);
      var e := d.ht1.buckets[0][0];
      assert Home(d.ht1, d.hash, e.key) == 0;
      assert FindIn(d.ht1.buckets[0], e.key) == 0;
      assert Lookup(d, e.key).Some? by { HeldSecond(d, e); }
      assert Get(Loaded(|NAMES|), e.key) == Lookup(d, e.key);
      LoadedKey(e.key);
      var i: nat :| i < |NAMES| && e.key == NAMES[i];
      NoneFirst(i);
    }
  }

  lemma Eighteen()
    ensures |NAMES| == 18
  {
  }

  lemma HeldSecond(d: Dict<nat>, e: Entry<nat>)
    requires Valid(d) && d.ht1.buckets != [] && At(d.ht1, d.hash, e.key) == Some(e.val)
    ensures Lookup(d, e.key).Some?
  {
  }

  lemma LoadedKey(k: Key)
    requires k in Loaded(|NAMES|)
    ensures exists i: nat :: i < |NAMES| && k == NAMES[i]
  {
    hide NAMES;
  }

  /** lookupCommand iterates over the whole table: it meets every command exactly once. */
  lemma LookupMeetsAll()
    ensures Commands().Some? && Valid(Commands().value)
    ensures var d := Commands().value;
            var met := DictIteration.Yield(d, DictIteration.Start());
            && |met| == |NAMES|
            && (forall i :: 0 <= i < |NAMES| ==> Entry(NAMES[i], i) in met)
            && (forall e :: e in met ==> 0 <= e.val < |NAMES| && e.key == NAMES[e.val])
  {
    hide Commands, NAMES, KeyHash, Lookup, DictIteration.SkipsBucket, DictIteration.Yield, Valid;
    CommandsFacts();
    NothingSkipped();
    LoadedSize(|NAMES|);
    var d := Commands().value;
    DictIteration.IterationComplete(d);
    var met := DictIteration.Yield(d, DictIteration.Start());
    NamesDistinct();
    forall i | 0 <= i < |NAMES| ensures Entry(NAMES[i], i) in met {
      assert Get(Loaded(|NAMES|), NAMES[i]) == Lookup(d, NAMES[i]);
    }
    forall e | e in met ensures 0 <= e.val < |NAMES| && e.key == NAMES[e.val] {
      assert e == Entry(e.key, e.val) && Lookup(d, e.key) == Some(e.val);
      assert Get(Loaded(|NAMES|), e.key) == Lookup(d, e.key);
    }
  }
}
