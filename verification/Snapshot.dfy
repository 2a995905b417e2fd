/** A snapshot of whole dictionaries: what the iterator hands to the save procedure, and
    exactly when loading the file restores every database. */
module Snapshot {
  import opened Wrappers
  import opened Decimal
  import opened Robj
  import opened Rdb
  import DictSpec
  import DictIteration

  /** A database about to be saved: its key dictionary, and the deadlines. */
  datatype Source = Source(kv: DictSpec.Dict<Robj>, expires: map<string, int>)

  function WithDeadline(e: DictSpec.Entry<Robj>, expires: map<string, int>): Entry {
    Entry(e.key, e.val, if e.key in expires then Some(expires[e.key]) else None)
  }

  function WithDeadlines(es: seq<DictSpec.Entry<Robj>>, expires: map<string, int>): seq<Entry> {
    seq(|es|, i requires 0 <= i < |es| => WithDeadline(es[i], expires))
  }

  /** What of the database is saved. dictIsEmpty looks only at ht[0], so a database whose keys
      are all in ht[1] is passed over; otherwise the iterator decides. */
  function EntriesOf(db: Source): seq<Entry>
    requires DictSpec.Valid(db.kv)
  {
    if db.kv.ht0.used == 0 then []
    else WithDeadlines(DictIteration.Yield(db.kv, DictIteration.Start()), db.expires)
  }

  function EntriesOfAll(dbs: seq<Source>): seq<seq<Entry>>
    requires forall i :: 0 <= i < |dbs| ==> DictSpec.Valid(dbs[i].kv)
  {
    seq(|dbs|, i requires 0 <= i < |dbs| => EntriesOf(dbs[i]))
  }

  lemma WithDeadlinesNil(expires: map<string, int>)
    ensures EncEntries(WithDeadlines([], expires)) == ""
  {
  }

  lemma EncSnoc(es: seq<DictSpec.Entry<Robj>>, e: DictSpec.Entry<Robj>, expires: map<string, int>)
    ensures EncEntries(WithDeadlines(es + [e], expires)) ==
            EncEntries(WithDeadlines(es, expires)) + EncEntry(WithDeadline(e, expires))
  {
    hide EncEntry, WithDeadline;
    var all := WithDeadlines(es + [e], expires);
    assert all[..|all| - 1] == WithDeadlines(es, expires);
  }

  /** Only a database with an empty ht[0] is passed over. */
  lemma EmptySaved(db: Source)
    requires DictSpec.Valid(db.kv)
    ensures db.kv.ht0.used == 0 <==> EntriesOf(db) == []
  {
    hide DictIteration.Flatten, DictSpec.TableOk, DictIteration.Yield, DictIteration.IterNext;
    DictIteration.YieldIs(db.kv);
    DictIteration.Lengths(db.kv);
    var ys := DictIteration.Yield(db.kv, DictIteration.Start());
    assert |WithDeadlines(ys, db.expires)| == |ys|;
  }

  lemma StartOk(d: DictSpec.Dict<Robj>)
    requires DictSpec.Valid(d)
    ensures DictIteration.IterOk(d, DictIteration.Start<Robj>())
  {
  }

  // ---------- What any file can load as ----------

  predicate ShortDb(db: Db) { forall k :: k in db.kv ==> InSync(db.kv[k]) }

  /** No bytes whatever are read as a value that is a long text. */
  lemma LoadedShort(s: string)
    requires Bytes(s)
    ensures LoadValue(s).Some? ==> InSync(LoadValue(s).value.value)
  {
    hide FromLe, StringToLong;
  }

  lemma LoadLenBytes(s: string)
    requires Bytes(s)
    ensures Bytes(LoadLen(s).rest)
  {
    hide FromLe;
  }

  lemma LoadEntryShort(s: string)
    requires Bytes(s) && LoadEntry(s).Some?
    ensures Bytes(LoadEntry(s).value.rest) && InSync(LoadEntry(s).value.value.1)
  {
    hide FromLe, Create, CString, FromInt, InSync, LoadLen;
    var k := LoadKey(s).value;
    LoadLenBytes(s);
    LoadLenBytes(k.rest);
    LoadedShort(k.rest);
  }

  /** What loading keeps: no long text, and nothing in databases 256 and up. */
  predicate Plausible(dbs: seq<Db>) {
    (forall i :: 0 <= i < |dbs| ==> ShortDb(dbs[i])) && (forall i :: 256 <= i < |dbs| ==> dbs[i] == EMPTY_DB)
  }

  lemma {:induction false} LoadKeepsPlausible(s: string, st: Loading)
    requires Bytes(s) && Plausible(st.dbs) && (st.dbid.Some? ==> st.dbid.value < 256)
    ensures LoadLoop(s, st).Loaded? ==> Plausible(LoadLoop(s, st).dbs)
    decreases |s|
  {
    hide FromLe, InSync, LoadEntry, Signed;
    if s != "" && s[0] != EOF {
      if s[0] == SELECTDB {
        if |s| >= 2 && s[1] as int <= |st.dbs| { LoadKeepsPlausible(s[2..], st.(dbid := Some(s[1] as int))); }
      } else if s[0] == EXPIRETIME {
        if |s| >= 9 { LoadKeepsPlausible(s[9..], st.(expire := Signed(FromLe(s[1..9]), 8))); }
      } else if LoadEntry(s[1..]).Some? && Ready(st) {
        LoadEntryShort(s[1..]);
        var r := LoadEntry(s[1..]).value;
        LoadKeepsPlausible(r.rest, Store(st, r.value.0, r.value.1));
      }
    }
  }

  lemma BytesJoin(s: string, t: string)
    ensures Bytes(s + t) <==> Bytes(s) && Bytes(t)
  {
    assert (s + t)[..|s|] == s && (s + t)[|s|..] == t;
  }

  lemma EncLenBytes(n: nat)
    ensures Bytes(EncLen(n))
  {
    hide Le;
  }

  lemma EncKeyBytes(key: string)
    requires Bytes(key)
    ensures Bytes(EncKey(key))
  {
    hide EncLen, Bytes;
    EncLenBytes(|key|);
    BytesJoin(EncLen(|key|), key);
  }

  lemma TagBytes(tag: char, s: string)
    requires tag as int < 256 && Bytes(s)
    ensures Bytes([tag] + s)
  {
  }

  lemma EncIntBytes(n: int)
    ensures Bytes(EncValue(Int(n)))
  {
    hide Le, ToInt, Bytes;
    var val := ToInt(n);
    TagBytes(ENC_INT8, Le(val, 1));
    TagBytes(ENC_INT16, Le(val, 2));
    TagBytes(ENC_INT32, Le(val, 4));
  }

  lemma EncEntryBytes(e: Entry)
    requires EntryOk(e)
    ensures Bytes(EncEntry(e))
  {
    hide Le, Canonical, EncValue, EncKey, EncLen, Bytes, CText;
    assert Bytes(e.key) by { TextBytes(e.key); }
    EncKeyBytes(e.key);
    if e.val.Int? {
      EncIntBytes(e.val.n);
    } else {
      TextBytes(e.val.s);
      EncLenBytes(|e.val.s|);
      BytesJoin(EncLen(|e.val.s|), e.val.s);
      EncText(e.val, "");
      assert EncValue(e.val) + "" == EncValue(e.val) && e.val.s + "" == e.val.s;
    }
    BytesJoin(EncKey(e.key), EncValue(e.val));
    TagBytes(TYPE_STRING, EncKey(e.key) + EncValue(e.val));
    DeadlineBytes(e.deadline);
    BytesJoin(EncDeadline(e.deadline), [TYPE_STRING] + (EncKey(e.key) + EncValue(e.val)));
  }

  lemma TextBytes(s: string)
    requires CText(s)
    ensures Bytes(s)
  {
  }

  lemma DeadlineBytes(d: Option<int>)
    ensures Bytes(EncDeadline(d))
  {
    hide Le, Bytes;
    NoBytes();
    if d.Some? { TagBytes(EXPIRETIME, Le(d.value, 8)); }
  }

  lemma {:induction false} EncEntriesBytes(es: seq<Entry>)
    requires forall e :: e in es ==> EntryOk(e)
    ensures Bytes(EncEntries(es))
  {
    hide EncEntry, EntryOk, Bytes;
    if es != [] {
      EncEntriesBytes(es[..|es| - 1]);
      EncEntryBytes(es[|es| - 1]);
      BytesJoin(EncEntries(es[..|es| - 1]), EncEntry(es[|es| - 1]));
    } else {
      NoBytes();
    }
  }

  lemma NoBytes()
    ensures Bytes("")
  {
  }

  lemma {:induction false} EncDbsBytes(dbs: seq<seq<Entry>>)
    requires forall i, e :: 0 <= i < |dbs| && e in dbs[i] ==> EntryOk(e)
    ensures Bytes(EncDbs(dbs))
  {
    hide EncEntries, EntryOk;
    if dbs != [] {
      EncDbsBytes(dbs[..|dbs| - 1]);
      EncEntriesBytes(dbs[|dbs| - 1]);
    }
  }

  /** A file written from any snapshot loads, if at all, as plausible databases. */
  lemma LoadFilePlausible(dbs: seq<seq<Entry>>, sum: string, n: nat)
    requires Bytes(sum) && forall i, e :: 0 <= i < |dbs| && e in dbs[i] ==> EntryOk(e)
    ensures var o := LoadFile(EncFile(dbs) + sum, Empties(n));
            o.Loaded? ==> Plausible(o.dbs)
  {
    hide EncDbs, EntryOk, LoadLoop;
    EncDbsBytes(dbs);
    LoadKeepsPlausible((EncFile(dbs) + sum)[9..], Loading(Empties(n), None, 0));
  }

  // ---------- Exactly when a snapshot restores the databases ----------

  /** The source holds database m: the dictionary its keys, m.expires the deadlines. */
  ghost predicate Holds(src: Source, m: Db) {
    && src.expires == m.expires
    && (forall k :: k in m.kv <==> DictSpec.Lookup(src.kv, k).Some?)
    && (forall k :: k in m.kv ==> DictSpec.Lookup(src.kv, k) == Some(m.kv[k]))
  }

  /** The save procedure reaches every key: ht[0] is not empty while ht[1] is in use, and no
      bucket is passed over. */
  predicate Reached(d: DictSpec.Dict<Robj>) {
    (d.ht0.used == 0 ==> d.ht1.used == 0) && !DictIteration.SkipsBucket(d)
  }

  /** What a server can hold. */
  ghost predicate DbOk(m: Db) {
    && (forall k :: k in m.kv ==> CText(k) && Stored(m.kv[k]))
    && (forall k :: k in m.expires ==> IsLong(m.expires[k]))
  }

  /** The database without the deadlines of keys it does not hold, which deletes and expiry
      leave behind. */
  function Live(m: Db): Db { Db(m.kv, map k | k in m.expires && k in m.kv :: m.expires[k]) }

  /** The condition under which a saved database comes back. */
  predicate Restorable(src: Source, id: nat, m: Db) {
    && Reached(src.kv)
    && (m.kv == map[] || id < 256)
    && (forall k :: k in m.kv ==> |k| <= KEY_BUFFER && Representable(m.kv[k]))
    && (forall k :: k in Live(m).expires ==> m.expires[k] > 0)
  }

  lemma EntriesHeld(src: Source, m: Db)
    requires DictSpec.Valid(src.kv) && Holds(src, m) && DbOk(m)
    ensures forall e :: e in EntriesOf(src) ==>
              && e.key in m.kv && e.val == m.kv[e.key] && EntryOk(e)
              && e.deadline == if e.key in m.expires then Some(m.expires[e.key]) else None
    ensures Functional(EntriesOf(src))
  {
    hide DictIteration.Yield, DictSpec.Valid, DictSpec.Lookup, CText, Stored;
    var ys := DictIteration.Yield(src.kv, DictIteration.Start());
    forall e | e in EntriesOf(src)
      ensures e.key in m.kv && e.val == m.kv[e.key] && EntryOk(e)
      ensures e.deadline == if e.key in m.expires then Some(m.expires[e.key]) else None
    {
      var i :| 0 <= i < |ys| && e == WithDeadline(ys[i], src.expires);
      DictIteration.YieldHeld(src.kv, ys[i]);
    }
  }

  /** Every held key is saved exactly when the save procedure reaches every key. */
  lemma AllSaved(src: Source, m: Db)
    requires DictSpec.Valid(src.kv) && Holds(src, m)
    ensures (forall k :: k in m.kv ==> exists e :: e in EntriesOf(src) && e.key == k) <==> Reached(src.kv)
  {
    hide DictIteration.Yield, DictSpec.Lookup, DictSpec.TableOk;
    if src.kv.ht0.used == 0 { NoneSaved(src, m); } else { AllYielded(src, m); }
  }

  /** With ht[0] empty nothing is saved; then everything is only when ht[1] is empty too. */
  lemma NoneSaved(src: Source, m: Db)
    requires DictSpec.Valid(src.kv) && Holds(src, m) && src.kv.ht0.used == 0
    ensures (forall k :: k !in m.kv) <==> src.kv.ht1.used == 0
  {
    hide DictIteration.Yield, DictSpec.Lookup, DictSpec.Valid;
    DictIteration.IterationComplete(src.kv);
    var ys := DictIteration.Yield(src.kv, DictIteration.Start());
    assert forall k :: k in m.kv ==> DictSpec.Entry(k, m.kv[k]) in ys;
    if src.kv.ht1.used != 0 {
      assert ys[0] == DictSpec.Entry(ys[0].key, ys[0].val) && ys[0] in ys;
      assert ys[0].key in m.kv;
    }
  }

  lemma AllYielded(src: Source, m: Db)
    requires DictSpec.Valid(src.kv) && Holds(src, m) && src.kv.ht0.used != 0
    ensures (forall k :: k in m.kv ==> exists e :: e in EntriesOf(src) && e.key == k) <==>
            !DictIteration.SkipsBucket(src.kv)
  {
    hide DictIteration.Yield, DictSpec.Valid, DictSpec.Lookup;
    var ys := DictIteration.Yield(src.kv, DictIteration.Start());
    var es := EntriesOf(src);
    assert |es| == |ys| && forall i :: 0 <= i < |ys| ==> es[i] == WithDeadline(ys[i], src.expires);
    if DictIteration.SkipsBucket(src.kv) {
      var k := src.kv.ht1.buckets[0][0].key;
      DictIteration.SkippedMissing(src.kv, k);
      assert k in m.kv && forall e :: e in es ==> e.key != k;
    } else {
      DictIteration.IterationComplete(src.kv);
      forall k | k in m.kv ensures exists e :: e in es && e.key == k {
        assert DictSpec.Entry(k, m.kv[k]) in ys;
        var i :| 0 <= i < |ys| && ys[i] == DictSpec.Entry(k, m.kv[k]);
        assert es[i].key == k;
      }
    }
  }

  lemma KvRestoredIff(src: Source, m: Db)
    requires DictSpec.Valid(src.kv) && Holds(src, m) && DbOk(m) && ShortDb(m) && KeysFit(EntriesOf(src))
    ensures DbOf(EntriesOf(src)).kv == m.kv <==>
            Reached(src.kv) && forall k :: k in m.kv ==> |k| <= KEY_BUFFER && Representable(m.kv[k])
  {
    hide DictSpec.Valid, Reached, EntriesOf, EntryOk, Holds, DbOk, DbOf, Restored, Representable, InSync, Functional;
    var es := EntriesOf(src);
    EntriesHeld(src, m);
    AllSaved(src, m);
    DbOfIs(es);
    forall k | k in m.kv ensures Restored(m.kv[k]) == m.kv[k] <==> Representable(m.kv[k]) {
      RestoredIff(m.kv[k]);
    }
    var kv := DbOf(es).kv;
    assert forall k :: k in kv ==> k in m.kv && kv[k] == Restored(m.kv[k]) && |k| <= KEY_BUFFER;
    assert (forall k :: k in m.kv ==> k in kv) <==> Reached(src.kv);
    if kv == m.kv {
      forall k | k in m.kv ensures |k| <= KEY_BUFFER && Representable(m.kv[k]) { assert k in kv; }
    }
  }

  lemma ExpiresRestoredIff(src: Source, m: Db)
    requires DictSpec.Valid(src.kv) && Holds(src, m) && DbOk(m) && Reached(src.kv)
    ensures DbOf(EntriesOf(src)).expires == Live(m).expires <==> forall k :: k in Live(m).expires ==> m.expires[k] > 0
  {
    hide DictSpec.Valid, Reached, EntriesOf, EntryOk, Holds, DbOk, DbOf, Restored, Functional;
    var es := EntriesOf(src);
    EntriesHeld(src, m);
    AllSaved(src, m);
    DbOfIs(es);
    var x := DbOf(es).expires;
    assert forall k :: k in x <==> k in m.kv && k in m.expires && m.expires[k] > 0;
    assert forall k :: k in x ==> x[k] == m.expires[k];
    if x == Live(m).expires {
      forall k | k in Live(m).expires ensures m.expires[k] > 0 { assert k in x; }
    }
  }

  /** One database whose values are read in step: what it loads as against what it was. */
  lemma DbRestoredIff(src: Source, m: Db)
    requires DictSpec.Valid(src.kv) && Holds(src, m) && DbOk(m) && ShortDb(m) && KeysFit(EntriesOf(src))
    ensures DbOf(EntriesOf(src)) == Live(m) <==>
            && Reached(src.kv)
            && (forall k :: k in m.kv ==> |k| <= KEY_BUFFER && Representable(m.kv[k]))
            && (forall k :: k in Live(m).expires ==> m.expires[k] > 0)
  {
    hide DictSpec.Valid, Reached, EntriesOf, Holds, DbOk, DbOf, Representable, ShortDb, KeysFit;
    KvRestoredIff(src, m);
    if Reached(src.kv) { ExpiresRestoredIff(src, m); }
  }

  predicate AllRestorable(srcs: seq<Source>, dbs: seq<Db>)
    requires |srcs| == |dbs|
  {
    forall i :: 0 <= i < |dbs| ==> Restorable(srcs[i], i, dbs[i])
  }

  lemma EntriesOfAllOk(srcs: seq<Source>, dbs: seq<Db>)
    requires |srcs| == |dbs| && forall i :: 0 <= i < |dbs| ==> DictSpec.Valid(srcs[i].kv)
    requires forall i :: 0 <= i < |dbs| ==> Holds(srcs[i], dbs[i]) && DbOk(dbs[i])
    ensures forall i, e :: 0 <= i < |dbs| && e in EntriesOf(srcs[i]) ==> EntryOk(e)
    ensures forall i :: 0 <= i < |dbs| && ShortDb(dbs[i]) ==> AllInSync(EntriesOf(srcs[i]))
    ensures forall i :: 0 <= i < |dbs| && dbs[i].kv == map[] ==> EntriesOf(srcs[i]) == []
  {
    hide DictSpec.Valid, EntriesOf, EntryOk, Holds, DbOk, InSync;
    forall i | 0 <= i < |dbs|
      ensures forall e :: e in EntriesOf(srcs[i]) ==> EntryOk(e)
      ensures ShortDb(dbs[i]) ==> AllInSync(EntriesOf(srcs[i]))
      ensures dbs[i].kv == map[] ==> EntriesOf(srcs[i]) == []
    {
      EntriesHeld(srcs[i], dbs[i]);
      if EntriesOf(srcs[i]) != [] { assert EntriesOf(srcs[i])[0] in EntriesOf(srcs[i]); }
    }
  }

  /** A representable database has only short texts. */
  lemma RestorableShort(src: Source, id: nat, m: Db)
    requires Restorable(src, id, m)
    ensures ShortDb(m) && (id >= 256 ==> m.kv == map[])
  {
  }

  lemma KeptIff(src: Source, id: nat, m: Db)
    requires DictSpec.Valid(src.kv) && Holds(src, m) && DbOk(m) && ShortDb(m) && (id >= 256 ==> m.kv == map[])
    ensures KeysFit(EntriesOf(src)) && DbOf(EntriesOf(src)) == Live(m) <==> Restorable(src, id, m)
  {
    hide DictSpec.Valid, EntriesOf, EntryOk, Holds, DbOk, DbOf, Representable, ShortDb, Reached;
    EntriesHeld(src, m);
    if KeysFit(EntriesOf(src)) { DbRestoredIff(src, m); }
  }

  lemma LiveShort(dbs: seq<Db>)
    ensures Plausible(AllLive(dbs)) ==>
              forall i :: 0 <= i < |dbs| ==> ShortDb(dbs[i]) && (i >= 256 ==> dbs[i].kv == map[])
  {
    if Plausible(AllLive(dbs)) {
      forall i | 0 <= i < |dbs| ensures ShortDb(dbs[i]) && (i >= 256 ==> dbs[i].kv == map[]) {
        assert ShortDb(AllLive(dbs)[i]) && AllLive(dbs)[i].kv == dbs[i].kv;
      }
    }
  }

  function AllLive(dbs: seq<Db>): seq<Db> { seq(|dbs|, i requires 0 <= i < |dbs| => Live(dbs[i])) }

  /** Loading a saved snapshot into empty databases restores every key, every value and the
      deadlines of the keys that are held, if and only if: no dictionary was saved in the
      middle of a rehash with ht[0] empty and ht[1] not, or with something in bucket 0 of
      ht[1]; every database that is not empty has a number below 256; every key fits the key
      buffer; every value is representable; and the deadlines of held keys are positive. */
  lemma SnapshotRoundTrip(srcs: seq<Source>, dbs: seq<Db>, sum: string)
    requires |srcs| == |dbs| && Bytes(sum) && forall i :: 0 <= i < |dbs| ==> DictSpec.Valid(srcs[i].kv)
    requires forall i :: 0 <= i < |dbs| ==> Holds(srcs[i], dbs[i]) && DbOk(dbs[i])
    ensures LoadFile(EncFile(EntriesOfAll(srcs)) + sum, Empties(|dbs|)) == Loaded(AllLive(dbs), sum) <==>
            AllRestorable(srcs, dbs)
  {
    hide DictSpec.Valid, EntriesOf, EntryOk, Holds, DbOk, DbOf, KeysFit, ShortDb, Restorable, LoadFile, EncFile, AllInSync;
    var es := EntriesOfAll(srcs);
    var o := LoadFile(EncFile(es) + sum, Empties(|dbs|));
    EntriesOfAllOk(srcs, dbs);
    if exists i :: 0 <= i < |dbs| && !(ShortDb(dbs[i]) && (i >= 256 ==> dbs[i].kv == map[])) {
      LoadFilePlausible(es, sum, |dbs|);
      LiveShort(dbs);
      var i :| 0 <= i < |dbs| && !(ShortDb(dbs[i]) && (i >= 256 ==> dbs[i].kv == map[]));
      if Restorable(srcs[i], i, dbs[i]) { RestorableShort(srcs[i], i, dbs[i]); }
    } else {
      assert forall i :: 0 <= i < |es| ==> AllInSync(es[i]);
      SnapshotLoads(es, sum);
      forall i | 0 <= i < |dbs|
        ensures KeysFit(es[i]) && DbOf(es[i]) == Live(dbs[i]) <==> Restorable(srcs[i], i, dbs[i])
      {
        KeptIff(srcs[i], i, dbs[i]);
      }
      var got, live := seq(|es|, i requires 0 <= i < |es| => DbOf(es[i])), AllLive(dbs);
      assert forall i :: 0 <= i < |dbs| ==> got[i] == DbOf(es[i]) && live[i] == Live(dbs[i]);
      assert got == live <==> forall i :: 0 <= i < |dbs| ==> got[i] == live[i];
    }
  }
}
