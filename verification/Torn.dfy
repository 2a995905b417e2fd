/** Snapshot files that are not whole or not snapshots, and a whole one byte by byte. */
module Torn {
  import opened Wrappers
  import opened Decimal
  import opened Robj
  import opened Rdb

  // ---------- A file that is cut ----------

  lemma CutLen(n: nat, k: nat)
    requires n < 0x1_0000_0000 && k < |EncLen(n)|
    ensures LoadLen(EncLen(n)[..k]) == Read(0, "")
  {
    hide Le, FromLe;
  }

  lemma CutText(s: string, k: nat)
    requires |s| <= INT_MAX && k < |EncLen(|s|) + s|
    ensures var r := LoadLen((EncLen(|s|) + s)[..k]);
            (r == Read(0, "") && k < |EncLen(|s|)|) || (r.value == |s| && |r.rest| < |s|)
  {
    hide EncLen, LoadLen;
    var head := EncLen(|s|);
    if k < |head| {
      CutLen(|s|, k);
      assert (head + s)[..k] == head[..k];
    } else {
      LoadEncLen(|s|, s[..k - |head|]);
      assert (head + s)[..k] == head + s[..k - |head|];
    }
  }

  /** A key that is cut leaves nothing for its value. */
  lemma CutKey(key: string, k: nat)
    requires CText(key) && k < |EncKey(key)|
    ensures var r := LoadKey(EncKey(key)[..k]); r.Some? ==> r.value.rest == ""
  {
    hide EncLen, LoadLen;
    CutText(key, k);
  }

  /** A value that is cut is not read, or read to the end. */
  lemma CutValue(v: Robj, k: nat)
    requires Stored(v) && InSync(v) && k < |EncValue(v)|
    ensures var r := LoadValue(EncValue(v)[..k]); r.Some? ==> r.value.rest == ""
  {
    hide Le, FromLe, FromInt, Create, CString, ToInt, LoadLen, Canonical;
    if !v.Int? && k > 0 {
      CutText(v.s, k);
      assert EncLen(|v.s|)[0] as int < 0xC0;
    }
  }

  lemma CutBody(key: string, v: Robj, k: nat)
    requires CText(key) && Stored(v) && InSync(v) && k < |EncKey(key) + EncValue(v)|
    ensures var r := LoadEntry((EncKey(key) + EncValue(v))[..k]); r.Some? ==> r.value.rest == ""
  {
    hide EncKey, LoadKey, EncValue, LoadValue, CText, Stored;
    var s := EncKey(key) + EncValue(v);
    NothingRead();
    if k < |EncKey(key)| {
      CutKey(key, k);
      assert s[..k] == EncKey(key)[..k];
    } else {
      var cut := EncValue(v)[..k - |EncKey(key)|];
      assert s[..k] == EncKey(key) + cut;
      LoadEncKey(key, cut);
      CutValue(v, k - |EncKey(key)|);
    }
  }

  lemma NothingRead()
    ensures LoadValue("").None?
  {
  }

  lemma CutEntry(st: Loading, e: Entry, k: nat)
    requires Ready(st) && EntryOk(e) && InSync(e.val) && k < |EncEntry(e)|
    ensures LoadLoop(EncEntry(e)[..k], st) == Undefined
  {
    hide EncKey, EncValue, LoadEntry, CText, Stored, Le, FromLe, Store;
    var head, body := EncDeadline(e.deadline), EncKey(e.key) + EncValue(e.val);
    var s := EncEntry(e)[..k];
    if k < |head| {
      assert s == head[..k];
    } else {
      var rest := ([TYPE_STRING] + body)[..k - |head|];
      assert s == head + rest;
      LoopDeadline(st, e.deadline, rest);
      if rest != "" {
        assert rest[1..] == body[..|rest| - 1];
        CutBody(e.key, e.val, |rest| - 1);
      }
    }
  }

  lemma {:induction false} CutEntries(st: Loading, es: seq<Entry>, k: nat)
    requires Ready(st) && AllInSync(es) && k < |EncEntries(es)|
    ensures LoadLoop(EncEntries(es)[..k], st) == Undefined
    decreases |es|
  {
    hide EncEntry, LoadLoop, EntryOk, InSync, StoreEntry;
    var init, e := es[..|es| - 1], es[|es| - 1];
    assert forall x :: x in es <==> x in init || x == e;
    if k < |EncEntries(init)| {
      CutEntries(st, init, k);
      assert EncEntries(es)[..k] == EncEntries(init)[..k];
    } else {
      var j := k - |EncEntries(init)|;
      assert EncEntries(es)[..k] == EncEntries(init) + EncEntry(e)[..j];
      LoopEntries(st, init, EncEntry(e)[..j]);
      CutEntry(StoreAll(st, init), e, j);
    }
  }

  lemma CutDb(st: Loading, id: nat, es: seq<Entry>, k: nat)
    requires id < |st.dbs| && (es != [] ==> id < 256) && AllInSync(es) && k < |EncDb(id, es)|
    ensures LoadLoop(EncDb(id, es)[..k], st) == Undefined
  {
    hide EncEntries, AllInSync, LoadEntry;
    var s := EncDb(id, es)[..k];
    if k >= 2 {
      assert s[2..] == EncEntries(es)[..k - 2];
      assert s[0] == SELECTDB && s[1] as int == id;
      CutEntries(st.(dbid := Some(id)), es, k - 2);
    }
  }

  lemma {:induction false} CutDbs(st: Loading, dbs: seq<seq<Entry>>, k: nat)
    requires |dbs| <= |st.dbs| && IdsFit(dbs) && k <= |EncDbs(dbs)|
    requires forall i :: 0 <= i < |dbs| ==> AllInSync(dbs[i])
    ensures LoadLoop(EncDbs(dbs)[..k], st) == Undefined
    decreases |dbs|
  {
    hide EncDb, LoadLoop, AllInSync, KeysFit, StoreDb;
    NothingLoaded();
    if dbs != [] {
      var n := |dbs| - 1;
      var init, es := dbs[..n], dbs[n];
      if k < |EncDbs(init)| {
        CutDbs(st, init, k);
        assert EncDbs(dbs)[..k] == EncDbs(init)[..k];
      } else {
        var j := k - |EncDbs(init)|;
        var cut := EncDb(n, es)[..j];
        assert EncDbs(dbs)[..k] == EncDbs(init) + cut;
        LoopDbs(st, init, cut);
        if j < |EncDb(n, es)| {
          CutDb(StoreDbs(st, init), n, es, j);
        } else {
          LoopDb(StoreDbs(st, init), n, es, "");
          assert EncDb(n, es) + "" == cut;
        }
      }
    }
  }

  lemma NothingLoaded()
    ensures forall st :: LoadLoop("", st) == Undefined
  {
  }

  /** A save that was interrupted, wherever it was, left a file whose load reads past its end. */
  lemma SnapshotCut(dbs: seq<seq<Entry>>, k: nat)
    requires IdsFit(dbs) && k < |EncFile(dbs)| && forall i :: 0 <= i < |dbs| ==> AllInSync(dbs[i])
    ensures LoadFile(EncFile(dbs)[..k], Empties(|dbs|)) == Undefined
  {
    hide AllInSync, EncDbs, IdsFit, LoadLoop;
    var s := EncFile(dbs)[..k];
    if k < 9 {
      assert s == MAGIC[..k];
    } else {
      assert s[..9] == MAGIC[..9] && s[9..] == EncDbs(dbs)[..k - 9];
      CutDbs(Loading(Empties(|dbs|), None, 0), dbs, k - 9);
    }
  }

  // ---------- A file that is no snapshot ----------

  /** Another format, or another version of this one, is left alone. */
  lemma OtherFormat(s: string, dbs: seq<Db>)
    ensures LoadFile(s, dbs) == NoSnapshot <==>
            exists i :: 0 <= i < 9 && i < |s| && s[i] != "REDIS0001"[i]
  {
    hide LoadLoop;
    var n := if |s| < 9 then |s| else 9;
    if s[..n] != MAGIC[..n] {
      var i :| 0 <= i < n && s[..n][i] != MAGIC[..n][i];
      assert s[i] != "REDIS0001"[i];
    }
    LoopFound(s, dbs);
  }

  lemma LoopFound(s: string, dbs: seq<Db>)
    ensures forall t, st :: LoadLoop(t, st) != NoSnapshot
  {
    forall t, st ensures LoadLoop(t, st) != NoSnapshot { LoopNever(t, st); }
  }

  lemma {:induction false} LoopNever(s: string, st: Loading)
    ensures LoadLoop(s, st) != NoSnapshot
    decreases |s|
  {
    hide LoadEntry, FromLe, Signed;
    if s != "" && s[0] != EOF {
      if s[0] == SELECTDB {
        if |s| >= 2 && s[1] as int <= |st.dbs| { LoopNever(s[2..], st.(dbid := Some(s[1] as int))); }
      } else if s[0] == EXPIRETIME {
        if |s| >= 9 { LoopNever(s[9..], st.(expire := Signed(FromLe(s[1..9]), 8))); }
      } else if LoadEntry(s[1..]).Some? && Ready(st) {
        var r := LoadEntry(s[1..]).value;
        LoopNever(r.rest, Store(st, r.value.0, r.value.1));
      }
    }
  }

  /** A database number beyond the databases ends the server; one past the last is let through,
      and the first entry for it leaves the array. */
  lemma NumberRange(id: nat, e: Entry, t: string, n: nat)
    requires id < 256 && n <= id && EntryOk(e) && InSync(e.val)
    ensures var s := "REDIS0001" + [SELECTDB, Byte(id)] + EncEntry(e) + t;
            LoadFile(s, Empties(n)) == if id == n then Undefined else Exits
  {
    hide EncKey, EncValue, LoadEntry, CText, Stored, EncDeadline, Store;
    var rest := EncEntry(e) + t;
    var s := "REDIS0001" + [SELECTDB, Byte(id)] + EncEntry(e) + t;
    var st := Loading(Empties(n), None, 0);
    assert s[..9] == MAGIC[..9] && s[9..] == [SELECTDB, Byte(id)] + rest && ([SELECTDB, Byte(id)] + rest)[2..] == rest;
    if id == n { OutsideArray(st.(dbid := Some(id)), e, t); }
  }

  /** So does an entry before any database number. */
  lemma OutsideArray(st: Loading, e: Entry, t: string)
    requires !Ready(st) && EntryOk(e) && InSync(e.val)
    ensures LoadLoop(EncEntry(e) + t, st) == Undefined
  {
    hide EncKey, EncValue, LoadEntry, CText, Stored, EncDeadline, Store;
    var body := EncKey(e.key) + EncValue(e.val) + t;
    assert EncEntry(e) + t == EncDeadline(e.deadline) + ([TYPE_STRING] + body);
    LoopDeadline(st, e.deadline, [TYPE_STRING] + body);
    assert ([TYPE_STRING] + body)[1..] == body;
  }

  /** A type other than a string is not loaded. */
  lemma OtherType(st: Loading, kind: char, t: string)
    requires kind as int !in {0, 0xFD, 0xFE, 0xFF}
    ensures LoadLoop([kind] + t, st) == Undefined
  {
    hide LoadEntry;
  }

  // ---------- Bytes that no save writes ----------

  /** A first byte that is no length and no integer code is a length of zero: an empty text. */
  lemma ReservedByte(c: char, t: string)
    requires 0x40 <= c as int < 0x80 || 0xC0 <= c as int < 0xFC || c as int == 0xFF
    ensures LoadValue([c] + t) == Some(Read(Embstr(""), t)) && LoadKey([c] + t) == Some(Read("", t))
  {
    hide FromLe, FromInt, Signed;
    assert ([c] + t)[1..] == t && t[0..] == t && CString("") == "";
  }

  /** A key whose bytes end early is what there is of it. */
  lemma ShortKey(n: nat, part: string)
    requires n < 0x1_0000_0000 && |part| < n && |part| <= 1024
    ensures LoadKey(EncLen(n) + part) == Some(Read(part, ""))
  {
    hide EncLen, LoadLen;
    LoadEncLen(n, part);
    assert part[..|part|] == part && part[|part|..] == "";
  }

  /** An integer of eleven characters loses the last. */
  lemma LongInteger(n: int)
    requires 10_0000_0000 <= n < 100_0000_0000
    ensures FromInt(-n) == Int(-(n / 10))
  {
    hide Create, Digits, Pow10;
    PowersOf10();
    assert Digits(n) == Digits(n / 10) + [Digit(n % 10)] by { DigitsOf(n); }
    LongDigits(n / 10);
    var s := Print(-n);
    assert s[..10] == Print(-(n / 10));
    CreatePrint(-(n / 10));
  }

  lemma DigitsOf(n: nat)
    requires n >= 10
    ensures Digits(n) == Digits(n / 10) + [Digit(n % 10)]
  {
  }

  lemma LongDigits(n: nat)
    requires 1_0000_0000 <= n < 10_0000_0000
    ensures |Digits(n)| == 9
  {
    hide Digits;
    var a, b, c := n / 1000, n / 1000000, n / 100000000;
    ThreeDigits(n);
    ThreeDigits(a);
    assert a / 1000 == b;
    assert 100 <= b < 1000;
    DigitsOf(b);
    DigitsOf(b / 10);
    OneDigit(b / 100);
  }

  lemma ThreeDigits(n: nat)
    requires n >= 1000
    ensures |Digits(n)| == |Digits(n / 1000)| + 3
  {
    hide Digits;
    DigitsOf(n);
    DigitsOf(n / 10);
    DigitsOf(n / 100);
    assert n / 10 / 10 == n / 100 && n / 100 / 10 == n / 1000;
  }

  lemma OneDigit(n: nat)
    requires n < 10
    ensures |Digits(n)| == 1
  {
  }

  /** A key that comes twice: the later value stands, and the first positive deadline. */
  lemma RepeatedKey(st: Loading, a: Rdb.Entry, b: Rdb.Entry, t: string)
    requires Ready(st) && st.expire <= 0 && EntryOk(a) && EntryOk(b) && InSync(a.val) && InSync(b.val)
    requires a.key == b.key && |a.key| <= 1024
    ensures var k, id, had := a.key, st.dbid.value, st.dbs[st.dbid.value].expires;
            var first := if k in had then Some(had[k])
                         else if a.deadline.Some? && a.deadline.value > 0 then a.deadline
                         else if b.deadline.Some? && b.deadline.value > 0 then b.deadline else None;
            var r := StoreEntry(StoreEntry(st, a), b);
            && LoadLoop(EncEntry(a) + (EncEntry(b) + t), st) == LoadLoop(t, r)
            && r.expire <= 0 && k in r.dbs[id].kv && r.dbs[id].kv[k] == Restored(b.val)
            && (k in r.dbs[id].expires <==> first.Some?) && (first.Some? ==> r.dbs[id].expires[k] == first.value)
            && (forall x :: x != k ==> (x in r.dbs[id].expires <==> x in had))
            && forall d :: 0 <= d < |st.dbs| && d != id ==> r.dbs[d] == st.dbs[d]
  {
    hide EncEntry, LoadLoop, EntryOk, InSync;
    LoopEntry(st, a, EncEntry(b) + t);
    LoopEntry(StoreEntry(st, a), b, t);
  }

  // ---------- The bytes ----------

  /** A snapshot byte by byte: database 0 with a small, a larger and a wide integer, database 1
      with a text and a deadline. */
  lemma GoldenFile()
    ensures var ints := [Rdb.Entry("a", Int(5), None), Rdb.Entry("b", Int(300), None), Rdb.Entry("c", Int(70000), None)];
            EncFile([ints, [Rdb.Entry("d", Embstr("xy"), Some(1000))]]) ==
            "REDIS0001" +
            ([0xFE as char, 0 as char] +
             ([0 as char, 1 as char, 'a', 0xFC as char, 5 as char] +
              [0 as char, 1 as char, 'b', 0xFD as char, 44 as char, 1 as char] +
              [0 as char, 1 as char, 'c', 0xFE as char, 112 as char, 17 as char, 1 as char, 0 as char]) +
             ([0xFE as char, 1 as char] +
              ([0xFD as char, 232 as char, 3 as char, 0 as char, 0 as char, 0 as char, 0 as char, 0 as char, 0 as char] +
               [0 as char, 1 as char, 'd', 2 as char, 'x', 'y']))) +
            [0xFF as char]
  {
    hide EncEntry, EncEntries, EncDbs;
    var a, b, c := Rdb.Entry("a", Int(5), None), Rdb.Entry("b", Int(300), None), Rdb.Entry("c", Int(70000), None);
    var d := Rdb.Entry("d", Embstr("xy"), Some(1000));
    GoldenEntries();
    ThreeEntries(a, b, c);
    OneEntry(d);
    TwoDbs([a, b, c], [d]);
  }

  lemma ThreeEntries(a: Rdb.Entry, b: Rdb.Entry, c: Rdb.Entry)
    ensures EncEntries([a, b, c]) == EncEntry(a) + EncEntry(b) + EncEntry(c)
  {
    hide EncEntry;
    assert [a, b, c][..2] == [a, b] && [a, b][..1] == [a];
    OneEntry(a);
    assert EncEntries([a, b]) == EncEntry(a) + EncEntry(b);
  }

  lemma OneEntry(a: Rdb.Entry)
    ensures EncEntries([a]) == EncEntry(a)
  {
    hide EncEntry;
    assert [a][..0] == [] && "" + EncEntry(a) == EncEntry(a);
  }

  lemma TwoDbs(a: seq<Rdb.Entry>, b: seq<Rdb.Entry>)
    ensures EncDbs([a, b]) == EncDb(0, a) + EncDb(1, b)
  {
    hide EncDb;
    assert [a, b][..1] == [a] && [a][..0] == [];
    assert EncDbs([a]) == "" + EncDb(0, a) == EncDb(0, a);
  }

  lemma GoldenEntries()
    ensures EncEntry(Rdb.Entry("a", Int(5), None)) == [0 as char, 1 as char, 'a', 0xFC as char, 5 as char]
    ensures EncEntry(Rdb.Entry("b", Int(300), None)) == [0 as char, 1 as char, 'b', 0xFD as char, 44 as char, 1 as char]
    ensures EncEntry(Rdb.Entry("c", Int(70000), None)) ==
            [0 as char, 1 as char, 'c', 0xFE as char, 112 as char, 17 as char, 1 as char, 0 as char]
    ensures EncEntry(Rdb.Entry("d", Embstr("xy"), Some(1000))) ==
            [0xFD as char, 232 as char, 3 as char, 0 as char, 0 as char, 0 as char, 0 as char, 0 as char, 0 as char] +
            [0 as char, 1 as char, 'd', 2 as char, 'x', 'y']
  {
    hide EncDeadline, EncKey, EncValue;
    GoldenParts();
    GoldenDeadline();
  }

  lemma GoldenParts()
    ensures EncKey("a") == [1 as char, 'a'] && EncKey("b") == [1 as char, 'b']
    ensures EncKey("c") == [1 as char, 'c'] && EncKey("d") == [1 as char, 'd']
    ensures EncValue(Int(5)) == [0xFC as char, 5 as char] && EncValue(Int(300)) == [0xFD as char, 44 as char, 1 as char]
    ensures EncValue(Int(70000)) == [0xFE as char, 112 as char, 17 as char, 1 as char, 0 as char]
    ensures EncValue(Embstr("xy")) == [2 as char, 'x', 'y']
  {
    PowersOf256();
    assert Le(5, 1) == [5 as char] by { LeOne(5); }
    assert Le(1, 1) == [1 as char] by { LeOne(1); }
    assert Le(0, 1) == [0 as char] by { LeOne(0); }
    assert Le(1, 2) == [1 as char] + Le(0, 1);
    assert Le(273, 3) == [17 as char] + Le(1, 2);
  }

  lemma GoldenDeadline()
    ensures EncDeadline(None) == ""
    ensures EncDeadline(Some(1000)) ==
            [0xFD as char, 232 as char, 3 as char, 0 as char, 0 as char, 0 as char, 0 as char, 0 as char, 0 as char]
  {
    assert Le(0, 1) == [0 as char] by { LeOne(0); }
    assert Le(0, 3) == [0 as char, 0 as char, 0 as char] by { assert Le(0, 2) == [0 as char] + Le(0, 1); }
    assert Le(0, 6) == [0 as char] + Le(0, 5) && Le(0, 5) == [0 as char] + Le(0, 4) && Le(0, 4) == [0 as char] + Le(0, 3);
    assert Le(3, 7) == [3 as char] + Le(0, 6);
    assert Le(1000, 8) == [232 as char] + Le(3, 7);
  }

  /** A key of more than 1024 bytes does not fit the buffer it is read into. */
  lemma KeyLimit(key: string, t: string)
    requires CText(key)
    ensures LoadKey(EncKey(key) + t).Some? <==> |key| <= 1024
  {
    hide EncKey, LoadKey, CText;
    LoadEncKey(key, t);
  }

  /** A text of 64 bytes or more has a length of two bytes: the first 128 and the high part. */
  lemma GoldenLength(n: nat)
    requires 64 <= n < 16384
    ensures EncLen(n) == [(128 + n / 256) as char, (n % 256) as char]
  {
  }
}
