/** The save and load procedures as they run on a file with a cursor, proved to write and
    read what module Rdb says. */
module RdbFile {
  import opened Wrappers
  import opened Robj
  import opened Rdb
  import DictSpec
  import DictIteration
  import Snapshot

  /** An open file. */
  class File {
    var bytes: string
    var pos: nat

    ghost predicate Valid() reads this { pos <= |bytes| }

    ghost function Rest(): string
      reads this
      requires Valid()
    {
      bytes[pos..]
    }

    constructor (bytes: string)
      ensures Valid() && this.bytes == bytes && pos == 0
    {
      this.bytes, this.pos := bytes, 0;
    }

    /** fwrite at the end of the file. */
    method Write(s: string)
      requires Valid() && pos == |bytes|
      modifies this
      ensures Valid() && pos == |bytes| && bytes == old(bytes) + s
    {
      bytes := bytes + s;
      pos := |bytes|;
    }

    /** fread: as many bytes as there are, at most n. */
    method Read(n: nat) returns (s: string)
      requires Valid()
      modifies this`pos
      ensures Valid()
      ensures var rest := old(Rest());
              var m := if n <= |rest| then n else |rest|;
              s == rest[..m] && Rest() == rest[m..]
    {
      var m := if n <= |bytes| - pos then n else |bytes| - pos;
      s := bytes[pos..pos + m];
      pos := pos + m;
    }

    /** _rdbSaveLen */
    method SaveLen(n: nat)
      requires Valid() && pos == |bytes|
      modifies this
      ensures Valid() && pos == |bytes| && bytes == old(bytes) + EncLen(n)
    {
      if n < 64 {
        Write([Byte(n)]);
      } else if n < LONG_STRING {
        Write([Byte(0x80 + n / 256), Byte(n)]);
      } else {
        Write([ENC_INT32] + Le(n, 4));
      }
    }

    /** The integer cases of _rdbSaveStringObject. */
    method SaveInt(n: int)
      requires Valid() && pos == |bytes|
      modifies this
      ensures Valid() && pos == |bytes| && bytes == old(bytes) + EncValue(Int(n))
    {
      hide Le, ToInt;
      var val := ToInt(n);
      if val <= 128 {
        Write([ENC_INT8]);
        Write(Le(val, 1));
      } else if val <= 32768 {
        Write([ENC_INT16]);
        Write(Le(val, 2));
      } else {
        Write([ENC_INT32]);
        Write(Le(val, 4));
      }
    }

    /** _rdbSaveStringObject */
    method SaveValue(v: Robj)
      requires Valid() && pos == |bytes|
      modifies this
      ensures Valid() && pos == |bytes| && bytes == old(bytes) + EncValue(v)
    {
      hide EncLen, ToInt, Le;
      match v
      case Int(n) =>
        SaveInt(n);
      case _ =>
        SaveLen(|v.s|);
        Write(v.s);
        EncText(v, "");
    }

    /** _rdbSaveKey */
    method SaveKey(key: string)
      requires Valid() && pos == |bytes|
      modifies this
      ensures Valid() && pos == |bytes| && bytes == old(bytes) + EncKey(key)
    {
      SaveLen(|key|);
      Write(key);
    }

    /** _rdbLoadLen */
    method LoadLen() returns (n: nat)
      requires Valid()
      modifies this`pos
      ensures Valid() && Rdb.Read(n, Rest()) == Rdb.LoadLen(old(Rest()))
    {
      hide FromLe;
      ghost var s := Rest();
      var buf := Read(1);
      if buf == "" { return 0; }
      var b := buf[0] as int;
      if b / 64 == 0 { return b % 64; }
      if b / 64 == 2 {
        var low := Read(1);
        if low == "" { return 0; }
        return b % 64 * 256 + low[0] as int;
      }
      if buf[0] == ENC_INT32 {
        var four := Read(4);
        if |four| < 4 { return 0; }
        assert four == s[1..5];
        return FromLe(four);
      }
      return 0;
    }

    /** _rdbLoadKey */
    method LoadKey() returns (key: Option<string>)
      requires Valid()
      modifies this`pos
      ensures Valid()
      ensures match Rdb.LoadKey(old(Rest()))
              case None => key == None
              case Some(r) => key == Some(r.value) && Rest() == r.rest
    {
      hide Rdb.LoadLen;
      var len := LoadLen();
      if len > KEY_BUFFER && |bytes| - pos > KEY_BUFFER { return None; }
      var buf := Read(len);
      return Some(buf);
    }

    /** _rdbLoadStringObject; None when it would use bytes that were not read. */
    method LoadValue() returns (v: Option<Robj>)
      requires Valid()
      modifies this`pos
      ensures Valid()
      ensures match Rdb.LoadValue(old(Rest()))
              case None => v == None
              case Some(r) => v == Some(r.value) && Rest() == r.rest
    {
      hide FromLe, Rdb.LoadLen, FromInt, Create, CString, Signed;
      ghost var s := Rest();
      var c := Read(1);
      if c == "" { return None; }
      if c[0] == ENC_INT8 {
        var val := Read(1);
        if |val| < 1 { return None; }
        return Some(FromInt(val[0] as int));
      }
      if c[0] == ENC_INT16 {
        var val := Read(2);
        if |val| < 2 { return None; }
        assert val == s[1..3];
        return Some(FromInt(Signed(FromLe(val), 2)));
      }
      if c[0] == ENC_INT32 {
        var val := Read(4);
        if |val| < 4 { return None; }
        assert val == s[1..5];
        return Some(FromInt(Signed(FromLe(val), 4)));
      }
      pos := pos - 1;
      var len := LoadLen();
      var buf := Read(len);
      if |buf| < len { return None; }
      return Some(Create(CString(buf)));
    }

    /** The key and value of one entry, after the type byte. */
    method LoadEntry() returns (r: Option<(string, Robj)>)
      requires Valid()
      modifies this`pos
      ensures Valid()
      ensures match Rdb.LoadEntry(old(Rest()))
              case None => r == None
              case Some(x) => r == Some(x.value) && Rest() == x.rest
    {
      hide Rdb.LoadKey, Rdb.LoadValue;
      var key := LoadKey();
      if key.None? { return None; }
      var val := LoadValue();
      if val.None? { return None; }
      return Some((key.value, val.value));
    }
  }

  /** rdbSave: every database that is not empty, through the dictionary iterator. */
  method RdbSave(dbs: seq<Snapshot.Source>) returns (file: File)
    requires forall i :: 0 <= i < |dbs| ==> DictSpec.Valid(dbs[i].kv)
    ensures file.Valid() && file.bytes == EncFile(Snapshot.EntriesOfAll(dbs))
  {
    hide Snapshot.EntriesOf, EncDb, DictSpec.Valid;
    file := new File("");
    file.Write(MAGIC);
    ghost var snap := Snapshot.EntriesOfAll(dbs);
    for i := 0 to |dbs|
      invariant file.Valid() && file.pos == |file.bytes| && file.bytes == MAGIC + EncDbs(snap[..i])
    {
      assert snap[..i + 1][..i] == snap[..i] && snap[..i + 1][i] == Snapshot.EntriesOf(dbs[i]);
      SaveDb(file, i, dbs[i]);
    }
    assert snap[..|dbs|] == snap;
    file.Write([EOF]);
  }

  /** The part of rdbSave for one database. */
  method SaveDb(file: File, id: nat, db: Snapshot.Source)
    requires file.Valid() && file.pos == |file.bytes| && DictSpec.Valid(db.kv)
    modifies file
    ensures file.Valid() && file.pos == |file.bytes|
    ensures file.bytes == old(file.bytes) + EncDb(id, Snapshot.EntriesOf(db))
  {
    hide EncEntries, DictSpec.Valid, Snapshot.EntriesOf;
    Snapshot.EmptySaved(db);
    if db.kv.ht0.used == 0 { return; }
    file.Write([SELECTDB]);
    file.Write([Byte(id)]);
    SaveEntries(file, db);
  }

  /** The iteration of rdbSave over one dictionary. */
  method SaveEntries(file: File, db: Snapshot.Source)
    requires file.Valid() && file.pos == |file.bytes| && DictSpec.Valid(db.kv) && db.kv.ht0.used != 0
    modifies file
    ensures file.Valid() && file.pos == |file.bytes|
    ensures file.bytes == old(file.bytes) + EncEntries(Snapshot.EntriesOf(db))
  {
    hide EncEntry, DictSpec.Valid, DictIteration.IterNext, DictIteration.Remaining, DictIteration.IterOk, EncEntries, Snapshot.WithDeadlines, Snapshot.WithDeadline;
    Snapshot.StartOk(db.kv);
    var it := DictIteration.Start<Robj>();
    var more := true;
    ghost var done: seq<DictSpec.Entry<Robj>> := [];
    Snapshot.WithDeadlinesNil(db.expires);
    while more
      invariant file.Valid() && file.pos == |file.bytes| && DictIteration.IterOk(db.kv, it)
      invariant DictIteration.Yield(db.kv, DictIteration.Start()) == done + if more then DictIteration.Yield(db.kv, it) else []
      invariant file.bytes == old(file.bytes) + EncEntries(Snapshot.WithDeadlines(done, db.expires))
      decreases more, |DictIteration.Remaining(db.kv, it)|
    {
      DictIteration.IterNextTakes(db.kv, it);
      var next := DictIteration.IterNext(db.kv, it);
      it := next.0;
      if next.1.None? {
        more := false;
      } else {
        SaveEntry(file, Snapshot.WithDeadline(next.1.value, db.expires));
        Snapshot.EncSnoc(done, next.1.value, db.expires);
        done := done + [next.1.value];
      }
    }
    assert done == DictIteration.Yield(db.kv, DictIteration.Start());
  }

  /** The part of rdbSave for one key. */
  method SaveEntry(file: File, e: Entry)
    requires file.Valid() && file.pos == |file.bytes|
    modifies file
    ensures file.Valid() && file.pos == |file.bytes| && file.bytes == old(file.bytes) + EncEntry(e)
  {
    hide Le, EncKey, EncValue;
    if e.deadline.Some? {
      file.Write([EXPIRETIME]);
      file.Write(Le(e.deadline.value, 8));
    }
    file.Write([TYPE_STRING]);
    file.SaveKey(e.key);
    file.SaveValue(e.val);
  }

  /** rdbLoad: `dbs` is filled in place. */
  method RdbLoad(file: File, dbs: array<Db>) returns (o: Outcome)
    requires file.Valid() && file.pos == 0
    modifies file`pos, dbs
    ensures o == LoadFile(file.bytes, old(dbs[..]))
    ensures o.Loaded? ==> dbs[..] == o.dbs
  {
    hide Rdb.LoadEntry, FromLe, Signed, StoreIn;
    var magic := file.Read(|MAGIC|);
    assert file.bytes[0..] == file.bytes;
    if magic != MAGIC[..|magic|] { return NoSnapshot; }
    if |magic| < |MAGIC| { return Undefined; }
    var dbid: Option<nat> := None;
    var expire := 0;
    ghost var all := LoadFile(file.bytes, old(dbs[..]));
    while true
      invariant file.Valid() && all == LoadLoop(file.Rest(), Loading(dbs[..], dbid, expire))
      decreases |file.bytes| - file.pos
    {
      ghost var s := file.Rest();
      var kind := file.Read(1);
      if kind == "" { return Undefined; }
      if kind[0] == EOF { return Loaded(dbs[..], file.bytes[file.pos..]); }
      if kind[0] == SELECTDB {
        var id := file.Read(1);
        if id == "" { return Undefined; }
        if id[0] as int > dbs.Length { return Exits; }
        dbid := Some(id[0] as int);
      } else if kind[0] == EXPIRETIME {
        var t := file.Read(8);
        if |t| < 8 { return Undefined; }
        assert t == s[1..9];
        expire := Signed(FromLe(t), 8);
      } else {
        assert s[1..] == file.Rest();
        var entry := file.LoadEntry();
        if entry.None? || kind[0] != TYPE_STRING || dbid.None? || dbid.value >= dbs.Length { return Undefined; }
        dbs[dbid.value] := StoreIn(dbs[dbid.value], entry.value.0, entry.value.1, expire);
        if expire > 0 { expire := 0; }
      }
    }
  }
}
