/** The snapshot file: its codec, the save and load procedures over a file cursor, and what
    a saved snapshot loads as. Characters stand for bytes. */
module Rdb {
  import opened Wrappers
  import opened Decimal
  import opened Robj
  import Sds

  const ENC_INT8: char := 0xFC as char
  const ENC_INT16: char := 0xFD as char
  const ENC_INT32: char := 0xFE as char
  const EXPIRETIME: char := 0xFD as char
  const SELECTDB: char := 0xFE as char
  const EOF: char := 0xFF as char
  const TYPE_STRING: char := 0 as char
  const MAGIC := "REDIS0001"
  const KEY_BUFFER := 1024
  /** Strings of this length or more are written with a five-byte length. */
  const LONG_STRING := 0x4000

  // ---------- Bytes ----------

  predicate Bytes(s: string) { forall i :: 0 <= i < |s| ==> s[i] as int < 256 }

  /** A C string held by an sds: bytes without NUL, with a length that is an int. */
  predicate CText(s: string) { |s| <= INT_MAX && Bytes(s) && forall i :: 0 <= i < |s| ==> s[i] != Sds.NUL }

  function Byte(n: int): char { (n % 256) as char }

  /** The k low bytes of n, lowest first. */
  function Le(n: int, k: nat): (s: string)
    ensures |s| == k && Bytes(s)
    decreases k
  {
    if k == 0 then "" else [Byte(n)] + Le(n / 256, k - 1)
  }

  function FromLe(s: string): nat { if s == "" then 0 else s[0] as int + 256 * FromLe(s[1..]) }

  function Pow256(k: nat): nat { if k == 0 then 1 else 256 * Pow256(k - 1) }

  /** The two's complement reading of n < 256^k. */
  function Signed(n: int, k: nat): int { if 2 * n >= Pow256(k) then n - Pow256(k) else n }

  lemma {:induction false} FromLeLe(n: nat, k: nat)
    requires n < Pow256(k)
    ensures FromLe(Le(n, k)) == n
  {
    if k > 0 {
      FromLeLe(n / 256, k - 1);
      assert Le(n, k)[1..] == Le(n / 256, k - 1);
    }
  }

  lemma {:induction false} FromLeRange(s: string)
    requires Bytes(s)
    ensures FromLe(s) < Pow256(|s|)
  {
    if s != "" { FromLeRange(s[1..]); }
  }

  /** Writing the low bytes of any n and reading them back. */
  lemma {:induction false} FromLeMod(n: int, k: nat)
    ensures Pow256(k) > 0 && FromLe(Le(n, k)) == n % Pow256(k)
    decreases k
  {
    if k > 0 {
      FromLeMod(n / 256, k - 1);
      assert Le(n, k)[1..] == Le(n / 256, k - 1);
      ModSplit(n, Pow256(k - 1));
    }
  }

  lemma ModSplit(n: int, p: int)
    requires p > 0
    ensures n % (256 * p) == n % 256 + 256 * (n / 256 % p)
  {
    var q := n / 256;
    assert n == 256 * (p * (q / p) + q % p) + n % 256;
    assert n == (256 * p) * (q / p) + (256 * (q % p) + n % 256);
    ModIs(n, 256 * p, q / p, 256 * (q % p) + n % 256);
  }

  lemma ModIs(n: int, m: int, q: int, r: int)
    requires m > 0 && n == m * q + r && 0 <= r < m
    ensures n % m == r
  {
    var p, x := n / m, n % m;
    assert n == m * p + x && 0 <= x < m;
    Apart(m, q, p, r - x);
  }

  lemma Apart(m: int, q: int, p: int, d: int)
    requires m > 0 && m * q + d == m * p && -m < d < m
    ensures d == 0
  {
    assert m * (p - q) == d;
    if p > q { MulAtLeast(m, p - q); }
    if p < q { MulAtLeast(m, q - p); }
  }

  lemma MulAtLeast(m: int, k: int)
    requires m > 0 && k > 0
    ensures m * k >= m
  {
  }

  lemma PowersOf256()
    ensures Pow256(1) == 0x100 && Pow256(2) == 0x1_0000 && Pow256(4) == 0x1_0000_0000
    ensures Pow256(8) == 0x1_0000_0000_0000_0000
  {
    assert Pow256(2) == 256 * Pow256(1) && Pow256(3) == 256 * Pow256(2) && Pow256(4) == 256 * Pow256(3);
    assert Pow256(5) == 256 * Pow256(4) && Pow256(6) == 256 * Pow256(5);
    assert Pow256(7) == 256 * Pow256(6) && Pow256(8) == 256 * Pow256(7);
  }

  lemma SignedLe(n: int, k: nat)
    requires k > 0 && -(Pow256(k) as int) <= 2 * n < Pow256(k)
    ensures Signed(FromLe(Le(n, k)), k) == n
  {
    FromLeMod(n, k);
    if n >= 0 { ModIs(n, Pow256(k), 0, n); } else { ModIs(n, Pow256(k), -1, n + Pow256(k)); }
  }

  // ---------- The codec ----------

  datatype Read<T> = Read(value: T, rest: string)

  /** _rdbSaveLen */
  function EncLen(n: nat): string {
    if n < 64 then [Byte(n)]
    else if n < LONG_STRING then [Byte(0x80 + n / 256), Byte(n)]
    else [ENC_INT32] + Le(n, 4)
  }

  /** _rdbLoadLen: 0 when the file is too short or the marker is 01 or 11xxxxxx. */
  function LoadLen(s: string): (r: Read<nat>)
    ensures |r.rest| <= |s|
  {
    if s == "" then Read(0, "")
    else
      var b := s[0] as int;
      if b / 64 == 0 then Read(b % 64, s[1..])
      else if b / 64 == 2 then (if |s| < 2 then Read(0, "") else Read(b % 64 * 256 + s[1] as int, s[2..]))
      else if s[0] == ENC_INT32 then (if |s| < 5 then Read(0, "") else Read(FromLe(s[1..5]), s[5..]))
      else Read(0, s[1..])
  }

  /** A C string ends at its first NUL. */
  function CString(s: string): string { s[..Sds.FirstNul(s)] }

  /** The (int) cast of a long. */
  function ToInt(n: int): int { Signed(n % 0x1_0000_0000, 4) }

  /** _rdbSaveStringObject */
  function EncValue(v: Robj): string {
    match v
    case Int(n) =>
      var val := ToInt(n);
      if val <= 128 then [ENC_INT8] + Le(val, 1)
      else if val <= 32768 then [ENC_INT16] + Le(val, 2)
      else [ENC_INT32] + Le(val, 4)
    case _ => EncLen(|v.s|) + v.s
  }

  /** An integer value read back goes through a text of at most ten characters. */
  function FromInt(n: int): Robj {
    var s := Print(n);
    Create(if |s| <= 10 then s else s[..10])
  }

  /** _rdbLoadStringObject; None when it would use bytes that were not read. */
  function LoadValue(s: string): (r: Option<Read<Robj>>)
    ensures r.Some? ==> |r.value.rest| <= |s|
  {
    if s == "" then None
    else if s[0] == ENC_INT8 then
      if |s| < 2 then None else Some(Read(FromInt(s[1] as int), s[2..]))
    else if s[0] == ENC_INT16 then
      if |s| < 3 then None else Some(Read(FromInt(Signed(FromLe(s[1..3]), 2)), s[3..]))
    else if s[0] == ENC_INT32 then
      if |s| < 5 then None else Some(Read(FromInt(Signed(FromLe(s[1..5]), 4)), s[5..]))
    else
      var r := LoadLen(s);
      if |r.rest| < r.value then None else Some(Read(Create(CString(r.rest[..r.value])), r.rest[r.value..]))
  }

  /** _rdbSaveKey */
  function EncKey(key: string): string { EncLen(|key|) + key }

  /** _rdbLoadKey; None when the key does not fit its buffer. */
  function LoadKey(s: string): (r: Option<Read<string>>)
    ensures r.Some? ==> |r.value.rest| <= |s|
  {
    var r := LoadLen(s);
    var n := if r.value <= |r.rest| then r.value else |r.rest|;
    if n > KEY_BUFFER then None else Some(Read(r.rest[..n], r.rest[n..]))
  }

  /** What one key of a database contributes to the file. */
  datatype Entry = Entry(key: string, val: Robj, deadline: Option<int>)

  function EncDeadline(d: Option<int>): string {
    match d
    case None => ""
    case Some(t) => [EXPIRETIME] + Le(t, 8)
  }

  function EncEntry(e: Entry): string {
    EncDeadline(e.deadline) + ([TYPE_STRING] + (EncKey(e.key) + EncValue(e.val)))
  }

  function EncEntries(es: seq<Entry>): string {
    if es == [] then "" else EncEntries(es[..|es| - 1]) + EncEntry(es[|es| - 1])
  }

  function EncDb(id: nat, es: seq<Entry>): string {
    if es == [] then "" else [SELECTDB, Byte(id)] + EncEntries(es)
  }

  function EncDbs(dbs: seq<seq<Entry>>): string {
    if dbs == [] then "" else EncDbs(dbs[..|dbs| - 1]) + EncDb(|dbs| - 1, dbs[|dbs| - 1])
  }

  /** rdbSave up to the checksum. */
  function EncFile(dbs: seq<seq<Entry>>): string { MAGIC + EncDbs(dbs) + [EOF] }

  // ---------- Loading ----------

  datatype Db = Db(kv: map<string, Robj>, expires: map<string, int>)

  const EMPTY_DB := Db(map[], map[])

  /** dbid is None until a SELECTDB sets it. */
  datatype Loading = Loading(dbs: seq<Db>, dbid: Option<nat>, expire: int)

  /** `rest` is what follows the end marker. `Undefined`: the C code would use bytes it did
      not read, or leave a buffer or the database array. */
  datatype Outcome = Loaded(dbs: seq<Db>, rest: string) | NoSnapshot | Exits | Undefined

  /** dbAdd overwrites; dbSetExpire, for a positive pending deadline, does not. */
  function StoreIn(db: Db, key: string, val: Robj, expire: int): Db {
    Db(db.kv[key := val],
       if expire > 0 && key !in db.expires then db.expires[key := expire] else db.expires)
  }

  /** A positive pending deadline is used up. */
  function Store(st: Loading, key: string, val: Robj): (r: Loading)
    requires st.dbid.Some? && st.dbid.value < |st.dbs|
    ensures |r.dbs| == |st.dbs| && r.dbid == st.dbid
  {
    var id := st.dbid.value;
    Loading(st.dbs[id := StoreIn(st.dbs[id], key, val, st.expire)], st.dbid, if st.expire > 0 then 0 else st.expire)
  }

  /** One key with its value, after the type byte. */
  function LoadEntry(s: string): (r: Option<Read<(string, Robj)>>)
    ensures r.Some? ==> |r.value.rest| <= |s|
  {
    match LoadKey(s)
    case None => None
    case Some(k) =>
      match LoadValue(k.rest)
      case None => None
      case Some(v) => Some(Read((k.value, v.value), v.rest))
  }

  /** The loop of rdbLoad. */
  function LoadLoop(s: string, st: Loading): Outcome
    decreases |s|
  {
    if s == "" then Undefined
    else if s[0] == EOF then Loaded(st.dbs, s[1..])
    else if s[0] == SELECTDB then
      if |s| < 2 then Undefined
      else if s[1] as int > |st.dbs| then Exits
      else LoadLoop(s[2..], st.(dbid := Some(s[1] as int)))
    else if s[0] == EXPIRETIME then
      if |s| < 9 then Undefined
      else LoadLoop(s[9..], st.(expire := Signed(FromLe(s[1..9]), 8)))
    else
      match LoadEntry(s[1..])
      case None => Undefined
      case Some(r) =>
        if s[0] != TYPE_STRING || st.dbid.None? || st.dbid.value >= |st.dbs| then Undefined
        else LoadLoop(r.rest, Store(st, r.value.0, r.value.1))
  }

  /** rdbLoad up to the checksum. */
  function LoadFile(s: string, dbs: seq<Db>): Outcome {
    var n := if |s| < |MAGIC| then |s| else |MAGIC|;
    if s[..n] != MAGIC[..n] then NoSnapshot
    else if n < |MAGIC| then Undefined
    else LoadLoop(s[n..], Loading(dbs, None, 0))
  }

  // ---------- The length code and the value code invert ----------

  /** The length code is read back exactly, for every 32-bit length and whatever follows it. */
  lemma LoadEncLen(n: nat, t: string)
    requires n < 0x1_0000_0000
    ensures LoadLen(EncLen(n) + t) == Read(n, t)
    ensures |EncLen(n)| == if n < 64 then 1 else if n < LONG_STRING then 2 else 5
  {
    hide Le, FromLe;
    PowersOf256();
    var s := EncLen(n) + t;
    assert s[|EncLen(n)|..] == t;
    if n >= LONG_STRING {
      FromLeLe(n, 4);
      assert s[1..5] == Le(n, 4);
    }
  }

  lemma CStringSelf(s: string)
    requires CText(s)
    ensures CString(s) == s
  {
  }

  lemma PowersOf10()
    ensures Pow10(9) == 10_0000_0000 && Pow10(10) == 100_0000_0000
  {
    assert Pow10(5) == 100000;
    assert Pow10(6) == 1000000 && Pow10(7) == 10000000 && Pow10(8) == 100000000;
  }

  lemma FromSmallInt(n: int)
    requires -10_0000_0000 < n < 100_0000_0000
    ensures FromInt(n) == Int(n)
  {
    hide Create, Digits, Pow10;
    PowersOf10();
    if n < 0 { DigitsLength(-n, 9); } else { DigitsLength(n, 10); }
    CreatePrint(n);
  }

  /** Whether the value reader stops where the value writer did. */
  predicate InSync(v: Robj) { v.Int? || |v.s| < LONG_STRING }

  /** A value that storing some text produces, with a text that is a C string. */
  ghost predicate Stored(v: Robj) { Canonical(v) && (!v.Int? ==> CText(v.s)) }

  /** What a value that is read in step comes back as. */
  function Restored(v: Robj): Robj {
    match v
    case Int(n) =>
      var val := ToInt(n);
      Int(if val <= 128 then val % 256 else if val == 32768 then -32768 else val)
    case _ => v
  }

  lemma LoadEncInt(n: int, t: string)
    ensures LoadValue(EncValue(Int(n)) + t) == Some(Read(Restored(Int(n)), t))
  {
    hide Le, FromLe, FromInt;
    PowersOf256();
    var val := ToInt(n);
    var s := EncValue(Int(n)) + t;
    if val <= 128 {
      assert Le(val, 1) == [Byte(val)] by { LeOne(val); }
      assert s[2..] == t;
      FromSmallInt(val % 256);
    } else if val <= 32768 {
      assert s[1..3] == Le(val, 2) && s[3..] == t;
      FromLeLe(val, 2);
      FromSmallInt(Signed(val, 2));
    } else {
      assert s[1..5] == Le(val, 4) && s[5..] == t;
      FromLeLe(val, 4);
      FromSmallInt(val);
    }
  }

  lemma LeOne(n: int)
    ensures Le(n, 1) == [Byte(n)]
  {
    assert Le(n / 256, 0) == "";
  }

  lemma CreateStored(v: Robj)
    requires Stored(v) && !v.Int?
    ensures Create(CString(v.s)) == v
  {
    CanonicalIff(v);
    CStringSelf(v.s);
  }

  lemma LoadEncText(v: Robj, t: string)
    requires Stored(v) && !v.Int?
    ensures InSync(v) ==> LoadValue(EncValue(v) + t) == Some(Read(v, t))
    ensures !InSync(v) ==> LoadValue(EncValue(v) + t) == Some(Read(Int(|v.s|), v.s + t))
  {
    var n := |v.s|;
    var s, r := EncValue(v) + t, v.s + t;
    hide EncLen, LoadValue, Stored, EncValue;
    EncText(v, t);
    StoredLength(v);
    if InSync(v) { LoadShortText(v, s, t); } else { LoadLongText(n, s, r); }
  }

  lemma EncText(v: Robj, t: string)
    requires !v.Int?
    ensures EncValue(v) + t == EncLen(|v.s|) + (v.s + t)
  {
    hide EncLen, Le, ToInt;
    assert EncValue(v) == EncLen(|v.s|) + v.s;
    Assoc(EncLen(|v.s|), v.s, t);
  }

  lemma Assoc(a: string, b: string, c: string)
    ensures (a + b) + c == a + (b + c)
  {
  }

  lemma StoredLength(v: Robj)
    requires Stored(v) && !v.Int?
    ensures |v.s| <= INT_MAX
  {
  }

  lemma LoadShortText(v: Robj, s: string, t: string)
    requires Stored(v) && !v.Int? && InSync(v) && s == EncLen(|v.s|) + (v.s + t)
    ensures LoadValue(s) == Some(Read(v, t))
  {
    hide Le, FromLe, FromInt, Create, CString, Stored, LoadLen;
    var n := |v.s|;
    LoadEncLen(n, v.s + t);
    assert s[0] != ENC_INT8 && s[0] != ENC_INT16 && s[0] != ENC_INT32;
    assert (v.s + t)[..n] == v.s && (v.s + t)[n..] == t;
    CreateStored(v);
  }

  lemma LoadLongText(n: nat, s: string, r: string)
    requires LONG_STRING <= n <= INT_MAX && s == EncLen(n) + r
    ensures LoadValue(s) == Some(Read(Int(n), r))
  {
    hide Le, FromLe, FromInt, Create, CString, LoadLen;
    PowersOf256();
    FromLeLe(n, 4);
    FromSmallInt(n);
    assert s[1..5] == Le(n, 4) && s[5..] == r;
  }

  /** The numbers the value code restores. */
  predicate Representable(v: Robj) {
    match v
    case Int(n) => 0 <= n <= INT_MAX && n != 32768
    case _ => |v.s| < LONG_STRING
  }

  lemma RestoredIff(v: Robj)
    requires InSync(v)
    ensures Restored(v) == v <==> Representable(v)
  {
    PowersOf256();
  }

  /** A stored value comes back, and the reader stops right after it, exactly when it is an
      integer in 0..2^31-1 other than 32768 or a text shorter than 2^14 bytes. */
  lemma ValueRoundTrip(v: Robj, t: string)
    requires Stored(v)
    ensures LoadValue(EncValue(v) + t) == Some(Read(v, t)) <==> Representable(v)
  {
    hide Canonical;
    if v.Int? {
      LoadEncInt(v.n, t);
      RestoredIff(v);
    } else {
      LoadEncText(v, t);
    }
  }

  // ---------- The load loop, part by part ----------

  /** An entry a server can hold. */
  ghost predicate EntryOk(e: Entry) {
    CText(e.key) && Stored(e.val) && (e.deadline.Some? ==> IsLong(e.deadline.value))
  }

  predicate Ready(st: Loading) { st.dbid.Some? && st.dbid.value < |st.dbs| }

  function Pend(st: Loading, d: Option<int>): Loading {
    match d
    case None => st
    case Some(t) => st.(expire := t)
  }

  function StoreEntry(st: Loading, e: Entry): (r: Loading)
    requires Ready(st)
    ensures Ready(r) && |r.dbs| == |st.dbs|
  {
    Store(Pend(st, e.deadline), e.key, Restored(e.val))
  }

  lemma LoopDeadline(st: Loading, d: Option<int>, t: string)
    requires d.Some? ==> IsLong(d.value)
    ensures LoadLoop(EncDeadline(d) + t, st) == LoadLoop(t, Pend(st, d))
  {
    hide Le, FromLe, LoadEntry;
    match d
    case None =>
      assert "" + t == t;
    case Some(x) =>
      PowersOf256();
      SignedLe(x, 8);
      var s := EncDeadline(d) + t;
      assert s[1..9] == Le(x, 8) && s[9..] == t;
  }

  lemma LoadEncKey(key: string, t: string)
    requires CText(key)
    ensures LoadKey(EncKey(key) + t) == if |key| > KEY_BUFFER then None else Some(Read(key, t))
  {
    hide EncLen, LoadLen;
    assert EncKey(key) + t == EncLen(|key|) + (key + t);
    LoadEncLen(|key|, key + t);
    assert (key + t)[..|key|] == key && (key + t)[|key|..] == t;
  }

  lemma LoadEncValue(v: Robj, t: string)
    requires Stored(v) && InSync(v)
    ensures LoadValue(EncValue(v) + t) == Some(Read(Restored(v), t))
  {
    hide LoadValue, EncValue, Stored;
    if v.Int? { LoadEncInt(v.n, t); } else { LoadEncText(v, t); }
  }

  lemma LoadEncEntry(key: string, v: Robj, t: string)
    requires CText(key) && Stored(v) && InSync(v)
    ensures LoadEntry(EncKey(key) + EncValue(v) + t) ==
            if |key| > KEY_BUFFER then None else Some(Read((key, Restored(v)), t))
  {
    hide EncKey, LoadKey, LoadValue, EncValue, CText, Stored;
    assert EncKey(key) + EncValue(v) + t == EncKey(key) + (EncValue(v) + t);
    LoadEncKey(key, EncValue(v) + t);
    LoadEncValue(v, t);
  }

  /** Loading one saved entry stores it; with a key longer than the key buffer it goes wrong. */
  lemma LoopEntry(st: Loading, e: Entry, t: string)
    requires Ready(st) && EntryOk(e) && InSync(e.val)
    ensures LoadLoop(EncEntry(e) + t, st) ==
            if |e.key| > KEY_BUFFER then Undefined else LoadLoop(t, StoreEntry(st, e))
  {
    hide EncKey, EncValue, LoadEntry, CText, Stored, EncDeadline;
    var body := EncKey(e.key) + EncValue(e.val) + t;
    assert EncEntry(e) + t == EncDeadline(e.deadline) + ([TYPE_STRING] + body);
    LoopDeadline(st, e.deadline, [TYPE_STRING] + body);
    LoadEncEntry(e.key, e.val, t);
    assert ([TYPE_STRING] + body)[1..] == body;
  }

  function StoreAll(st: Loading, es: seq<Entry>): (r: Loading)
    requires Ready(st)
    ensures Ready(r) && |r.dbs| == |st.dbs|
  {
    if es == [] then st else StoreEntry(StoreAll(st, es[..|es| - 1]), es[|es| - 1])
  }

  ghost predicate AllInSync(es: seq<Entry>) { forall e :: e in es ==> EntryOk(e) && InSync(e.val) }

  predicate KeysFit(es: seq<Entry>) { forall e :: e in es ==> |e.key| <= KEY_BUFFER }

  lemma {:induction false} LoopEntries(st: Loading, es: seq<Entry>, t: string)
    requires Ready(st) && AllInSync(es)
    ensures LoadLoop(EncEntries(es) + t, st) ==
            if KeysFit(es) then LoadLoop(t, StoreAll(st, es)) else Undefined
    decreases |es|
  {
    hide EncEntry, LoadLoop, EntryOk, InSync, StoreEntry;
    if es == [] {
      assert "" + t == t;
    } else {
      var init, e := es[..|es| - 1], es[|es| - 1];
      assert forall x :: x in es <==> x in init || x == e;
      assert EncEntries(es) + t == EncEntries(init) + (EncEntry(e) + t);
      LoopEntries(st, init, EncEntry(e) + t);
      if KeysFit(init) { LoopEntry(StoreAll(st, init), e, t); }
    }
  }

  function StoreDb(st: Loading, id: nat, es: seq<Entry>): (r: Loading)
    requires id < |st.dbs|
    ensures |r.dbs| == |st.dbs|
  {
    if es == [] then st else StoreAll(st.(dbid := Some(id)), es)
  }

  function StoreDbs(st: Loading, dbs: seq<seq<Entry>>): (r: Loading)
    requires |dbs| <= |st.dbs|
    ensures |r.dbs| == |st.dbs|
  {
    if dbs == [] then st
    else StoreDb(StoreDbs(st, dbs[..|dbs| - 1]), |dbs| - 1, dbs[|dbs| - 1])
  }

  lemma LoopDb(st: Loading, id: nat, es: seq<Entry>, t: string)
    requires id < |st.dbs| && (es != [] ==> id < 256) && AllInSync(es)
    ensures LoadLoop(EncDb(id, es) + t, st) ==
            if KeysFit(es) then LoadLoop(t, StoreDb(st, id, es)) else Undefined
  {
    hide EncEntries, StoreAll, AllInSync, LoadEntry;
    if es == [] {
      assert "" + t == t;
    } else {
      var s := EncDb(id, es) + t;
      assert s[2..] == EncEntries(es) + t;
      assert s[0] == SELECTDB && s[1] as int == id;
      LoopEntries(st.(dbid := Some(id)), es, t);
    }
  }

  /** The databases whose number does not fit the one byte it is written in are empty. */
  predicate IdsFit(dbs: seq<seq<Entry>>) { forall i :: 256 <= i < |dbs| ==> dbs[i] == [] }

  lemma {:induction false} LoopDbs(st: Loading, dbs: seq<seq<Entry>>, t: string)
    requires |dbs| <= |st.dbs| && IdsFit(dbs) && forall i :: 0 <= i < |dbs| ==> AllInSync(dbs[i])
    ensures LoadLoop(EncDbs(dbs) + t, st) ==
            if forall i :: 0 <= i < |dbs| ==> KeysFit(dbs[i]) then LoadLoop(t, StoreDbs(st, dbs)) else Undefined
    decreases |dbs|
  {
    hide EncDb, LoadLoop, AllInSync, KeysFit, StoreDb;
    if dbs == [] {
      assert "" + t == t;
    } else {
      var n := |dbs| - 1;
      var init, es := dbs[..n], dbs[n];
      assert EncDbs(dbs) + t == EncDbs(init) + (EncDb(n, es) + t);
      LoopDbs(st, init, EncDb(n, es) + t);
      if forall i :: 0 <= i < n ==> KeysFit(init[i]) {
        LoopDb(StoreDbs(st, init), n, es, t);
        assert (forall i :: 0 <= i < |dbs| ==> KeysFit(dbs[i])) <==> KeysFit(es);
      }
    }
  }

  // ---------- What a snapshot loads as ----------

  /** A database after one more loaded entry. */
  function AddEntry(db: Db, e: Entry): Db {
    StoreIn(db, e.key, Restored(e.val), if e.deadline.Some? then e.deadline.value else 0)
  }

  function DbOf(es: seq<Entry>): Db {
    if es == [] then EMPTY_DB else AddEntry(DbOf(es[..|es| - 1]), es[|es| - 1])
  }

  lemma {:induction false} StoreAllIs(st: Loading, es: seq<Entry>)
    requires Ready(st) && st.expire <= 0 && st.dbs[st.dbid.value] == EMPTY_DB
    ensures var r := StoreAll(st, es);
            r.dbs == st.dbs[st.dbid.value := DbOf(es)] && r.dbid == st.dbid && r.expire <= 0
    decreases |es|
  {
    if es != [] { StoreAllIs(st, es[..|es| - 1]); }
  }

  lemma {:induction false} StoreDbsIs(st: Loading, dbs: seq<seq<Entry>>)
    requires |dbs| <= |st.dbs| && st.expire <= 0
    requires forall i :: 0 <= i < |st.dbs| ==> st.dbs[i] == EMPTY_DB
    ensures var r := StoreDbs(st, dbs);
            r.expire <= 0 && forall i :: 0 <= i < |st.dbs| ==> r.dbs[i] == if i < |dbs| then DbOf(dbs[i]) else EMPTY_DB
    decreases |dbs|
  {
    hide DbOf;
    if dbs != [] {
      var n := |dbs| - 1;
      StoreDbsIs(st, dbs[..n]);
      var r := StoreDbs(st, dbs[..n]);
      if dbs[n] == [] { DbOfNone(); } else { StoreAllIs(r.(dbid := Some(n)), dbs[n]); }
    }
  }

  lemma DbOfNone()
    ensures DbOf([]) == EMPTY_DB
  {
  }

  function Empties(n: nat): seq<Db> { seq(n, i => EMPTY_DB) }

  /** A saved snapshot with values read in step and database numbers below 256 loads into
      empty databases as exactly these databases, up to the end marker; or, when a key is
      longer than the key buffer, it overruns that buffer. */
  lemma SnapshotLoads(dbs: seq<seq<Entry>>, sum: string)
    requires IdsFit(dbs) && forall i :: 0 <= i < |dbs| ==> AllInSync(dbs[i])
    ensures LoadFile(EncFile(dbs) + sum, Empties(|dbs|)) ==
            if forall i :: 0 <= i < |dbs| ==> KeysFit(dbs[i])
            then Loaded(seq(|dbs|, i requires 0 <= i < |dbs| => DbOf(dbs[i])), sum) else Undefined
  {
    hide AllInSync, KeysFit, EncDbs, DbOf, IdsFit, LoadEntry, StoreDbs;
    var s, st := EncFile(dbs) + sum, Loading(Empties(|dbs|), None, 0);
    assert s[..9] == MAGIC[..9];
    assert s[9..] == EncDbs(dbs) + ([EOF] + sum);
    LoopDbs(st, dbs, [EOF] + sum);
    StoreDbsIs(st, dbs);
    var r := StoreDbs(st, dbs);
    assert LoadLoop([EOF] + sum, r) == Loaded(r.dbs, sum) by { assert ([EOF] + sum)[1..] == sum; }
    assert r.dbs == seq(|dbs|, i requires 0 <= i < |dbs| => DbOf(dbs[i]));
  }

  /** Entries with one key agree. */
  predicate Functional(es: seq<Entry>) { forall d, e :: d in es && e in es && d.key == e.key ==> d == e }

  lemma {:induction false} DbOfKv(es: seq<Entry>)
    requires Functional(es)
    ensures forall k :: k in DbOf(es).kv <==> exists e :: e in es && e.key == k
    ensures forall e :: e in es ==> DbOf(es).kv[e.key] == Restored(e.val)
    decreases |es|
  {
    hide Restored;
    if es != [] {
      var init, e := es[..|es| - 1], es[|es| - 1];
      assert forall x :: x in es <==> x in init || x == e;
      DbOfKv(init);
    }
  }

  predicate Lives(e: Entry) { e.deadline.Some? && e.deadline.value > 0 }

  lemma {:induction false} DbOfExpires(es: seq<Entry>)
    requires Functional(es)
    ensures forall k :: k in DbOf(es).expires <==> exists e :: e in es && e.key == k && Lives(e)
    ensures forall e :: e in es && e.key in DbOf(es).expires ==> e.deadline == Some(DbOf(es).expires[e.key])
    decreases |es|
  {
    hide Restored;
    if es != [] {
      var init, e := es[..|es| - 1], es[|es| - 1];
      assert forall x :: x in es <==> x in init || x == e;
      DbOfExpires(init);
    }
  }

  lemma DbOfIs(es: seq<Entry>)
    requires Functional(es)
    ensures forall k :: k in DbOf(es).kv <==> exists e :: e in es && e.key == k
    ensures forall e :: e in es ==> DbOf(es).kv[e.key] == Restored(e.val)
    ensures forall k :: k in DbOf(es).expires <==> exists e :: e in es && e.key == k && Lives(e)
    ensures forall e :: e in es && e.key in DbOf(es).expires ==> e.deadline == Some(DbOf(es).expires[e.key])
  {
    hide DbOf, Functional, Restored, Lives;
    DbOfKv(es);
    DbOfExpires(es);
  }
}
