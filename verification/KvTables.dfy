/** The key dictionaries behind the databases: what every run of the server calls on them, and
    when they bear it. */
module KvTables {
  import opened Wrappers
  import opened Robj
  import opened Server
  import opened DictRuns
  import DictCrash
  import DictSpec

  type Table = DictSpec.Dict<Robj>

  /** The calls on the dictionary of database d, in order. */
  function OnDb(calls: seq<Call>, d: nat): seq<Op<Robj>>
  {
    if calls == [] then []
    else
      var last := calls[|calls| - 1];
      OnDb(calls[..|calls| - 1], d) + if last.dbid == d then last.ops else []
  }

  lemma {:induction false} OnDbConcat(a: seq<Call>, b: seq<Call>, d: nat)
    ensures OnDb(a + b, d) == OnDb(a, d) + OnDb(b, d)
    decreases |b|
  {
    if b == [] {
      assert a + b == a;
    } else {
      var init := b[..|b| - 1];
      assert (a + b)[..|a + b| - 1] == a + init;
      OnDbConcat(a, init, d);
    }
  }

  lemma {:induction false} MapRunConcat<V>(m: map<Key, V>, a: seq<Op<V>>, b: seq<Op<V>>)
    ensures var (m1, x) := MapRun(m, a);
            var (m2, y) := MapRun(m1, b);
            MapRun(m, a + b) == (m2, x + y)
    decreases |a|
  {
    hide MapOp;
    var (m1, x) := MapRun(m, a);
    var (m2, y) := MapRun(m1, b);
    if a == [] {
      assert a + b == b && x + y == y;
    } else {
      assert (a + b)[1..] == a[1..] + b;
      var (m0, first) := MapOp(m, a[0]);
      MapRunConcat(m0, a[1..], b);
      assert [first] + (MapRun(m0, a[1..]).1 + y) == x + y;
    }
  }

  lemma MapRunOne<V>(m: map<Key, V>, a: Op<V>)
    ensures MapRun(m, [a]) == (MapOp(m, a).0, [MapOp(m, a).1])
  {
    hide MapOp;
    assert [a][1..] == [];
    assert [MapOp(m, a).1] + [] == [MapOp(m, a).1];
  }

  lemma MapRunTwo<V>(m: map<Key, V>, a: Op<V>, b: Op<V>)
    ensures var (m1, x) := MapOp(m, a);
            MapRun(m, [a, b]) == (MapOp(m1, b).0, [x, MapOp(m1, b).1])
  {
    hide MapOp, MapRun;
    var (m1, x) := MapOp(m, a);
    MapRunOne(m, a);
    MapRunOne(m1, b);
    MapRunConcat(m, [a], [b]);
    assert [a] + [b] == [a, b] && [x] + [MapOp(m1, b).1] == [x, MapOp(m1, b).1];
  }

  // ---------- One command ----------

  /** The reply of a handler as read off the answers of its calls. */
  predicate ReplyMatches(cmd: Command, argv: Request, answers: seq<Answer<Robj>>, reply: Reply) {
    match cmd
    case GetCmd =>
      |answers| == 1 && answers[0].Value? &&
      reply == (match answers[0].val case Some(v) => Bulk(Show(v)) case None => KeyNotFound)
    case DelCmd => |answers| == 1 && answers[0].Success? && reply == if answers[0].ok then Ok else KeyNotFound
    case SetCmd => |argv| > 2 ==> |answers| == 2 && answers[1] == Success(true) && reply == Ok
    case _ => true
  }

  /** A handler's calls turn the table into the handler's, and answer what it replies. */
  lemma HandlerMatches(db: Db, cmd: Command, argv: Request, now: int)
    requires |argv| >= 2 && DataEffect(db, cmd, argv, now).Effect?
    ensures var e := DataEffect(db, cmd, argv, now);
            var (kv, answers) := MapRun(db.kv, HandlerCalls(db.kv, cmd, argv));
            kv == e.db.kv && ReplyMatches(cmd, argv, answers, e.reply)
  {
    hide Create, Show, MapRun;
    var key, ops := argv[1], HandlerCalls(db.kv, cmd, argv);
    if |ops| == 1 { MapRunOne(db.kv, ops[0]); assert ops == [ops[0]]; }
    if |ops| == 2 { MapRunTwo(db.kv, ops[0], ops[1]); assert ops == [ops[0], ops[1]]; }
    if ops == [] { MapRunNone(db.kv); }
    assert key !in db.kv ==> db.kv - {key} == db.kv;
  }

  lemma MapRunNone<V>(m: map<Key, V>)
    ensures MapRun(m, []) == (m, [])
  {
  }

  lemma CallsMatch(db: Db, cmd: Command, argv: Request, now: int)
    requires |argv| >= 2 && DataEffect(ExpireIfNeed(db, argv[1], now), cmd, argv, now).Effect?
    ensures MapRun(db.kv, KvCalls(db, cmd, argv, now)).0 == DataEffect(ExpireIfNeed(db, argv[1], now), cmd, argv, now).db.kv
  {
    hide DataEffect, HandlerCalls, MapRun;
    var key, x := argv[1], ExpireIfNeed(db, argv[1], now);
    HandlerMatches(x, cmd, argv, now);
    MapRunConcat(db.kv, ExpiryCalls(db, key, now), HandlerCalls(x.kv, cmd, argv));
    MapRunOne(db.kv, DeleteOp(key));
    MapRunNone(db.kv);
    assert key !in db.kv ==> db.kv - {key} == db.kv;
  }

  // ---------- Every run ----------

  /** From s to t the calls have grown, and on each database the new ones account for what
      happened to its keys. */
  ghost predicate Extends(s: Server, t: Server) {
    && SameShape(s, t) && s.calls <= t.calls
    && forall d :: 0 <= d < |s.dbs| ==> MapRun(s.dbs[d].kv, OnDb(t.calls[|s.calls|..], d)).0 == t.dbs[d].kv
  }

  /** A step that leaves keys and calls alone. */
  predicate KeysKept(s: Server, t: Server) {
    SameShape(s, t) && t.calls == s.calls && forall d :: 0 <= d < |s.dbs| ==> t.dbs[d].kv == s.dbs[d].kv
  }

  lemma KeptExtends(s: Server, t: Server)
    requires KeysKept(s, t)
    ensures Extends(s, t)
  {
    assert t.calls[|s.calls|..] == [];
  }

  lemma ExtendsThrough(s: Server, t: Server, u: Server)
    requires Extends(s, t) && Extends(t, u)
    ensures Extends(s, u)
  {
    hide MapRun, OnDb, WellFormed;
    var a, b := t.calls[|s.calls|..], u.calls[|t.calls|..];
    assert u.calls[|s.calls|..] == a + b;
    forall d | 0 <= d < |s.dbs|
      ensures MapRun(s.dbs[d].kv, OnDb(u.calls[|s.calls|..], d)).0 == u.dbs[d].kv
    {
      OnDbConcat(a, b, d);
      MapRunConcat(s.dbs[d].kv, OnDb(a, d), OnDb(b, d));
    }
  }

  lemma DataStepExtends(s: Server, c: ClientId, cmd: Command, argv: Request, now: int)
    requires WellFormed(s) && c < |s.clients| && |argv| >= 2 && DataStep(s, c, cmd, argv, now).Done?
    ensures Extends(s, DataStep(s, c, cmd, argv, now).s)
  {
    hide DataEffect, ExpireIfNeed, KvCalls, MapRun;
    var d, t := s.clients[c].dbid, DataStep(s, c, cmd, argv, now).s;
    var call := Call(d, KvCalls(s.dbs[d], cmd, argv, now));
    CallsMatch(s.dbs[d], cmd, argv, now);
    assert t.calls[|s.calls|..] == [call];
    forall x | 0 <= x < |s.dbs| ensures MapRun(s.dbs[x].kv, OnDb([call], x)).0 == t.dbs[x].kv {
      OnDbOne(call, x);
      MapRunNone(s.dbs[x].kv);
    }
  }

  lemma OnDbOne(call: Call, d: nat)
    ensures OnDb([call], d) == if call.dbid == d then call.ops else []
  {
    assert OnDb([call][..0], d) == [];
    assert [] + call.ops == call.ops;
  }

  lemma {:induction false} AddWatchesKeys(db: Db, keys: seq<Key>, c: ClientId)
    ensures AddWatches(db, keys, c).kv == db.kv
    decreases |keys|
  {
    if keys != [] { AddWatchesKeys(db, keys[..|keys| - 1], c); }
  }

  lemma PerformExtends(s: Server, c: ClientId, cmd: Command, argv: Request, now: int)
    requires WellFormed(s) && c < |s.clients| && argv != [] && Perform(s, c, cmd, argv, now).Done?
    ensures Extends(s, Perform(s, c, cmd, argv, now).s)
  {
    hide DataStep, AddWatches, MapRun, Extends;
    var t := Perform(s, c, cmd, argv, now).s;
    if cmd.TouchesData() {
      var s1 := DataStep(s, c, cmd, argv, now).s;
      DataStepExtends(s, c, cmd, argv, now);
      KeptExtends(s1, t);
      ExtendsThrough(s, s1, t);
    } else {
      AddWatchesKeys(s.dbs[s.clients[c].dbid], argv[1..], c);
      KeptExtends(s, t);
    }
  }

  lemma QueueOrPlainExtends(s: Server, c: ClientId, argv: Request, now: int)
    requires WellFormed(s) && c < |s.clients| && argv != [] && QueueOrPlain(s, c, argv, now).Done?
    ensures Extends(s, QueueOrPlain(s, c, argv, now).s)
  {
    hide Perform, Extends;
    var t := QueueOrPlain(s, c, argv, now).s;
    var cmd := LookupCommand(s, c, argv[0]);
    if (Multi in s.clients[c].flags && !ExecPrefix(argv[0])) || cmd.None? {
      KeptExtends(s, t);
    } else {
      var s1 := s.(trace := s.trace + [Event(c, s.clients[c].dbid, cmd.value, argv)]);
      KeptExtends(s, s1);
      PerformExtends(s1, c, cmd.value, argv, now);
      ExtendsThrough(s, s1, t);
    }
  }

  lemma {:induction false} RunQueueExtends(s: Server, c: ClientId, i: nat, now: int)
    requires WellFormed(s) && c < |s.clients| && RunQueue(s, c, i, now).Done?
    ensures Extends(s, RunQueue(s, c, i, now).s)
    decreases QUEUE_MAX - i
  {
    hide QueueOrPlain, Extends, WellFormed;
    var queue := s.clients[c].queue;
    if i < |queue| {
      QueueEntry(s, c, i);
      var s1 := QueueOrPlain(s, c, queue[i], now).s;
      QueueOrPlainExtends(s, c, queue[i], now);
      RunQueueExtends(s1, c, i + 1, now);
      ExtendsThrough(s, s1, RunQueue(s1, c, i + 1, now).s);
    } else {
      KeptExtends(s, s);
    }
  }

  lemma QueueEntry(s: Server, c: ClientId, i: nat)
    requires WellFormed(s) && c < |s.clients| && i < |s.clients[c].queue|
    ensures s.clients[c].queue[i] != [] && i < QUEUE_MAX
  {
  }

  lemma ProcessExtends(s: Server, c: ClientId, argv: Request, now: int)
    requires WellFormed(s) && c < |s.clients| && argv != [] && ProcessQuery(s, c, argv, now).Done?
    ensures Extends(s, ProcessQuery(s, c, argv, now).s)
  {
    hide QueueOrPlain, RunQueue, Extends, CommandNamed;
    var t := ProcessQuery(s, c, argv, now).s;
    if CommandNamed(argv[0]) != Some(ExecCmd) {
      QueueOrPlainExtends(s, c, argv, now);
    } else {
      var client := s.clients[c];
      var flags := (client.flags - {Multi} + {Exec}) * {DirtyCas};
      var s0 := SetClient(s.(trace := s.trace + [Event(c, client.dbid, ExecCmd, argv)]), c, client.(flags := flags));
      KeptExtends(s, s0);
      if flags != {} {
        KeptExtends(s0, t);
        ExtendsThrough(s, s0, t);
      } else {
        var s1 := RunQueue(s0, c, 0, now).s;
        RunQueueExtends(s0, c, 0, now);
        KeptExtends(s1, t);
        ExtendsThrough(s, s0, s1);
        ExtendsThrough(s, s1, t);
      }
    }
  }

  /** In every run of any clients, transactions and expiry included, each database holds what its
      dictionary calls leave in a plain map. */
  lemma {:induction false} RunExtends(s: Server, inputs: seq<Input>)
    requires WellFormed(s) && InputsOk(inputs, |s.clients|) && Run(s, inputs).Done?
    ensures Extends(s, Run(s, inputs).s)
    decreases |inputs|
  {
    hide ProcessQuery, Extends, WellFormed;
    if inputs == [] {
      KeptExtends(s, s);
    } else {
      var q := inputs[0];
      var s1 := ProcessQuery(s, q.client, q.argv, q.now).s;
      ProcessExtends(s, q.client, q.argv, q.now);
      RunExtends(s1, inputs[1..]);
      ExtendsThrough(s, s1, Run(s1, inputs[1..]).s);
    }
  }

  // ---------- The dictionaries ----------

  /** Dictionaries that hold the keys of the databases, none of them stuck. */
  ghost predicate Backed(tables: seq<Table>, s: Server) {
    && |tables| == |s.dbs|
    && forall d :: 0 <= d < |tables| ==> Represents(tables[d], s.dbs[d].kv) && !DictSpec.Stuck(tables[d])
  }

  /** The calls made on the dictionary of database d between s and t. */
  function CallsBetween(s: Server, t: Server, d: nat): seq<Op<Robj>>
    requires s.calls <= t.calls
  {
    OnDb(t.calls[|s.calls|..], d)
  }

  /** With the completion check after each call, the dictionaries bear every run, deletes
      included: no call crashes, and afterwards they hold exactly the databases' keys. */
  lemma GuardedTables(tables: seq<Table>, s: Server, t: Server)
    requires Backed(tables, s) && Extends(s, t)
    ensures forall d :: 0 <= d < |tables| ==>
              && DictSpec.Valid(tables[d])
              && var r := RepairedRun(tables[d], CallsBetween(s, t, d));
                 r.Some? && Represents(r.value.0, t.dbs[d].kv) && !DictSpec.Stuck(r.value.0)
  {
    hide OnDb, MapRun, RepairedRun, Represents, DictSpec.Valid, DictSpec.Stuck;
    forall d | 0 <= d < |tables|
      ensures && DictSpec.Valid(tables[d])
              && var r := RepairedRun(tables[d], CallsBetween(s, t, d));
                 r.Some? && Represents(r.value.0, t.dbs[d].kv) && !DictSpec.Stuck(r.value.0)
    {
      RepairedRefines(tables[d], s.dbs[d].kv, CallsBetween(s, t, d));
    }
  }

  /** As coded, a dictionary bears the run if and only if no delete of it takes the last entry of
      ht[0] while the rehash is on, with a later call that needs a step; and then it holds
      exactly the database's keys. */
  lemma CodedTables(tables: seq<Table>, s: Server, t: Server)
    requires Backed(tables, s) && Extends(s, t)
    ensures forall d :: 0 <= d < |tables| ==>
              && DictSpec.Valid(tables[d])
              && var r := DictRun(tables[d], CallsBetween(s, t, d));
                 && (r.None? <==> DictCrash.Doomed(tables[d], s.dbs[d].kv, CallsBetween(s, t, d)))
                 && (r.Some? ==> Represents(r.value.0, t.dbs[d].kv))
  {
    hide OnDb, MapRun, DictRun, DictCrash.Doomed, Represents, DictSpec.Valid, DictSpec.Stuck;
    forall d | 0 <= d < |tables|
      ensures && DictSpec.Valid(tables[d])
              && var r := DictRun(tables[d], CallsBetween(s, t, d));
                 && (r.None? <==> DictCrash.Doomed(tables[d], s.dbs[d].kv, CallsBetween(s, t, d)))
                 && (r.Some? ==> Represents(r.value.0, t.dbs[d].kv))
    {
      RepresentsValid(tables[d], s.dbs[d].kv);
      DictCrash.RunCrashesIff(tables[d], s.dbs[d].kv, CallsBetween(s, t, d));
      if DictRun(tables[d], CallsBetween(s, t, d)).Some? {
        RunRefines(tables[d], s.dbs[d].kv, CallsBetween(s, t, d));
      }
    }
  }
}
