/** Any number of clients increment one key with WATCH, GET, MULTI, SET, EXEC, in any
    interleaving: no committed increment is ever lost. */
module Counter {
  import opened Wrappers
  import opened Decimal
  import opened Robj
  import opened Server
  import opened Watching

  /** How far a client is in its round; `n` is the number its GET returned. */
  datatype Phase = Start | Watched | Got(n: int) | InMulti(n: int) | Ready(n: int)
  {
    predicate HasRead() { Got? || InMulti? || Ready? }
    predicate Inside() { InMulti? || Ready? }
  }

  /** `committed` lists, in order, whose EXEC was answered "Exec ok"; `execs` counts all EXECs. */
  datatype System = System(s: Server, phases: seq<Phase>, committed: seq<ClientId>, execs: nat)

  datatype Turn = Turn(client: ClientId, now: int)

  function Query(k: Key, phase: Phase): Request {
    match phase
    case Start => ["WATCH", k]
    case Watched => ["GET", k]
    case Got(_) => ["MULTI"]
    case InMulti(n) => ["SET", k, Print(n + 1)]
    case Ready(_) => ["EXEC"]
  }

  function NextPhase(phase: Phase, reply: Reply): Phase {
    match phase
    case Start => Watched
    case Watched => Got(if reply.Bulk? then Strtol(reply.text) else 0)
    case Got(n) => InMulti(n)
    case InMulti(n) => Ready(n)
    case Ready(_) => Start
  }

  function LastReply(s: Server, c: ClientId): Reply
    requires c < |s.clients|
  {
    var out := s.clients[c].out;
    if out == [] then Err else out[|out| - 1]
  }

  predicate SystemOk(y: System) { WellFormed(y.s) && |y.phases| == |y.s.clients| }

  /** One client sends its next query and reads the reply. */
  function Advance(y: System, k: Key, turn: Turn): (r: Option<System>)
    requires SystemOk(y) && turn.client < |y.phases|
    ensures r.Some? ==> SystemOk(r.value) && |r.value.phases| == |y.phases|
  {
    var c := turn.client;
    var phase := y.phases[c];
    match ProcessQuery(y.s, c, Query(k, phase), turn.now)
    case Outside => None
    case Done(t) =>
      var reply := LastReply(t, c);
      Some(System(t, y.phases[c := NextPhase(phase, reply)],
                  if phase.Ready? && reply == ExecOk then y.committed + [c] else y.committed,
                  if phase.Ready? then y.execs + 1 else y.execs))
  }

  function AdvanceAll(y: System, k: Key, turns: seq<Turn>): (r: Option<System>)
    requires SystemOk(y) && forall i :: 0 <= i < |turns| ==> turns[i].client < |y.phases|
    decreases |turns|
  {
    if turns == [] then Some(y)
    else match Advance(y, k, turns[0])
      case None => None
      case Some(z) => AdvanceAll(z, k, turns[1..])
  }

  // ---------- The invariant ----------

  predicate ClientOk(s: Server, c: ClientId, phase: Phase, k: Key, value: int)
    requires c < |s.clients|
  {
    var client := s.clients[c];
    && client.dbid == 0 && client.flags <= {Normal, Multi, DirtyCas}
    && (Multi in client.flags <==> phase.Inside())
    && client.queue == (if phase.Ready? then [["SET", k, Print(phase.n + 1)]] else [])
    && (phase.Start? || Dirty(s, c) || Listed(s, c, 0, k))
    && (phase.HasRead() ==> Dirty(s, c) || phase.n == value)
  }

  predicate Distinct(ids: seq<ClientId>, n: nat) {
    (forall i :: 0 <= i < |ids| ==> ids[i] < n) &&
    (forall i, j :: 0 <= i < j < |ids| ==> ids[i] != ids[j])
  }

  predicate CounterAt(s: Server, k: Key, value: int) {
    && s.isMaster && |s.dbs| > 0 && k !in s.dbs[0].expires
    && k in s.dbs[0].kv && s.dbs[0].kv[k] == Int(value) && IsLong(value)
  }

  predicate Safe(y: System, k: Key, n0: int) {
    && SystemOk(y)
    && IsLong(n0) && n0 + |y.phases| <= LONG_MAX
    && CounterAt(y.s, k, n0 + |y.committed|)
    && Distinct(y.committed, |y.phases|)
    && (forall i :: 0 <= i < |y.committed| ==> Dirty(y.s, y.committed[i]))
    && (forall c: ClientId :: c < |y.phases| ==> ClientOk(y.s, c, y.phases[c], k, n0 + |y.committed|))
    && (y.committed == [] ==> forall c: ClientId :: c < |y.phases| ==> !Dirty(y.s, c))
    && (y.execs > 0 ==> y.committed != [])
  }

  /** Distinct numbers below n are at most n. */
  lemma {:induction false} DistinctBound(ids: seq<ClientId>, n: nat)
    requires Distinct(ids, n)
    ensures |ids| <= n
  {
    if ids != [] {
      assert ids[0] < n;
      if i :| 0 <= i < |ids| && ids[i] == n - 1 {
        var rest := ids[..i] + ids[i + 1..];
        assert forall j :: 0 <= j < |rest| ==> rest[j] == ids[if j < i then j else j + 1];
        DistinctBound(rest, n - 1);
      } else {
        DistinctBound(ids, n - 1);
      }
    }
  }

  // ---------- What the server does in each phase ----------

  /** A step of client c that changes no stored value and no other client. */
  ghost predicate Private(s: Server, t: Server, c: ClientId) {
    && SameShape(s, t) && c < |s.clients|
    && |s.dbs| > 0 && t.dbs[0].kv == s.dbs[0].kv && t.dbs[0].expires == s.dbs[0].expires
    && (forall x :: 0 <= x < |s.clients| && x != c ==> t.clients[x] == s.clients[x])
    && (forall x: ClientId, key: Key :: x < |s.clients| && Listed(s, x, 0, key) ==> Listed(t, x, 0, key))
    && t.clients[c].dbid == s.clients[c].dbid && t.clients[c].out != []
  }

  lemma WatchQuery(s: Server, c: ClientId, k: Key, now: int)
    requires WellFormed(s) && c < |s.clients| && s.clients[c].dbid == 0 && Multi !in s.clients[c].flags
    ensures var r := ProcessQuery(s, c, ["WATCH", k], now);
            r.Done? && Private(s, r.s, c) && Listed(r.s, c, 0, k) &&
            r.s.clients[c].flags == s.clients[c].flags && r.s.clients[c].queue == s.clients[c].queue
  {
    assert Upper("WATCH") == "WATCH";
    var argv := ["WATCH", k];
    var s1 := s.(trace := s.trace + [Event(c, 0, WatchCmd, argv)]);
    WatchNoted(s1, c, argv, s.trace);
    assert argv[1..] == [k];
    assert AddWatches(s.dbs[0], [], c) == s.dbs[0];
    assert [k][..0] == [];
    assert ProcessQuery(s, c, argv, now) == Done(WatchStep(s1, c, argv));
  }

  lemma GetQuery(s: Server, c: ClientId, k: Key, value: int, now: int)
    requires WellFormed(s) && c < |s.clients| && s.clients[c].dbid == 0 && Multi !in s.clients[c].flags
    requires CounterAt(s, k, value)
    ensures var r := ProcessQuery(s, c, ["GET", k], now);
            r.Done? && Private(s, r.s, c) && LastReply(r.s, c) == Bulk(Print(value)) &&
            r.s.clients[c].flags == s.clients[c].flags && r.s.clients[c].queue == s.clients[c].queue
  {
    assert Upper("GET") == "GET";
  }

  lemma MultiQuery(s: Server, c: ClientId, now: int)
    requires WellFormed(s) && |s.dbs| > 0 && c < |s.clients| && Multi !in s.clients[c].flags
    ensures var r := ProcessQuery(s, c, ["MULTI"], now);
            r.Done? && Private(s, r.s, c) &&
            r.s.clients[c].flags == s.clients[c].flags + {Multi} && r.s.clients[c].queue == s.clients[c].queue
  {
    assert Upper("MULTI") == "MULTI";
  }

  lemma SetQuery(s: Server, c: ClientId, argv: Request, now: int)
    requires WellFormed(s) && |s.dbs| > 0 && c < |s.clients| && Multi in s.clients[c].flags
    requires s.clients[c].queue == [] && argv != [] && argv[0] == "SET"
    ensures var r := ProcessQuery(s, c, argv, now);
            r.Done? && Private(s, r.s, c) &&
            r.s.clients[c].flags == s.clients[c].flags && r.s.clients[c].queue == [argv]
  {
    assert Upper("SET") == "SET";
  }

  lemma RefusedQuery(s: Server, c: ClientId, now: int)
    requires WellFormed(s) && |s.dbs| > 0 && c < |s.clients| && Dirty(s, c)
    ensures var r := ProcessQuery(s, c, ["EXEC"], now);
            r.Done? && Private(s, r.s, c) && LastReply(r.s, c) == ErrDirty &&
            r.s.clients[c].flags == {DirtyCas} && r.s.clients[c].queue == []
  {
    assert Upper("EXEC") == "EXEC";
    assert (s.clients[c].flags - {Multi} + {Exec}) * {DirtyCas} == {DirtyCas};
  }

  /** The committing EXEC: stores the number and makes every watcher dirty. */
  ghost predicate Committed(s: Server, t: Server, c: ClientId, k: Key, value: int) {
    && SameShape(s, t) && c < |s.clients| && |s.dbs| > 0
    && t.dbs[0].kv == s.dbs[0].kv[k := Create(Print(value))] && t.dbs[0].expires == s.dbs[0].expires
    && (forall x: ClientId :: x < |s.clients| ==> (Dirty(t, x) <==> Dirty(s, x) || Listed(s, x, 0, k)))
    && (forall x: ClientId :: x < |s.clients| && x != c ==>
          t.clients[x].queue == s.clients[x].queue && t.clients[x].dbid == s.clients[x].dbid &&
          t.clients[x].flags - {DirtyCas} == s.clients[x].flags - {DirtyCas})
    && t.clients[c].queue == [] && t.clients[c].dbid == 0 && t.clients[c].flags <= {DirtyCas}
    && LastReply(t, c) == ExecOk
  }

  /** SET of one client that is not queueing, on a master, on a key without a deadline. */
  lemma SetExecuted(s: Server, c: ClientId, k: Key, v: string, now: int)
    requires WellFormed(s) && |s.dbs| > 0 && s.isMaster && c < |s.clients|
    requires s.clients[c].flags == {} && s.clients[c].dbid == 0 && k !in s.dbs[0].expires
    ensures var r := QueueOrPlain(s, c, ["SET", k, v], now);
            && r.Done?
            && r.s.dbs[0].kv == s.dbs[0].kv[k := Create(v)] && r.s.dbs[0].expires == s.dbs[0].expires
            && (forall x: ClientId :: x < |s.clients| ==> (Dirty(r.s, x) <==> Dirty(s, x) || Listed(s, x, 0, k)))
            && (forall x: ClientId :: x < |s.clients| ==>
                  r.s.clients[x].queue == s.clients[x].queue && r.s.clients[x].dbid == s.clients[x].dbid &&
                  r.s.clients[x].flags - {DirtyCas} == s.clients[x].flags - {DirtyCas})
  {
    hide Create;
    assert Upper("SET") == "SET";
    var argv := ["SET", k, v];
    var s1 := s.(trace := s.trace + [Event(c, 0, SetCmd, argv)]);
    var s2 := DataStep(s1, c, SetCmd, argv, now).s;
    TouchNoted(s2, 0, k, Touch(s2, 0, k));
    TouchKeeps(s2, 0, k);
    assert QueueOrPlain(s, c, argv, now) == Done(Record(Touch(s2, 0, k), false, argv));
  }

  lemma TouchKeeps(s: Server, d: nat, k: Key)
    requires d < |s.dbs|
    ensures var t := Touch(s, d, k);
            && t.dbs[d].kv == s.dbs[d].kv && t.dbs[d].expires == s.dbs[d].expires
            && forall x: ClientId :: x < |s.clients| ==>
                 t.clients[x].queue == s.clients[x].queue && t.clients[x].dbid == s.clients[x].dbid &&
                 t.clients[x].flags - {DirtyCas} == s.clients[x].flags - {DirtyCas}
  {
  }

  /** The state in which the queue of a client that is not dirty starts to run. */
  function ExecStart(s: Server, c: ClientId): Server
    requires c < |s.clients|
  {
    SetClient(s.(trace := s.trace + [Event(c, s.clients[c].dbid, ExecCmd, ["EXEC"])]), c, s.clients[c].(flags := {}))
  }

  /** EXEC with one queued command that leaves the queue as it is. */
  lemma ExecOne(s: Server, c: ClientId, argv: Request, now: int)
    requires WellFormed(s) && c < |s.clients| && !Dirty(s, c) && argv != []
    requires s.clients[c].queue == [argv] && WellFormed(ExecStart(s, c))
    requires var r := QueueOrPlain(ExecStart(s, c), c, argv, now); r.Done? && r.s.clients[c].queue == [argv]
    ensures ProcessQuery(s, c, ["EXEC"], now) ==
            Done(EndExec(QueueOrPlain(ExecStart(s, c), c, argv, now).s, c, ExecOk))
  {
    hide QueueOrPlain;
    assert Upper("EXEC") == "EXEC";
    assert (s.clients[c].flags - {Multi} + {Exec}) * {DirtyCas} == {};
    var s0 := ExecStart(s, c);
    var s1 := QueueOrPlain(s0, c, argv, now).s;
    assert RunQueue(s1, c, 1, now) == Done(s1);
    assert RunQueue(s0, c, 0, now) == Done(s1);
  }

  lemma CommitQuery(s: Server, c: ClientId, k: Key, value: int, now: int)
    requires WellFormed(s) && |s.dbs| > 0 && s.isMaster && c < |s.clients| && !Dirty(s, c)
    requires s.clients[c].dbid == 0 && k !in s.dbs[0].expires
    requires s.clients[c].queue == [["SET", k, Print(value)]]
    ensures var r := ProcessQuery(s, c, ["EXEC"], now);
            r.Done? && Committed(s, r.s, c, k, value)
  {
    hide QueueOrPlain, ProcessQuery, Create, Print;
    var s0 := ExecStart(s, c);
    var argv := ["SET", k, Print(value)];
    SetExecuted(s0, c, k, Print(value), now);
    var s1 := QueueOrPlain(s0, c, argv, now).s;
    ExecOne(s, c, argv, now);
    var t := EndExec(s1, c, ExecOk);
    FlagsKept(s1.clients[c].flags, {});
    forall x: ClientId | x < |s.clients|
      ensures Dirty(t, x) <==> Dirty(s, x) || Listed(s, x, 0, k)
    {
      assert Dirty(s0, x) <==> Dirty(s, x);
      assert Listed(s0, x, 0, k) <==> Listed(s, x, 0, k);
      assert Dirty(t, x) <==> Dirty(s1, x);
    }
  }

  lemma FlagsKept(a: set<Flag>, b: set<Flag>)
    requires a - {DirtyCas} == b - {DirtyCas}
    ensures a <= b + {DirtyCas} && (Multi in a <==> Multi in b)
  {
    assert Multi in a <==> Multi in a - {DirtyCas};
    assert Multi in b <==> Multi in b - {DirtyCas};
    forall f | f in a ensures f in b + {DirtyCas} {
      if f != DirtyCas { assert f in a - {DirtyCas}; }
    }
  }

  // ---------- One turn keeps the invariant ----------

  /** A step that is private to c keeps the invariant if c itself stays in order. */
  lemma PrivateSafe(y: System, t: Server, k: Key, n0: int, c: ClientId, phase: Phase, execs: nat)
    requires Safe(y, k, n0) && c < |y.phases| && Private(y.s, t, c)
    requires ClientOk(t, c, phase, k, n0 + |y.committed|) && (Dirty(t, c) <==> Dirty(y.s, c))
    requires execs > 0 ==> y.committed != []
    ensures Safe(System(t, y.phases[c := phase], y.committed, execs), k, n0)
  {
    var phases := y.phases[c := phase];
    assert forall x: ClientId :: x < |phases| ==> (Dirty(t, x) <==> Dirty(y.s, x));
    forall x: ClientId | x < |phases|
      ensures ClientOk(t, x, phases[x], k, n0 + |y.committed|)
    {
      assert ClientOk(y.s, x, y.phases[x], k, n0 + |y.committed|);
    }
  }

  lemma CommitSafe(y: System, t: Server, k: Key, n0: int, c: ClientId)
    requires Safe(y, k, n0) && c < |y.phases| && y.phases[c].Ready? && !Dirty(y.s, c)
    requires Committed(y.s, t, c, k, n0 + |y.committed| + 1)
    ensures Safe(System(t, y.phases[c := Start], y.committed + [c], y.execs + 1), k, n0)
  {
    hide Create, Print, WatchersOk, QueueOk;
    var value := n0 + |y.committed|;
    var more := y.committed + [c];
    assert ClientOk(y.s, c, y.phases[c], k, value);
    DistinctBound(more, |y.phases|);
    CreatePrint(value + 1);
    var phases := y.phases[c := Start];
    forall x: ClientId | x < |phases|
      ensures ClientOk(t, x, phases[x], k, value + 1)
    {
      assert ClientOk(y.s, x, y.phases[x], k, value);
      if x != c { FlagsKept(t.clients[x].flags, y.s.clients[x].flags); }
    }
  }

  lemma ExecSafe(y: System, k: Key, n0: int, turn: Turn)
    requires Safe(y, k, n0) && turn.client < |y.phases| && y.phases[turn.client].Ready?
    ensures var r := Advance(y, k, turn);
            r.Some? && Safe(r.value, k, n0)
  {
    hide ProcessQuery, Print, WellFormed;
    var c, s := turn.client, y.s;
    assert ClientOk(s, c, y.phases[c], k, n0 + |y.committed|);
    var t := ProcessQuery(s, c, ["EXEC"], turn.now);
    if Dirty(s, c) {
      RefusedQuery(s, c, turn.now);
      PrivateSafe(y, t.s, k, n0, c, Start, y.execs + 1);
    } else {
      CommitQuery(s, c, k, y.phases[c].n + 1, turn.now);
      CommitSafe(y, t.s, k, n0, c);
    }
  }

  lemma AdvanceSafe(y: System, k: Key, n0: int, turn: Turn)
    requires Safe(y, k, n0) && turn.client < |y.phases|
    ensures var r := Advance(y, k, turn);
            r.Some? && Safe(r.value, k, n0)
  {
    hide ProcessQuery, Print, Strtol, WellFormed;
    var c, s := turn.client, y.s;
    var phase, value := y.phases[c], n0 + |y.committed|;
    assert ClientOk(s, c, phase, k, value);
    var t := ProcessQuery(s, c, Query(k, phase), turn.now);
    match phase
    case Start =>
      WatchQuery(s, c, k, turn.now);
      PrivateSafe(y, t.s, k, n0, c, Watched, y.execs);
    case Watched =>
      GetQuery(s, c, k, value, turn.now);
      ScanPrint(value, "");
      assert Print(value) + "" == Print(value);
      PrivateSafe(y, t.s, k, n0, c, Got(value), y.execs);
    case Got(n) =>
      MultiQuery(s, c, turn.now);
      PrivateSafe(y, t.s, k, n0, c, InMulti(n), y.execs);
    case InMulti(n) =>
      SetQuery(s, c, ["SET", k, Print(n + 1)], turn.now);
      PrivateSafe(y, t.s, k, n0, c, Ready(n), y.execs);
    case Ready(_) => ExecSafe(y, k, n0, turn);
  }

  lemma {:induction false} AdvanceAllSafe(y: System, k: Key, n0: int, turns: seq<Turn>)
    requires SystemOk(y) && Safe(y, k, n0) && forall i :: 0 <= i < |turns| ==> turns[i].client < |y.phases|
    ensures var r := AdvanceAll(y, k, turns);
            r.Some? && |r.value.phases| == |y.phases| && Safe(r.value, k, n0)
    decreases |turns|
  {
    hide Safe, Advance, SystemOk;
    if turns != [] {
      AdvanceSafe(y, k, n0, turns[0]);
      AdvanceAllSafe(Advance(y, k, turns[0]).value, k, n0, turns[1..]);
    }
  }

  /** Fresh clients on a master, with the counter stored as n0 and no deadline on it. */
  predicate Begin(y: System, k: Key, n0: int) {
    && Initial(y.s) && CounterAt(y.s, k, n0)
    && (forall c: ClientId :: c < |y.s.clients| ==> y.s.clients[c].flags == {Normal} && y.s.clients[c].dbid == 0)
    && |y.phases| == |y.s.clients| && (forall c :: 0 <= c < |y.phases| ==> y.phases[c] == Start)
    && y.committed == [] && y.execs == 0 && n0 + |y.phases| <= LONG_MAX
  }

  /** There is such a start for any number of clients and any counter that leaves room. */
  lemma BeginExists(n: nat, k: Key, n0: int)
    requires IsLong(n0) && n0 + n <= LONG_MAX
    ensures exists y :: Begin(y, k, n0) && |y.phases| == n
  {
    var db := Db(map[k := Int(n0)], map[], map[]);
    var clients := seq(n, i => Client({Normal}, 0, [], []));
    var y := System(Server(true, false, [db], clients, [], [], 0, [], []), seq(n, i => Start), [], 0);
    assert Begin(y, k, n0);
  }

  lemma BeginSafe(y: System, k: Key, n0: int)
    requires Begin(y, k, n0)
    ensures SystemOk(y) && Safe(y, k, n0)
  {
  }

  /** No lost updates: under every interleaving of any number of clients the key holds its
      initial value plus the number of EXECs that committed. No client commits twice, because
      its own committing SET leaves it dirty for good, and the first EXEC always commits; so the
      increments number at least one, once any EXEC was sent, and at most one per client. */
  lemma NoLostUpdates(y: System, k: Key, n0: int, turns: seq<Turn>)
    requires Begin(y, k, n0) && SystemOk(y) && forall i :: 0 <= i < |turns| ==> turns[i].client < |y.phases|
    ensures var r := AdvanceAll(y, k, turns);
            && r.Some?
            && r.value.s.dbs != [] && k in r.value.s.dbs[0].kv
            && r.value.s.dbs[0].kv[k] == Int(n0 + |r.value.committed|)
            && Distinct(r.value.committed, |y.phases|) && |r.value.committed| <= |y.phases|
            && (r.value.execs > 0 ==> |r.value.committed| >= 1)
  {
    hide AdvanceAll, ClientOk, Begin, WellFormed;
    BeginSafe(y, k, n0);
    AdvanceAllSafe(y, k, n0, turns);
    DistinctBound(AdvanceAll(y, k, turns).value.committed, |y.phases|);
  }
}
