/** A committed EXEC is the queue's commands sent one by one with nobody in between. */
module Transactions {
  import opened Wrappers
  import opened Decimal
  import opened Robj
  import opened Server

  /** What client c was answered before, on the one side and the other. */
  type Before = (seq<Reply>, seq<Reply>)

  /** Equal but for the history, what client c was answered before, and client c's queue and the
      flags that EXEC drops. */
  ghost predicate Same(t: Server, u: Server, c: ClientId, queue: seq<Request>, before: Before) {
    && WellFormed(t) && WellFormed(u)
    && c < |t.clients| == |u.clients|
    && t.isMaster == u.isMaster && t.aofOn == u.aofOn && t.dbs == u.dbs
    && t.aof == u.aof && t.stream == u.stream && t.dirty == u.dirty && t.calls == u.calls
    && (forall x :: 0 <= x < |t.clients| && x != c ==> t.clients[x] == u.clients[x])
    && SameClient(t.clients[c], u.clients[c], queue, before)
  }

  predicate SameClient(a: Client, b: Client, queue: seq<Request>, before: Before) {
    && before.0 <= a.out && before.1 <= b.out && a.out[|before.0|..] == b.out[|before.1|..]
    && a.dbid == b.dbid && a.queue == queue && b.queue == []
    && a.flags == b.flags * {DirtyCas} && Multi !in b.flags && Fake !in b.flags
  }

  predicate Queueable(s: Server, argv: Request) {
    argv != [] &&
    match CommandNamed(argv[0])
    case None => true
    case Some(cmd) => !cmd.MultiCmd? && !cmd.ExecCmd? && (s.isMaster || !cmd.Writes())
  }

  lemma SaySame(t: Server, u: Server, c: ClientId, queue: seq<Request>, before: Before, reply: Reply)
    requires Same(t, u, c, queue, before)
    ensures Same(Say(t, c, reply), Say(u, c, reply), c, queue, before)
  {
  }

  lemma TouchSame(t: Server, u: Server, c: ClientId, queue: seq<Request>, before: Before, d: nat, k: Key)
    requires Same(t, u, c, queue, before) && d < |t.dbs|
    ensures Same(Touch(t, d, k), Touch(u, d, k), c, queue, before)
  {
    if k in t.dbs[d].watched {
      var list := t.dbs[d].watched[k];
      assert MarkDirty(t.clients, list)[c].flags == MarkDirty(u.clients, list)[c].flags * {DirtyCas};
    }
  }

  lemma StoreSame(t: Server, u: Server, c: ClientId, queue: seq<Request>, before: Before, d: nat, db: Db, dirty: nat, call: Call)
    requires Same(t, u, c, queue, before) && d < |t.dbs| && db.watched == t.dbs[d].watched
    ensures Same(t.(dbs := t.dbs[d := db], dirty := dirty, calls := t.calls + [call]),
                 u.(dbs := u.dbs[d := db], dirty := dirty, calls := u.calls + [call]), c, queue, before)
  {
    hide SameClient;
  }

  lemma DataSame(t: Server, u: Server, c: ClientId, queue: seq<Request>, before: Before, cmd: Command, argv: Request, now: int)
    requires Same(t, u, c, queue, before) && |argv| >= 2
    ensures var a, b := DataStep(t, c, cmd, argv, now), DataStep(u, c, cmd, argv, now);
            a.Done? == b.Done? && (a.Done? ==> Same(a.s, b.s, c, queue, before))
  {
    hide DataEffect, ExpireIfNeed, KvCalls, Say, WatchersOk, QueueOk;
    var d := t.clients[c].dbid;
    var e := DataEffect(ExpireIfNeed(t.dbs[d], argv[1], now), cmd, argv, now);
    if e.Effect? {
      var dirty, call := t.dirty + if e.changed then 1 else 0, Call(d, KvCalls(t.dbs[d], cmd, argv, now));
      StoreSame(t, u, c, queue, before, d, e.db, dirty, call);
      SaySame(t.(dbs := t.dbs[d := e.db], dirty := dirty, calls := t.calls + [call]),
              u.(dbs := u.dbs[d := e.db], dirty := dirty, calls := u.calls + [call]), c, queue, before, e.reply);
    }
  }

  lemma CommandSame(t: Server, u: Server, c: ClientId, queue: seq<Request>, before: Before, cmd: Command, argv: Request, now: int)
    requires Same(t, u, c, queue, before)
    ensures var a, b := DataCommand(t, c, cmd, argv, now), DataCommand(u, c, cmd, argv, now);
            a.Done? == b.Done? && (a.Done? ==> Same(a.s, b.s, c, queue, before))
  {
    hide DataStep, Touch;
    if |argv| >= 2 {
      DataSame(t, u, c, queue, before, cmd, argv, now);
      var a, b := DataStep(t, c, cmd, argv, now), DataStep(u, c, cmd, argv, now);
      if a.Done? && cmd.Writes() { TouchSame(a.s, b.s, c, queue, before, t.clients[c].dbid, argv[1]); }
    }
  }

  lemma DbidSame(t: Server, u: Server, c: ClientId, queue: seq<Request>, before: Before, d: nat)
    requires Same(t, u, c, queue, before) && d < |t.dbs|
    ensures Same(SetClient(t, c, t.clients[c].(dbid := d)), SetClient(u, c, u.clients[c].(dbid := d)), c, queue, before)
  {
  }

  lemma SelectSame(t: Server, u: Server, c: ClientId, queue: seq<Request>, before: Before, argv: Request)
    requires Same(t, u, c, queue, before)
    ensures var a, b := SelectStep(t, c, argv), SelectStep(u, c, argv);
            a.Done? == b.Done? && (a.Done? ==> Same(a.s, b.s, c, queue, before))
  {
    hide Say, SetClient, SameClient, WellFormed;
    if |argv| >= 2 {
      var r := Scan(argv[1]);
      if r.used == 0 || r.used < |argv[1]| || !IsLong(r.value) {
        SaySame(t, u, c, queue, before, Err);
      } else if 0 <= r.value < |t.dbs| {
        var d := r.value;
        DbidSame(t, u, c, queue, before, d);
        SaySame(SetClient(t, c, t.clients[c].(dbid := d)), SetClient(u, c, u.clients[c].(dbid := d)), c, queue, before,
                Bulk("OK, db is " + Print(d)));
      }
    }
  }

  lemma PerformSame(t: Server, u: Server, c: ClientId, queue: seq<Request>, before: Before, cmd: Command, argv: Request, now: int)
    requires Same(t, u, c, queue, before) && argv != [] && !cmd.MultiCmd? && !cmd.ExecCmd?
    ensures var a, b := Perform(t, c, cmd, argv, now), Perform(u, c, cmd, argv, now);
            a.Done? == b.Done? && (a.Done? ==> Same(a.s, b.s, c, queue, before))
  {
    hide DataCommand, SelectStep, AddWatches, Say;
    match cmd
    case WatchCmd =>
      var d := t.clients[c].dbid;
      var db := AddWatches(t.dbs[d], argv[1..], c);
      SaySame(t.(dbs := t.dbs[d := db]), u.(dbs := u.dbs[d := db]), c, queue, before, Ok);
    case SelectCmd => SelectSame(t, u, c, queue, before, argv);
    case PingCmd => SaySame(t, u, c, queue, before, Pong);
    case _ => CommandSame(t, u, c, queue, before, cmd, argv, now);
  }

  lemma PlainSame(t: Server, u: Server, c: ClientId, queue: seq<Request>, before: Before, argv: Request, now: int)
    requires Same(t, u, c, queue, before) && Queueable(t, argv)
    ensures var a, b := Plain(t, c, argv, now), Plain(u, c, argv, now);
            a.Done? == b.Done? && (a.Done? ==> Same(a.s, b.s, c, queue, before))
  {
    hide Perform, CommandNamed, Say;
    match CommandNamed(argv[0])
    case None => SaySame(t, u, c, queue, before, InvalidCommand);
    case Some(cmd) =>
      var d := t.clients[c].dbid;
      PerformSame(t.(trace := t.trace + [Event(c, d, cmd, argv)]), u.(trace := u.trace + [Event(c, d, cmd, argv)]),
                  c, queue, before, cmd, argv, now);
  }

  function Inputs(c: ClientId, queue: seq<Request>, now: int): seq<Input> {
    seq(|queue|, i requires 0 <= i < |queue| => Input(c, queue[i], now))
  }

  lemma {:induction false} RunQueueSame(t: Server, u: Server, c: ClientId, queue: seq<Request>, before: Before, i: nat, now: int)
    requires Same(t, u, c, queue, before) && i <= |queue|
    requires forall j :: 0 <= j < |queue| ==> Queueable(t, queue[j])
    ensures var a, b := RunQueue(t, c, i, now), Run(u, Inputs(c, queue[i..], now));
            a.Done? == b.Done? && (a.Done? ==> Same(a.s, b.s, c, queue, before))
    decreases |queue| - i
  {
    hide Plain, CommandNamed;
    var inputs := Inputs(c, queue[i..], now);
    if i < |queue| {
      assert Queueable(t, queue[i]);
      PlainSame(t, u, c, queue, before, queue[i], now);
      var a, b := Plain(t, c, queue[i], now), Plain(u, c, queue[i], now);
      assert QueueOrPlain(t, c, queue[i], now) == a;
      assert ProcessQuery(u, c, inputs[0].argv, now) == b;
      if a.Done? {
        assert inputs[1..] == Inputs(c, queue[i + 1..], now);
        RunQueueSame(a.s, b.s, c, queue, before, i + 1, now);
      }
    }
  }

  /** The state in which client c never entered MULTI. */
  function Unqueued(s: Server, c: ClientId): Server
    requires c < |s.clients|
  {
    SetClient(s, c, s.clients[c].(flags := s.clients[c].flags - {Multi}, queue := []))
  }

  /** EXEC of client c's queue in s, as against sending the queue's commands in u, a state that
      differs only in c's queue, its MULTI flag and what c was answered before. */
  lemma ExecSame(s: Server, u: Server, c: ClientId, argv: Request, now: int)
    requires WellFormed(s) && WellFormed(u) && c < |s.clients| && s.clients[c].flags <= {Normal, Multi}
    requires |u.clients| == |s.clients| && u == s.(trace := u.trace, clients := s.clients[c := u.clients[c]])
    requires u.clients[c].dbid == s.clients[c].dbid && u.clients[c].queue == []
    requires u.clients[c].flags == s.clients[c].flags - {Multi}
    requires forall j :: 0 <= j < |s.clients[c].queue| ==> Queueable(s, s.clients[c].queue[j])
    ensures var a, b := ExecTransaction(s, c, argv, now), Run(u, Inputs(c, s.clients[c].queue, now));
            a.Done? == b.Done? && (a.Done? ==> Transparent(s, u, c, a.s, b.s))
  {
    hide RunQueue, Run, CommandNamed, Same, Transparent, EndExec, Queueable;
    var client := s.clients[c];
    var queue := client.queue;
    assert (client.flags - {Multi} + {Exec}) * {DirtyCas} == {};
    var s0 := SetClient(s.(trace := s.trace + [Event(c, client.dbid, ExecCmd, argv)]), c, client.(flags := {}));
    SameStart(s, u, s0, c);
    assert queue[0..] == queue;
    forall j | 0 <= j < |queue| ensures Queueable(s0, queue[j]) { QueueableSame(s, s0, queue[j]); }
    var before := (client.out, u.clients[c].out);
    RunQueueSame(s0, u, c, queue, before, 0, now);
    var a, b := RunQueue(s0, c, 0, now), Run(u, Inputs(c, queue, now));
    if a.Done? { EndTransparent(s, u, a.s, b.s, c, queue); }
  }

  lemma SameStart(s: Server, u: Server, s0: Server, c: ClientId)
    requires WellFormed(s) && WellFormed(u) && c < |s.clients| && s.clients[c].flags <= {Normal, Multi}
    requires |u.clients| == |s.clients| && u == s.(trace := u.trace, clients := s.clients[c := u.clients[c]])
    requires u.clients[c].dbid == s.clients[c].dbid && u.clients[c].queue == []
    requires u.clients[c].flags == s.clients[c].flags - {Multi}
    requires s0 == SetClient(s.(trace := s0.trace), c, s.clients[c].(flags := {}))
    ensures Same(s0, u, c, s.clients[c].queue, (s.clients[c].out, u.clients[c].out))
  {
    assert {} == u.clients[c].flags * {DirtyCas};
  }

  lemma EndTransparent(s: Server, u: Server, a: Server, b: Server, c: ClientId, queue: seq<Request>)
    requires c < |s.clients| == |u.clients| == |a.clients|
    requires Same(a, b, c, queue, (s.clients[c].out, u.clients[c].out))
    ensures Transparent(s, u, c, EndExec(a, c, ExecOk), b)
  {
    hide WellFormed;
    var x, y := s.clients[c].out, u.clients[c].out;
    assert a.clients[c].out == x + a.clients[c].out[|x|..];
  }

  /** EXEC took s to a, the commands one by one took u to b: the same databases, logs, dictionary
      calls, other clients and new replies, then "Exec ok"; outside MULTI, with an empty queue. */
  predicate Transparent(s: Server, u: Server, c: ClientId, a: Server, b: Server) {
    && c < |s.clients| == |u.clients| == |a.clients| == |b.clients|
    && a.dbs == b.dbs && a.aof == b.aof && a.stream == b.stream && a.dirty == b.dirty && a.calls == b.calls
    && (forall x :: 0 <= x < |a.clients| && x != c ==> a.clients[x] == b.clients[x])
    && u.clients[c].out <= b.clients[c].out
    && a.clients[c].out == s.clients[c].out + b.clients[c].out[|u.clients[c].out|..] + [ExecOk]
    && a.clients[c].dbid == b.clients[c].dbid
    && a.clients[c].queue == [] && Multi !in a.clients[c].flags
    && a.clients[c].flags == b.clients[c].flags * {DirtyCas}
  }

  /** Transparency: a committing EXEC of queued commands, none of them MULTI, leaves the same
      databases, logs, replies and other clients as sending those commands one by one with no
      other client between; it ends outside MULTI with an empty queue. On a replica the queue
      must hold no write. */
  lemma ExecTransparent(s: Server, c: ClientId, argv: Request, now: int)
    requires WellFormed(s) && c < |s.clients|
    requires s.clients[c].flags <= {Normal, Multi}
    requires forall j :: 0 <= j < |s.clients[c].queue| ==> Queueable(s, s.clients[c].queue[j])
    ensures var a, b := ExecTransaction(s, c, argv, now), Run(Unqueued(s, c), Inputs(c, s.clients[c].queue, now));
            a.Done? == b.Done? && (a.Done? ==> Transparent(s, Unqueued(s, c), c, a.s, b.s))
  {
    ExecSame(s, Unqueued(s, c), c, argv, now);
  }

  // ---------- From the requests ----------

  lemma {:induction false} RunConcat(s: Server, a: seq<Input>, b: seq<Input>)
    requires WellFormed(s) && InputsOk(a, |s.clients|) && InputsOk(b, |s.clients|)
    ensures InputsOk(a + b, |s.clients|)
    ensures match Run(s, a)
            case Outside => Run(s, a + b) == Outside
            case Done(t) => Run(s, a + b) == Run(t, b)
    decreases |a|
  {
    hide ProcessQuery;
    if a == [] {
      assert a + b == b;
    } else {
      assert (a + b)[0] == a[0] && (a + b)[1..] == a[1..] + b;
      var r := ProcessQuery(s, a[0].client, a[0].argv, a[0].now);
      if r.Done? { RunConcat(r.s, a[1..], b); }
    }
  }

  /** Requests that MULTI queues: not one whose name starts with "exec". */
  predicate ToQueue(cmds: seq<Request>) { forall i :: 0 <= i < |cmds| ==> cmds[i] != [] && !ExecPrefix(cmds[i][0]) }

  /** Inside MULTI requests are queued behind those already there, in the order they are sent,
      and answered "queued"; nothing else changes. */
  lemma {:induction false} QueueFills(s: Server, c: ClientId, cmds: seq<Request>, now: int)
    requires WellFormed(s) && c < |s.clients| && Multi in s.clients[c].flags
    requires ToQueue(cmds) && |s.clients[c].queue| + |cmds| <= QUEUE_MAX
    ensures InputsOk(Inputs(c, cmds, now), |s.clients|)
    ensures var client := s.clients[c];
            Run(s, Inputs(c, cmds, now)) ==
            Done(s.(clients := s.clients[c := client.(queue := client.queue + cmds, out := client.out + seq(|cmds|, i => Queued))]))
    decreases |cmds|
  {
    hide ProcessQuery, ExecPrefix;
    var client := s.clients[c];
    if cmds == [] {
      assert client.queue + [] == client.queue && client.out + seq(0, i => Queued) == client.out;
      assert s.clients[c := client] == s.clients;
    } else {
      var t := Enqueue(s, c, cmds[0]).s;
      QueuedIs(s, c, cmds[0], now);
      assert Inputs(c, cmds, now)[1..] == Inputs(c, cmds[1..], now);
      QueueFills(t, c, cmds[1..], now);
      assert client.queue + [cmds[0]] + cmds[1..] == client.queue + cmds;
      assert [Queued] + seq(|cmds| - 1, i => Queued) == seq(|cmds|, i => Queued);
      assert client.out + [Queued] + seq(|cmds| - 1, i => Queued) == client.out + seq(|cmds|, i => Queued);
    }
  }

  /** There are ten places: a request in MULTI that finds them taken is written outside them. */
  lemma QueueFull(s: Server, c: ClientId, argv: Request, now: int)
    requires WellFormed(s) && c < |s.clients| && Multi in s.clients[c].flags && argv != [] && !ExecPrefix(argv[0])
    ensures ProcessQuery(s, c, argv, now).Done? <==> |s.clients[c].queue| < 10
  {
    hide ProcessQuery, ExecPrefix;
    QueuedIs(s, c, argv, now);
  }

  lemma QueuedIs(s: Server, c: ClientId, argv: Request, now: int)
    requires WellFormed(s) && c < |s.clients| && Multi in s.clients[c].flags && argv != [] && !ExecPrefix(argv[0])
    ensures ProcessQuery(s, c, argv, now) == Enqueue(s, c, argv)
  {
    hide Plain, ExecTransaction, ExecPrefix, Enqueue, CommandNamed;
    NotExec(argv);
  }

  lemma NotExec(argv: Request)
    requires argv != [] && !ExecPrefix(argv[0])
    ensures CommandNamed(argv[0]) != Some(ExecCmd)
  {
    assert |argv[0]| == 4 ==> argv[0][..4] == argv[0];
  }

  /** A transaction from its requests: MULTI, up to ten commands, EXEC, sent by a client with
      nothing queued, leave what the commands alone leave; the replies are OK, "queued" for each
      command, then the commands' own, then "Exec ok". */
  lemma TransactionOfRequests(s: Server, c: ClientId, cmds: seq<Request>, now: int)
    requires WellFormed(s) && c < |s.clients| && s.clients[c].flags <= {Normal} && s.clients[c].queue == []
    requires |cmds| <= QUEUE_MAX && ToQueue(cmds) && forall j :: 0 <= j < |cmds| ==> Queueable(s, cmds[j])
    ensures InputsOk(Inputs(c, [["MULTI"]] + cmds + [["EXEC"]], now), |s.clients|) && InputsOk(Inputs(c, cmds, now), |s.clients|)
    ensures var a, b := Run(s, Inputs(c, [["MULTI"]] + cmds + [["EXEC"]], now)), Run(s, Inputs(c, cmds, now));
            && a.Done? == b.Done?
            && (a.Done? ==>
                  var queued := s.clients[c].out + [Ok] + seq(|cmds|, i => Queued);
                  && a.s.dbs == b.s.dbs && a.s.aof == b.s.aof && a.s.stream == b.s.stream
                  && a.s.dirty == b.s.dirty && a.s.calls == b.s.calls
                  && (forall x :: 0 <= x < |s.clients| && x != c ==> a.s.clients[x] == b.s.clients[x])
                  && s.clients[c].out <= b.s.clients[c].out
                  && a.s.clients[c].out == queued + b.s.clients[c].out[|s.clients[c].out|..] + [ExecOk]
                  && a.s.clients[c].dbid == b.s.clients[c].dbid
                  && a.s.clients[c].queue == [] && Multi !in a.s.clients[c].flags)
  {
    hide Run, ProcessQuery, ExecTransaction, ExecPrefix, Queueable, WellFormed, QueueOk;
    var all := [["MULTI"]] + cmds + [["EXEC"]];
    var first, middle, last := Inputs(c, [["MULTI"]], now), Inputs(c, cmds, now), Inputs(c, [["EXEC"]], now);
    assert Inputs(c, all, now) == first + (middle + last);
    MultiRuns(s, c, now);
    var s1 := Run(s, first).s;
    QueueFills(s1, c, cmds, now);
    var s2 := Run(s1, middle).s;
    assert s2.clients[c].queue == cmds by { assert [] + cmds == cmds; }
    ExecRuns(s2, c, now);
    RunConcat(s1, middle, last);
    RunConcat(s, first, middle + last);
    forall j | 0 <= j < |cmds| ensures Queueable(s2, cmds[j]) { QueueableSame(s, s2, cmds[j]); }
    ExecSame(s2, s, c, ["EXEC"], now);
  }

  lemma QueueableSame(s: Server, t: Server, argv: Request)
    requires s.isMaster == t.isMaster && Queueable(s, argv)
    ensures Queueable(t, argv)
  {
  }

  lemma RunOne(s: Server, c: ClientId, argv: Request, now: int)
    requires WellFormed(s) && c < |s.clients| && argv != []
    ensures InputsOk(Inputs(c, [argv], now), |s.clients|)
    ensures Run(s, Inputs(c, [argv], now)) == ProcessQuery(s, c, argv, now)
  {
    hide ProcessQuery;
    var inputs := Inputs(c, [argv], now);
    assert inputs[0] == Input(c, argv, now) && inputs[1..] == [];
    var r := ProcessQuery(s, c, argv, now);
    if r.Done? { assert Run(r.s, []) == r; }
  }

  lemma MultiRuns(s: Server, c: ClientId, now: int)
    requires WellFormed(s) && c < |s.clients| && Multi !in s.clients[c].flags
    ensures var client := s.clients[c];
            var t := s.(trace := s.trace + [Event(c, client.dbid, MultiCmd, ["MULTI"])],
                        clients := s.clients[c := client.(flags := client.flags + {Multi}, out := client.out + [Ok])]);
            InputsOk(Inputs(c, [["MULTI"]], now), |s.clients|) && Run(s, Inputs(c, [["MULTI"]], now)) == Done(t)
  {
    hide Run, DataCommand, ExecTransaction, SelectStep, WatchStep, CommandNamed, MultiStep;
    MultiName();
    var s1 := s.(trace := s.trace + [Event(c, s.clients[c].dbid, MultiCmd, ["MULTI"])]);
    MultiStepIs(s1, c);
    RunOne(s, c, ["MULTI"], now);
  }

  lemma MultiName()
    ensures CommandNamed("MULTI") == Some(MultiCmd)
  {
    assert Upper("MULTI") == "MULTI";
  }

  lemma MultiStepIs(s: Server, c: ClientId)
    requires c < |s.clients|
    ensures var client := s.clients[c];
            MultiStep(s, c) ==
            s.(clients := s.clients[c := client.(flags := client.flags + {Multi}, out := client.out + [Ok])])
  {
    var client := s.clients[c];
    var final := client.(flags := client.flags + {Multi}, out := client.out + [Ok]);
    assert s.clients[c := client.(flags := client.flags + {Multi})][c := final] == s.clients[c := final];
  }

  lemma ExecRuns(s: Server, c: ClientId, now: int)
    requires WellFormed(s) && c < |s.clients|
    ensures InputsOk(Inputs(c, [["EXEC"]], now), |s.clients|)
    ensures Run(s, Inputs(c, [["EXEC"]], now)) == ExecTransaction(s, c, ["EXEC"], now)
  {
    hide Run, ExecTransaction, QueueOrPlain;
    assert Upper("EXEC") == "EXEC";
    RunOne(s, c, ["EXEC"], now);
  }

  /** A queued MULTI turns queuing back on: whatever follows it is queued again, for ever,
      until the queue's ten places are used up. */
  lemma {:induction false} QueueRunsAway(s: Server, c: ClientId, i: nat, now: int)
    requires WellFormed(s) && c < |s.clients|
    requires Multi in s.clients[c].flags && i < |s.clients[c].queue|
    ensures RunQueue(s, c, i, now) == Outside
    decreases QUEUE_MAX - i
  {
    hide ExecPrefix;
    var argv := s.clients[c].queue[i];
    if |s.clients[c].queue| < QUEUE_MAX {
      QueueRunsAway(Enqueue(s, c, argv).s, c, i + 1, now);
    }
  }

  /** One SET, executed: the key holds the new value and the queue is as before. */
  lemma SetStores(s: Server, c: ClientId, k: Key, v: string, now: int)
    requires WellFormed(s) && c < |s.clients| && Multi !in s.clients[c].flags
    requires s.isMaster || Normal !in s.clients[c].flags
    ensures var r := QueueOrPlain(s, c, ["SET", k, v], now);
            var d := s.clients[c].dbid;
            r.Done? && k in r.s.dbs[d].kv && r.s.dbs[d].kv[k] == Create(v) && r.s.clients[c].queue == s.clients[c].queue
  {
    hide ExpireIfNeed, Create, WellFormed, DataStep, Touch;
    assert Upper("SET") == "SET";
    var d, argv := s.clients[c].dbid, ["SET", k, v];
    var s1 := s.(trace := s.trace + [Event(c, d, SetCmd, argv)]);
    TraceOnly(s, s1, c);
    SetStep(s1, c, k, v, now);
    var s2 := DataStep(s1, c, SetCmd, argv, now).s;
    TouchKeys(s2, c, d, k);
    assert QueueOrPlain(s, c, argv, now) == DataCommand(s1, c, SetCmd, argv, now);
  }

  lemma TraceOnly(s: Server, t: Server, c: ClientId)
    requires WellFormed(s) && c < |s.clients| && t == s.(trace := t.trace)
    ensures WellFormed(t) && t.clients[c].dbid < |t.dbs|
  {
  }

  lemma SetStep(s: Server, c: ClientId, k: Key, v: string, now: int)
    requires WellFormed(s) && c < |s.clients| && s.clients[c].dbid < |s.dbs|
    ensures var r, d := DataStep(s, c, SetCmd, ["SET", k, v], now), s.clients[c].dbid;
            && r.Done? && |r.s.dbs| == |s.dbs| && |r.s.clients| == |s.clients|
            && k in r.s.dbs[d].kv && r.s.dbs[d].kv[k] == Create(v)
            && r.s.clients[c] == s.clients[c].(out := r.s.clients[c].out)
  {
    hide ExpireIfNeed, Create, WellFormed;
  }

  lemma TouchKeys(s: Server, c: ClientId, d: nat, k: Key)
    requires c < |s.clients| && d < |s.dbs|
    ensures var t := Touch(s, d, k);
            && |t.clients| == |s.clients| && |t.dbs| == |s.dbs|
            && t.dbs[d].kv == s.dbs[d].kv && t.clients[c].queue == s.clients[c].queue
  {
  }

  /** On a replica EXEC is not transparent: it stores what a direct SET is refused. */
  lemma ReplicaExecStores(s: Server, c: ClientId, k: Key, v: string, now: int)
    requires WellFormed(s) && c < |s.clients| && !s.isMaster
    requires s.clients[c].flags == {Normal, Multi} && s.clients[c].queue == [["SET", k, v]]
    ensures var d := s.clients[c].dbid;
            var r := ExecTransaction(s, c, ["EXEC"], now);
            r.Done? && k in r.s.dbs[d].kv && r.s.dbs[d].kv[k] == Create(v)
    ensures ProcessQuery(Unqueued(s, c), c, ["SET", k, v], now) == Done(Say(Unqueued(s, c), c, InvalidCommand))
  {
    hide QueueOrPlain, Run;
    assert (s.clients[c].flags - {Multi} + {Exec}) * {DirtyCas} == {};
    var s0 := SetClient(s.(trace := s.trace + [Event(c, s.clients[c].dbid, ExecCmd, ["EXEC"])]), c,
                        s.clients[c].(flags := {}));
    SetStores(s0, c, k, v, now);
    var s1 := QueueOrPlain(s0, c, ["SET", k, v], now).s;
    assert RunQueue(s1, c, 1, now) == Done(s1);
    assert RunQueue(s0, c, 0, now) == Done(s1);
    DirectSetRefused(Unqueued(s, c), c, k, v, now);
  }

  lemma DirectSetRefused(s: Server, c: ClientId, k: Key, v: string, now: int)
    requires WellFormed(s) && c < |s.clients| && !s.isMaster && s.clients[c].flags == {Normal}
    ensures ProcessQuery(s, c, ["SET", k, v], now) == Done(Say(s, c, InvalidCommand))
  {
    hide Perform, Say;
    assert Upper("SET") == "SET";
  }
}
