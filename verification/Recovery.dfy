/** From running server to crash to reload: what the append-only log guarantees end to end. */
module Recovery {
  import opened Wrappers
  import opened Robj
  import opened Resp
  import opened Server
  import opened Aof
  import AofHandoff

  // ---------- The database a log stands for ----------

  type Kv = map<Key, Robj>

  /** What one logged SET or DEL does to a key-value table. */
  function Apply(kv: Kv, argv: Request): Kv
    requires |argv| >= 2
  {
    match CommandNamed(argv[0])
    case Some(SetCmd) => if |argv| == 2 then kv else kv[argv[1] := Create(argv[2])]
    case Some(DelCmd) => kv - {argv[1]}
    case _ => kv
  }

  predicate Writing(argv: Request) {
    |argv| >= 2 && Fits(argv) && (CommandNamed(argv[0]) == Some(SetCmd) || CommandNamed(argv[0]) == Some(DelCmd))
  }

  predicate AllWriting(cmds: seq<Request>) { forall i :: 0 <= i < |cmds| ==> Writing(cmds[i]) }

  function Fold(kv: Kv, cmds: seq<Request>): Kv
    requires AllWriting(cmds)
    decreases |cmds|
  {
    if cmds == [] then kv else Fold(Apply(kv, cmds[0]), cmds[1..])
  }

  lemma {:induction false} FoldSnoc(kv: Kv, cmds: seq<Request>, argv: Request)
    requires AllWriting(cmds) && Writing(argv)
    ensures Fold(kv, cmds + [argv]) == Apply(Fold(kv, cmds), argv)
    decreases |cmds|
  {
    hide Apply;
    if cmds == [] {
      assert (cmds + [argv])[1..] == [];
    } else {
      assert (cmds + [argv])[1..] == cmds[1..] + [argv];
      FoldSnoc(Apply(kv, cmds[0]), cmds[1..], argv);
    }
  }

  // ---------- The running server ----------

  /** Requests of the core: anything but EXPIRE and SELECT, within the format's limits. */
  predicate CoreRequest(argv: Request) {
    argv != [] && Fits(argv) && CommandNamed(argv[0]) != Some(ExpireCmd) && CommandNamed(argv[0]) != Some(SelectCmd)
  }

  predicate CoreClient(client: Client) {
    client.dbid == 0 && Fake !in client.flags && forall i :: 0 <= i < |client.queue| ==> CoreRequest(client.queue[i])
  }

  /** Where writes are recorded: the append-only log when it is on, else the replication stream. */
  function Log(s: Server): seq<Request> { if s.aofOn then s.aof else s.stream }

  /** The database is the fold of the log. */
  predicate LogMirrors(s: Server) {
    && WellFormed(s) && (s.aofOn || s.isMaster) && |s.dbs| > 0 && s.dbs[0].expires == map[]
    && (forall c :: 0 <= c < |s.clients| ==> CoreClient(s.clients[c]))
    && AllWriting(Log(s)) && s.dbs[0].kv == Fold(map[], Log(s))
  }

  /** A step that leaves database, log, queues and databases of clients alone. */
  predicate Idle(s: Server, t: Server) {
    && SameShape(s, t) && t.aof == s.aof && t.stream == s.stream && |s.dbs| > 0
    && t.dbs[0].kv == s.dbs[0].kv && t.dbs[0].expires == s.dbs[0].expires
    && (forall c :: 0 <= c < |s.clients| ==> SameOwner(s.clients[c], t.clients[c]))
  }

  predicate SameOwner(a: Client, b: Client) {
    b.dbid == a.dbid && b.queue == a.queue && (Fake in b.flags <==> Fake in a.flags)
  }

  lemma IdleMirrors(s: Server, t: Server)
    requires LogMirrors(s) && Idle(s, t)
    ensures LogMirrors(t)
  {
  }

  lemma TouchIdle(s: Server, d: nat, k: Key)
    requires WellFormed(s) && d < |s.dbs|
    ensures Idle(s, Touch(s, d, k))
    ensures forall x :: 0 <= x < |s.clients| ==> Touch(s, d, k).clients[x].flags <= s.clients[x].flags + {DirtyCas}
  {
  }

  lemma DataStepApplies(s: Server, c: ClientId, cmd: Command, argv: Request, now: int)
    requires WellFormed(s) && |s.dbs| > 0 && s.dbs[0].expires == map[]
    requires c < |s.clients| && s.clients[c].dbid == 0 && |argv| >= 2
    requires CommandNamed(argv[0]) == Some(cmd) && cmd.TouchesData() && cmd != ExpireCmd
    ensures var r := DataStep(s, c, cmd, argv, now);
            && r.Done? && r.s.dbs[0].kv == Apply(s.dbs[0].kv, argv) && r.s.dbs[0].expires == map[]
            && r.s.aof == s.aof && r.s.stream == s.stream
            && (forall x :: 0 <= x < |s.clients| ==>
                  SameOwner(s.clients[x], r.s.clients[x]) && r.s.clients[x].flags == s.clients[x].flags)
  {
    hide Create, Show, CommandNamed, WellFormed;
    var kv := s.dbs[0].kv;
    if cmd.DelCmd? && argv[1] !in kv { assert kv - {argv[1]} == kv; }
    var e := DataEffect(ExpireIfNeed(s.dbs[0], argv[1], now), cmd, argv, now);
    assert e.Effect? && e.db.kv == Apply(kv, argv) && e.db.expires == map[];
  }

  /** What a data command does to database 0 and to the log. */
  lemma DataLogged(s: Server, c: ClientId, cmd: Command, argv: Request, now: int)
    requires WellFormed(s) && |s.dbs| > 0 && s.dbs[0].expires == map[]
    requires c < |s.clients| && s.clients[c].dbid == 0 && |argv| >= 2
    requires CommandNamed(argv[0]) == Some(cmd) && cmd.TouchesData() && cmd != ExpireCmd
    ensures var r := DataCommand(s, c, cmd, argv, now);
            && r.Done? && r.s.dbs[0].kv == Apply(s.dbs[0].kv, argv) && r.s.dbs[0].expires == map[]
            && r.s.aof == (if cmd.Writes() && s.aofOn && Fake !in s.clients[c].flags then s.aof + [argv] else s.aof)
            && (!s.aofOn ==> r.s.stream == if cmd.Writes() && s.isMaster then s.stream + [argv] else s.stream)
            && (forall x :: 0 <= x < |s.clients| ==>
                  SameOwner(s.clients[x], r.s.clients[x]) && r.s.clients[x].flags <= s.clients[x].flags + {DirtyCas})
  {
    hide DataStep, Touch, Apply, CommandNamed, WellFormed;
    DataStepApplies(s, c, cmd, argv, now);
    TouchIdle(DataStep(s, c, cmd, argv, now).s, 0, argv[1]);
  }

  lemma {:induction false} AddWatchesIdle(db: Db, keys: seq<Key>, c: ClientId)
    ensures AddWatches(db, keys, c).kv == db.kv && AddWatches(db, keys, c).expires == db.expires
    decreases |keys|
  {
    if keys != [] { AddWatchesIdle(db, keys[..|keys| - 1], c); }
  }

  lemma WatchIdle(s: Server, c: ClientId, argv: Request)
    requires WellFormed(s) && c < |s.clients| && argv != []
    ensures Idle(s, WatchStep(s, c, argv))
  {
    hide AddWatches;
    AddWatchesIdle(s.dbs[s.clients[c].dbid], argv[1..], c);
  }

  /** Commands outside the data group change neither database nor log. */
  lemma OtherIdle(s: Server, c: ClientId, cmd: Command, argv: Request, now: int)
    requires WellFormed(s) && |s.dbs| > 0 && c < |s.clients| && argv != [] && Perform(s, c, cmd, argv, now).Done?
    requires !cmd.TouchesData() && cmd != SelectCmd
    ensures Idle(s, Perform(s, c, cmd, argv, now).s)
  {
    hide WatchStep;
    if cmd == WatchCmd { WatchIdle(s, c, argv); }
  }

  lemma DataMirrors(s: Server, c: ClientId, cmd: Command, argv: Request, now: int)
    requires LogMirrors(s) && c < |s.clients| && CoreRequest(argv) && CommandNamed(argv[0]) == Some(cmd)
    requires cmd.TouchesData() && |argv| >= 2
    ensures DataCommand(s, c, cmd, argv, now).Done? && LogMirrors(DataCommand(s, c, cmd, argv, now).s)
  {
    hide DataCommand, Fold, Apply, CommandNamed, WellFormed;
    DataLogged(s, c, cmd, argv, now);
    var t := DataCommand(s, c, cmd, argv, now).s;
    if cmd.Writes() {
      assert Writing(argv);
      FoldSnoc(map[], Log(s), argv);
    } else {
      GetApplies(s.dbs[0].kv, argv);
    }
  }

  lemma GetApplies(kv: Kv, argv: Request)
    requires |argv| >= 2 && CommandNamed(argv[0]) == Some(GetCmd)
    ensures Apply(kv, argv) == kv
  {
    hide CommandNamed;
  }

  lemma PlainMirrors(s: Server, c: ClientId, argv: Request, now: int)
    requires LogMirrors(s) && c < |s.clients| && CoreRequest(argv) && Plain(s, c, argv, now).Done?
    ensures LogMirrors(Plain(s, c, argv, now).s)
  {
    hide DataStep, Touch, CommandNamed, LogMirrors, Fits;
    assert WellFormed(s) && |s.dbs| > 0 by { LogMirrorsShape(s); }
    match LookupCommand(s, c, argv[0])
    case None => IdleMirrors(s, Say(s, c, InvalidCommand));
    case Some(cmd) =>
      var s1 := s.(trace := s.trace + [Event(c, s.clients[c].dbid, cmd, argv)]);
      IdleMirrors(s, s1);
      if cmd.TouchesData() {
        DataMirrors(s1, c, cmd, argv, now);
      } else {
        OtherIdle(s1, c, cmd, argv, now);
        IdleMirrors(s1, Perform(s1, c, cmd, argv, now).s);
      }
  }

  lemma LogMirrorsShape(s: Server)
    requires LogMirrors(s)
    ensures WellFormed(s) && |s.dbs| > 0
  {
  }

  lemma QueueOrPlainMirrors(s: Server, c: ClientId, argv: Request, now: int)
    requires LogMirrors(s) && c < |s.clients| && CoreRequest(argv) && QueueOrPlain(s, c, argv, now).Done?
    ensures LogMirrors(QueueOrPlain(s, c, argv, now).s)
  {
    hide Plain, Fold;
    if Multi in s.clients[c].flags && !ExecPrefix(argv[0]) {
      var t := Enqueue(s, c, argv).s;
      assert t.dbs == s.dbs && t.aof == s.aof;
    } else {
      PlainMirrors(s, c, argv, now);
    }
  }

  lemma {:induction false} RunQueueMirrors(s: Server, c: ClientId, i: nat, now: int)
    requires LogMirrors(s) && c < |s.clients| && RunQueue(s, c, i, now).Done?
    ensures LogMirrors(RunQueue(s, c, i, now).s)
    decreases QUEUE_MAX - i
  {
    hide QueueOrPlain, Fold;
    var queue := s.clients[c].queue;
    if i < |queue| {
      assert CoreClient(s.clients[c]);
      QueueOrPlainMirrors(s, c, queue[i], now);
      RunQueueMirrors(QueueOrPlain(s, c, queue[i], now).s, c, i + 1, now);
    }
  }

  lemma ExecMirrors(s: Server, c: ClientId, argv: Request, now: int)
    requires LogMirrors(s) && c < |s.clients| && ExecTransaction(s, c, argv, now).Done?
    ensures LogMirrors(ExecTransaction(s, c, argv, now).s)
  {
    hide RunQueue, LogMirrors;
    LogMirrorsShape(s);
    var client := s.clients[c];
    var flags := (client.flags - {Multi} + {Exec}) * {DirtyCas};
    var s0 := SetClient(s.(trace := s.trace + [Event(c, client.dbid, ExecCmd, argv)]), c, client.(flags := flags));
    NotFake(s, s0, c, flags);
    if flags != {} {
      EndMirrors(s0, c, ErrDirty);
    } else {
      RunQueueMirrors(s0, c, 0, now);
      EndMirrors(RunQueue(s0, c, 0, now).s, c, ExecOk);
    }
  }

  lemma NotFake(s: Server, t: Server, c: ClientId, flags: set<Flag>)
    requires LogMirrors(s) && c < |s.clients| && Fake !in flags
    requires t == SetClient(s.(trace := t.trace), c, s.clients[c].(flags := flags))
    ensures LogMirrors(t)
  {
    hide Fold, Fits;
    assert CoreClient(s.clients[c]);
    assert CoreClient(t.clients[c]);
  }

  lemma EndMirrors(s: Server, c: ClientId, reply: Reply)
    requires LogMirrors(s) && c < |s.clients|
    ensures LogMirrors(EndExec(s, c, reply))
  {
    hide Fold, Fits;
    assert CoreClient(s.clients[c]);
  }

  /** Every run of core requests, transactions included: database 0 is the fold of the log. */
  lemma {:induction false} RunMirrors(s: Server, inputs: seq<Input>)
    requires LogMirrors(s) && WellFormed(s) && InputsOk(inputs, |s.clients|)
    requires forall i :: 0 <= i < |inputs| ==> CoreRequest(inputs[i].argv)
    requires Run(s, inputs).Done?
    ensures LogMirrors(Run(s, inputs).s)
    decreases |inputs|
  {
    hide LogMirrors, QueueOrPlain, ExecTransaction, CommandNamed, Fits;
    if inputs != [] {
      var q := inputs[0];
      assert CoreRequest(q.argv);
      if CommandNamed(q.argv[0]) == Some(ExecCmd) {
        ExecMirrors(s, q.client, q.argv, q.now);
      } else {
        QueueOrPlainMirrors(s, q.client, q.argv, q.now);
      }
      RunMirrors(ProcessQuery(s, q.client, q.argv, q.now).s, inputs[1..]);
    }
  }

  // ---------- Reload ----------

  /** The fake client that aof_load executes for, on a server without deadlines. */
  predicate Loader(s: Server, f: ClientId) {
    && WellFormed(s) && |s.dbs| > 0 && s.dbs[0].expires == map[]
    && f < |s.clients| && s.clients[f].dbid == 0
    && Fake in s.clients[f].flags && s.clients[f].flags <= {Fake, DirtyCas}
  }

  lemma LoadOne(s: Server, f: ClientId, argv: Request, now: int)
    requires Loader(s, f) && Writing(argv)
    ensures var r := ProcessQuery(s, f, argv, now);
            r.Done? && Loader(r.s, f) && r.s.dbs[0].kv == Apply(s.dbs[0].kv, argv) && r.s.aof == s.aof
  {
    hide DataCommand, Apply, CommandNamed, Fits;
    var cmd := CommandNamed(argv[0]).value;
    var s1 := s.(trace := s.trace + [Event(f, 0, cmd, argv)]);
    DataLogged(s1, f, cmd, argv, now);
    assert ProcessQuery(s, f, argv, now) == DataCommand(s1, f, cmd, argv, now);
  }

  lemma {:induction false} LoadAll(s: Server, f: ClientId, cmds: seq<Request>, now: int)
    requires Loader(s, f) && AllWriting(cmds)
    requires InputsOk(Inputs(f, cmds, now), |s.clients|)
    ensures var r := Run(s, Inputs(f, cmds, now));
            r.Done? && r.s.dbs != [] && r.s.dbs[0].kv == Fold(s.dbs[0].kv, cmds) && r.s.aof == s.aof
    decreases |cmds|
  {
    hide ProcessQuery, Apply, WellFormed;
    if cmds != [] {
      LoadOne(s, f, cmds[0], now);
      var inputs := Inputs(f, cmds, now);
      assert inputs[0] == Input(f, cmds[0], now) && inputs[1..] == Inputs(f, cmds[1..], now);
      LoadAll(ProcessQuery(s, f, cmds[0], now).s, f, cmds[1..], now);
    }
  }

  lemma LogTextPrefix(file: string, cmds: seq<Request>)
    requires file <= LogText(cmds)
    ensures file == LogText(cmds)[..|file|]
  {
  }

  /** Crash recovery, end to end. Take any run of core requests from an empty log and database;
      let main thread and flush thread interleave in any harmless way, as far as the log has
      been appended by then; crash at any moment, even with the last write torn. Then reloading
      the file into an empty server executes exactly the longest whole-command prefix of the
      log that fits in the file and rebuilds exactly the database those commands produced. The
      buffers and the key dictionary are the guarded ones; Aof.ReplayRoom and
      LogTables.ReplayTables say when they need not be. */
  lemma CrashRecovery(s0: Server, inputs: seq<Input>, actions: seq<AofHandoff.Action>, torn: nat,
                      r0: Server, f: ClientId, now: int)
    requires WellFormed(s0) && InputsOk(inputs, |s0.clients|)
    requires LogMirrors(s0) && s0.aofOn && s0.aof == []
    requires (forall i :: 0 <= i < |inputs| ==> CoreRequest(inputs[i].argv)) && Run(s0, inputs).Done?
    requires AofHandoff.Possible(AofHandoff.START, actions) && AofHandoff.Harmless(AofHandoff.START, actions)
    requires AofHandoff.After(AofHandoff.START, actions).history <= LogText(Run(s0, inputs).s.aof)
    requires torn <= |AofHandoff.Unwritten(AofHandoff.After(AofHandoff.START, actions))|
    requires Loader(r0, f) && r0.dbs[0].kv == map[]
    ensures var s, log := Run(s0, inputs).s, AofHandoff.After(AofHandoff.START, actions);
            var file := log.file + AofHandoff.Unwritten(log)[..torn];
            var m := WholeIn(s.aof, |file|);
            && s.dbs != [] && AllWriting(s.aof) && s.dbs[0].kv == Fold(map[], s.aof)
            && |LogText(s.aof[..m])| <= |file| && (m < |s.aof| ==> |LogText(s.aof[..m + 1])| > |file|)
            && var r := Replay(r0, f, file, "", now);
               r.Done? && r.s.dbs != [] && r.s.dbs[0].kv == Fold(map[], s.aof[..m])
  {
    hide Replay, Run, LogText, WholeIn, Fold, Loader, WellFormed, CommandNamed, Fits;
    RunMirrors(s0, inputs);
    var s, log := Run(s0, inputs).s, AofHandoff.After(AofHandoff.START, actions);
    AofHandoff.RunAgrees(AofHandoff.START, actions, torn);
    var file := log.file + AofHandoff.Unwritten(log)[..torn];
    LogTextPrefix(file, s.aof);
    WholeInLongest(s.aof, |file|);
    Reload(r0, f, s.aof, |file|, now);
  }

  lemma Reload(r0: Server, f: ClientId, cmds: seq<Request>, n: nat, now: int)
    requires Loader(r0, f) && AllWriting(cmds) && n <= |LogText(cmds)|
    ensures var r := Replay(r0, f, LogText(cmds)[..n], "", now);
            r.Done? && r.s.dbs != [] && r.s.dbs[0].kv == Fold(r0.dbs[0].kv, cmds[..WholeIn(cmds, n)])
  {
    hide Replay, Run, LogText, WholeIn, Fold, WellFormed, CommandNamed, Fits;
    ReplayPrefix(r0, f, cmds, n, now);
    LoadAll(r0, f, cmds[..WholeIn(cmds, n)], now);
  }
}
