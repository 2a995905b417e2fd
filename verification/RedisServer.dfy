/** The server object as the handlers update it, step by step, proved against the
    functions of module Server. */
module RedisServer {
  import opened Wrappers
  import opened Decimal
  import opened Robj
  import opened Server

  /** From s to t, handler result e was stored in database d and answered to client c. */
  ghost predicate DataResult(s: Server, t: Server, c: ClientId, d: nat, e: Effect) {
    c < |s.clients| && d < |s.dbs| && e.Effect? &&
    t == Say(s.(dbs := s.dbs[d := e.db], dirty := s.dirty + if e.changed then 1 else 0), c, e.reply)
  }

  class RedisServer {
    const isMaster: bool
    const aofOn: bool
    var dbs: seq<Db>
    var clients: seq<Client>
    var aof: seq<Request>
    var stream: seq<Request>
    var dirty: nat
    ghost var trace: seq<Event>
    ghost var calls: seq<Call>

    ghost function State(): Server
      reads this
    {
      Server(isMaster, aofOn, dbs, clients, aof, stream, dirty, trace, calls)
    }

    /** initServer and acceptTcpHandler: empty databases, n clients on database 0. */
    constructor (isMaster: bool, aofOn: bool, dbnum: nat, n: nat)
      requires dbnum > 0
      ensures Initial(State()) && |clients| == n && |dbs| == dbnum && this.isMaster == isMaster && this.aofOn == aofOn
      ensures forall d :: 0 <= d < dbnum ==> dbs[d] == EMPTY_DB
      ensures forall c :: 0 <= c < n ==> clients[c] == Client({Normal}, 0, [], [])
      ensures aof == [] && stream == [] && dirty == 0
    {
      this.isMaster, this.aofOn := isMaster, aofOn;
      dbs := seq(dbnum, i => EMPTY_DB);
      clients := seq(n, i => Client({Normal}, 0, [], []));
      aof, stream, dirty, trace, calls := [], [], 0, [], [];
    }

    /** addWrite */
    method AddWrite(c: ClientId, reply: Reply)
      requires c < |clients|
      modifies this`clients
      ensures State() == Say(old(State()), c, reply)
    {
      clients := clients[c := clients[c].(out := clients[c].out + [reply])];
    }

    method SetFlags(c: ClientId, flags: set<Flag>)
      requires c < |clients|
      modifies this`clients
      ensures State() == SetClient(old(State()), c, old(clients[c]).(flags := flags))
    {
      clients := clients[c := clients[c].(flags := flags)];
    }

    /** touchWatchKey: pops the key's list until it is empty. */
    method TouchWatchKey(d: nat, key: Key)
      requires d < |dbs| && WatchersOk(dbs[d], |clients|)
      modifies this`clients, this`dbs
      ensures State() == Touch(old(State()), d, key)
    {
      if key in dbs[d].watched {
        ghost var db := dbs[d];
        ghost var list := dbs[d].watched[key];
        ghost var popped := 0;
        assert list[0..] == list;
        assert db.watched[key := list] == db.watched;
        while dbs[d].watched[key] != []
          invariant |dbs| == |old(dbs)| && popped <= |list|
          invariant key in dbs[d].watched && dbs[d].watched[key] == list[popped..]
          invariant dbs == old(dbs)[d := db.(watched := db.watched[key := list[popped..]])]
          invariant clients == MarkDirty(old(clients), list[..popped])
          decreases |list| - popped
        {
          var node := dbs[d].watched[key][0];
          assert node == list[popped] && list[..popped + 1] == list[..popped] + [node];
          assert list[popped..][1..] == list[popped + 1..];
          assert db.watched[key := list[popped..]][key := list[popped + 1..]] == db.watched[key := list[popped + 1..]];
          clients := clients[node := clients[node].(flags := clients[node].flags + {DirtyCas})];
          dbs := dbs[d := dbs[d].(watched := dbs[d].watched[key := dbs[d].watched[key][1..]])];
          popped := popped + 1;
        }
        assert list[..popped] == list;
      }
    }

    /** commandWatchProc */
    method CommandWatch(c: ClientId, argv: Request)
      requires c < |clients| && clients[c].dbid < |dbs| && argv != []
      modifies this`clients, this`dbs
      ensures State() == WatchStep(old(State()), c, argv)
    {
      var d := clients[c].dbid;
      var i := 1;
      while i < |argv|
        invariant 1 <= i <= |argv| && |dbs| == |old(dbs)| && clients == old(clients)
        invariant dbs == old(dbs)[d := AddWatches(old(dbs)[d], argv[1..i], c)]
      {
        assert argv[1..i + 1][..i - 1] == argv[1..i];
        dbs := dbs[d := AddWatch(dbs[d], argv[i], c)];
        i := i + 1;
      }
      assert argv[1..i] == argv[1..];
      AddWrite(c, Ok);
    }

    /** commandSetProc */
    method CommandSet(c: ClientId, d: nat, argv: Request)
      requires c < |clients| && d < |dbs| && |argv| >= 2
      modifies this`clients, this`dbs, this`dirty
      ensures DataResult(old(State()), State(), c, d, DataEffect(old(dbs[d]), SetCmd, argv, 0))
    {
      hide Create;
      if |argv| == 2 {
        AddWrite(c, ValueMissed);
      } else {
        dbs := dbs[d := dbs[d].(kv := dbs[d].kv[argv[1] := Create(argv[2])])];
        AddWrite(c, Ok);
        dirty := dirty + 1;
      }
    }

    /** commandGetProc */
    method CommandGet(c: ClientId, d: nat, argv: Request)
      requires c < |clients| && d < |dbs| && |argv| >= 2
      modifies this`clients
      ensures DataResult(old(State()), State(), c, d, DataEffect(old(dbs[d]), GetCmd, argv, 0))
    {
      hide Show;
      var key := argv[1];
      AddWrite(c, if key in dbs[d].kv then Bulk(Show(dbs[d].kv[key])) else KeyNotFound);
    }

    /** commandDelProc */
    method CommandDel(c: ClientId, d: nat, argv: Request)
      requires c < |clients| && d < |dbs| && |argv| >= 2
      modifies this`clients, this`dbs, this`dirty
      ensures DataResult(old(State()), State(), c, d, DataEffect(old(dbs[d]), DelCmd, argv, 0))
    {
      var key := argv[1];
      if key in dbs[d].kv {
        dbs := dbs[d := dbs[d].(kv := dbs[d].kv - {key})];
        dirty := dirty + 1;
        AddWrite(c, Ok);
      } else {
        AddWrite(c, KeyNotFound);
      }
    }

    /** commandExpireProc */
    method CommandExpire(c: ClientId, d: nat, argv: Request, now: int)
      requires c < |clients| && d < |dbs| && |argv| > 2
      modifies this`clients, this`dbs, this`dirty
      ensures DataResult(old(State()), State(), c, d, DataEffect(old(dbs[d]), ExpireCmd, argv, now))
    {
      hide Scan;
      var key := argv[1];
      var r := Scan(argv[2]);
      if r.used == 0 || r.used < |argv[2]| || !IsLong(r.value) {
        AddWrite(c, Err);
      } else if key in dbs[d].expires {
        AddWrite(c, Err);
      } else {
        dbs := dbs[d := dbs[d].(expires := dbs[d].expires[key := r.value + now])];
        dirty := dirty + 1;
        AddWrite(c, Ok);
      }
    }

    /** expireIfNeed */
    method ExpireKey(d: nat, key: Key, now: int)
      requires d < |dbs|
      modifies this`dbs
      ensures dbs == old(dbs)[d := ExpireIfNeed(old(dbs)[d], key, now)]
    {
      if key in dbs[d].expires && now > dbs[d].expires[key] {
        dbs := dbs[d := dbs[d].(kv := dbs[d].kv - {key})];
      }
    }

    /** The handler of a data command; false when an argument is missing. */
    method Handle(c: ClientId, d: nat, cmd: Command, argv: Request, now: int) returns (ok: bool)
      requires c < |clients| && d < |dbs| && |argv| >= 2 && cmd.TouchesData()
      modifies this`clients, this`dbs, this`dirty
      ensures ok == DataEffect(old(dbs[d]), cmd, argv, now).Effect?
      ensures ok ==> DataResult(old(State()), State(), c, d, DataEffect(old(dbs[d]), cmd, argv, now))
    {
      hide DataResult, Create, Show, Scan;
      match cmd {
        case SetCmd => CommandSet(c, d, argv);
        case GetCmd => CommandGet(c, d, argv);
        case DelCmd => CommandDel(c, d, argv);
        case ExpireCmd =>
          if |argv| == 2 { return false; }
          CommandExpire(c, d, argv, now);
      }
      return true;
    }

    /** expireIfNeed and then the handler; false when an argument is missing. */
    method CommandData(c: ClientId, cmd: Command, argv: Request, now: int) returns (ok: bool)
      requires c < |clients| && clients[c].dbid < |dbs| && |argv| >= 2 && cmd.TouchesData()
      modifies this`clients, this`dbs, this`dirty, this`calls
      ensures ok == DataStep(old(State()), c, cmd, argv, now).Done?
      ensures ok ==> State() == DataStep(old(State()), c, cmd, argv, now).s
    {
      hide DataEffect, ExpireIfNeed, WellFormed, KvCalls;
      var d := clients[c].dbid;
      calls := calls + [Call(d, KvCalls(dbs[d], cmd, argv, now))];
      ExpireKey(d, argv[1], now);
      ok := Handle(c, d, cmd, argv, now);
    }

    /** commandSelectProc */
    method CommandSelect(c: ClientId, argv: Request) returns (ok: bool)
      requires c < |clients|
      modifies this`clients
      ensures ok == SelectStep(old(State()), c, argv).Done?
      ensures ok ==> State() == SelectStep(old(State()), c, argv).s
    {
      hide Scan, Print, WellFormed;
      if |argv| < 2 { return false; }
      var r := Scan(argv[1]);
      if r.used == 0 || r.used < |argv[1]| || !IsLong(r.value) {
        AddWrite(c, Err);
      } else if 0 <= r.value < |dbs| {
        clients := clients[c := clients[c].(dbid := r.value)];
        AddWrite(c, Bulk("OK, db is " + Print(r.value)));
      } else {
        return false;
      }
      return true;
    }

    /** The part of processCommand around a data handler: watched keys, log, replication. */
    method CommandOnData(c: ClientId, cmd: Command, argv: Request, now: int) returns (ok: bool)
      requires WellFormed(State()) && c < |clients| && cmd.TouchesData()
      modifies this`clients, this`dbs, this`dirty, this`calls, this`aof, this`stream
      ensures ok == DataCommand(old(State()), c, cmd, argv, now).Done?
      ensures ok ==> State() == DataCommand(old(State()), c, cmd, argv, now).s
    {
      hide DataStep, Touch;
      if |argv| < 2 { return false; }
      var client := clients[c];
      ok := CommandData(c, cmd, argv, now);
      if ok && cmd.Writes() {
        TouchWatchKey(client.dbid, argv[1]);
        var logged := aofOn && Fake !in client.flags;
        if logged { aof := aof + [argv]; }
        if isMaster && !logged { stream := stream + [argv]; }
      }
    }

    /** processCommand, for every command but EXEC. */
    method ProcessCommand(c: ClientId, argv: Request, now: int) returns (ok: bool)
      requires WellFormed(State()) && c < |clients| && argv != []
      modifies this
      ensures ok == Plain(old(State()), c, argv, now).Done?
      ensures ok ==> State() == Plain(old(State()), c, argv, now).s
    {
      hide DataCommand, SelectStep, WatchStep, CommandNamed;
      var known := CommandNamed(argv[0]);
      var client := clients[c];
      if known.None? || (!isMaster && Normal in client.flags && known.value.Writes()) {
        if Upper(argv[0]) in UNMODELLED { return false; }
        AddWrite(c, InvalidCommand);
        return true;
      }
      trace := trace + [Event(c, client.dbid, known.value, argv)];
      ok := true;
      match known.value
      case SelectCmd => ok := CommandSelect(c, argv);
      case WatchCmd => CommandWatch(c, argv);
      case MultiCmd =>
        SetFlags(c, client.flags + {Multi});
        AddWrite(c, Ok);
      case PingCmd => AddWrite(c, Pong);
      case ExecCmd => ok := false;
      case _ => ok := CommandOnData(c, known.value, argv, now);
    }

    /** processClientQueryBuf for a request that is not EXEC. */
    method QueryOrQueue(c: ClientId, argv: Request, now: int) returns (ok: bool)
      requires WellFormed(State()) && c < |clients| && argv != []
      modifies this
      ensures ok == QueueOrPlain(old(State()), c, argv, now).Done?
      ensures ok ==> State() == QueueOrPlain(old(State()), c, argv, now).s
    {
      hide Plain;
      if Multi in clients[c].flags && !ExecPrefix(argv[0]) {
        if |clients[c].queue| >= QUEUE_MAX { return false; }
        clients := clients[c := clients[c].(queue := clients[c].queue + [argv])];
        AddWrite(c, Queued);
        ok := true;
      } else {
        ok := ProcessCommand(c, argv, now);
      }
    }

    /** commandExecProc */
    method CommandExec(c: ClientId, argv: Request, now: int) returns (ok: bool)
      requires WellFormed(State()) && c < |clients|
      modifies this
      ensures ok == ExecTransaction(old(State()), c, argv, now).Done?
      ensures ok ==> State() == ExecTransaction(old(State()), c, argv, now).s
    {
      hide QueueOrPlain;
      trace := trace + [Event(c, clients[c].dbid, ExecCmd, argv)];
      SetFlags(c, (clients[c].flags - {Multi} + {Exec}) * {DirtyCas});
      if clients[c].flags != {} {
        FinishExec(c, ErrDirty);
        return true;
      }
      ghost var s0 := State();
      var i := 0;
      while i < |clients[c].queue|
        invariant SameShape(s0, State()) && c < |clients|
        invariant RunQueue(s0, c, 0, now) == RunQueue(State(), c, i, now)
        decreases QUEUE_MAX - i
      {
        ok := QueryOrQueue(c, clients[c].queue[i], now);
        if !ok { return; }
        i := i + 1;
      }
      FinishExec(c, ExecOk);
      return true;
    }

    method FinishExec(c: ClientId, reply: Reply)
      requires c < |clients|
      modifies this`clients
      ensures State() == EndExec(old(State()), c, reply)
    {
      clients := clients[c := clients[c].(flags := clients[c].flags - {Exec}, queue := [])];
      AddWrite(c, reply);
    }

    /** processClientQueryBuf: one decoded request of one client. `ok` is false exactly when
        the C code would leave its arrays or the command is left out of the model. */
    method ProcessClientQuery(c: ClientId, argv: Request, now: int) returns (ok: bool)
      requires WellFormed(State()) && c < |clients| && argv != []
      modifies this
      ensures ok == ProcessQuery(old(State()), c, argv, now).Done?
      ensures ok ==> State() == ProcessQuery(old(State()), c, argv, now).s && SameShape(old(State()), State())
    {
      hide QueueOrPlain, ExecTransaction, CommandNamed;
      if CommandNamed(argv[0]) == Some(ExecCmd) {
        ok := CommandExec(c, argv, now);
      } else {
        ok := QueryOrQueue(c, argv, now);
      }
    }
  }
}
