/** The key dictionary in a replay of the log and on a replica: guarded it bears everything; as
    coded there is a log that a server wrote without harm and cannot load. */
module LogTables {
  import opened Wrappers
  import opened Robj
  import opened Server
  import opened Aof
  import opened Recovery
  import opened DictRuns
  import opened KvTables
  import Replication
  import DictCrash
  import DictSpec
  import Resp
  import Sds

  // ---------- Replays and replicas are runs ----------

  lemma {:induction false} ReplayExtends(s: Server, f: ClientId, sbuf: string, readBuf: string, now: int)
    requires WellFormed(s) && f < |s.clients| && Replay(s, f, sbuf, readBuf, now).Done?
    ensures Extends(s, Replay(s, f, sbuf, readBuf, now).s)
    decreases |sbuf|
  {
    hide ProcessQuery, Extends, WellFormed, Resp.RespParse, Resp.Decode;
    match Resp.RespParse(sbuf) {
      case Incomplete => KeptExtends(s, s);
      case Unspecified =>
      case Took(n) =>
        match Resp.Decode(readBuf + sbuf[..n]) {
          case Overrun =>
          case Rejected => ReplayExtends(s, f, sbuf[n..], readBuf + sbuf[..n], now);
          case Args(argv) =>
            var s1 := ProcessQuery(s, f, argv, now).s;
            ProcessExtends(s, f, argv, now);
            ReplayExtends(s1, f, sbuf[n..], "", now);
            ExtendsThrough(s, s1, Replay(s1, f, sbuf[n..], "", now).s);
        }
    }
  }

  lemma RoundExtends(r: Server, offset: int, text: string, now: int)
    requires WellFormed(r) && Replication.LOADER < |r.clients| && Replication.SyncRound(r, offset, text, now).Some?
    ensures Extends(r, Replication.SyncRound(r, offset, text, now).value.0)
  {
    hide ProcessQuery, Extends, WellFormed, Resp.Decode;
    match Resp.Decode(text)
    case Args(argv) => ProcessExtends(r, Replication.LOADER, argv, now);
    case _ => KeptExtends(r, r);
  }

  lemma {:induction false} SyncExtends(r: Server, offset: int, sbuf: string, readBuf: string, now: int)
    requires WellFormed(r) && Replication.LOADER < |r.clients|
    requires Replication.SyncFrames(r, offset, sbuf, readBuf, now).Synced?
    ensures Extends(r, Replication.SyncFrames(r, offset, sbuf, readBuf, now).r)
    decreases |sbuf|
  {
    hide Extends, WellFormed, Replication.SyncRound, Resp.RespParse;
    match Resp.RespParse(sbuf)
    case Took(n) =>
      var (r1, off, kept) := Replication.SyncRound(r, offset, readBuf + sbuf[..n], now).value;
      RoundExtends(r, offset, readBuf + sbuf[..n], now);
      SyncExtends(r1, off, sbuf[n..], kept, now);
      ExtendsThrough(r, r1, Replication.SyncFrames(r1, off, sbuf[n..], kept, now).r);
    case _ => KeptExtends(r, r);
  }

  lemma StepExtends(y: Replication.System, a: Replication.Action, coded: bool)
    requires Replication.SystemOk(y) && Replication.Enabled(y, a) && Replication.Step(y, a, coded).Some?
    ensures var z := Replication.Step(y, a, coded).value; Extends(y.m, z.m) && Extends(y.r, z.r)
  {
    hide ProcessQuery, Extends, WellFormed, Resp.Decode, Replication.SyncFrames, Replication.Answered;
    KeptExtends(y.m, y.m);
    KeptExtends(y.r, y.r);
    match a
    case Query(q) => ProcessExtends(y.m, q.client, q.argv, q.now);
    case Deliver(now) =>
      if Resp.Decode(Resp.Encode(y.wire[0])).Args? {
        ProcessExtends(y.r, Replication.PEER, Resp.Decode(Resp.Encode(y.wire[0])).args, now);
      }
    case Disconnect =>
    case Resume(now) => SyncExtends(y.r, y.offset, Replication.Answered(y, coded).bytes, "", now);
  }

  /** In every run of master and replica, the dictionary calls on both account for their keys. */
  lemma {:induction false} SystemExtends(y: Replication.System, actions: seq<Replication.Action>, coded: bool)
    requires Replication.SystemOk(y) && Replication.Steps(y, actions, coded).Some?
    ensures var z := Replication.Steps(y, actions, coded).value; Extends(y.m, z.m) && Extends(y.r, z.r)
    decreases |actions|
  {
    hide Replication.Step, Extends, WellFormed;
    if actions == [] {
      KeptExtends(y.m, y.m);
      KeptExtends(y.r, y.r);
    } else {
      var z := Replication.Step(y, actions[0], coded).value;
      StepExtends(y, actions[0], coded);
      SystemExtends(z, actions[1..], coded);
      var w := Replication.Steps(z, actions[1..], coded).value;
      ExtendsThrough(y.m, z.m, w.m);
      ExtendsThrough(y.r, z.r, w.r);
    }
  }

  // ---------- The calls of a log ----------

  predicate IsData(argv: Request) {
    |argv| >= 2 && CommandNamed(argv[0]).Some? &&
    (CommandNamed(argv[0]).value.SetCmd? || CommandNamed(argv[0]).value.DelCmd? || CommandNamed(argv[0]).value.GetCmd?)
  }

  predicate AllData(cmds: seq<Request>) { forall i :: 0 <= i < |cmds| ==> IsData(cmds[i]) }

  /** The dictionary calls of SETs, GETs and DELs one after the other. */
  function DataCalls(kv: Kv, cmds: seq<Request>): seq<Op<Robj>>
    requires AllData(cmds)
    decreases |cmds|
  {
    if cmds == [] then []
    else HandlerCalls(kv, CommandNamed(cmds[0][0]).value, cmds[0]) + DataCalls(Apply(kv, cmds[0]), cmds[1..])
  }

  /** The writes among them. */
  function WritesOf(cmds: seq<Request>): seq<Request>
    requires AllData(cmds)
    decreases |cmds|
  {
    if cmds == [] then []
    else (if CommandNamed(cmds[0][0]).value.Writes() then [cmds[0]] else []) + WritesOf(cmds[1..])
  }

  /** A client whose data commands are executed on database 0, where nothing expires. */
  predicate Ordinary(s: Server, c: ClientId) {
    && WellFormed(s) && |s.dbs| > 0 && s.dbs[0].expires == map[] && c < |s.clients| && s.clients[c].dbid == 0
    && Multi !in s.clients[c].flags && (s.isMaster || Normal !in s.clients[c].flags)
  }

  lemma DataOne(s: Server, c: ClientId, argv: Request, now: int)
    requires Ordinary(s, c) && IsData(argv)
    ensures var r := ProcessQuery(s, c, argv, now);
            && r.Done? && Ordinary(r.s, c) && r.s.dbs[0].kv == Apply(s.dbs[0].kv, argv)
            && r.s.calls == s.calls + [Call(0, HandlerCalls(s.dbs[0].kv, CommandNamed(argv[0]).value, argv))]
            && r.s.clients[c].out == s.clients[c].out + [DataEffect(s.dbs[0], CommandNamed(argv[0]).value, argv, now).reply]
            && r.s.aofOn == s.aofOn && (Fake in r.s.clients[c].flags <==> Fake in s.clients[c].flags)
            && r.s.aof == s.aof + if s.aofOn && Fake !in s.clients[c].flags && CommandNamed(argv[0]).value.Writes() then [argv] else []
  {
    hide DataCommand, DataEffect, Apply, CommandNamed, HandlerCalls, WellFormed;
    var cmd := CommandNamed(argv[0]).value;
    var s1 := s.(trace := s.trace + [Event(c, 0, cmd, argv)]);
    SameForm(s, s1);
    DataLogged(s1, c, cmd, argv, now);
    assert ProcessQuery(s, c, argv, now) == DataCommand(s1, c, cmd, argv, now);
    CallsOfData(s1, c, cmd, argv, now);
  }

  lemma SameForm(s: Server, t: Server)
    requires WellFormed(s) && t == s.(trace := t.trace)
    ensures WellFormed(t)
  {
  }

  lemma CallsOfData(s: Server, c: ClientId, cmd: Command, argv: Request, now: int)
    requires WellFormed(s) && |s.dbs| > 0 && s.dbs[0].expires == map[] && c < |s.clients| && s.clients[c].dbid == 0
    requires |argv| >= 2 && DataCommand(s, c, cmd, argv, now).Done?
    ensures var t := DataCommand(s, c, cmd, argv, now).s;
            && t.calls == s.calls + [Call(0, HandlerCalls(s.dbs[0].kv, cmd, argv))] && SameShape(s, t)
            && t.clients[c].out == s.clients[c].out + [DataEffect(s.dbs[0], cmd, argv, now).reply]
            && (Fake in t.clients[c].flags <==> Fake in s.clients[c].flags)
            && (Normal in t.clients[c].flags <==> Normal in s.clients[c].flags)
  {
    hide DataEffect, HandlerCalls;
    assert ExpireIfNeed(s.dbs[0], argv[1], now) == s.dbs[0];
    assert KvCalls(s.dbs[0], cmd, argv, now) == HandlerCalls(s.dbs[0].kv, cmd, argv) by {
      assert [] + HandlerCalls(s.dbs[0].kv, cmd, argv) == HandlerCalls(s.dbs[0].kv, cmd, argv);
    }
  }

  /** Executing data commands one after the other makes exactly their dictionary calls. */
  lemma {:induction false} DataRun(s: Server, c: ClientId, cmds: seq<Request>, now: int)
    requires Ordinary(s, c) && AllData(cmds) && InputsOk(Inputs(c, cmds, now), |s.clients|)
    ensures var r := Run(s, Inputs(c, cmds, now));
            r.Done? && s.calls <= r.s.calls && CallsBetween(s, r.s, 0) == DataCalls(s.dbs[0].kv, cmds)
    decreases |cmds|
  {
    hide ProcessQuery, Run, InputsOk, Apply, CommandNamed, HandlerCalls, Ordinary, OnDb, WellFormed;
    OrdinaryForm(s, c);
    if cmds == [] {
      assert s.calls[|s.calls|..] == [];
      NoCalls();
      RunNothing(s, c, now);
    } else {
      DataOne(s, c, cmds[0], now);
      RunFirst(s, c, cmds, now);
      var s1 := ProcessQuery(s, c, cmds[0], now).s;
      DataRun(s1, c, cmds[1..], now);
      var t := Run(s1, Inputs(c, cmds[1..], now)).s;
      CallsThrough(s, s1, t, Call(0, HandlerCalls(s.dbs[0].kv, CommandNamed(cmds[0][0]).value, cmds[0])));
    }
  }

  lemma NoCalls()
    ensures OnDb([], 0) == []
  {
  }

  lemma InputsFirst(c: ClientId, cmds: seq<Request>, now: int)
    requires cmds != []
    ensures Inputs(c, cmds, now)[0] == Input(c, cmds[0], now) && Inputs(c, cmds, now)[1..] == Inputs(c, cmds[1..], now)
  {
  }

  lemma RunFirst(s: Server, c: ClientId, cmds: seq<Request>, now: int)
    requires WellFormed(s) && cmds != [] && InputsOk(Inputs(c, cmds, now), |s.clients|)
    ensures c < |s.clients| && cmds[0] != []
    ensures var r := ProcessQuery(s, c, cmds[0], now);
            r.Done? ==>
              && WellFormed(r.s) && InputsOk(Inputs(c, cmds[1..], now), |r.s.clients|)
              && Run(s, Inputs(c, cmds, now)) == Run(r.s, Inputs(c, cmds[1..], now))
  {
    hide ProcessQuery, WellFormed;
    InputsFirst(c, cmds, now);
    assert Inputs(c, cmds, now)[0].argv == cmds[0];
  }

  lemma RunNothing(s: Server, c: ClientId, now: int)
    requires WellFormed(s)
    ensures InputsOk(Inputs(c, [], now), |s.clients|) && Run(s, Inputs(c, [], now)) == Done(s)
  {
  }

  /** And an ordinary client's writes among them are exactly what is logged. */
  lemma {:induction false} DataLog(s: Server, c: ClientId, cmds: seq<Request>, now: int)
    requires Ordinary(s, c) && AllData(cmds) && InputsOk(Inputs(c, cmds, now), |s.clients|)
    requires s.aofOn && Fake !in s.clients[c].flags
    ensures var r := Run(s, Inputs(c, cmds, now)); r.Done? && r.s.aof == s.aof + WritesOf(cmds)
    decreases |cmds|
  {
    hide ProcessQuery, Run, InputsOk, Apply, CommandNamed, HandlerCalls, Ordinary, DataEffect, WritesOf, WellFormed;
    WritesCons(cmds);
    OrdinaryForm(s, c);
    if cmds == [] {
      RunNothing(s, c, now);
    } else {
      DataOne(s, c, cmds[0], now);
      RunFirst(s, c, cmds, now);
      DataLog(ProcessQuery(s, c, cmds[0], now).s, c, cmds[1..], now);
      var first := if CommandNamed(cmds[0][0]).value.Writes() then [cmds[0]] else [];
      assert (s.aof + first) + WritesOf(cmds[1..]) == s.aof + (first + WritesOf(cmds[1..]));
    }
  }

  lemma WritesCons(cmds: seq<Request>)
    requires AllData(cmds)
    ensures WritesOf(cmds) ==
            if cmds == [] then []
            else (if CommandNamed(cmds[0][0]).value.Writes() then [cmds[0]] else []) + WritesOf(cmds[1..])
  {
  }

  lemma OrdinaryForm(s: Server, c: ClientId)
    requires Ordinary(s, c)
    ensures WellFormed(s) && |s.dbs| > 0 && c < |s.clients|
  {
  }

  lemma CallsThrough(s: Server, s1: Server, t: Server, call: Call)
    requires s1.calls == s.calls + [call] && s1.calls <= t.calls && call.dbid == 0
    ensures s.calls <= t.calls && CallsBetween(s, t, 0) == call.ops + CallsBetween(s1, t, 0)
  {
    hide OnDb;
    OnDbConcat([call], t.calls[|s1.calls|..], 0);
    OnDbOne(call, 0);
    assert t.calls[|s.calls|..] == [call] + t.calls[|s1.calls|..];
  }

  /** A replay of a log into an empty table, guarded and as coded. */
  lemma ReplayTables(r0: Server, f: ClientId, cmds: seq<Request>, now: int, hash: Key -> nat)
    requires Loader(r0, f) && r0.dbs[0].kv == map[] && AllWriting(cmds) && InputsOk(Inputs(f, cmds, now), |r0.clients|)
    ensures AllData(cmds) && DictSpec.Valid(DictSpec.Empty<Robj>(hash))
    ensures var empty, calls := DictSpec.Empty<Robj>(hash), DataCalls(map[], cmds);
            var r := Run(r0, Inputs(f, cmds, now));
            && r.Done? && r0.calls <= r.s.calls && CallsBetween(r0, r.s, 0) == calls
            && RepairedRun(empty, calls).Some? && Represents(RepairedRun(empty, calls).value.0, Fold(map[], cmds))
            && (DictRun(empty, calls).None? <==> DictCrash.Doomed(empty, map[], calls))
            && (DictRun(empty, calls).Some? ==> Represents(DictRun(empty, calls).value.0, Fold(map[], cmds)))
  {
    hide Apply, CommandNamed, HandlerCalls, Run, RepairedRun, DictRun, Represents, DictCrash.Doomed, DataCalls, MapRun, WellFormed, Extends;
    WritesAreData(cmds);
    LoaderOrdinary(r0, f);
    var empty, calls := DictSpec.Empty<Robj>(hash), DataCalls(map[], cmds);
    EmptyRepresents<Robj>(hash);
    RepresentsValid(empty, map[]);
    DataRun(r0, f, cmds, now);
    LoadAll(r0, f, cmds, now);
    var t := Run(r0, Inputs(f, cmds, now)).s;
    assert MapRun(map[], calls).0 == t.dbs[0].kv by { RunExtendsFirst(r0, f, cmds, now); }
    RepairedRefines(empty, map[], calls);
    DictCrash.RunCrashesIff(empty, map[], calls);
    if DictRun(empty, calls).Some? { RunRefines(empty, map[], calls); }
  }

  lemma RunExtendsFirst(r0: Server, f: ClientId, cmds: seq<Request>, now: int)
    requires WellFormed(r0) && |r0.dbs| > 0 && InputsOk(Inputs(f, cmds, now), |r0.clients|) && Run(r0, Inputs(f, cmds, now)).Done?
    ensures var t := Run(r0, Inputs(f, cmds, now)).s;
            && r0.calls <= t.calls && |t.dbs| == |r0.dbs|
            && MapRun(r0.dbs[0].kv, CallsBetween(r0, t, 0)).0 == t.dbs[0].kv
  {
    hide Run, MapRun, WellFormed;
    RunExtends(r0, Inputs(f, cmds, now));
  }

  lemma WritesAreData(cmds: seq<Request>)
    requires AllWriting(cmds)
    ensures AllData(cmds)
  {
    hide CommandNamed, Resp.Fits;
    forall i | 0 <= i < |cmds| ensures IsData(cmds[i]) { assert Writing(cmds[i]); }
  }

  lemma LoaderOrdinary(s: Server, f: ClientId)
    requires Loader(s, f)
    ensures Ordinary(s, f)
  {
  }

  predicate StoresValue(argv: Request) { IsData(argv) && CommandNamed(argv[0]) == Some(SetCmd) && |argv| > 2 }

  /** SETs of values are all answered OK. */
  lemma {:induction false} SetsReply(s: Server, c: ClientId, cmds: seq<Request>, now: int)
    requires Ordinary(s, c) && InputsOk(Inputs(c, cmds, now), |s.clients|)
    requires forall i :: 0 <= i < |cmds| ==> StoresValue(cmds[i])
    ensures var r := Run(s, Inputs(c, cmds, now));
            r.Done? && r.s.clients[c].out == s.clients[c].out + seq(|cmds|, i => Ok)
    decreases |cmds|
  {
    hide ProcessQuery, Apply, CommandNamed, HandlerCalls, Ordinary;
    OrdinaryForm(s, c);
    if cmds != [] {
      assert StoresValue(cmds[0]);
      DataOne(s, c, cmds[0], now);
      var s1 := ProcessQuery(s, c, cmds[0], now).s;
      OrdinaryForm(s1, c);
      InputsFirst(c, cmds, now);
      SetsReply(s1, c, cmds[1..], now);
      assert seq(|cmds|, i => Ok) == [Ok] + seq(|cmds| - 1, i => Ok);
    }
  }

  /** So, as coded, no replay of a log that starts with three SETs of values stays inside its
      reply buffer. */
  lemma ThreeSetsReply(r0: Server, f: ClientId, cmds: seq<Request>, now: int)
    requires Ordinary(r0, f) && r0.clients[f].out == [] && InputsOk(Inputs(f, cmds, now), |r0.clients|)
    requires |cmds| >= 3 && forall i :: 0 <= i < |cmds| ==> StoresValue(cmds[i])
    ensures var r := Run(r0, Inputs(f, cmds, now));
            r.Done? && f < |r.s.clients| && Sds.Run(Sds.FRESH, Sds.Puts(ReplySizes(r.s.clients[f].out)), false).None?
  {
    hide Run, Sds.Run, Ordinary, StoresValue;
    OrdinaryForm(r0, f);
    SetsReply(r0, f, cmds, now);
    var out := Run(r0, Inputs(f, cmds, now)).s.clients[f].out;
    assert out[0] == out[1] == out[2] == Ok;
    Sds.ThreeRepliesOverrun(ReplySizes(out));
  }
}
