/** What the dirty flag and the watch lists say about the history of a run, and what
    EXEC therefore does: it refuses exactly when a watched key was written after the watch. */
module Watching {
  import opened Wrappers
  import opened Server

  predicate WatchOn(e: Event, c: ClientId, d: nat, k: Key) {
    e.cmd == WatchCmd && e.client == c && e.dbid == d && e.argv != [] && k in e.argv[1..]
  }

  predicate WriteOn(e: Event, d: nat, k: Key) {
    e.cmd.Writes() && e.dbid == d && |e.argv| >= 2 && e.argv[1] == k
  }

  /** Client c watched (d, k) and nobody wrote it since. */
  ghost predicate Pending(trace: seq<Event>, c: ClientId, d: nat, k: Key) {
    exists i :: 0 <= i < |trace| && WatchOn(trace[i], c, d, k) &&
      forall j :: i < j < |trace| ==> !WriteOn(trace[j], d, k)
  }

  /** Some key was written, by any client, after client c put a watch on it. */
  ghost predicate Conflict(trace: seq<Event>, c: ClientId) {
    exists i, j, d, k :: 0 <= i < j < |trace| && WatchOn(trace[i], c, d, k) && WriteOn(trace[j], d, k)
  }

  predicate Listed(s: Server, c: ClientId, d: nat, k: Key) {
    d < |s.dbs| && k in s.dbs[d].watched && c in s.dbs[d].watched[k]
  }

  predicate Dirty(s: Server, c: ClientId) {
    c < |s.clients| && DirtyCas in s.clients[c].flags
  }

  /** Lists and dirty flags mirror the history. */
  ghost predicate Mirrors(s: Server) {
    && (forall c: ClientId, d: nat, k: Key :: c < |s.clients| && d < |s.dbs| ==> (Listed(s, c, d, k) <==> Pending(s.trace, c, d, k)))
    && (forall c: ClientId :: c < |s.clients| ==> (Dirty(s, c) <==> Conflict(s.trace, c)))
  }

  // ---------- One event ----------

  lemma PendingSnoc(trace: seq<Event>, e: Event, c: ClientId, d: nat, k: Key)
    ensures Pending(trace + [e], c, d, k) <==>
            !WriteOn(e, d, k) && (Pending(trace, c, d, k) || WatchOn(e, c, d, k))
  {
    var t := trace + [e];
    var n := |trace|;
    assert t[n] == e;
    assert forall i :: 0 <= i < n ==> t[i] == trace[i];
    if Pending(t, c, d, k) {
      var i :| 0 <= i < |t| && WatchOn(t[i], c, d, k) && forall j :: i < j < |t| ==> !WriteOn(t[j], d, k);
      if i < n {
        assert !WriteOn(t[n], d, k);
        assert forall j :: i < j < n ==> !WriteOn(t[j], d, k);
      }
    }
    if Pending(trace, c, d, k) && !WriteOn(e, d, k) {
      var i :| 0 <= i < n && WatchOn(trace[i], c, d, k) && forall j :: i < j < n ==> !WriteOn(trace[j], d, k);
      assert WatchOn(t[i], c, d, k);
    }
    if WatchOn(e, c, d, k) { assert WatchOn(t[n], c, d, k); }
  }

  lemma ConflictSnoc(trace: seq<Event>, e: Event, c: ClientId)
    ensures Conflict(trace + [e], c) <==>
            Conflict(trace, c) ||
            (e.cmd.Writes() && |e.argv| >= 2 && exists i :: 0 <= i < |trace| && WatchOn(trace[i], c, e.dbid, e.argv[1]))
  {
    var t := trace + [e];
    var n := |trace|;
    assert t[n] == e;
    assert forall i :: 0 <= i < n ==> t[i] == trace[i];
    if Conflict(t, c) {
      var i, j, d, k :| 0 <= i < j < |t| && WatchOn(t[i], c, d, k) && WriteOn(t[j], d, k);
      if j < n { assert WatchOn(trace[i], c, d, k) && WriteOn(trace[j], d, k); }
    }
    if Conflict(trace, c) {
      var i, j, d, k :| 0 <= i < j < n && WatchOn(trace[i], c, d, k) && WriteOn(trace[j], d, k);
      assert WatchOn(t[i], c, d, k) && WriteOn(t[j], d, k);
    }
    if i :| 0 <= i < n && e.cmd.Writes() && |e.argv| >= 2 && WatchOn(trace[i], c, e.dbid, e.argv[1]) {
      assert WatchOn(t[i], c, e.dbid, e.argv[1]) && WriteOn(t[n], e.dbid, e.argv[1]);
    }
  }

  /** A watch that is no longer pending has met its conflict. */
  lemma WatchedOrConflict(trace: seq<Event>, i: nat, c: ClientId, d: nat, k: Key)
    requires i < |trace| && WatchOn(trace[i], c, d, k)
    ensures Pending(trace, c, d, k) || Conflict(trace, c)
  {
  }

  /** What one executed command does to lists and flags. */
  ghost predicate Noted(s: Server, t: Server, e: Event) {
    && |t.clients| == |s.clients| && |t.dbs| == |s.dbs| && t.trace == s.trace + [e]
    && (e.cmd.Writes() ==> |e.argv| >= 2)
    && (forall c: ClientId, d: nat, k: Key :: c < |s.clients| && d < |s.dbs| ==>
          (Listed(t, c, d, k) <==> !WriteOn(e, d, k) && (Listed(s, c, d, k) || WatchOn(e, c, d, k))))
    && (forall c: ClientId :: c < |s.clients| ==>
          (Dirty(t, c) <==> Dirty(s, c) || (e.cmd.Writes() && Listed(s, c, e.dbid, e.argv[1]))))
  }

  /** What any other step leaves alone. */
  ghost predicate Quiet(s: Server, t: Server) {
    && |t.clients| == |s.clients| && |t.dbs| == |s.dbs| && t.trace == s.trace
    && (forall c: ClientId, d: nat, k: Key :: c < |s.clients| && d < |s.dbs| ==> (Listed(t, c, d, k) <==> Listed(s, c, d, k)))
    && (forall c: ClientId :: c < |s.clients| ==> (Dirty(t, c) <==> Dirty(s, c)))
  }

  lemma NotedMirrors(s: Server, t: Server, e: Event)
    requires Mirrors(s) && Noted(s, t, e) && e.dbid < |s.dbs|
    ensures Mirrors(t)
  {
    forall c: ClientId, d: nat, k: Key | c < |t.clients| && d < |t.dbs|
      ensures Listed(t, c, d, k) <==> Pending(t.trace, c, d, k)
    {
      PendingSnoc(s.trace, e, c, d, k);
    }
    forall c: ClientId | c < |t.clients|
      ensures Dirty(t, c) <==> Conflict(t.trace, c)
    {
      ConflictSnoc(s.trace, e, c);
      if e.cmd.Writes() {
        var k := e.argv[1];
        assert Listed(s, c, e.dbid, k) <==> Pending(s.trace, c, e.dbid, k);
        forall i | 0 <= i < |s.trace| && WatchOn(s.trace[i], c, e.dbid, k)
          ensures Pending(s.trace, c, e.dbid, k) || Conflict(s.trace, c)
        {
          WatchedOrConflict(s.trace, i, c, e.dbid, k);
        }
      }
    }
  }

  // ---------- The steps of the server ----------

  lemma {:induction false} AddWatchesListed(db: Db, keys: seq<Key>, c: ClientId, k: Key, x: ClientId)
    ensures var r := AddWatches(db, keys, c);
            (k in r.watched && x in r.watched[k]) <==>
            (k in db.watched && x in db.watched[k]) || (x == c && k in keys)
    decreases |keys|
  {
    if keys != [] {
      var n := |keys| - 1;
      AddWatchesListed(db, keys[..n], c, k, x);
      assert k in keys <==> k in keys[..n] || k == keys[n];
    }
  }

  lemma WatchNoted(s: Server, c: ClientId, argv: Request, trace: seq<Event>)
    requires WellFormed(s) && c < |s.clients| && argv != []
    requires s.trace == trace + [Event(c, s.clients[c].dbid, WatchCmd, argv)]
    ensures Noted(s.(trace := trace), WatchStep(s, c, argv), Event(c, s.clients[c].dbid, WatchCmd, argv))
  {
    var t := WatchStep(s, c, argv);
    var e := Event(c, s.clients[c].dbid, WatchCmd, argv);
    forall x: ClientId, d: nat, k: Key | x < |s.clients| && d < |s.dbs|
      ensures Listed(t, x, d, k) <==> Listed(s, x, d, k) || WatchOn(e, x, d, k)
    {
      AddWatchesListed(s.dbs[e.dbid], argv[1..], c, k, x);
    }
  }

  lemma TouchNoted(s: Server, d: nat, k: Key, t: Server)
    requires WellFormed(s) && d < |s.dbs| && t == Touch(s, d, k)
    ensures forall x: ClientId, d': nat, k': Key :: x < |s.clients| && d' < |s.dbs| ==>
              (Listed(t, x, d', k') <==> Listed(s, x, d', k') && !(d' == d && k' == k))
    ensures forall x: ClientId :: x < |s.clients| ==> (Dirty(t, x) <==> Dirty(s, x) || Listed(s, x, d, k))
    ensures |t.clients| == |s.clients| && |t.dbs| == |s.dbs| && t.trace == s.trace
  {
  }

  lemma DataStepQuiet(s: Server, c: ClientId, cmd: Command, argv: Request, now: int)
    requires WellFormed(s) && c < |s.clients| && |argv| >= 2
    requires DataStep(s, c, cmd, argv, now).Done?
    ensures Quiet(s, DataStep(s, c, cmd, argv, now).s)
    ensures forall x: ClientId :: x < |s.clients| ==> DataStep(s, c, cmd, argv, now).s.clients[x].flags == s.clients[x].flags
  {
    hide DataEffect, ExpireIfNeed, WellFormed;
  }

  lemma RecordQuiet(s: Server, fake: bool, argv: Request)
    ensures Quiet(s, Record(s, fake, argv))
  {
  }

  lemma DataNoted(s: Server, c: ClientId, cmd: Command, argv: Request, now: int, trace: seq<Event>)
    requires WellFormed(s) && c < |s.clients| && argv != [] && cmd.TouchesData()
    requires s.trace == trace + [Event(c, s.clients[c].dbid, cmd, argv)]
    requires DataCommand(s, c, cmd, argv, now).Done?
    ensures Noted(s.(trace := trace), DataCommand(s, c, cmd, argv, now).s, Event(c, s.clients[c].dbid, cmd, argv))
  {
    hide DataStep, Touch, Record;
    var d := s.clients[c].dbid;
    var s1 := DataStep(s, c, cmd, argv, now).s;
    DataStepQuiet(s, c, cmd, argv, now);
    if cmd.Writes() {
      TouchNoted(s1, d, argv[1], Touch(s1, d, argv[1]));
      RecordQuiet(Touch(s1, d, argv[1]), Fake in s.clients[c].flags, argv);
    }
  }

  lemma PerformNoted(s: Server, c: ClientId, cmd: Command, argv: Request, now: int, trace: seq<Event>)
    requires WellFormed(s) && c < |s.clients| && argv != []
    requires s.trace == trace + [Event(c, s.clients[c].dbid, cmd, argv)]
    requires Perform(s, c, cmd, argv, now).Done?
    ensures Noted(s.(trace := trace), Perform(s, c, cmd, argv, now).s, Event(c, s.clients[c].dbid, cmd, argv))
  {
    hide DataCommand, WatchStep;
    match cmd
    case WatchCmd => WatchNoted(s, c, argv, trace);
    case SelectCmd =>
    case MultiCmd =>
    case PingCmd =>
    case ExecCmd =>
    case _ => DataNoted(s, c, cmd, argv, now, trace);
  }

  /** Every query outside EXEC is either noted in the history or changes no watch and no flag. */
  lemma PlainNoted(s: Server, c: ClientId, argv: Request, now: int)
    requires WellFormed(s) && c < |s.clients| && argv != []
    requires Plain(s, c, argv, now).Done?
    ensures var t := Plain(s, c, argv, now).s;
            Quiet(s, t) || exists cmd :: Noted(s, t, Event(c, s.clients[c].dbid, cmd, argv))
  {
    hide Perform, LookupCommand, Noted;
    match LookupCommand(s, c, argv[0])
    case None => assert Quiet(s, Plain(s, c, argv, now).s);
    case Some(cmd) =>
      var s1 := s.(trace := s.trace + [Event(c, s.clients[c].dbid, cmd, argv)]);
      PerformNoted(s1, c, cmd, argv, now, s.trace);
      assert s1.(trace := s.trace) == s;
  }

  lemma QuietMirrors(s: Server, t: Server)
    requires Mirrors(s) && Quiet(s, t)
    ensures Mirrors(t)
  {
  }

  lemma QueueOrPlainMirrors(s: Server, c: ClientId, argv: Request, now: int)
    requires WellFormed(s) && c < |s.clients| && argv != [] && Mirrors(s)
    requires QueueOrPlain(s, c, argv, now).Done?
    ensures Mirrors(QueueOrPlain(s, c, argv, now).s)
  {
    hide Plain, Mirrors, Noted;
    var t := QueueOrPlain(s, c, argv, now).s;
    if Multi in s.clients[c].flags && !ExecPrefix(argv[0]) {
      assert Quiet(s, t);
      QuietMirrors(s, t);
    } else {
      PlainNoted(s, c, argv, now);
      if Quiet(s, t) {
        QuietMirrors(s, t);
      } else {
        var cmd :| Noted(s, t, Event(c, s.clients[c].dbid, cmd, argv));
        NotedMirrors(s, t, Event(c, s.clients[c].dbid, cmd, argv));
      }
    }
  }

  lemma {:induction false} RunQueueMirrors(s: Server, c: ClientId, i: nat, now: int)
    requires WellFormed(s) && c < |s.clients| && Mirrors(s)
    requires RunQueue(s, c, i, now).Done?
    ensures Mirrors(RunQueue(s, c, i, now).s)
    decreases QUEUE_MAX - i
  {
    hide QueueOrPlain, Mirrors;
    var queue := s.clients[c].queue;
    if i < |queue| {
      QueueOrPlainMirrors(s, c, queue[i], now);
      RunQueueMirrors(QueueOrPlain(s, c, queue[i], now).s, c, i + 1, now);
    }
  }

  lemma ExecMirrors(s: Server, c: ClientId, argv: Request, now: int)
    requires WellFormed(s) && c < |s.clients| && Mirrors(s)
    requires ExecTransaction(s, c, argv, now).Done?
    ensures Mirrors(ExecTransaction(s, c, argv, now).s)
  {
    hide RunQueue, Mirrors;
    var client := s.clients[c];
    var e := Event(c, client.dbid, ExecCmd, argv);
    var flags := (client.flags - {Multi} + {Exec}) * {DirtyCas};
    var s0 := SetClient(s.(trace := s.trace + [e]), c, client.(flags := flags));
    assert Noted(s, s0, e);
    NotedMirrors(s, s0, e);
    if flags != {} {
      QuietMirrors(s0, EndExec(s0, c, ErrDirty));
    } else {
      RunQueueMirrors(s0, c, 0, now);
      var s1 := RunQueue(s0, c, 0, now).s;
      QuietMirrors(s1, EndExec(s1, c, ExecOk));
    }
  }

  lemma {:induction false} RunMirrors(s: Server, inputs: seq<Input>)
    requires WellFormed(s) && InputsOk(inputs, |s.clients|) && Mirrors(s)
    requires Run(s, inputs).Done?
    ensures Mirrors(Run(s, inputs).s)
    decreases |inputs|
  {
    hide Mirrors, QueueOrPlain, ExecTransaction;
    if inputs != [] {
      var q := inputs[0];
      if CommandNamed(q.argv[0]) == Some(ExecCmd) {
        ExecMirrors(s, q.client, q.argv, q.now);
      } else {
        QueueOrPlainMirrors(s, q.client, q.argv, q.now);
      }
      RunMirrors(ProcessQuery(s, q.client, q.argv, q.now).s, inputs[1..]);
    }
  }

  lemma InitialMirrors(s: Server)
    requires Initial(s)
    ensures Mirrors(s)
  {
  }

  /** A dirty client's EXEC answers "err dirty", runs nothing and drops the queue. */
  lemma ExecRefused(s: Server, c: ClientId, argv: Request, now: int)
    requires WellFormed(s) && c < |s.clients| && Dirty(s, c)
    ensures var r := ExecTransaction(s, c, argv, now);
            r.Done? && r.s.dbs == s.dbs && r.s.aof == s.aof && r.s.stream == s.stream && Dirty(r.s, c) &&
            r.s.clients[c].out == s.clients[c].out + [ErrDirty] && r.s.clients[c].queue == [] &&
            forall x: ClientId :: x < |s.clients| && x != c ==> r.s.clients[x] == s.clients[x]
  {
    hide RunQueue;
    assert DirtyCas in (s.clients[c].flags - {Multi} + {Exec}) * {DirtyCas};
  }

  lemma ExecAccepted(s: Server, c: ClientId, argv: Request, now: int)
    requires WellFormed(s) && c < |s.clients| && !Dirty(s, c)
    requires ExecTransaction(s, c, argv, now).Done?
    ensures var out := ExecTransaction(s, c, argv, now).s.clients[c].out;
            out != [] && out[|out| - 1] == ExecOk
  {
    hide RunQueue;
  }

  /** Commit safety, exactly: after any run from fresh clients, EXEC of client c runs none of
      its queue and answers "err dirty" if and only if some client executed a write naming a
      key after c executed a WATCH naming that key in the same database. The flag is never
      cleared, so this looks at the whole run, not only at the time since the last EXEC. */
  lemma CommitSafety(s0: Server, inputs: seq<Input>, c: ClientId, argv: Request, now: int)
    requires Initial(s0) && InputsOk(inputs, |s0.clients|) && c < |s0.clients|
    requires Run(s0, inputs).Done?
    ensures var s := Run(s0, inputs).s;
            var r := ExecTransaction(s, c, argv, now);
            if Conflict(s.trace, c) then
              r.Done? && r.s.dbs == s.dbs && r.s.aof == s.aof && r.s.stream == s.stream && Dirty(r.s, c) &&
              r.s.clients[c].out == s.clients[c].out + [ErrDirty] && r.s.clients[c].queue == [] &&
              forall x: ClientId :: x < |s.clients| && x != c ==> r.s.clients[x] == s.clients[x]
            else
              r.Done? ==> r.s.clients[c].out != [] && r.s.clients[c].out[|r.s.clients[c].out| - 1] == ExecOk
  {
    hide RunQueue, ExecTransaction, Run, Conflict, Pending;
    InitialMirrors(s0);
    RunMirrors(s0, inputs);
    var s := Run(s0, inputs).s;
    if Dirty(s, c) {
      ExecRefused(s, c, argv, now);
    } else if ExecTransaction(s, c, argv, now).Done? {
      ExecAccepted(s, c, argv, now);
    }
  }
}
