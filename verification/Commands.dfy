/** What a client sees of the data commands: each one's effect through the whole query path,
    and what a later GET answers, with deadlines counted in. */
module Commands {
  import opened Wrappers
  import opened Decimal
  import opened Robj
  import opened Server

  /** The client's queries of this kind are executed, not queued or refused. */
  predicate Served(s: Server, c: ClientId, cmd: Command) {
    && WellFormed(s) && c < |s.clients| && Multi !in s.clients[c].flags
    && (s.isMaster || Normal !in s.clients[c].flags || !cmd.Writes())
  }

  function DbidOf(s: Server, c: ClientId): nat
    requires c < |s.clients|
  {
    s.clients[c].dbid
  }

  function LastReply(s: Server, c: ClientId): Option<Reply>
    requires c < |s.clients|
  {
    var out := s.clients[c].out;
    if out == [] then None else Some(out[|out| - 1])
  }

  /** The client's database holds kv and expires, the others are as before, this is the answer,
      and the counter of changes has gone up by `changes`. */
  predicate Left(s: Server, t: Server, c: ClientId, kv: map<Key, Robj>, expires: map<Key, int>, reply: Reply, changes: nat) {
    && WellFormed(s) && SameShape(s, t) && c < |s.clients|
    && DbidOf(t, c) == DbidOf(s, c) && t.clients[c].queue == s.clients[c].queue
    && t.clients[c].flags <= s.clients[c].flags + {DirtyCas}
    && t.dbs[DbidOf(s, c)].kv == kv && t.dbs[DbidOf(s, c)].expires == expires
    && (forall d :: 0 <= d < |s.dbs| && d != DbidOf(s, c) ==> t.dbs[d] == s.dbs[d])
    && LastReply(t, c) == Some(reply) && t.dirty == s.dirty + changes
  }

  lemma TouchLeaves(s: Server, c: ClientId, d: nat, k: Key)
    requires WellFormed(s) && c < |s.clients| && d < |s.dbs|
    ensures var t := Touch(s, d, k);
            && t.clients[c].(flags := {}) == s.clients[c].(flags := {})
            && t.clients[c].flags <= s.clients[c].flags + {DirtyCas}
            && t.dbs[d].kv == s.dbs[d].kv && t.dbs[d].expires == s.dbs[d].expires && t.dirty == s.dirty
            && forall x :: 0 <= x < |s.dbs| && x != d ==> t.dbs[x] == s.dbs[x]
  {
  }

  /** A data query that is executed does to its database what its handler does, after lazy
      expiry of its key, and nothing to any other database. */
  lemma DataQuery(s: Server, c: ClientId, cmd: Command, argv: Request, now: int)
    requires Served(s, c, cmd) && |argv| >= 2 && CommandNamed(argv[0]) == Some(cmd) && cmd.TouchesData()
    requires DataEffect(ExpireIfNeed(s.dbs[DbidOf(s, c)], argv[1], now), cmd, argv, now).Effect?
    ensures var e := DataEffect(ExpireIfNeed(s.dbs[DbidOf(s, c)], argv[1], now), cmd, argv, now);
            var r := ProcessQuery(s, c, argv, now);
            r.Done? && Left(s, r.s, c, e.db.kv, e.db.expires, e.reply, if e.changed then 1 else 0)
  {
    hide DataEffect, ExpireIfNeed, CommandNamed, Touch;
    var s1 := s.(trace := s.trace + [Event(c, DbidOf(s, c), cmd, argv)]);
    assert WellFormed(s1);
    assert ProcessQuery(s, c, argv, now) == DataCommand(s1, c, cmd, argv, now);
    var s2 := DataStep(s1, c, cmd, argv, now).s;
    TouchLeaves(s2, c, DbidOf(s, c), argv[1]);
  }

  lemma Names()
    ensures CommandNamed("SET") == Some(SetCmd) && CommandNamed("GET") == Some(GetCmd)
    ensures CommandNamed("DEL") == Some(DelCmd) && CommandNamed("EXPIRE") == Some(ExpireCmd)
    ensures CommandNamed("SELECT") == Some(SelectCmd)
  {
    assert Upper("SET") == "SET" && Upper("GET") == "GET" && Upper("DEL") == "DEL";
    assert Upper("EXPIRE") == "EXPIRE" && Upper("SELECT") == "SELECT";
  }

  /** GET answers the shown value of a key that is there and not late, and otherwise that
      there is none. */
  lemma GetAnswers(s: Server, c: ClientId, k: Key, now: int)
    requires Served(s, c, GetCmd)
    ensures var db := s.dbs[DbidOf(s, c)];
            var late := k in db.expires && now > db.expires[k];
            var r := ProcessQuery(s, c, ["GET", k], now);
            && r.Done?
            && Left(s, r.s, c, if late then db.kv - {k} else db.kv, db.expires,
                    if k in db.kv && !late then Bulk(Show(db.kv[k])) else KeyNotFound, 0)
  {
    hide CommandNamed, ProcessQuery, Left, WellFormed;
    Names();
    DataQuery(s, c, GetCmd, ["GET", k], now);
  }

  /** A GET sent after a SET finds the value, in its shown form, exactly up to the deadline the
      key had before; a deadline is neither set nor cleared by the SET. */
  lemma SetGet(s: Server, c: ClientId, k: Key, v: string, now: int, later: int)
    requires Served(s, c, SetCmd)
    ensures var e := s.dbs[DbidOf(s, c)].expires;
            var r := ProcessQuery(s, c, ["SET", k, v], now);
            && r.Done? && r.s.dbs[DbidOf(s, c)].expires == e && LastReply(r.s, c) == Some(Ok) && r.s.dirty == s.dirty + 1
            && var g := ProcessQuery(r.s, c, ["GET", k], later);
               && g.Done?
               && LastReply(g.s, c) == Some(if k in e && later > e[k] then KeyNotFound else Bulk(Show(Create(v))))
  {
    hide CommandNamed, ProcessQuery, Show, Create, WellFormed;
    Names();
    DataQuery(s, c, SetCmd, ["SET", k, v], now);
    GetAnswers(ProcessQuery(s, c, ["SET", k, v], now).s, c, k, later);
  }

  /** After a DEL no GET finds the key. The DEL itself says whether it was there and not late. */
  lemma DelGet(s: Server, c: ClientId, k: Key, now: int, later: int)
    requires Served(s, c, DelCmd)
    ensures var db := s.dbs[DbidOf(s, c)];
            var r := ProcessQuery(s, c, ["DEL", k], now);
            && r.Done? && r.s.dbs[DbidOf(s, c)].kv == db.kv - {k} && r.s.dbs[DbidOf(s, c)].expires == db.expires
            && var there := k in db.kv && !(k in db.expires && now > db.expires[k]);
            && LastReply(r.s, c) == Some(if there then Ok else KeyNotFound) && r.s.dirty == s.dirty + (if there then 1 else 0)
            && var g := ProcessQuery(r.s, c, ["GET", k], later);
               g.Done? && LastReply(g.s, c) == Some(KeyNotFound)
  {
    hide CommandNamed, ProcessQuery, Show;
    Names();
    DataQuery(s, c, DelCmd, ["DEL", k], now);
    var t := ProcessQuery(s, c, ["DEL", k], now).s;
    assert t.dbs[DbidOf(s, c)].kv == s.dbs[DbidOf(s, c)].kv - {k};
    GetAnswers(t, c, k, later);
  }

  /** EXPIRE of a key without a deadline: GET finds the key up to the moment now + n, and not
      after. A second EXPIRE is refused, and the first deadline stands. */
  lemma ExpireWindow(s: Server, c: ClientId, k: Key, n: int, now: int, later: int)
    requires Served(s, c, ExpireCmd) && IsLong(n)
    requires k in s.dbs[DbidOf(s, c)].kv && k !in s.dbs[DbidOf(s, c)].expires
    ensures var db := s.dbs[DbidOf(s, c)];
            var r := ProcessQuery(s, c, ["EXPIRE", k, Print(n)], now);
            && r.Done? && LastReply(r.s, c) == Some(Ok)
            && var g := ProcessQuery(r.s, c, ["GET", k], later);
               && g.Done?
               && LastReply(g.s, c) == Some(if later <= now + n then Bulk(Show(db.kv[k])) else KeyNotFound)
  {
    hide CommandNamed, ProcessQuery, Show, WellFormed, Scan, Print;
    Names();
    assert Scan(Print(n)) == Scanned(n, |Print(n)|) && |Print(n)| > 0 by { PrintScan(n); }
    DataQuery(s, c, ExpireCmd, ["EXPIRE", k, Print(n)], now);
    GetAnswers(ProcessQuery(s, c, ["EXPIRE", k, Print(n)], now).s, c, k, later);
  }

  lemma PrintScan(n: int)
    ensures Scan(Print(n)) == Scanned(n, |Print(n)|) && |Print(n)| > 0
  {
    hide Scan, Digits;
    ScanPrint(n, "");
    assert Print(n) + "" == Print(n);
    DigitsShape(if n < 0 then -n else n);
  }

  /** The decimal number that a text is, whole and in the range of a long; 0x is none here. */
  function Decimals(text: string): Option<int> {
    if |text| >= 2 && text[0] == '0' && (text[1] == 'x' || text[1] == 'X') then None else StringToLong(text)
  }

  lemma DecimalsScan(text: string)
    ensures var r := Scan(text);
            Decimals(text) == if r.used == 0 || r.used < |text| || !IsLong(r.value) then None else Some(r.value)
  {
    hide HexNumber, AllHex;
    if |text| >= 2 && text[0] == '0' && (text[1] == 'x' || text[1] == 'X') {
      assert text[0..] == text;
      DigitRunOf("0", text[1..]);
      assert "0" + text[1..] == text;
    }
  }

  /** EXPIRE, whatever its argument: no deadline is set unless the text is a whole decimal number
      and the key has none; then it is that many seconds from now. */
  lemma ExpireAnswers(s: Server, c: ClientId, k: Key, text: string, now: int)
    requires Served(s, c, ExpireCmd)
    ensures var d := DbidOf(s, c);
            var e := s.dbs[d].expires;
            var kv := if k in e && now > e[k] then s.dbs[d].kv - {k} else s.dbs[d].kv;
            var r := ProcessQuery(s, c, ["EXPIRE", k, text], now);
            && r.Done?
            && match Decimals(text)
               case None => Left(s, r.s, c, kv, e, Err, 0)
               case Some(n) => if k in e then Left(s, r.s, c, kv, e, Err, 0) else Left(s, r.s, c, kv, e[k := n + now], Ok, 1)
  {
    hide CommandNamed, ProcessQuery, WellFormed, Scan, Decimals, Left;
    Names();
    DecimalsScan(text);
    DataQuery(s, c, ExpireCmd, ["EXPIRE", k, text], now);
  }

  lemma FirstDeadlineStands(s: Server, c: ClientId, k: Key, text: string, now: int)
    requires Served(s, c, ExpireCmd) && k in s.dbs[DbidOf(s, c)].expires
    ensures var r := ProcessQuery(s, c, ["EXPIRE", k, text], now);
            r.Done? && r.s.dbs[DbidOf(s, c)].expires == s.dbs[DbidOf(s, c)].expires && LastReply(r.s, c) == Some(Err)
  {
    hide CommandNamed, ProcessQuery, WellFormed, Scan, Decimals;
    ExpireAnswers(s, c, k, text, now);
  }

  /** SET without a value stores nothing. */
  lemma SetMisses(s: Server, c: ClientId, k: Key, now: int)
    requires Served(s, c, SetCmd)
    ensures var db := s.dbs[DbidOf(s, c)];
            var r := ProcessQuery(s, c, ["SET", k], now);
            r.Done? && Left(s, r.s, c, if k in db.expires && now > db.expires[k] then db.kv - {k} else db.kv, db.expires, ValueMissed, 0)
  {
    hide CommandNamed, ProcessQuery, WellFormed, Left;
    Names();
    DataQuery(s, c, SetCmd, ["SET", k], now);
  }

  /** PING is answered, and nothing else happens. */
  lemma PingAnswers(s: Server, c: ClientId, argv: Request, now: int)
    requires Served(s, c, PingCmd) && argv != [] && CommandNamed(argv[0]) == Some(PingCmd)
    ensures ProcessQuery(s, c, argv, now) ==
            Done(Say(s.(trace := s.trace + [Event(c, DbidOf(s, c), PingCmd, argv)]), c, Pong))
  {
    hide CommandNamed;
  }

  /** SELECT, whatever its argument. */
  lemma SelectAnswers(s: Server, c: ClientId, text: string, now: int)
    requires Served(s, c, SelectCmd)
    ensures var r := ProcessQuery(s, c, ["SELECT", text], now);
            match Decimals(text)
            case None => r.Done? && LastReply(r.s, c) == Some(Err) && r.s.dbs == s.dbs && DbidOf(r.s, c) == DbidOf(s, c)
            case Some(d) =>
              if 0 <= d < |s.dbs| then
                r.Done? && LastReply(r.s, c) == Some(Bulk("OK, db is " + Print(d))) && r.s.dbs == s.dbs && DbidOf(r.s, c) == d
              else r == Outside
  {
    hide CommandNamed, Scan, Print, Decimals;
    Names();
    DecimalsScan(text);
  }

  /** SELECT of a number in range moves the client there, and no data changes; out of range it
      leaves the array of databases. */
  lemma SelectMoves(s: Server, c: ClientId, d: int, now: int)
    requires Served(s, c, SelectCmd) && IsLong(d)
    ensures var r := ProcessQuery(s, c, ["SELECT", Print(d)], now);
            && (r.Done? <==> 0 <= d < |s.dbs|)
            && (r.Done? ==> DbidOf(r.s, c) == d && r.s.dbs == s.dbs && SameShape(s, r.s))
  {
    hide CommandNamed, Scan, Print;
    Names();
    PrintScan(d);
  }

  /** WATCH, whatever keys it names, is answered OK; no value, deadline or other database
      changes, and in its own only the lists of the named keys. */
  lemma WatchAnswers(s: Server, c: ClientId, argv: Request, now: int)
    requires Served(s, c, WatchCmd) && argv != [] && CommandNamed(argv[0]) == Some(WatchCmd)
    ensures var r, d := ProcessQuery(s, c, argv, now), DbidOf(s, c);
            && r.Done? && r.s.clients == s.clients[c := s.clients[c].(out := s.clients[c].out + [Ok])]
            && r.s.dbs == s.dbs[d := s.dbs[d].(watched := r.s.dbs[d].watched)]
            && r.s.aof == s.aof && r.s.stream == s.stream && r.s.dirty == s.dirty
            && forall k :: k !in argv[1..] ==>
                 (k in r.s.dbs[d].watched <==> k in s.dbs[d].watched) &&
                 (k in s.dbs[d].watched ==> r.s.dbs[d].watched[k] == s.dbs[d].watched[k])
  {
    hide CommandNamed, AddWatches;
    WatchesElsewhere(s.dbs[DbidOf(s, c)], argv[1..], c);
  }

  lemma {:induction false} WatchesElsewhere(db: Db, keys: seq<Key>, c: ClientId)
    ensures var t := AddWatches(db, keys, c);
            && t == db.(watched := t.watched)
            && forall k :: k !in keys ==> (k in t.watched <==> k in db.watched) && (k in db.watched ==> t.watched[k] == db.watched[k])
    decreases |keys|
  {
    if keys != [] { WatchesElsewhere(db, keys[..|keys| - 1], c); }
  }

  /** MULTI, whatever its arguments, only marks the client and is answered OK. */
  lemma MultiAnswers(s: Server, c: ClientId, argv: Request, now: int)
    requires Served(s, c, MultiCmd) && argv != [] && CommandNamed(argv[0]) == Some(MultiCmd)
    ensures ProcessQuery(s, c, argv, now) ==
            Done(s.(trace := s.trace + [Event(c, DbidOf(s, c), MultiCmd, argv)],
                    clients := s.clients[c := s.clients[c].(flags := s.clients[c].flags + {Multi}, out := s.clients[c].out + [Ok])]))
  {
    hide CommandNamed;
    var client := s.clients[c];
    var final := client.(flags := client.flags + {Multi}, out := client.out + [Ok]);
    assert s.clients[c := client.(flags := client.flags + {Multi})][c := final] == s.clients[c := final];
  }

  /** A command without the words that its handler reads goes outside its arguments. */
  lemma WordsMissing(s: Server, c: ClientId, cmd: Command, argv: Request, now: int)
    requires Served(s, c, cmd) && argv != [] && CommandNamed(argv[0]) == Some(cmd) && (cmd.TouchesData() || cmd.SelectCmd?)
    requires |argv| == 1 || (|argv| == 2 && cmd.ExpireCmd?)
    ensures ProcessQuery(s, c, argv, now) == Outside
  {
    hide CommandNamed;
  }

  /** Words behind those it reads make no difference to a data command. */
  lemma ExtraWords(db: Db, cmd: Command, argv: Request, extra: Request, now: int)
    requires |argv| >= 3 || (|argv| == 2 && (cmd.GetCmd? || cmd.DelCmd?))
    ensures DataEffect(db, cmd, argv + extra, now) == DataEffect(db, cmd, argv, now)
  {
    assert (argv + extra)[1] == argv[1] && (|argv| >= 3 ==> (argv + extra)[2] == argv[2]);
  }

  // ---------- Names ----------

  /** The name, letter by letter in either case. */
  predicate Spells(name: string, lower: string, upper: string) {
    |name| == |lower| == |upper| && forall i :: 0 <= i < |name| ==> name[i] == lower[i] || name[i] == upper[i]
  }

  lemma UpperIs(name: string, lower: string, upper: string)
    requires |lower| == |upper|
    requires forall i :: 0 <= i < |upper| ==> 'A' <= upper[i] <= 'Z' && lower[i] as int == upper[i] as int + 32
    ensures Upper(name) == upper <==> Spells(name, lower, upper)
  {
    if Spells(name, lower, upper) {
      forall i | 0 <= i < |name| ensures Upper(name)[i] == upper[i] { assert name[i] == lower[i] || name[i] == upper[i]; }
    }
    if Upper(name) == upper {
      forall i | 0 <= i < |name| ensures name[i] == lower[i] || name[i] == upper[i] { assert Upper(name)[i] == upper[i]; }
    }
  }

  /** Which names a command has: its own in any mix of cases, and no other. */
  lemma NameIs(name: string)
    ensures CommandNamed(name) == Some(SetCmd) <==> Spells(name, "set", "SET")
    ensures CommandNamed(name) == Some(GetCmd) <==> Spells(name, "get", "GET")
    ensures CommandNamed(name) == Some(DelCmd) <==> Spells(name, "del", "DEL")
    ensures CommandNamed(name) == Some(ExpireCmd) <==> Spells(name, "expire", "EXPIRE")
    ensures CommandNamed(name) == Some(SelectCmd) <==> Spells(name, "select", "SELECT")
    ensures CommandNamed(name) == Some(WatchCmd) <==> Spells(name, "watch", "WATCH")
    ensures CommandNamed(name) == Some(MultiCmd) <==> Spells(name, "multi", "MULTI")
    ensures CommandNamed(name) == Some(ExecCmd) <==> Spells(name, "exec", "EXEC")
    ensures CommandNamed(name) == Some(PingCmd) <==> Spells(name, "ping", "PING")
  {
    hide Upper, Spells;
    UpperIs(name, "set", "SET");
    UpperIs(name, "get", "GET");
    UpperIs(name, "del", "DEL");
    UpperIs(name, "expire", "EXPIRE");
    UpperIs(name, "select", "SELECT");
    UpperIs(name, "watch", "WATCH");
    UpperIs(name, "multi", "MULTI");
    UpperIs(name, "exec", "EXEC");
    UpperIs(name, "ping", "PING");
  }

  /** The commands of the table that this model leaves out, in any mix of cases. */
  predicate LeftOut(name: string) {
    Spells(name, "object", "OBJECT") || Spells(name, "bye", "BYE") || Spells(name, "slaveof", "SLAVEOF") ||
    Spells(name, "replconf", "REPLCONF") || Spells(name, "sync", "SYNC") || Spells(name, "replack", "REPLACK") ||
    Spells(name, "info", "INFO") || Spells(name, "heartbeat", "HEARTBEAT") || Spells(name, "ttl", "TTL")
  }

  lemma LeftOutIs(name: string)
    ensures Upper(name) in UNMODELLED <==> LeftOut(name)
  {
    hide Upper, Spells;
    UpperIs(name, "object", "OBJECT");
    UpperIs(name, "bye", "BYE");
    UpperIs(name, "slaveof", "SLAVEOF");
    UpperIs(name, "replconf", "REPLCONF");
    UpperIs(name, "sync", "SYNC");
    UpperIs(name, "replack", "REPLACK");
    UpperIs(name, "info", "INFO");
    UpperIs(name, "heartbeat", "HEARTBEAT");
    UpperIs(name, "ttl", "TTL");
  }

  /** What is executed inside MULTI instead of being queued: names that start with exec. */
  lemma ExecPrefixIs(name: string)
    ensures ExecPrefix(name) <==> |name| >= 4 && Spells(name[..4], "exec", "EXEC")
  {
    if |name| >= 4 { UpperIs(name[..4], "exec", "EXEC"); }
  }

  /** Such a name that is not EXEC itself is no command: in MULTI it is answered "Invalid command"
      and queues nothing. */
  lemma ExecLike(s: Server, c: ClientId, argv: Request, now: int)
    requires WellFormed(s) && c < |s.clients| && argv != [] && ExecPrefix(argv[0]) && |argv[0]| > 4
    ensures ProcessQuery(s, c, argv, now) == Done(Say(s, c, InvalidCommand))
  {
    hide Upper, Spells, ExecPrefix, LeftOut, Perform, ExecTransaction;
    LongPrefix(argv[0]);
    NameIs(argv[0]);
    LeftOutIs(argv[0]);
  }

  lemma LongPrefix(name: string)
    requires ExecPrefix(name) && |name| > 4
    ensures !LeftOut(name) && CommandNamed(name).None?
  {
    hide Upper;
    ExecPrefixIs(name);
    NameIs(name);
    assert name[0] == name[..4][0] && name[1] == name[..4][1];
    assert name[1] == 'x' || name[1] == 'X';
    assert name[2] == name[..4][2] && (name[2] == 'e' || name[2] == 'E');
  }

  predicate NamesWrite(name: string) {
    Spells(name, "set", "SET") || Spells(name, "del", "DEL") || Spells(name, "expire", "EXPIRE")
  }

  /** A name that is none of the table's is answered "Invalid command", and nothing happens. */
  lemma UnknownRefused(s: Server, c: ClientId, argv: Request, now: int)
    requires WellFormed(s) && c < |s.clients| && Multi !in s.clients[c].flags && argv != []
    requires !LeftOut(argv[0]) && CommandNamed(argv[0]).None?
    ensures ProcessQuery(s, c, argv, now) == Done(Say(s, c, InvalidCommand))
  {
    hide CommandNamed, LeftOut;
    LeftOutIs(argv[0]);
  }

  /** A replica refuses every write of an ordinary client, and nothing happens. */
  lemma ReplicaRefuses(s: Server, c: ClientId, argv: Request, now: int)
    requires WellFormed(s) && c < |s.clients| && Multi !in s.clients[c].flags && argv != []
    requires !s.isMaster && Normal in s.clients[c].flags && NamesWrite(argv[0])
    ensures ProcessQuery(s, c, argv, now) == Done(Say(s, c, InvalidCommand))
  {
    hide CommandNamed, Spells, Perform;
    NameIs(argv[0]);
    NotLeftOut(argv[0]);
    LeftOutIs(argv[0]);
  }

  lemma NotLeftOut(name: string)
    requires NamesWrite(name)
    ensures !LeftOut(name)
  {
    hide Upper, Spells, LeftOut;
    UpperIs(name, "set", "SET");
    UpperIs(name, "del", "DEL");
    UpperIs(name, "expire", "EXPIRE");
    LeftOutIs(name);
  }

  // ---------- Logging and replication ----------

  /** Every write that is executed, whatever it answers, is logged exactly when the append-only
      file is on and the client is no fake one; and streamed exactly when the server is a master
      and it was not logged. */
  lemma WriteRecorded(s: Server, c: ClientId, argv: Request, now: int)
    requires WellFormed(s) && c < |s.clients| && Multi !in s.clients[c].flags && argv != []
    requires NamesWrite(argv[0]) && (s.isMaster || Normal !in s.clients[c].flags)
    requires ProcessQuery(s, c, argv, now).Done?
    ensures var t := ProcessQuery(s, c, argv, now).s;
            var logged := s.aofOn && Fake !in s.clients[c].flags;
            && t.aof == (if logged then s.aof + [argv] else s.aof)
            && t.stream == (if s.isMaster && !logged then s.stream + [argv] else s.stream)
  {
    hide CommandNamed, Spells, DataStep, Touch, ExecTransaction;
    NameIs(argv[0]);
    var cmd := CommandNamed(argv[0]).value;
    var s1 := s.(trace := s.trace + [Event(c, s.clients[c].dbid, cmd, argv)]);
    var s2 := DataStep(s1, c, cmd, argv, now).s;
    StepUnrecorded(s1, c, cmd, argv, now);
    TouchUnrecorded(s2, s.clients[c].dbid, argv[1]);
  }

  lemma StepUnrecorded(s: Server, c: ClientId, cmd: Command, argv: Request, now: int)
    requires c < |s.clients| && s.clients[c].dbid < |s.dbs| && |argv| >= 2
    ensures var r := DataStep(s, c, cmd, argv, now);
            r.Done? ==> && r.s.aof == s.aof && r.s.stream == s.stream && r.s.aofOn == s.aofOn && r.s.isMaster == s.isMaster
                        && |r.s.dbs| == |s.dbs| && |r.s.clients| == |s.clients|
                        && r.s.clients[c].flags == s.clients[c].flags && r.s.clients[c].dbid == s.clients[c].dbid
  {
  }

  lemma TouchUnrecorded(s: Server, d: nat, k: Key)
    requires d < |s.dbs|
    ensures var t := Touch(s, d, k);
            t.aof == s.aof && t.stream == s.stream && t.aofOn == s.aofOn && t.isMaster == s.isMaster
  {
  }

  /** Nothing else is: every other query outside EXEC leaves log and stream as they are. */
  lemma OtherUnrecorded(s: Server, c: ClientId, argv: Request, now: int)
    requires WellFormed(s) && c < |s.clients| && argv != [] && !Spells(argv[0], "exec", "EXEC")
    requires !NamesWrite(argv[0]) || (Multi in s.clients[c].flags && !ExecPrefix(argv[0]))
    requires ProcessQuery(s, c, argv, now).Done?
    ensures var t := ProcessQuery(s, c, argv, now).s; t.aof == s.aof && t.stream == s.stream
  {
    hide CommandNamed, Spells, DataStep, Touch, ExecTransaction;
    NameIs(argv[0]);
    if CommandNamed(argv[0]) == Some(GetCmd) && |argv| >= 2 {
      var s1 := s.(trace := s.trace + [Event(c, s.clients[c].dbid, GetCmd, argv)]);
      assert WellFormed(s1);
      StepUnrecorded(s1, c, GetCmd, argv, now);
    }
  }
}
