/** The command state machine: databases, clients, transactions and watched keys.
    One query of one client is one step; the time of day is an argument of the step. */
module Server {
  import opened Wrappers
  import opened Decimal
  import opened Robj
  import DictRuns

  type Key = string
  type ClientId = nat
  type Request = seq<string>

  /** How many commands a transaction queue has room for. */
  const QUEUE_MAX := 10

  /** The keys are held as a plain map; module KvTables ties it to the dictionary behind it. */
  datatype Db = Db(kv: map<Key, Robj>, expires: map<Key, int>, watched: map<Key, seq<ClientId>>)

  datatype Flag = Normal | Master | Slave | Fake | Multi | Exec | DirtyCas

  datatype Reply =
    | Ok | Pong | Err | KeyNotFound | ValueMissed | InvalidCommand | Queued | ErrDirty | ExecOk
    | Bulk(text: string)

  datatype Client = Client(flags: set<Flag>, dbid: nat, queue: seq<Request>, out: seq<Reply>)

  datatype Command = SetCmd | GetCmd | DelCmd | ExpireCmd | SelectCmd | WatchCmd | MultiCmd | ExecCmd | PingCmd
  {
    predicate Writes() { SetCmd? || DelCmd? || ExpireCmd? }
    predicate TouchesData() { Writes() || GetCmd? }
  }

  /** A command that was executed, as opposed to queued or refused. */
  datatype Event = Event(client: ClientId, dbid: nat, cmd: Command, argv: Request)

  /** The calls that one data command makes on the key dictionary of its database. */
  datatype Call = Call(dbid: nat, ops: seq<DictRuns.Op<Robj>>)

  /** `stream` is what a master hands to its replication backlog, `aof` what is logged;
      `trace` and `calls` are histories for the specification only. */
  datatype Server = Server(
    isMaster: bool, aofOn: bool, dbs: seq<Db>, clients: seq<Client>,
    aof: seq<Request>, stream: seq<Request>, dirty: nat, trace: seq<Event>, calls: seq<Call>)

  /** `Outside`: the C code indexes outside an array or argument list, or the command is
      one this model leaves out. */
  datatype Outcome = Done(s: Server) | Outside

  const EMPTY_DB := Db(map[], map[], map[])

  predicate QueueOk(queue: seq<Request>) {
    |queue| <= QUEUE_MAX && forall i :: 0 <= i < |queue| ==> queue[i] != [] && !ExecPrefix(queue[i][0])
  }

  predicate WatchersOk(db: Db, n: nat) {
    forall k :: k in db.watched ==> forall i :: 0 <= i < |db.watched[k]| ==> db.watched[k][i] < n
  }

  predicate WellFormed(s: Server) {
    (forall c :: 0 <= c < |s.clients| ==> s.clients[c].dbid < |s.dbs| && QueueOk(s.clients[c].queue)) &&
    (forall d :: 0 <= d < |s.dbs| ==> WatchersOk(s.dbs[d], |s.clients|))
  }

  predicate SameShape(s: Server, t: Server) {
    WellFormed(t) && |t.clients| == |s.clients| && |t.dbs| == |s.dbs| && t.isMaster == s.isMaster && t.aofOn == s.aofOn
  }

  // ---------- Names ----------

  function UpperChar(c: char): char {
    if 'a' <= c <= 'z' then (c as int - 32) as char else c
  }

  function Upper(s: string): string { seq(|s|, i requires 0 <= i < |s| => UpperChar(s[i])) }

  /** strncasecmp(name, "exec", 4) == 0 */
  predicate ExecPrefix(name: string) { |name| >= 4 && Upper(name[..4]) == "EXEC" }

  function CommandNamed(name: string): Option<Command> {
    var u := Upper(name);
    if u == "SET" then Some(SetCmd)
    else if u == "GET" then Some(GetCmd)
    else if u == "DEL" then Some(DelCmd)
    else if u == "EXPIRE" then Some(ExpireCmd)
    else if u == "SELECT" then Some(SelectCmd)
    else if u == "WATCH" then Some(WatchCmd)
    else if u == "MULTI" then Some(MultiCmd)
    else if u == "EXEC" then Some(ExecCmd)
    else if u == "PING" then Some(PingCmd)
    else None
  }

  const UNMODELLED: set<string> :=
    {"OBJECT", "BYE", "SLAVEOF", "REPLCONF", "SYNC", "REPLACK", "INFO", "HEARTBEAT", "TTL"}

  /** lookupCommand with isSupportedCmd: a replica refuses writes of normal clients. */
  function LookupCommand(s: Server, c: ClientId, name: string): Option<Command>
    requires c < |s.clients|
  {
    match CommandNamed(name)
    case Some(cmd) =>
      if !s.isMaster && Normal in s.clients[c].flags && cmd.Writes() then None else Some(cmd)
    case None => None
  }

  // ---------- Database operations ----------

  /** expireIfNeed: a key past its deadline goes; its deadline stays, because the delete
      result 0 is compared with `> 0`. */
  function ExpireIfNeed(db: Db, key: Key, now: int): (r: Db)
    ensures r.watched == db.watched && r.expires == db.expires
  {
    if key in db.expires && now > db.expires[key] then db.(kv := db.kv - {key}) else db
  }

  datatype Effect = Effect(db: Db, reply: Reply, changed: bool) | NoEffect

  /** The SET, GET, DEL and EXPIRE handlers; NoEffect when an argument they read is missing. */
  function DataEffect(db: Db, cmd: Command, argv: Request, now: int): (r: Effect)
    requires |argv| >= 2
    ensures r.Effect? ==> r.db.watched == db.watched
  {
    var key := argv[1];
    match cmd
    case SetCmd =>
      if |argv| == 2 then Effect(db, ValueMissed, false)
      else Effect(db.(kv := db.kv[key := Create(argv[2])]), Ok, true)
    case GetCmd =>
      Effect(db, if key in db.kv then Bulk(Show(db.kv[key])) else KeyNotFound, false)
    case DelCmd =>
      if key in db.kv then Effect(db.(kv := db.kv - {key}), Ok, true) else Effect(db, KeyNotFound, false)
    case ExpireCmd =>
      if |argv| == 2 then NoEffect
      else
        var r := Scan(argv[2]);
        if r.used == 0 || r.used < |argv[2]| || !IsLong(r.value) then Effect(db, Err, false)
        else if key in db.expires then Effect(db, Err, false)
        else Effect(db.(expires := db.expires[key := r.value + now]), Ok, true)
    case _ => NoEffect
  }

  /** What expireIfNeed calls on the key dictionary. */
  function ExpiryCalls(db: Db, key: Key, now: int): seq<DictRuns.Op<Robj>> {
    if key in db.expires && now > db.expires[key] then [DictRuns.DeleteOp(key)] else []
  }

  /** What the handler calls on it: dbAdd looks the key up and replaces or adds, dbGet fetches,
      dbDelete deletes. */
  function HandlerCalls(kv: map<Key, Robj>, cmd: Command, argv: Request): seq<DictRuns.Op<Robj>>
    requires |argv| >= 2
  {
    var key := argv[1];
    match cmd
    case SetCmd =>
      if |argv| == 2 then []
      else
        var v := Create(argv[2]);
        [DictRuns.FindOp(key), if key in kv then DictRuns.ReplaceOp(key, v) else DictRuns.AddOp(key, v)]
    case GetCmd => [DictRuns.FetchOp(key)]
    case DelCmd => [DictRuns.DeleteOp(key)]
    case _ => []
  }

  function KvCalls(db: Db, cmd: Command, argv: Request, now: int): seq<DictRuns.Op<Robj>>
    requires |argv| >= 2
  {
    ExpiryCalls(db, argv[1], now) + HandlerCalls(ExpireIfNeed(db, argv[1], now).kv, cmd, argv)
  }

  // ---------- Server operations ----------

  function Say(s: Server, c: ClientId, reply: Reply): (r: Server)
    requires c < |s.clients|
    ensures WellFormed(s) ==> SameShape(s, r)
  {
    s.(clients := s.clients[c := s.clients[c].(out := s.clients[c].out + [reply])])
  }

  function SetClient(s: Server, c: ClientId, client: Client): (r: Server)
    requires c < |s.clients|
    ensures WellFormed(s) && client.dbid < |s.dbs| && QueueOk(client.queue) ==> SameShape(s, r)
  {
    s.(clients := s.clients[c := client])
  }

  function MarkDirty(clients: seq<Client>, list: seq<ClientId>): seq<Client> {
    seq(|clients|, i requires 0 <= i < |clients| =>
      if i in list then clients[i].(flags := clients[i].flags + {DirtyCas}) else clients[i])
  }

  /** touchWatchKey: every client on the key's list becomes dirty and leaves the list. */
  function Touch(s: Server, d: nat, key: Key): (r: Server)
    requires d < |s.dbs|
    ensures WellFormed(s) ==> SameShape(s, r)
  {
    var db := s.dbs[d];
    if key in db.watched then
      s.(clients := MarkDirty(s.clients, db.watched[key]),
         dbs := s.dbs[d := db.(watched := db.watched[key := []])])
    else s
  }

  /** The database part of a data command, with lazy expiry first. */
  function DataStep(s: Server, c: ClientId, cmd: Command, argv: Request, now: int): (r: Outcome)
    requires c < |s.clients| && s.clients[c].dbid < |s.dbs| && |argv| >= 2
    ensures WellFormed(s) && r.Done? ==> SameShape(s, r.s)
  {
    var d := s.clients[c].dbid;
    match DataEffect(ExpireIfNeed(s.dbs[d], argv[1], now), cmd, argv, now)
    case NoEffect => Outside
    case Effect(db, reply, changed) =>
      var call := Call(d, KvCalls(s.dbs[d], cmd, argv, now));
      Done(Say(s.(dbs := s.dbs[d := db], dirty := s.dirty + if changed then 1 else 0, calls := s.calls + [call]), c, reply))
  }

  /** Logging and replication of a write. With the append-only file on, the read buffer has
      been emptied into the log by the time it is replicated, so nothing is replicated. */
  function Record(s: Server, fake: bool, argv: Request): (r: Server)
    ensures WellFormed(s) ==> SameShape(s, r)
  {
    var logged := s.aofOn && !fake;
    s.(aof := if logged then s.aof + [argv] else s.aof,
       stream := if s.isMaster && !logged then s.stream + [argv] else s.stream)
  }

  function AddWatch(db: Db, key: Key, c: ClientId): (r: Db)
    ensures forall n :: c < n && WatchersOk(db, n) ==> WatchersOk(r, n)
  {
    db.(watched := db.watched[key := (if key in db.watched then db.watched[key] else []) + [c]])
  }

  function AddWatches(db: Db, keys: seq<Key>, c: ClientId): (r: Db)
    ensures forall n :: c < n && WatchersOk(db, n) ==> WatchersOk(r, n)
    decreases |keys|
  {
    if keys == [] then db
    else AddWatch(AddWatches(db, keys[..|keys| - 1], c), keys[|keys| - 1], c)
  }

  function SelectStep(s: Server, c: ClientId, argv: Request): (r: Outcome)
    requires c < |s.clients|
    ensures WellFormed(s) && r.Done? ==> SameShape(s, r.s)
  {
    if |argv| < 2 then Outside
    else
      var r := Scan(argv[1]);
      if r.used == 0 || r.used < |argv[1]| || !IsLong(r.value) then Done(Say(s, c, Err))
      else if 0 <= r.value < |s.dbs| then
        Done(Say(SetClient(s, c, s.clients[c].(dbid := r.value)), c, Bulk("OK, db is " + Print(r.value))))
      else Outside
  }

  function WatchStep(s: Server, c: ClientId, argv: Request): (r: Server)
    requires c < |s.clients| && s.clients[c].dbid < |s.dbs| && argv != []
    ensures WellFormed(s) ==> SameShape(s, r)
  {
    var d := s.clients[c].dbid;
    Say(s.(dbs := s.dbs[d := AddWatches(s.dbs[d], argv[1..], c)]), c, Ok)
  }

  function MultiStep(s: Server, c: ClientId): (r: Server)
    requires c < |s.clients|
    ensures WellFormed(s) ==> SameShape(s, r)
  {
    Say(SetClient(s, c, s.clients[c].(flags := s.clients[c].flags + {Multi})), c, Ok)
  }

  /** Handler, then watched keys, then log and replication, for the data commands. */
  function DataCommand(s: Server, c: ClientId, cmd: Command, argv: Request, now: int): (r: Outcome)
    requires c < |s.clients| && s.clients[c].dbid < |s.dbs|
    ensures WellFormed(s) && r.Done? ==> SameShape(s, r.s)
  {
    if |argv| < 2 then Outside
    else match DataStep(s, c, cmd, argv, now)
      case Outside => Outside
      case Done(s1) =>
        Done(if !cmd.Writes() then s1
             else Record(Touch(s1, s.clients[c].dbid, argv[1]), Fake in s.clients[c].flags, argv))
  }

  /** processCommand for every command but EXEC. */
  function Plain(s: Server, c: ClientId, argv: Request, now: int): (r: Outcome)
    requires WellFormed(s) && c < |s.clients| && argv != []
    ensures r.Done? ==> SameShape(s, r.s)
  {
    match LookupCommand(s, c, argv[0])
    case None => if Upper(argv[0]) in UNMODELLED then Outside else Done(Say(s, c, InvalidCommand))
    case Some(cmd) => Perform(s.(trace := s.trace + [Event(c, s.clients[c].dbid, cmd, argv)]), c, cmd, argv, now)
  }

  function Perform(s: Server, c: ClientId, cmd: Command, argv: Request, now: int): (r: Outcome)
    requires WellFormed(s) && c < |s.clients| && argv != []
    ensures r.Done? ==> SameShape(s, r.s)
  {
    match cmd
    case SelectCmd => SelectStep(s, c, argv)
    case WatchCmd => Done(WatchStep(s, c, argv))
    case MultiCmd => Done(MultiStep(s, c))
    case PingCmd => Done(Say(s, c, Pong))
    case ExecCmd => Outside
    case _ => DataCommand(s, c, cmd, argv, now)
  }

  /** clientMultiAdd */
  function Enqueue(s: Server, c: ClientId, argv: Request): (r: Outcome)
    requires WellFormed(s) && c < |s.clients| && argv != [] && !ExecPrefix(argv[0])
    ensures r.Done? ==> SameShape(s, r.s)
  {
    var client := s.clients[c];
    if |client.queue| >= QUEUE_MAX then Outside
    else Done(Say(SetClient(s, c, client.(queue := client.queue + [argv])), c, Queued))
  }

  /** One query that is not EXEC: queued inside MULTI, executed otherwise. */
  function QueueOrPlain(s: Server, c: ClientId, argv: Request, now: int): (r: Outcome)
    requires WellFormed(s) && c < |s.clients| && argv != []
    ensures r.Done? ==> SameShape(s, r.s)
  {
    if Multi in s.clients[c].flags && !ExecPrefix(argv[0]) then Enqueue(s, c, argv) else Plain(s, c, argv, now)
  }

  /** The loop of commandExecProc from queue position i; the queue can grow under it. */
  function RunQueue(s: Server, c: ClientId, i: nat, now: int): (r: Outcome)
    requires WellFormed(s) && c < |s.clients|
    ensures r.Done? ==> SameShape(s, r.s)
    decreases QUEUE_MAX - i
  {
    var queue := s.clients[c].queue;
    if i >= |queue| then Done(s)
    else match QueueOrPlain(s, c, queue[i], now)
      case Outside => Outside
      case Done(s1) => RunQueue(s1, c, i + 1, now)
  }

  function EndExec(s: Server, c: ClientId, reply: Reply): Server
    requires c < |s.clients|
  {
    var client := s.clients[c];
    Say(SetClient(s, c, client.(flags := client.flags - {Exec}, queue := [])), c, reply)
  }

  /** commandExecProc. `flags &= DIRTY_CAS` drops every other flag of the client. */
  function ExecTransaction(s: Server, c: ClientId, argv: Request, now: int): (r: Outcome)
    requires WellFormed(s) && c < |s.clients|
    ensures r.Done? ==> SameShape(s, r.s)
  {
    var client := s.clients[c];
    var flags := (client.flags - {Multi} + {Exec}) * {DirtyCas};
    var s0 := SetClient(s.(trace := s.trace + [Event(c, client.dbid, ExecCmd, argv)]), c, client.(flags := flags));
    if flags != {} then Done(EndExec(s0, c, ErrDirty))
    else match RunQueue(s0, c, 0, now)
      case Outside => Outside
      case Done(s1) => Done(EndExec(s1, c, ExecOk))
  }

  /** processClientQueryBuf on a decoded request. */
  function ProcessQuery(s: Server, c: ClientId, argv: Request, now: int): (r: Outcome)
    requires WellFormed(s) && c < |s.clients| && argv != []
    ensures r.Done? ==> SameShape(s, r.s)
  {
    if CommandNamed(argv[0]) == Some(ExecCmd) then ExecTransaction(s, c, argv, now)
    else QueueOrPlain(s, c, argv, now)
  }

  // ---------- Runs ----------

  datatype Input = Input(client: ClientId, argv: Request, now: int)

  predicate InputsOk(inputs: seq<Input>, n: nat) {
    forall i :: 0 <= i < |inputs| ==> inputs[i].client < n && inputs[i].argv != []
  }

  /** Any interleaving of queries of any clients. */
  function Run(s: Server, inputs: seq<Input>): (r: Outcome)
    requires WellFormed(s) && InputsOk(inputs, |s.clients|)
    ensures r.Done? ==> SameShape(s, r.s)
    decreases |inputs|
  {
    if inputs == [] then Done(s)
    else match ProcessQuery(s, inputs[0].client, inputs[0].argv, inputs[0].now)
      case Outside => Outside
      case Done(s1) => Run(s1, inputs[1..])
  }

  /** Freshly accepted clients on empty watch tables. */
  predicate Initial(s: Server) {
    WellFormed(s) && s.trace == [] &&
    (forall c :: 0 <= c < |s.clients| ==> s.clients[c].flags <= {Normal, Fake} && s.clients[c].queue == []) &&
    (forall d :: 0 <= d < |s.dbs| ==> s.dbs[d].watched == map[])
  }
}
