/** A master, a wire and one replica: the replica's database is the fold of a prefix of the
    master's write stream, and its offset is the length of that prefix, as long as append-sync
    counts its bytes once. `coded` selects the code's double count and its read of the backlog;
    the string buffers are the guarded ones of module Sds, except where the coded ones are named. */
module Replication {
  import opened Wrappers
  import opened Decimal
  import opened Robj
  import opened Resp
  import opened Server
  import opened Aof
  import opened Recovery
  import opened Backlog
  import RedisServer
  import Sds
  import Commands
  import Frames

  /** On the replica, client 0 is the connection to the master, client 1 executes append-syncs. */
  const PEER: ClientId := 0
  const LOADER: ClientId := 1

  // ---------- Append-sync on the replica ----------

  datatype Synced = Synced(r: Server, offset: int, left: string) | Broken

  predicate CountsAsWrite(argv: Request) {
    argv != [] && CommandNamed(argv[0]).Some? && CommandNamed(argv[0]).value.Writes()
  }

  /** One message of an append-sync, in `text`: decode, execute, and let processCommand advance
      the offset. Also returns what stays in the read buffer. */
  function SyncRound(r: Server, offset: int, text: string, now: int): (t: Option<(Server, int, string)>)
    requires WellFormed(r) && LOADER < |r.clients|
    ensures t.Some? ==> SameShape(r, t.value.0)
  {
    match Decode(text)
    case Overrun => None
    case Rejected => Some((r, offset, text))
    case Args(argv) =>
      if argv == [] then None
      else match ProcessQuery(r, LOADER, argv, now)
        case Outside => None
        case Done(r1) => Some((r1, if CountsAsWrite(argv) then offset + |text| else offset, ""))
  }

  /** The loop of doAppendSync, message after message. */
  function SyncFrames(r: Server, offset: int, sbuf: string, readBuf: string, now: int): (t: Synced)
    requires WellFormed(r) && LOADER < |r.clients|
    ensures t.Synced? ==> SameShape(r, t.r) && |t.left| <= |sbuf|
    decreases |sbuf|
  {
    match RespParse(sbuf)
    case Incomplete => Synced(r, offset, sbuf)
    case Unspecified => Broken
    case Took(n) =>
      match SyncRound(r, offset, readBuf + sbuf[..n], now)
      case None => Broken
      case Some((r1, off, kept)) => SyncFrames(r1, off, sbuf[n..], kept, now)
  }

  /** doAppendSync. The code adds the consumed bytes once more at the end: coded is true
      for the code, false for the version that counts once. */
  function AppendSyncOn(r: Server, offset: int, bytes: string, now: int, coded: bool): (t: Synced)
    requires WellFormed(r) && LOADER < |r.clients|
    ensures t.Synced? ==> SameShape(r, t.r)
  {
    match SyncFrames(r, offset, bytes, "", now)
    case Broken => Broken
    case Synced(r1, off, left) => Synced(r1, if coded then off + |bytes| - |left| else off, left)
  }

  lemma ShapeFacts(s: Server, t: Server)
    requires SameShape(s, t)
    ensures WellFormed(t) && |t.clients| == |s.clients|
  {
  }

  /** The execution of one decoded message of an append-sync. */
  method SyncRequest(server: RedisServer.RedisServer, offset: int, fakeBuf: Sds.Sds, request: Decoded, now: int)
    returns (ok: bool, newOffset: int)
    requires WellFormed(server.State()) && LOADER < |server.clients|
    requires fakeBuf.Safe() && request == Decode(fakeBuf.Text())
    modifies server, fakeBuf`len, fakeBuf`free, fakeBuf.buf
    ensures fakeBuf.Safe() && fakeBuf.buf == old(fakeBuf.buf)
    ensures match SyncRound(old(server.State()), offset, old(fakeBuf.Text()), now)
            case None => !ok
            case Some(t) => ok && (server.State(), newOffset, fakeBuf.Text()) == t
  {
    hide ProcessQuery, Decode, WellFormed, CountsAsWrite, SameShape, Sds.Clear, Sds.Honest;
    match request {
      case Overrun => return false, 0;
      case Rejected => return true, offset;
      case Args(argv) =>
        if argv == [] { return false, 0; }
        ok := server.ProcessClientQuery(LOADER, argv, now);
        if !ok { return false, 0; }
        newOffset := if CountsAsWrite(argv) then offset + fakeBuf.len else offset;
        fakeBuf.Wipe();
    }
  }

  /** One round of the loop of doAppendSync, on a frame of n bytes. */
  method SyncNext(server: RedisServer.RedisServer, offset: int, sbuf: Sds.Sds, fakeBuf: Sds.Sds, n: nat, now: int)
    returns (ok: bool, newOffset: int)
    requires WellFormed(server.State()) && LOADER < |server.clients|
    requires Buffers(sbuf, fakeBuf) && RespParse(sbuf.Text()) == Took(n)
    modifies server, fakeBuf, fakeBuf.buf, sbuf`len, sbuf`free, sbuf.buf
    ensures Buffers(sbuf, fakeBuf) && sbuf.buf == old(sbuf.buf) && (fakeBuf.buf == old(fakeBuf.buf) || fresh(fakeBuf.buf))
    ensures var before := SyncFrames(old(server.State()), offset, old(sbuf.Text()), old(fakeBuf.Text()), now);
            if ok then
              && WellFormed(server.State()) && LOADER < |server.clients| && sbuf.len < old(sbuf.len)
              && before == SyncFrames(server.State(), newOffset, sbuf.Text(), fakeBuf.Text(), now)
            else before == Broken
  {
    hide SyncRound, RespParse, Decode, WellFormed, SameShape, Sds.Honest;
    ghost var before := server.State();
    var request := NextRequest(sbuf, fakeBuf, n);
    ok, newOffset := SyncRequest(server, offset, fakeBuf, request, now);
    if !ok { return; }
    ShapeFacts(before, server.State());
    DropFront(sbuf, n);
  }

  /** doAppendSync with the second count of the code, on guarded buffers. */
  method DoAppendSync(server: RedisServer.RedisServer, offset: int, readBuf: Sds.Sds, now: int)
    returns (ok: bool, newOffset: int)
    requires WellFormed(server.State()) && LOADER < |server.clients| && readBuf.Safe()
    modifies server, readBuf`len, readBuf`free, readBuf.buf
    ensures var t := AppendSyncOn(old(server.State()), offset, old(readBuf.Text()), now, true);
            ok == t.Synced? && (ok ==> readBuf.Safe() && Synced(server.State(), newOffset, readBuf.Text()) == t)
  {
    hide ProcessQuery, RespParse, Decode, WellFormed, CommandNamed, Sds.Honest;
    newOffset := offset;
    var oldLen := readBuf.len;
    var fakeBuf := new Sds.Sds("", true);
    var frame := RespParseAt(readBuf.buf[..readBuf.len]);
    while frame.Took?
      invariant fresh(fakeBuf) && fresh(fakeBuf.buf) && Buffers(readBuf, fakeBuf) && readBuf.buf == old(readBuf.buf)
      invariant frame == RespParse(readBuf.Text())
      invariant WellFormed(server.State()) && LOADER < |server.clients|
      invariant SyncFrames(old(server.State()), offset, old(readBuf.Text()), "", now) ==
                SyncFrames(server.State(), newOffset, readBuf.Text(), fakeBuf.Text(), now)
      decreases readBuf.len
    {
      ok, newOffset := SyncNext(server, newOffset, readBuf, fakeBuf, frame.n, now);
      if !ok { return; }
      frame := RespParseAt(readBuf.buf[..readBuf.len]);
    }
    if frame.Unspecified? { return false, 0; }
    return true, newOffset + oldLen - readBuf.len;
  }

  // ---------- Propagated writes on the replica ----------

  /** readFromClient on the replica, for one read from the master that returned `buf`: the
      first request in it is executed, the offset advances by the whole buffer, and the
      buffer is dropped. None when the model ends. */
  function ReadOnce(r: Server, offset: int, buf: string, now: int): (t: Option<(Server, int)>)
    requires WellFormed(r) && LOADER < |r.clients|
    ensures t.Some? ==> SameShape(r, t.value.0)
  {
    match Decode(buf)
    case Overrun => None
    case Rejected => Some((r, offset))
    case Args(argv) =>
      if argv == [] then None
      else match ProcessQuery(r, PEER, argv, now)
        case Outside => None
        case Done(r1) => Some((r1, if CountsAsWrite(argv) then offset + |buf| else offset))
  }

  // ---------- The system ----------

  /** `applied` (how many of the master's writes the replica has executed) and `resumes` are
      history for the specification. */
  datatype System = System(m: Server, begin: nat, r: Server, offset: int, connected: bool,
                           wire: seq<Request>, applied: nat, resumes: nat)

  datatype Action =
    | Query(input: Input)   // any client of the master sends a request
    | Deliver(now: int)     // the replica reads and executes the next propagated write
    | Disconnect
    | Resume(now: int)      // SYNC <offset>, answered with an append-sync

  predicate SystemOk(y: System) { WellFormed(y.m) && WellFormed(y.r) && LOADER < |y.r.clients| }

  predicate Enabled(y: System, a: Action) {
    match a
    case Query(input) => input.client < |y.m.clients| && CoreRequest(input.argv)
    case Deliver(_) => y.connected && y.wire != [] && y.wire[0] != []
    case Disconnect => y.connected
    case Resume(_) => !y.connected
  }

  /** begin_offset after a batch of writes at stream position `last`. */
  function BeginAfter(begin: nat, last: nat, cmds: seq<Request>): nat
    decreases |cmds|
  {
    if cmds == [] then begin
    else BeginAfter(NextBegin(begin, last, |Encode(cmds[0])|), last + |Encode(cmds[0])|, cmds[1..])
  }

  /** What the master answers: as coded, or with the read of the backlog wrapped. */
  function Answered(y: System, coded: bool): SyncReply {
    var stream := LogText(y.m.stream);
    if coded then SyncDecision(y.offset, y.begin, |stream|, stream) else WrappedDecision(y.offset, stream)
  }

  /** None: the model ends here (a full sync, a reply past the buffer, or an outcome Outside). */
  function Step(y: System, a: Action, coded: bool): (z: Option<System>)
    requires SystemOk(y) && Enabled(y, a)
    ensures z.Some? ==> SystemOk(z.value)
  {
    match a
    case Query(input) =>
      (match ProcessQuery(y.m, input.client, input.argv, input.now)
       case Outside => None
       case Done(m1) =>
         if |m1.stream| < |y.m.stream| then None
         else
           var news := m1.stream[|y.m.stream|..];
           Some(y.(m := m1, begin := BeginAfter(y.begin, |LogText(y.m.stream)|, news),
                   wire := if y.connected then y.wire + news else y.wire)))
    case Deliver(now) =>
      (match ReadOnce(y.r, y.offset, Encode(y.wire[0]), now)
       case None => None
       case Some((r1, off)) => Some(y.(r := r1, offset := off, wire := y.wire[1..], applied := y.applied + 1)))
    case Disconnect => Some(y.(connected := false, wire := []))
    case Resume(now) =>
      match Answered(y, coded)
      case FullSync => None
      case OutOfBounds => None
      case AppendSync(bytes) =>
        match AppendSyncOn(y.r, y.offset, bytes, now, coded)
        case Broken => None
        case Synced(r1, off, left) =>
          Some(y.(r := r1, offset := off, connected := true, wire := [],
                  applied := |y.m.stream|, resumes := y.resumes + 1))
  }

  function Steps(y: System, actions: seq<Action>, coded: bool): Option<System>
    requires SystemOk(y)
    decreases |actions|
  {
    if actions == [] then Some(y)
    else if !Enabled(y, actions[0]) then None
    else match Step(y, actions[0], coded)
      case None => None
      case Some(z) => Steps(z, actions[1..], coded)
  }

  // ---------- The invariant ----------

  predicate ReplicaOk(r: Server) {
    && WellFormed(r) && !r.isMaster && !r.aofOn && |r.dbs| > 0 && r.dbs[0].expires == map[]
    && LOADER < |r.clients| && ReplicaClient(r.clients[PEER]) && ReplicaClient(r.clients[LOADER])
  }

  predicate ReplicaClient(client: Client) { client.dbid == 0 && client.flags <= {Master, Fake, DirtyCas} }

  /** The replica holds the fold of the first `applied` writes; what is on the wire are the
      next ones, all of them while connected. */
  predicate IsPrefix(y: System) {
    && LogMirrors(y.m) && !y.m.aofOn && ReplicaOk(y.r)
    && y.applied <= |y.m.stream|
    && y.r.dbs[0].kv == Fold(map[], y.m.stream[..y.applied])
    && (y.connected ==> y.m.stream[..y.applied] + y.wire == y.m.stream)
    && (!y.connected ==> y.wire == [])
  }

  /** How far the offset is from the length of the applied prefix. */
  function Drift(y: System): int
    requires y.applied <= |y.m.stream|
  {
    y.offset - |LogText(y.m.stream[..y.applied])|
  }


  // ---------- Texts and folds of concatenations ----------

  lemma {:induction false} FoldConcat(kv: Kv, a: seq<Request>, b: seq<Request>)
    requires AllWriting(a) && AllWriting(b)
    ensures Fold(kv, a + b) == Fold(Fold(kv, a), b)
    decreases |a|
  {
    hide Apply, CommandNamed, Fits;
    if a == [] {
      assert a + b == b;
    } else {
      assert (a + b)[1..] == a[1..] + b;
      FoldConcat(Apply(kv, a[0]), a[1..], b);
    }
  }

  // ---------- The replica executes writes ----------

  lemma ReplicaApplies(r: Server, c: ClientId, argv: Request, now: int)
    requires ReplicaOk(r) && (c == PEER || c == LOADER) && Writing(argv)
    ensures var t := ProcessQuery(r, c, argv, now);
            t.Done? && ReplicaOk(t.s) && t.s.dbs[0].kv == Apply(r.dbs[0].kv, argv)
  {
    hide DataCommand, Apply, CommandNamed, Fits;
    var cmd := CommandNamed(argv[0]).value;
    var r1 := r.(trace := r.trace + [Event(c, 0, cmd, argv)]);
    DataLogged(r1, c, cmd, argv, now);
    assert ProcessQuery(r, c, argv, now) == DataCommand(r1, c, cmd, argv, now);
  }

  /** One read that holds a write and then anything else executes the write but counts all the
      bytes: the offset stays exact if and only if nothing else was there. */
  lemma ReadWithTail(r: Server, offset: int, argv: Request, tail: string, now: int)
    requires ReplicaOk(r) && Writing(argv)
    ensures var t := ReadOnce(r, offset, Encode(argv) + tail, now);
            && t.Some? && ReplicaOk(t.value.0) && t.value.0.dbs[0].kv == Apply(r.dbs[0].kv, argv)
            && t.value.1 == offset + |Encode(argv)| + |tail|
            && (t.value.1 == offset + |Encode(argv)| <==> tail == "")
  {
    hide ProcessQuery, Decode, Encode, Apply, WellFormed, ReplicaClient;
    DecodeEncode(argv, tail);
    ReplicaApplies(r, PEER, argv, now);
  }

  /** So one read that holds several writes executes only the first of them: the offset stays
      exact if and only if the read held one write. */
  lemma ReadExecutesFirst(r: Server, offset: int, cmds: seq<Request>, now: int)
    requires ReplicaOk(r) && AllWriting(cmds) && cmds != []
    ensures var t := ReadOnce(r, offset, LogText(cmds), now);
            && t.Some? && ReplicaOk(t.value.0) && t.value.0.dbs[0].kv == Apply(r.dbs[0].kv, cmds[0])
            && t.value.1 == offset + |LogText(cmds)|
            && (t.value.1 == offset + |Encode(cmds[0])| <==> |cmds| == 1)
  {
    hide ReadOnce, Encode, Apply, ReplicaOk;
    assert Writing(cmds[0]);
    ReadWithTail(r, offset, cmds[0], LogText(cmds[1..]), now);
    if |cmds| > 1 { EncodeSome(cmds[1]); }
  }

  lemma ReplicaShape(r: Server)
    requires ReplicaOk(r)
    ensures WellFormed(r) && LOADER < |r.clients| && |r.dbs| > 0
  {
  }

  /** One whole write of an append-sync. */
  lemma SyncOne(r: Server, offset: int, argv: Request, now: int)
    requires ReplicaOk(r) && Writing(argv)
    ensures var t := SyncRound(r, offset, Encode(argv), now);
            && t.Some? && ReplicaOk(t.value.0) && t.value.0.dbs[0].kv == Apply(r.dbs[0].kv, argv)
            && t.value.1 == offset + |Encode(argv)| && t.value.2 == ""
  {
    hide ProcessQuery, Decode, Encode, Apply, WellFormed, ReplicaClient;
    DecodeEncode(argv, "");
    assert Encode(argv) + "" == Encode(argv);
    ReplicaApplies(r, LOADER, argv, now);
  }

  /** An append-sync of whole writes executes them all, leaves nothing and counts every byte. */
  lemma {:induction false} SyncAll(r: Server, offset: int, cmds: seq<Request>, now: int)
    requires ReplicaOk(r) && AllWriting(cmds)
    ensures var t := SyncFrames(r, offset, LogText(cmds), "", now);
            t.Synced? && ReplicaOk(t.r) && t.left == "" && t.offset == offset + |LogText(cmds)| &&
            t.r.dbs[0].kv == Fold(r.dbs[0].kv, cmds)
    decreases |cmds|
  {
    hide SyncRound, RespParse, Encode, Apply, Fits, CommandNamed, WellFormed, ReplicaOk, SameShape;
    ReplicaShape(r);
    if cmds != [] {
      var argv := cmds[0];
      assert Writing(argv);
      var rest := LogText(cmds[1..]);
      EncodeParse(argv, rest);
      assert "" + LogText(cmds)[..|Encode(argv)|] == Encode(argv) && LogText(cmds)[|Encode(argv)|..] == rest;
      SyncOne(r, offset, argv, now);
      ReplicaShape(SyncRound(r, offset, Encode(argv), now).value.0);
      SyncAll(SyncRound(r, offset, Encode(argv), now).value.0, offset + |Encode(argv)|, cmds[1..], now);
    } else {
      NothingFramed([], 0);
    }
  }

  // ---------- What is counted ----------

  lemma CountsIs(argv: Request)
    ensures CountsAsWrite(argv) <==> argv != [] && Commands.NamesWrite(argv[0])
  {
    hide CommandNamed, Commands.Spells;
    if argv != [] { Commands.NameIs(argv[0]); }
  }

  /** A request that is executed moves the offset if and only if it names SET, DEL or EXPIRE,
      whatever it answers: then by all the bytes that the read returned, or by those of its
      message in an append-sync. */
  lemma RequestCounts(r: Server, offset: int, argv: Request, tail: string, now: int)
    requires ReplicaOk(r) && r.clients[PEER].queue == [] && r.clients[LOADER].queue == [] && Fits(argv) && argv != []
    ensures var t := ReadOnce(r, offset, Encode(argv) + tail, now);
            && (t.Some? <==> ProcessQuery(r, PEER, argv, now).Done?)
            && (t.Some? ==> t.value.1 == offset + if Commands.NamesWrite(argv[0]) then |Encode(argv)| + |tail| else 0)
    ensures var t := SyncRound(r, offset, Encode(argv), now);
            && (t.Some? <==> ProcessQuery(r, LOADER, argv, now).Done?)
            && (t.Some? ==> t.value.2 == "" && t.value.1 == offset + if Commands.NamesWrite(argv[0]) then |Encode(argv)| else 0)
  {
    hide ProcessQuery, Decode, Encode, WellFormed, CountsAsWrite, Commands.NamesWrite;
    CountsIs(argv);
    DecodeEncode(argv, tail);
    DecodeEncode(argv, "");
    assert Encode(argv) + "" == Encode(argv);
  }

  /** What is no array is dropped without being executed or counted. */
  lemma StrayDropped(r: Server, offset: int, buf: string, now: int)
    requires WellFormed(r) && LOADER < |r.clients| && (buf == "" || buf[0] != '*')
    ensures ReadOnce(r, offset, buf, now) == Some((r, offset))
    ensures SyncRound(r, offset, buf, now) == Some((r, offset, buf))
  {
  }

  /** An array of negative length in it, or a line that starts with no type byte, is not survived. */
  lemma SyncOutside(r: Server, offset: int, line: string, tail: string, now: int)
    requires WellFormed(r) && LOADER < |r.clients|
    requires line == "*-1" || (line != "" && '\r' !in line && line[0] !in "+-:$*")
    ensures SyncFrames(r, offset, line + CRLF + tail, "", now) == Broken
  {
    hide RespParse, Decode, WellFormed;
    if line == "*-1" {
      var rest := line + CRLF + tail;
      Frames.NullFramed('*', tail);
      assert rest == ['*'] + "-1" + CRLF + tail;
      Frames.NegativeCount(-1, "");
      assert Print(-1) == "-1" && "" + rest[..5] == "*" + Print(-1) + CRLF + "";
    } else {
      Frames.UnknownKind(line, tail);
    }
  }

  /** A read that ends inside the text of an argument is decoded past its end. */
  lemma TornRead(r: Server, offset: int, n: nat, args: seq<string>, len: nat, part: string, now: int)
    requires WellFormed(r) && LOADER < |r.clients| && Fits(args) && |args| < n <= INT_MAX && |part| < len <= INT_MAX
    ensures var buf := Header('*', n) + BulkAll(args) + (Header('$', len) + part);
            ReadOnce(r, offset, buf, now) == None && SyncRound(r, offset, buf, now) == None
  {
    hide Decode, Header, BulkAll, WellFormed;
    Frames.CutItem(n, args, len, part);
  }

  /** In an append-sync it stops everything behind it: the commands are taken off the buffer and
      dropped, and the code's second count moves the offset past them all the same. */
  lemma {:induction false} SyncBlocked(r: Server, offset: int, cmds: seq<Request>, readBuf: string, now: int)
    requires WellFormed(r) && LOADER < |r.clients| && Loggable(cmds) && readBuf != "" && readBuf[0] != '*'
    ensures SyncFrames(r, offset, LogText(cmds), readBuf, now) == Synced(r, offset, "")
    decreases |cmds|
  {
    hide SyncRound, RespParse, Encode, Fits, WellFormed;
    if cmds != [] {
      var first, rest := Encode(cmds[0]), LogText(cmds[1..]);
      EncodeParse(cmds[0], rest);
      assert LogText(cmds)[..|first|] == first && LogText(cmds)[|first|..] == rest;
      StrayDropped(r, offset, readBuf + first, now);
      SyncBlocked(r, offset, cmds[1..], readBuf + first, now);
    } else {
      NothingFramed([], 0);
    }
  }

  lemma SyncStray(r: Server, offset: int, m: Frames.Message, cmds: seq<Request>, now: int)
    requires WellFormed(r) && LOADER < |r.clients| && Loggable(cmds)
    requires Frames.Proper(m) && !m.Array? && !m.NullArray?
    ensures var bytes := Frames.Wire(m) + LogText(cmds);
            && AppendSyncOn(r, offset, bytes, now, false) == Synced(r, offset, "")
            && AppendSyncOn(r, offset, bytes, now, true) == Synced(r, offset + |bytes|, "")
  {
    hide SyncRound, RespParse, LogText, Frames.Wire, Frames.Proper, WellFormed;
    var line, tail := Frames.Wire(m), LogText(cmds);
    Frames.MessageFramed(m, tail);
    NoStar(m);
    StrayDropped(r, offset, line, now);
    assert "" + (line + tail)[..|line|] == line && (line + tail)[|line|..] == tail;
    SyncBlocked(r, offset, cmds, line, now);
  }

  // ---------- The master's stream only grows ----------

  lemma DataGrows(s: Server, c: ClientId, cmd: Command, argv: Request, now: int)
    requires WellFormed(s) && c < |s.clients| && DataCommand(s, c, cmd, argv, now).Done?
    ensures s.stream <= DataCommand(s, c, cmd, argv, now).s.stream
  {
    hide DataEffect, ExpireIfNeed;
  }

  lemma PlainGrows(s: Server, c: ClientId, argv: Request, now: int)
    requires WellFormed(s) && c < |s.clients| && argv != [] && Plain(s, c, argv, now).Done?
    ensures s.stream <= Plain(s, c, argv, now).s.stream
  {
    hide DataCommand, LookupCommand;
    match LookupCommand(s, c, argv[0])
    case None =>
    case Some(cmd) =>
      var s1 := s.(trace := s.trace + [Event(c, s.clients[c].dbid, cmd, argv)]);
      if cmd.TouchesData() { DataGrows(s1, c, cmd, argv, now); }
  }

  lemma {:induction false} QueueGrows(s: Server, c: ClientId, i: nat, now: int)
    requires WellFormed(s) && c < |s.clients| && RunQueue(s, c, i, now).Done?
    ensures s.stream <= RunQueue(s, c, i, now).s.stream
    decreases QUEUE_MAX - i
  {
    hide Plain;
    var queue := s.clients[c].queue;
    if i < |queue| {
      if !(Multi in s.clients[c].flags && !ExecPrefix(queue[i][0])) { PlainGrows(s, c, queue[i], now); }
      QueueGrows(QueueOrPlain(s, c, queue[i], now).s, c, i + 1, now);
    }
  }

  lemma StreamGrows(s: Server, c: ClientId, argv: Request, now: int)
    requires WellFormed(s) && c < |s.clients| && argv != [] && ProcessQuery(s, c, argv, now).Done?
    ensures s.stream <= ProcessQuery(s, c, argv, now).s.stream
  {
    hide Plain, RunQueue, CommandNamed;
    if CommandNamed(argv[0]) == Some(ExecCmd) {
      var client := s.clients[c];
      var flags := (client.flags - {Multi} + {Exec}) * {DirtyCas};
      var s0 := SetClient(s.(trace := s.trace + [Event(c, client.dbid, ExecCmd, argv)]), c, client.(flags := flags));
      if flags == {} { QueueGrows(s0, c, 0, now); }
    } else if !(Multi in s.clients[c].flags && !ExecPrefix(argv[0])) {
      PlainGrows(s, c, argv, now);
    }
  }

  // ---------- Steps and runs ----------

  lemma QueryPrefix(y: System, a: Action, coded: bool)
    requires SystemOk(y) && Enabled(y, a) && IsPrefix(y) && a.Query? && Step(y, a, coded).Some?
    ensures var z := Step(y, a, coded).value;
            IsPrefix(z) && Drift(z) == Drift(y) && z.resumes == y.resumes
  {
    hide ProcessQuery, BeginAfter, Fold, LogText, WellFormed, ReplicaOk;
    var q := a.input;
    var m1 := ProcessQuery(y.m, q.client, q.argv, q.now).s;
    StreamGrows(y.m, q.client, q.argv, q.now);
    QueryMirrors(y.m, q.client, q.argv, q.now);
    var news := m1.stream[|y.m.stream|..];
    assert y.m.stream + news == m1.stream;
    assert m1.stream[..y.applied] == y.m.stream[..y.applied];
    if y.connected { assert y.m.stream[..y.applied] + (y.wire + news) == m1.stream; }
  }

  lemma QueryMirrors(s: Server, c: ClientId, argv: Request, now: int)
    requires WellFormed(s) && LogMirrors(s) && c < |s.clients| && CoreRequest(argv) && ProcessQuery(s, c, argv, now).Done?
    ensures LogMirrors(ProcessQuery(s, c, argv, now).s)
    ensures ProcessQuery(s, c, argv, now).s.aofOn == s.aofOn
  {
    hide QueueOrPlain, ExecTransaction, LogMirrors, CommandNamed;
    if CommandNamed(argv[0]) == Some(ExecCmd) {
      ExecMirrors(s, c, argv, now);
    } else {
      QueueOrPlainMirrors(s, c, argv, now);
    }
  }

  lemma DeliverPrefix(y: System, a: Action, coded: bool)
    requires SystemOk(y) && Enabled(y, a) && IsPrefix(y) && a.Deliver?
    ensures var z := Step(y, a, coded);
            z.Some? && IsPrefix(z.value) && Drift(z.value) == Drift(y) && z.value.resumes == y.resumes
  {
    hide ProcessQuery, Fold, Apply, LogText, Encode, Decode, WellFormed, ReplicaOk, CommandNamed, Fits;
    var n, argv, stream := y.applied, y.wire[0], y.m.stream;
    assert (stream[..n] + y.wire)[n] == argv;
    assert stream[n] == argv && Writing(argv);
    ReplicaApplies(y.r, PEER, argv, a.now);
    DecodeEncode(argv, "");
    assert Encode(argv) + "" == Encode(argv);
    FoldSnoc(map[], stream[..n], argv);
    LogTextConcat(stream[..n], [argv]);
    LogTextOne(argv);
    assert stream[..n + 1] == stream[..n] + [argv];
    assert y.wire == [argv] + y.wire[1..];
    assert stream[..n + 1] + y.wire[1..] == stream;
  }

  lemma LogTextOne(argv: Request)
    ensures LogText([argv]) == Encode(argv)
  {
    assert LogText([argv][1..]) == "";
    assert Encode(argv) + "" == Encode(argv);
  }

  /** What a resume does when the offset is exact: the replica catches up completely, and the
      offset is exact again if and only if the bytes are counted once. */
  lemma ResumePrefix(y: System, a: Action, coded: bool)
    requires SystemOk(y) && Enabled(y, a) && IsPrefix(y) && a.Resume? && Drift(y) == 0
    requires Step(y, a, coded).Some?
    ensures var z := Step(y, a, coded).value;
            && IsPrefix(z) && z.applied == |y.m.stream| && z.resumes == y.resumes + 1
            && Drift(z) == (if coded then |LogText(y.m.stream)| - y.offset else 0)
            && (coded ==> y.offset < |LogText(y.m.stream)|)
  {
    hide SyncFrames, Fold, LogText, Encode, WellFormed, ReplicaOk, CommandNamed, Fits;
    var n, stream := y.applied, y.m.stream;
    var rest := stream[n..];
    assert stream == stream[..n] + rest;
    LogTextConcat(stream[..n], rest);
    assert LogText(stream)[y.offset..] == LogText(rest);
    SyncAll(y.r, y.offset, rest, a.now);
    FoldConcat(map[], stream[..n], rest);
    assert stream[..|stream|] == stream && stream + [] == stream;
  }

  /** With the wrapping read, a resume with an exact offset succeeds if and only if the replica
      is at most RING_SIZE bytes behind. */
  lemma ResumeHappens(y: System, a: Action)
    requires SystemOk(y) && Enabled(y, a) && IsPrefix(y) && a.Resume? && Drift(y) == 0
    ensures Step(y, a, false).Some? <==> |LogText(y.m.stream)| - y.offset <= RING_SIZE
  {
    hide SyncFrames, Fold, LogText, Encode, WellFormed, ReplicaOk, CommandNamed, Fits;
    var n, stream := y.applied, y.m.stream;
    var rest := stream[n..];
    assert stream == stream[..n] + rest;
    LogTextConcat(stream[..n], rest);
    assert LogText(stream)[y.offset..] == LogText(rest);
    SyncAll(y.r, y.offset, rest, a.now);
  }

  /** Every step but a resume keeps prefix and drift, whatever the drift is. */
  lemma StepPrefix(y: System, a: Action, coded: bool)
    requires SystemOk(y) && Enabled(y, a) && IsPrefix(y) && !a.Resume? && Step(y, a, coded).Some?
    ensures var z := Step(y, a, coded).value;
            IsPrefix(z) && Drift(z) == Drift(y) && z.resumes == y.resumes
  {
    hide IsPrefix, Drift;
    match a
    case Query(_) => QueryPrefix(y, a, coded);
    case Deliver(_) => DeliverPrefix(y, a, coded);
    case Disconnect => DisconnectPrefix(y);
  }

  lemma DisconnectPrefix(y: System)
    requires IsPrefix(y)
    ensures IsPrefix(y.(connected := false, wire := []))
    ensures Drift(y.(connected := false, wire := [])) == Drift(y)
  {
    hide Fold, LogText, LogMirrors, ReplicaOk;
  }

  function Resumes(actions: seq<Action>): nat
    decreases |actions|
  {
    if actions == [] then 0 else Resumes(actions[1..]) + if actions[0].Resume? then 1 else 0
  }

  /** The offset is where the resumes leave it. */
  predicate Drifts(y: System, coded: bool)
    requires y.applied <= |y.m.stream|
  {
    if coded && y.resumes > 0 then Drift(y) > 0 else Drift(y) == 0
  }

  lemma {:induction false} RunPrefix(y: System, actions: seq<Action>, coded: bool)
    requires SystemOk(y) && IsPrefix(y) && Drifts(y, coded)
    requires coded ==> y.resumes + Resumes(actions) <= 1
    requires Steps(y, actions, coded).Some?
    ensures var z := Steps(y, actions, coded).value;
            IsPrefix(z) && Drifts(z, coded) && z.resumes == y.resumes + Resumes(actions)
    decreases |actions|
  {
    hide IsPrefix, Drift, Step;
    if actions != [] {
      var a := actions[0];
      assert y.applied <= |y.m.stream| by { PrefixBound(y); }
      if a.Resume? {
        ResumePrefix(y, a, coded);
      } else {
        StepPrefix(y, a, coded);
      }
      var z := Step(y, a, coded).value;
      PrefixBound(z);
      RunPrefix(z, actions[1..], coded);
    }
  }

  lemma PrefixBound(y: System)
    requires IsPrefix(y)
    ensures y.applied <= |y.m.stream|
  {
  }

  /** Master and replica start empty, replica at offset 0. */
  predicate Begin(y: System) {
    && SystemOk(y) && IsPrefix(y) && y.m.stream == [] && y.offset == 0 && y.applied == 0 && y.resumes == 0
  }

  /** There is such a start for any number of clients of the master. */
  lemma BeginExists(n: nat)
    ensures exists y :: Begin(y) && |y.m.clients| == n
  {
    var m := Server(true, false, [EMPTY_DB], seq(n, i => Client({Normal}, 0, [], [])), [], [], 0, [], []);
    var r := Server(false, false, [EMPTY_DB], [Client({Master}, 0, [], []), Client({Fake}, 0, [], [])], [], [], 0, [], []);
    var y := System(m, 0, r, 0, true, [], 0, 0);
    assert LogMirrors(m) && ReplicaOk(r);
    assert Begin(y);
  }

  /** The replica is a prefix. Counting once: after every run of master queries, propagation
      in order, disconnects and append-sync resumes, the replica's database is the fold of a
      prefix of the master's write stream and its offset is that prefix's length in bytes. */
  lemma ReplicaIsPrefix(y: System, actions: seq<Action>)
    requires Begin(y) && Steps(y, actions, false).Some?
    ensures var z := Steps(y, actions, false).value;
            && z.applied <= |z.m.stream| && AllWriting(z.m.stream)
            && z.r.dbs != [] && z.r.dbs[0].kv == Fold(map[], z.m.stream[..z.applied])
            && z.offset == |LogText(z.m.stream[..z.applied])|
            && z.m.dbs != [] && z.m.dbs[0].kv == Fold(map[], z.m.stream)
  {
    hide Fold, LogText, Steps, WellFormed, Writing;
    BeginDrift(y, false);
    RunPrefix(y, actions, false);
  }

  /** The code counts an append-sync's bytes twice. Then the same holds of the database in
      every run with at most one resume, and the offset is the prefix's length if and only if
      there has been none. */
  lemma ReplicaIsPrefixCountedTwice(y: System, actions: seq<Action>)
    requires Begin(y) && Steps(y, actions, true).Some? && Resumes(actions) <= 1
    ensures var z := Steps(y, actions, true).value;
            && z.applied <= |z.m.stream| && AllWriting(z.m.stream)
            && z.r.dbs != [] && z.r.dbs[0].kv == Fold(map[], z.m.stream[..z.applied])
            && (z.offset == |LogText(z.m.stream[..z.applied])| <==> Resumes(actions) == 0)
  {
    hide Fold, LogText, Steps, WellFormed, Writing;
    BeginDrift(y, true);
    RunPrefix(y, actions, true);
  }

  /** The replica is the fold of a prefix, and its offset that prefix's length. */
  predicate Exact(z: System) {
    && z.applied <= |z.m.stream| && AllWriting(z.m.stream)
    && z.r.dbs != [] && z.r.dbs[0].kv == Fold(map[], z.m.stream[..z.applied])
    && z.offset == |LogText(z.m.stream[..z.applied])|
  }

  /** Counting twice, replica and offset are exact at every moment of a run if and only if the
      run has no resume. */
  lemma CountedTwiceIff(y: System, actions: seq<Action>)
    requires Begin(y) && Steps(y, actions, true).Some?
    ensures (forall i :: 0 <= i <= |actions| ==>
              Steps(y, actions[..i], true).Some? && Exact(Steps(y, actions[..i], true).value)) <==>
            Resumes(actions) == 0
  {
    hide Steps, Begin, Exact, Resumes;
    BeginOk(y);
    forall i | 0 <= i <= |actions|
      ensures Steps(y, actions[..i], true).Some?
      ensures Resumes(actions[..i]) <= 1 ==> (Exact(Steps(y, actions[..i], true).value) <==> Resumes(actions[..i]) == 0)
    {
      StepsPrefix(y, actions, i);
      if Resumes(actions[..i]) <= 1 { ExactIff(y, actions[..i]); }
    }
    if Resumes(actions) == 0 {
      forall i | 0 <= i <= |actions| ensures Resumes(actions[..i]) == 0 { NoResumes(actions, i); }
    } else {
      var i := FirstResumeAt(actions);
      assert !Exact(Steps(y, actions[..i + 1], true).value);
    }
  }

  lemma BeginOk(y: System)
    requires Begin(y)
    ensures SystemOk(y)
  {
  }

  lemma ExactIff(y: System, actions: seq<Action>)
    requires Begin(y) && Steps(y, actions, true).Some? && Resumes(actions) <= 1
    ensures Exact(Steps(y, actions, true).value) <==> Resumes(actions) == 0
  {
    hide Fold, LogText, Steps, WellFormed, Writing;
    ReplicaIsPrefixCountedTwice(y, actions);
  }

  lemma {:induction false} StepsPrefix(y: System, actions: seq<Action>, i: nat)
    requires SystemOk(y) && Steps(y, actions, true).Some? && i <= |actions|
    ensures Steps(y, actions[..i], true).Some?
    decreases |actions|
  {
    hide Step, Enabled, SystemOk;
    if i > 0 {
      StepsPrefix(Step(y, actions[0], true).value, actions[1..], i - 1);
      assert actions[..i][1..] == actions[1..][..i - 1];
    }
  }

  lemma {:induction false} NoResumes(actions: seq<Action>, i: nat)
    requires Resumes(actions) == 0 && i <= |actions|
    ensures Resumes(actions[..i]) == 0
    decreases |actions|
  {
    if i > 0 {
      NoResumes(actions[1..], i - 1);
      assert actions[..i][1..] == actions[1..][..i - 1];
    }
  }

  lemma {:induction false} FirstResumeAt(actions: seq<Action>) returns (i: nat)
    requires Resumes(actions) > 0
    ensures i < |actions| && Resumes(actions[..i + 1]) == 1
    decreases |actions|
  {
    if actions[0].Resume? {
      i := 0;
      assert actions[..1][1..] == [] && Resumes([]) == 0;
    } else {
      i := FirstResumeAt(actions[1..]);
      assert actions[..i + 2][1..] == actions[1..][..i + 1];
      i := i + 1;
    }
  }

  lemma BeginDrift(y: System, coded: bool)
    requires Begin(y)
    ensures Drifts(y, coded)
  {
    assert y.m.stream[..0] == [];
  }

  /** Why one resume is the limit for the code. Resumed while the offset is ahead by the length
      of the next j commands, the replica skips them for good: the next read of the master's
      backlog starts after them. */
  lemma ResumeSkips(y: System, a: Action, j: nat)
    requires SystemOk(y) && IsPrefix(y) && a.Resume? && Enabled(y, a) && y.applied + j <= |y.m.stream|
    requires Drift(y) == |LogText(y.m.stream[y.applied..y.applied + j])| && Answered(y, true).AppendSync?
    ensures Step(y, a, true).Some?
    ensures var z := Step(y, a, true).value;
            && z.r.dbs != [] && AllWriting(y.m.stream) && z.m == y.m && z.applied == |y.m.stream|
            && z.r.dbs[0].kv == Fold(map[], y.m.stream[..y.applied] + y.m.stream[y.applied + j..])
  {
    hide SyncFrames, Fold, LogText, Encode, WellFormed, CommandNamed, Fits;
    var n, stream := y.applied, y.m.stream;
    var skipped, rest := stream[n..n + j], stream[n + j..];
    assert stream == stream[..n] + (skipped + rest);
    LogTextConcat(stream[..n], skipped + rest);
    LogTextConcat(skipped, rest);
    assert LogText(stream)[y.offset..] == LogText(rest);
    SyncAll(y.r, y.offset, rest, a.now);
    FoldConcat(map[], stream[..n], rest);
  }

  /** A skipped command can leave a database that no prefix of the stream produces. */
  lemma SkippedIsNoPrefix()
    ensures var a, b, c := ["SET", "a", "1"], ["SET", "b", "1"], ["SET", "c", "1"];
            AllWriting([a, b, c]) &&
            forall n :: 0 <= n <= 3 ==> Fold(map[], [a, b, c][..n]) != Fold(map[], [a, c])
  {
    hide Create;
    var a, b, c := ["SET", "a", "1"], ["SET", "b", "1"], ["SET", "c", "1"];
    assert Upper("SET") == "SET";
    assert Writing(a) && Writing(b) && Writing(c);
    var skipped := Fold(map[], [a, c]);
    FoldSnoc(map[], [a], c);
    FoldSnoc(map[], [a], b);
    FoldSnoc(map[], [a, b], c);
    FoldSnoc(map[], [], a);
    assert [] + [a] == [a] && [a] + [b] == [a, b] && [a] + [c] == [a, c] && [a, b] + [c] == [a, b, c];
    assert "c" in skipped && "b" !in skipped;
    forall n | 0 <= n <= 3 ensures Fold(map[], [a, b, c][..n]) != skipped {
      match n
      case 0 => assert [a, b, c][..n] == [];
      case 1 => assert [a, b, c][..n] == [a];
      case 2 => assert [a, b, c][..n] == [a, b];
      case _ => assert [a, b, c][..n] == [a, b, c];
    }
  }

  // ---------- A run in which the code skips a command ----------

  /** The first client of the master is not queueing. */
  predicate Free(m: Server) { |m.clients| > 0 && Multi !in m.clients[0].flags }

  lemma MasterSet(m: Server, argv: Request, now: int)
    requires LogMirrors(m) && !m.aofOn && Free(m) && Writing(argv) && CommandNamed(argv[0]) == Some(SetCmd)
    ensures var r := ProcessQuery(m, 0, argv, now);
            r.Done? && r.s.stream == m.stream + [argv] && Free(r.s) && |r.s.clients| == |m.clients|
  {
    hide DataCommand, Apply, CommandNamed, Fits, Fold;
    var m1 := m.(trace := m.trace + [Event(0, 0, SetCmd, argv)]);
    DataLogged(m1, 0, SetCmd, argv, now);
    assert ProcessQuery(m, 0, argv, now) == DataCommand(m1, 0, SetCmd, argv, now);
  }

  function SetQuery(k: Key): Action { Query(Input(0, ["SET", k, "1"], 0)) }

  lemma SetWrites(k: Key)
    requires |k| == 1
    ensures Writing(["SET", k, "1"]) && CoreRequest(["SET", k, "1"]) && CommandNamed("SET") == Some(SetCmd)
  {
    assert Upper("SET") == "SET";
  }

  /** A SET on the master, within the first RING_SIZE bytes of the stream. */
  lemma SetStep(y: System, k: Key)
    requires SystemOk(y) && IsPrefix(y) && Free(y.m) && y.begin == 0 && |k| == 1
    requires |LogText(y.m.stream)| + |Encode(["SET", k, "1"])| < RING_SIZE
    ensures Enabled(y, SetQuery(k)) && Step(y, SetQuery(k), true).Some?
    ensures var z := Step(y, SetQuery(k), true).value;
            && IsPrefix(z) && Free(z.m) && z.begin == 0 && z.m.stream == y.m.stream + [["SET", k, "1"]]
            && z.offset == y.offset && z.applied == y.applied && z.connected == y.connected && z.r == y.r
  {
    hide ProcessQuery, Fold, LogText, Encode, WellFormed, LogMirrors, ReplicaOk, CommandNamed, Fits;
    var argv := ["SET", k, "1"];
    SetWrites(k);
    MasterSet(y.m, argv, 0);
    var m1 := ProcessQuery(y.m, 0, argv, 0).s;
    var news := m1.stream[|y.m.stream|..];
    assert news == [argv];
    assert BeginAfter(0, |LogText(y.m.stream)|, news) == 0 by { assert news[1..] == []; }
    QueryPrefix(y, SetQuery(k), true);
  }

  /** A start with the replica not yet connected. */
  function Apart(n: nat): System {
    var m := Server(true, false, [EMPTY_DB], seq(n, i => Client({Normal}, 0, [], [])), [], [], 0, [], []);
    var r := Server(false, false, [EMPTY_DB], [Client({Master}, 0, [], []), Client({Fake}, 0, [], [])], [], [], 0, [], []);
    System(m, 0, r, 0, false, [], 0, 0)
  }

  lemma ApartBegins(n: nat)
    ensures Begin(Apart(n)) && (n > 0 ==> Free(Apart(n).m))
  {
    var y := Apart(n);
    assert LogMirrors(y.m) && ReplicaOk(y.r);
  }

  /** The first resume of that run: the offset is then twice the command's length. */
  lemma FirstResume(y: System, a: Request)
    requires SystemOk(y) && IsPrefix(y) && !y.connected && y.begin == 0 && y.offset == 0 && y.applied == 0
    requires y.m.stream == [a] && |Encode(a)| == 27
    ensures Step(y, Resume(0), true).Some?
    ensures var z := Step(y, Resume(0), true).value;
            z == y.(r := z.r, offset := 54, connected := true, applied := 1, resumes := z.resumes) && IsPrefix(z)
  {
    hide IsPrefix, SyncFrames, Fold, LogText, Encode, WellFormed, CommandNamed, Fits;
    PrefixFacts(y);
    LogTextOne(a);
    LogTextNone();
    assert [a][..0] == [] && [a][..1] == [a];
    ResumeSkips(y, Resume(0), 0);
    ResumePrefix(y, Resume(0), true);
    PrefixFacts(Step(y, Resume(0), true).value);
  }

  lemma PrefixFacts(y: System)
    requires IsPrefix(y)
    ensures y.applied <= |y.m.stream| && (!y.connected ==> y.wire == [])
  {
  }

  lemma LogTextNone()
    ensures LogText([]) == ""
  {
  }

  /** The last resume: the offset lies behind b. */
  lemma LastResume(y: System, a: Request, b: Request, c: Request)
    requires SystemOk(y) && IsPrefix(y) && !y.connected && y.begin == 0 && y.offset == 54 && y.applied == 1
    requires y.m.stream == [a, b, c] && |Encode(a)| == |Encode(b)| == |Encode(c)| == 27
    ensures Step(y, Resume(0), true).Some?
    ensures var z := Step(y, Resume(0), true).value;
            z.m == y.m && AllWriting([a, b, c]) && AllWriting([a, c]) && z.r.dbs != [] && z.r.dbs[0].kv == Fold(map[], [a, c])
  {
    hide IsPrefix, SyncFrames, Fold, LogText, Encode, WellFormed, CommandNamed, Fits, Step;
    PrefixFacts(y);
    LogTextOne(a);
    LogTextOne(b);
    LogTextOne(c);
    LogTextConcat([a], [b]);
    LogTextConcat([a] + [b], [c]);
    assert [a] + [b] + [c] == [a, b, c];
    assert [a, b, c][..1] == [a] && [a, b, c][1..2] == [b];
    assert [a, b, c][..1] + [a, b, c][2..] == [a, c];
    ResumeSkips(y, Resume(0), 1);
  }

  /** SET a 1, resume, SET b 1, disconnect, SET c 1, resume: from a start, as the code counts,
      the replica ends with a and c, which is the fold of no prefix of the stream a, b, c. */
  lemma SkipReached(n: nat)
    requires n > 0
    ensures var a, b, c := ["SET", "a", "1"], ["SET", "b", "1"], ["SET", "c", "1"];
            var run := [SetQuery("a"), Resume(0), SetQuery("b"), Disconnect, SetQuery("c"), Resume(0)];
            var r := Steps(Apart(n), run, true);
            && Begin(Apart(n)) && r.Some? && r.value.m.stream == [a, b, c] && AllWriting([a, b, c])
            && r.value.r.dbs != []
            && forall i :: 0 <= i <= 3 ==> r.value.r.dbs[0].kv != Fold(map[], [a, b, c][..i])
  {
    hide Step, Steps, IsPrefix, Fold, LogText, Encode, WellFormed, Begin, CommandNamed, Fits, Writing;
    var a, b, c := ["SET", "a", "1"], ["SET", "b", "1"], ["SET", "c", "1"];
    var y0 := Apart(n);
    ApartBegins(n);
    SetLength("a", "1");
    SetLength("b", "1");
    SetLength("c", "1");
    LogTextNone();
    LogTextOne(a);
    LogTextOne(b);
    LogTextConcat([a], [b]);
    assert [a] + [b] == [a, b] && [] + [a] == [a] && [a, b] + [c] == [a, b, c];
    SetStep(y0, "a");
    var y1 := Step(y0, SetQuery("a"), true).value;
    assert y1.m.stream == [a];
    FirstResume(y1, a);
    var y2 := Step(y1, Resume(0), true).value;
    SetStep(y2, "b");
    var y3 := Step(y2, SetQuery("b"), true).value;
    assert y3.m.stream == [a, b];
    DisconnectPrefix(y3);
    Disconnected(y3);
    var y4 := Step(y3, Disconnect, true).value;
    SetStep(y4, "c");
    var y5 := Step(y4, SetQuery("c"), true).value;
    assert y5.m.stream == [a, b, c];
    LastResume(y5, a, b, c);
    var y6 := Step(y5, Resume(0), true).value;
    SkippedIsNoPrefix();
    var run := [SetQuery("a"), Resume(0), SetQuery("b"), Disconnect, SetQuery("c"), Resume(0)];
    StepsThrough([y0, y1, y2, y3, y4, y5, y6], run);
    forall i | 0 <= i <= 3 ensures y6.r.dbs[0].kv != Fold(map[], [a, b, c][..i]) { }
  }

  lemma Disconnected(y: System)
    requires SystemOk(y) && y.connected
    ensures Step(y, Disconnect, true) == Some(y.(connected := false, wire := []))
  {
  }

  /** A run from its states. */
  lemma {:induction false} StepsThrough(ys: seq<System>, actions: seq<Action>)
    requires |ys| == |actions| + 1 && forall i :: 0 <= i < |ys| ==> SystemOk(ys[i])
    requires forall i :: 0 <= i < |actions| ==> Enabled(ys[i], actions[i]) && Step(ys[i], actions[i], true) == Some(ys[i + 1])
    ensures Steps(ys[0], actions, true) == Some(ys[|actions|])
    decreases |actions|
  {
    hide Step, Enabled, SystemOk;
    if actions != [] { StepsThrough(ys[1..], actions[1..]); }
  }

  // ---------- What a C-string read of a queued write propagates ----------

  const MULTI_TEXT := "*1\r\n$5\r\nMULTI\r\n"
  const SET_TEXT := "*3\r\n$3\r\nSET\r\n$1\r\na\r\n$1\r\n1\r\n"
  const GET_TEXT := "*2\r\n$3\r\nGET\r\n$9\r\n123456789\r\n"
  const EXEC_TEXT := "*1\r\n$4\r\nEXEC\r\n"

  /** MULTI, SET a 1, GET 123456789 and EXEC through one read buffer, as coded: when the queued
      SET is executed the buffer holds its 27 bytes, but read as a C string, as propagation
      reads it, it has 28: the last byte of the GET is still behind them. */
  lemma QueuedWriteStale()
    ensures var b := Sds.QueueBuffer(MULTI_TEXT, SET_TEXT, GET_TEXT, EXEC_TEXT);
            && b.Some? && |SET_TEXT| == 27 && b.value.Text() == SET_TEXT
            && Sds.CRead(b.value) == Some(SET_TEXT + "\n")
  {
    hide Sds.QueueBuffer, Sds.CRead;
    Sds.QueuedTail(MULTI_TEXT, SET_TEXT, GET_TEXT, EXEC_TEXT);
    assert GET_TEXT[27..] == "\n";
  }

  lemma Texts()
    ensures Encode(["SET", "a", "1"]) == SET_TEXT && Encode(["GET", "123456789"]) == GET_TEXT
    ensures Encode(["MULTI"]) == MULTI_TEXT && Encode(["EXEC"]) == EXEC_TEXT
  {
    hide Encode;
    SetText();
    GetText();
    OneWordTexts();
  }

  lemma SetText()
    ensures Encode(["SET", "a", "1"]) == SET_TEXT
  {
    hide Header, BulkAll, Resp.Bulk;
    Headers();
    Bulks();
    BulkOne("1");
    BulkFirst("a", ["1"]);
    BulkFirst("SET", ["a", "1"]);
    assert ["a"] + ["1"] == ["a", "1"] && ["SET"] + ["a", "1"] == ["SET", "a", "1"];
  }

  lemma GetText()
    ensures Encode(["GET", "123456789"]) == GET_TEXT
  {
    hide Header, BulkAll, Resp.Bulk;
    Headers();
    Bulks();
    BulkOne("123456789");
    BulkFirst("GET", ["123456789"]);
    assert ["GET"] + ["123456789"] == ["GET", "123456789"];
  }

  lemma OneWordTexts()
    ensures Encode(["MULTI"]) == MULTI_TEXT && Encode(["EXEC"]) == EXEC_TEXT
  {
    hide Header, BulkAll, Resp.Bulk;
    Headers();
    Bulks();
    BulkOne("MULTI");
    BulkOne("EXEC");
  }

  lemma Headers()
    ensures Header('*', 1) == "*1\r\n" && Header('*', 2) == "*2\r\n" && Header('*', 3) == "*3\r\n"
  {
    assert Print(1) == "1" && Print(2) == "2" && Print(3) == "3";
  }

  lemma Bulks()
    ensures Resp.Bulk("SET") == "$3\r\nSET\r\n" && Resp.Bulk("GET") == "$3\r\nGET\r\n"
    ensures Resp.Bulk("a") == "$1\r\na\r\n" && Resp.Bulk("1") == "$1\r\n1\r\n"
    ensures Resp.Bulk("123456789") == "$9\r\n123456789\r\n"
    ensures Resp.Bulk("MULTI") == "$5\r\nMULTI\r\n" && Resp.Bulk("EXEC") == "$4\r\nEXEC\r\n"
  {
    assert Print(1) == "1" && Print(3) == "3" && Print(4) == "4" && Print(5) == "5" && Print(9) == "9";
    hide Print;
  }

  lemma BulkFirst(arg: string, rest: seq<string>)
    ensures BulkAll([arg] + rest) == Resp.Bulk(arg) + BulkAll(rest)
  {
    assert ([arg] + rest)[1..] == rest;
  }

  lemma BulkOne(arg: string)
    ensures BulkAll([arg]) == Resp.Bulk(arg)
  {
    assert [arg][1..] == [];
    assert Resp.Bulk(arg) + "" == Resp.Bulk(arg);
  }

  /** So with no resume at all the replica's offset moves by 28 for a write of 27 bytes. */
  lemma StaleOffset(r: Server, offset: int, now: int)
    requires ReplicaOk(r)
    ensures var b := Sds.QueueBuffer(Encode(["MULTI"]), Encode(["SET", "a", "1"]), Encode(["GET", "123456789"]), Encode(["EXEC"]));
            && b.Some? && Sds.CRead(b.value).Some? && Writing(["SET", "a", "1"])
            && var t := ReadOnce(r, offset, Sds.CRead(b.value).value, now);
               && t.Some? && t.value.0.dbs != [] && t.value.0.dbs[0].kv == Apply(r.dbs[0].kv, ["SET", "a", "1"])
               && t.value.1 == offset + |Encode(["SET", "a", "1"])| + 1
  {
    hide Sds.QueueBuffer, Sds.CRead, Encode, ReadOnce, Apply, WellFormed;
    Texts();
    QueuedWriteStale();
    SetWrites("a");
    ReadWithTail(r, offset, ["SET", "a", "1"], "\n", now);
  }
}
