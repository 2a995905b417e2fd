/** Reloading the append-only log: any byte-prefix of it replays as its longest sequence of
    whole commands and rebuilds the database those commands produced. */
module Aof {
  import opened Decimal
  import opened Resp
  import opened Server
  import RedisServer
  import Sds
  import Frames
  import Net

  // ---------- The replay loop ----------

  /** aof_load from a buffer still to be framed and a read buffer of the fake client f.
      A frame that does not decode stays in the read buffer. */
  function Replay(s: Server, f: ClientId, sbuf: string, readBuf: string, now: int): (r: Outcome)
    requires WellFormed(s) && f < |s.clients|
    ensures r.Done? ==> SameShape(s, r.s)
    decreases |sbuf|
  {
    match RespParse(sbuf)
    case Incomplete => Done(s)
    case Unspecified => Outside
    case Took(n) =>
      match Decode(readBuf + sbuf[..n])
      case Overrun => Outside
      case Rejected => Replay(s, f, sbuf[n..], readBuf + sbuf[..n], now)
      case Args(argv) =>
        if argv == [] then Outside
        else match ProcessQuery(s, f, argv, now)
          case Outside => Outside
          case Done(s1) => Replay(s1, f, sbuf[n..], "", now)
  }

  /** The reading loop of aof_load. */
  method ReadFile(file: string) returns (sbuf: Sds.Sds)
    ensures fresh(sbuf) && fresh(sbuf.buf) && sbuf.Safe() && sbuf.Text() == file
  {
    hide Sds.Cat, Sds.Honest;
    sbuf := new Sds.Sds("", true);
    var pos := 0;
    while pos < |file|
      invariant pos <= |file| && fresh(sbuf) && fresh(sbuf.buf) && sbuf.Safe() && sbuf.Text() == file[..pos]
    {
      var nread := if |file| - pos < Sds.CHUNK then |file| - pos else Sds.CHUNK;
      var ok := sbuf.CatLen(file[pos..pos + nread]);
      pos := pos + nread;
    }
  }

  /** The first n bytes of sbuf go to the read buffer, which is dumped and decoded. */
  method NextRequest(sbuf: Sds.Sds, readBuf: Sds.Sds, n: nat) returns (request: Decoded)
    requires sbuf != readBuf && sbuf.buf != readBuf.buf && sbuf.Safe() && readBuf.Safe() && n <= sbuf.len
    modifies readBuf, readBuf.buf
    ensures readBuf.Safe() && sbuf.Safe() && sbuf.Text() == old(sbuf.Text())
    ensures readBuf.buf == old(readBuf.buf) || fresh(readBuf.buf)
    ensures readBuf.Text() == old(readBuf.Text()) + sbuf.Text()[..n] && request == Decode(readBuf.Text())
  {
    hide Decode, Sds.Cat, Sds.Honest, Sds.Step;
    assert sbuf.buf[..n] == sbuf.Text()[..n];
    var ok := readBuf.CatLen(sbuf.buf[..n]);
    var copy := readBuf.Dump();
    request := DecodeAt(copy.buf[..copy.len]);
  }

  /** sdsrange with the first n bytes dropped. */
  method DropFront(sbuf: Sds.Sds, n: nat)
    requires sbuf.Safe() && 0 < n <= sbuf.len
    modifies sbuf`len, sbuf`free, sbuf.buf
    ensures sbuf.Safe() && sbuf.Text() == old(sbuf.Text())[n..]
  {
    var len := sbuf.len;
    var ok := sbuf.Range(n, len - 1);
    assert old(sbuf.Text())[n..len] == old(sbuf.Text())[n..];
  }

  /** The two buffers of the loop are guarded, and do not share memory. */
  ghost predicate Buffers(sbuf: Sds.Sds, readBuf: Sds.Sds)
    reads sbuf, sbuf.buf, readBuf, readBuf.buf
  {
    sbuf != readBuf && sbuf.buf != readBuf.buf && sbuf.Safe() && readBuf.Safe()
  }

  /** One round of the loop of aof_load, on a frame of n bytes; false when it leaves the model. */
  method ExecuteNext(server: RedisServer.RedisServer, f: ClientId, sbuf: Sds.Sds, readBuf: Sds.Sds, n: nat, now: int)
    returns (ok: bool)
    requires WellFormed(server.State()) && f < |server.clients|
    requires Buffers(sbuf, readBuf) && RespParse(sbuf.Text()) == Took(n)
    modifies server, readBuf, readBuf.buf, sbuf`len, sbuf`free, sbuf.buf
    ensures Buffers(sbuf, readBuf) && sbuf.buf == old(sbuf.buf) && (readBuf.buf == old(readBuf.buf) || fresh(readBuf.buf))
    ensures var before := Replay(old(server.State()), f, old(sbuf.Text()), old(readBuf.Text()), now);
            if ok then
              && WellFormed(server.State()) && f < |server.clients| && sbuf.len < old(sbuf.len)
              && before == Replay(server.State(), f, sbuf.Text(), readBuf.Text(), now)
            else before == Outside
  {
    hide ProcessQuery, RespParse, Decode, WellFormed, Sds.Clear, Sds.Honest;
    var request := NextRequest(sbuf, readBuf, n);
    match request {
      case Overrun => return false;
      case Rejected =>
      case Args(argv) =>
        if argv == [] { return false; }
        var done := server.ProcessClientQuery(f, argv, now);
        if !done { return false; }
        readBuf.Wipe();
    }
    DropFront(sbuf, n);
    return true;
  }

  /** aof_load: reads the file in chunks, then executes message after message. The buffers are
      the guarded ones of module Sds. */
  method AofLoad(server: RedisServer.RedisServer, f: ClientId, file: string, now: int) returns (ok: bool)
    requires WellFormed(server.State()) && f < |server.clients|
    modifies server
    ensures ok == Replay(old(server.State()), f, file, "", now).Done?
    ensures ok ==> server.State() == Replay(old(server.State()), f, file, "", now).s
  {
    hide ProcessQuery, RespParse, Decode, WellFormed, Sds.Honest;
    var sbuf := ReadFile(file);
    var readBuf := new Sds.Sds("", true);
    var frame := RespParseAt(sbuf.buf[..sbuf.len]);
    while frame.Took?
      invariant fresh(sbuf) && fresh(sbuf.buf) && fresh(readBuf) && fresh(readBuf.buf) && Buffers(sbuf, readBuf)
      invariant frame == RespParse(sbuf.Text())
      invariant WellFormed(server.State()) && f < |server.clients|
      invariant Replay(old(server.State()), f, file, "", now) == Replay(server.State(), f, sbuf.Text(), readBuf.Text(), now)
      decreases sbuf.len
    {
      ok := ExecuteNext(server, f, sbuf, readBuf, frame.n, now);
      if !ok { return; }
      frame := RespParseAt(sbuf.buf[..sbuf.len]);
    }
    return frame.Incomplete?;
  }

  // ---------- The log as bytes ----------

  function LogText(cmds: seq<Request>): string
  {
    if cmds == [] then "" else Encode(cmds[0]) + LogText(cmds[1..])
  }

  predicate Loggable(cmds: seq<Request>) {
    forall i :: 0 <= i < |cmds| ==> cmds[i] != [] && Fits(cmds[i])
  }

  /** How many commands of the log lie wholly within its first n bytes. */
  function WholeIn(cmds: seq<Request>, n: nat): (m: nat)
    ensures m <= |cmds|
  {
    if cmds == [] || n < |Encode(cmds[0])| then 0 else 1 + WholeIn(cmds[1..], n - |Encode(cmds[0])|)
  }

  /** WholeIn is the longest whole-command prefix. */
  lemma {:induction false} WholeInLongest(cmds: seq<Request>, n: nat)
    ensures var m := WholeIn(cmds, n);
            |LogText(cmds[..m])| <= n && (m < |cmds| ==> |LogText(cmds[..m + 1])| > n)
  {
    hide Encode;
    if cmds != [] {
      var m := WholeIn(cmds, n);
      if n >= |Encode(cmds[0])| {
        WholeInLongest(cmds[1..], n - |Encode(cmds[0])|);
        assert cmds[..m][1..] == cmds[1..][..m - 1];
        if m < |cmds| { assert cmds[..m + 1][1..] == cmds[1..][..m]; }
      } else {
        assert cmds[..1][1..] == [];
        assert LogText(cmds[..1]) == Encode(cmds[0]) + "";
      }
    }
  }

  function Inputs(f: ClientId, cmds: seq<Request>, now: int): seq<Input> {
    seq(|cmds|, i requires 0 <= i < |cmds| => Input(f, cmds[i], now))
  }

  /** Replay of any byte-prefix of a log executes exactly the longest sequence of whole
      commands in it, in order, and stops. */
  lemma {:induction false} ReplayPrefix(s: Server, f: ClientId, cmds: seq<Request>, n: nat, now: int)
    requires WellFormed(s) && f < |s.clients| && Loggable(cmds) && n <= |LogText(cmds)|
    ensures Replay(s, f, LogText(cmds)[..n], "", now) == Run(s, Inputs(f, cmds[..WholeIn(cmds, n)], now))
    decreases |cmds|
  {
    hide ProcessQuery, RespParse, Encode, WellFormed, Fits;
    if cmds == [] || n < |Encode(cmds[0])| {
      NothingFramed(cmds, n);
    } else {
      var m := n - |Encode(cmds[0])|;
      assert LogText(cmds)[..n] == Encode(cmds[0]) + LogText(cmds[1..])[..m];
      ReplayOne(s, f, cmds[0], LogText(cmds[1..])[..m], now);
      var inputs := Inputs(f, cmds[..WholeIn(cmds, n)], now);
      assert inputs[0].argv == cmds[0] && inputs[1..] == Inputs(f, cmds[1..][..WholeIn(cmds[1..], m)], now);
      var r := ProcessQuery(s, f, cmds[0], now);
      if r.Done? { ReplayPrefix(r.s, f, cmds[1..], m, now); }
    }
  }

  lemma NothingFramed(cmds: seq<Request>, n: nat)
    requires Loggable(cmds) && n <= |LogText(cmds)| && (cmds == [] || n < |Encode(cmds[0])|)
    ensures RespParse(LogText(cmds)[..n]) == Incomplete
  {
    hide Encode;
    if cmds != [] {
      EncodeCut(cmds[0], n);
      assert LogText(cmds)[..n] == Encode(cmds[0])[..n];
    }
  }

  // ---------- The buffers as coded ----------

  function Sizes(cmds: seq<Request>): (sizes: seq<nat>)
    ensures |sizes| == |cmds|
  {
    seq(|cmds|, i requires 0 <= i < |cmds| => |Encode(cmds[i])|)
  }

  lemma {:induction false} SizesSum(cmds: seq<Request>)
    ensures Sds.Sum(Sizes(cmds)) == |LogText(cmds)|
    decreases |cmds|
  {
    hide Encode;
    if cmds != [] {
      var n := |cmds| - 1;
      SizesSum(cmds[..n]);
      assert Sizes(cmds)[..n] == Sizes(cmds[..n]);
      LogTextSnoc(cmds[..n], cmds[n]);
      assert cmds[..n] + [cmds[n]] == cmds;
    }
  }

  lemma {:induction false} LogTextSnoc(cmds: seq<Request>, argv: Request)
    ensures LogText(cmds + [argv]) == LogText(cmds) + Encode(argv)
    decreases |cmds|
  {
    hide Encode;
    if cmds == [] {
      assert cmds + [argv] == [argv] && [argv][1..] == [];
      assert Encode(argv) + "" == "" + Encode(argv);
    } else {
      LogTextSnoc(cmds[1..], argv);
      assert (cmds + [argv])[1..] == cmds[1..] + [argv];
    }
  }

  /** The replies as addWrite appends them. */
  function ReplyMessage(reply: Reply): Frames.Message {
    match reply
    case Ok => Frames.Line('+', "OK")
    case Pong => Frames.Line('+', "PONG")
    case Err => Frames.Line('-', "ERR")
    case KeyNotFound => Frames.Line('-', "ERR key not found")
    case ValueMissed => Frames.Line('-', "ERR: Value missed")
    case InvalidCommand => Frames.Line('-', "Invalid command")
    case Queued => Frames.BulkText("queued")
    case ErrDirty => Frames.BulkText("err dirty")
    case ExecOk => Frames.BulkText("Exec ok")
    case Bulk(text) => Frames.BulkText(text)
  }

  function ReplyText(reply: Reply): string { Frames.Wire(ReplyMessage(reply)) }

  /** How long each reply is on the wire. */
  lemma ReplyLengths()
    ensures |ReplyText(Ok)| == 5 && |ReplyText(Pong)| == 7 && |ReplyText(Err)| == 6
    ensures |ReplyText(KeyNotFound)| == |ReplyText(ValueMissed)| == 20 && |ReplyText(InvalidCommand)| == 18
    ensures |ReplyText(Queued)| == 12 && |ReplyText(ErrDirty)| == 15 && |ReplyText(ExecOk)| == 13
  {
    assert Print(6) == "6" && Print(9) == "9" && Print(7) == "7";
  }

  /** Every reply is one message to both parsers, an empty value to the first of them alone. */
  lemma ReplyFramed(reply: Reply, tail: string)
    requires reply.Bulk? ==> |reply.text| <= INT_MAX
    ensures RespParse(ReplyText(reply) + tail) == Took(|ReplyText(reply)|)
    ensures reply != Bulk("") ==> Net.RespLength(ReplyText(reply) + tail) == Net.Len(|ReplyText(reply)|)
  {
    hide RespParse, Net.RespLength, Frames.Wire;
    Frames.MessageFramed(ReplyMessage(reply), tail);
    if reply != Bulk("") { Frames.MessageLength(ReplyMessage(reply), tail); }
  }

  function ReplySizes(replies: seq<Reply>): (sizes: seq<nat>)
    ensures |sizes| == |replies|
  {
    seq(|replies|, i requires 0 <= i < |replies| => |ReplyText(replies[i])|)
  }

  /** The condition under which aof_load, as coded, replays n bytes of a log with these replies. */
  predicate RoomAsCoded(cmds: seq<Request>, n: nat, replies: seq<Reply>) {
    && n <= 2049
    && (forall i :: 0 < i < WholeIn(cmds, n) ==> |Encode(cmds[i])| >= Sds.NewCap(|Encode(cmds[i - 1])|))
    && Sds.Harmless(Sds.Ledger(1, 0, 0), Sds.Puts(ReplySizes(replies)))
  }

  /** Without the guard the replay of n bytes of a log keeps its three buffers, for the file, for
      a command and for the fake client's replies, inside their allocations if and only if the
      file has at most 2049 bytes, every command that is replayed is more than twice as long as
      the one before, and no reply is too long for the real room but not for the recorded one. */
  lemma ReplayRoom(s: Server, f: ClientId, cmds: seq<Request>, n: nat, now: int)
    requires WellFormed(s) && f < |s.clients| && n <= |LogText(cmds)|
    requires Replay(s, f, LogText(cmds)[..n], "", now).Done?
    ensures var sizes := Sizes(cmds[..WholeIn(cmds, n)]);
            var replies := Replay(s, f, LogText(cmds)[..n], "", now).s.clients[f].out;
            && Sds.Sum(sizes) <= n
            && ((Sds.Run(Sds.FRESH, Sds.FileUses(n, sizes), false).Some?
                 && Sds.Run(Sds.FRESH, Sds.Messages(sizes), false).Some?
                 && Sds.Run(Sds.FRESH, Sds.Puts(ReplySizes(replies)), false).Some?) <==> RoomAsCoded(cmds, n, replies))
  {
    hide Encode, Replay, Sds.Run, Sds.Messages, Sds.FileUses, Sds.Sum, LogText, WholeIn, Sds.NewCap, Sds.Harmless, WellFormed;
    TwoRooms(cmds, n);
    var replies := Replay(s, f, LogText(cmds)[..n], "", now).s.clients[f].out;
    Sds.RunInside(Sds.FRESH, Sds.Puts(ReplySizes(replies)));
  }

  /** The file buffer and the read buffer alone. */
  lemma TwoRooms(cmds: seq<Request>, n: nat)
    requires n <= |LogText(cmds)|
    ensures var sizes := Sizes(cmds[..WholeIn(cmds, n)]);
            && Sds.Sum(sizes) <= n
            && (Sds.Run(Sds.FRESH, Sds.FileUses(n, sizes), false).Some? <==> n <= 2049)
            && (Sds.Run(Sds.FRESH, Sds.Messages(sizes), false).Some? <==>
                  forall i :: 0 < i < WholeIn(cmds, n) ==> |Encode(cmds[i])| >= Sds.NewCap(|Encode(cmds[i - 1])|))
  {
    hide Encode, Sds.Run, Sds.Messages, Sds.FileUses, Sds.Sum, LogText, WholeIn, Sds.NewCap;
    var whole := cmds[..WholeIn(cmds, n)];
    var sizes := Sizes(whole);
    WholeInLongest(cmds, n);
    SizesSum(whole);
    forall i | 0 <= i < |sizes| ensures sizes[i] > 0 { EncodeSome(whole[i]); }
    Sds.FileFits(n, sizes);
    Sds.MessagesFit(sizes);
    assert forall i :: 0 <= i < |sizes| ==> sizes[i] == |Encode(cmds[i])|;
  }

  lemma EncodeSome(argv: Request)
    ensures |Encode(argv)| > 0
  {
  }

  lemma {:induction false} LogTextConcat(a: seq<Request>, b: seq<Request>)
    ensures LogText(a + b) == LogText(a) + LogText(b)
    decreases |a|
  {
    hide Encode;
    if a == [] {
      assert a + b == b;
    } else {
      assert (a + b)[1..] == a[1..] + b;
      LogTextConcat(a[1..], b);
    }
  }

  /** The length of a SET of a one-byte key and a value of less than 100 bytes. */
  lemma SetLength(k: string, v: string)
    requires |k| == 1 && |v| < 100
    ensures |Encode(["SET", k, v])| == 25 + |v| + if |v| < 10 then 1 else 2
  {
    var args := ["SET", k, v];
    assert args[1..] == [k, v] && args[1..][1..] == [v] && [v][1..] == [];
    assert Print(3) == "3" && Print(1) == "1";
    assert |v| >= 10 ==> |Digits(|v| / 10)| == 1 && Digits(|v|) == Digits(|v| / 10) + [Digit(|v| % 10)];
    assert |Print(|v|)| == if |v| < 10 then 1 else 2;
    assert |BulkAll([v])| == |Resp.Bulk(v)|;
    assert |BulkAll([k, v])| == 7 + |Resp.Bulk(v)|;
    assert |BulkAll(args)| == 16 + |Resp.Bulk(v)|;
  }

  /** A log of three SETs, of 27, 27 and 60 bytes: as coded its replay leaves the read buffer,
      and already by writing. */
  lemma ThreeSetsOverrun(u: string, v: string, w: string)
    requires |u| == |v| == 1 && |w| == 33
    ensures var log := [["SET", "a", u], ["SET", "a", v], ["SET", "a", w]];
            && Sizes(log) == [27, 27, 60] && (forall replies :: !RoomAsCoded(log, |LogText(log)|, replies))
            && Sds.Run(Sds.FRESH, Sds.Writes(Sizes(log)), false).None?
  {
    hide Encode, Sds.Run, Sds.Writes, Sds.Messages, LogText, WholeIn, Sds.FileUses, Sds.Sum, Sds.Harmless;
    SetLength("a", u);
    SetLength("a", v);
    SetLength("a", w);
    var log := [["SET", "a", u], ["SET", "a", v], ["SET", "a", w]];
    assert Sizes(log) == [27, 27, 60];
    Sds.ThreeMessagesOverrun();
    AllWhole(log);
    assert |Encode(log[1])| < Sds.NewCap(|Encode(log[1 - 1])|) && 0 < 1 < WholeIn(log, |LogText(log)|);
  }

  /** A log of three SETs, of 27, 55 and 111 bytes: the file and read buffers bear it, but the
      third reply is written outside the reply buffer. */
  lemma ThreeRepliesOverrun(u: string, v: string, w: string)
    requires |u| == 1 && |v| == 28 && |w| == 84
    ensures var log := [["SET", "a", u], ["SET", "a", v], ["SET", "a", w]];
            && Sizes(log) == [27, 55, 111]
            && Sds.Sum(Sizes(log)) <= |LogText(log)|
            && Sds.Run(Sds.FRESH, Sds.FileUses(|LogText(log)|, Sizes(log)), false).Some?
            && Sds.Run(Sds.FRESH, Sds.Messages(Sizes(log)), false).Some?
            && Sds.Run(Sds.FRESH, Sds.Puts(ReplySizes([Ok, Ok, Ok])), false).None?
            && !RoomAsCoded(log, |LogText(log)|, [Ok, Ok, Ok])
  {
    hide Encode, Sds.Run, Sds.Messages, LogText, WholeIn, Sds.FileUses, Sds.Harmless;
    SetLength("a", u);
    SetLength("a", v);
    SetLength("a", w);
    var log := [["SET", "a", u], ["SET", "a", v], ["SET", "a", w]];
    assert Sizes(log) == [27, 55, 111];
    SizesSum(log);
    assert Sds.Sum(Sizes(log)) == 193 by { SumThree(27, 55, 111); }
    AllWhole(log);
    assert log[..3] == log;
    TwoRooms(log, |LogText(log)|);
    Sds.ThreeRepliesOverrun(ReplySizes([Ok, Ok, Ok]));
    Sds.RunInside(Sds.FRESH, Sds.Puts(ReplySizes([Ok, Ok, Ok])));
  }

  lemma SumThree(a: nat, b: nat, c: nat)
    ensures Sds.Sum([a, b, c]) == a + b + c
  {
    assert [a, b, c][..2] == [a, b] && [a, b][..1] == [a] && [a][..0] == [];
    assert Sds.Sum([a]) == a && Sds.Sum([a, b]) == a + b;
  }

  lemma AllWhole(cmds: seq<Request>)
    ensures WholeIn(cmds, |LogText(cmds)|) == |cmds|
  {
    hide Encode, LogText, WholeIn;
    var m := WholeIn(cmds, |LogText(cmds)|);
    WholeInLongest(cmds, |LogText(cmds)|);
    if m < |cmds| { LogTextShorter(cmds, m + 1); }
  }

  lemma LogTextShorter(cmds: seq<Request>, m: nat)
    requires m <= |cmds|
    ensures |LogText(cmds[..m])| <= |LogText(cmds)|
  {
    hide Encode;
    LogTextConcat(cmds[..m], cmds[m..]);
    assert cmds[..m] + cmds[m..] == cmds;
  }

  // ---------- Messages in the log that are no commands ----------

  lemma ReplayOne(s: Server, f: ClientId, argv: Request, rest: string, now: int)
    requires WellFormed(s) && f < |s.clients| && argv != [] && Fits(argv)
    ensures Replay(s, f, Encode(argv) + rest, "", now) ==
            match ProcessQuery(s, f, argv, now) case Outside => Outside case Done(t) => Replay(t, f, rest, "", now)
  {
    hide ProcessQuery, RespParse, Decode, Encode, WellFormed;
    var first := Encode(argv);
    EncodeParse(argv, rest);
    DecodeEncode(argv, "");
    assert first + "" == first && "" + (first + rest)[..|first|] == first && (first + rest)[|first|..] == rest;
  }

  /** Whole commands in front are executed, whatever follows. */
  lemma {:induction false} ReplayFront(s: Server, f: ClientId, cmds: seq<Request>, rest: string, now: int)
    requires WellFormed(s) && f < |s.clients| && Loggable(cmds)
    ensures Replay(s, f, LogText(cmds) + rest, "", now) ==
            match Run(s, Inputs(f, cmds, now)) case Outside => Outside case Done(t) => Replay(t, f, rest, "", now)
    decreases |cmds|
  {
    hide ProcessQuery, Replay, Encode, WellFormed, Fits;
    var inputs := Inputs(f, cmds, now);
    if cmds == [] {
      assert "" + rest == rest;
    } else {
      assert LogText(cmds) + rest == Encode(cmds[0]) + (LogText(cmds[1..]) + rest);
      ReplayOne(s, f, cmds[0], LogText(cmds[1..]) + rest, now);
      assert inputs[0].argv == cmds[0] && inputs[1..] == Inputs(f, cmds[1..], now);
      var r := ProcessQuery(s, f, cmds[0], now);
      if r.Done? { ReplayFront(r.s, f, cmds[1..], rest, now); }
    }
  }

  /** A read buffer that starts like no command never gets to the ones appended to it. */
  lemma {:induction false} Blocked(s: Server, f: ClientId, cmds: seq<Request>, n: nat, readBuf: string, now: int)
    requires WellFormed(s) && f < |s.clients| && Loggable(cmds) && n <= |LogText(cmds)|
    requires readBuf != "" && readBuf[0] != '*'
    ensures Replay(s, f, LogText(cmds)[..n], readBuf, now) == Done(s)
    decreases |cmds|
  {
    hide ProcessQuery, RespParse, Decode, Encode, WellFormed;
    var sbuf := LogText(cmds)[..n];
    if cmds == [] || n < |Encode(cmds[0])| {
      NothingFramed(cmds, n);
    } else {
      var first := Encode(cmds[0]);
      var rest := LogText(cmds[1..])[..n - |first|];
      assert sbuf == first + rest && sbuf[..|first|] == first && sbuf[|first|..] == rest;
      EncodeParse(cmds[0], rest);
      Frames.NoArray(readBuf + first);
      Blocked(s, f, cmds[1..], n - |first|, readBuf + first, now);
    }
  }

  /** A message in the log that is no array, a status line say, ends the replay without an error:
      the commands in front of it are executed, and none of those behind it. */
  lemma StrayMessage(s: Server, f: ClientId, front: seq<Request>, m: Frames.Message, back: seq<Request>, n: nat, now: int)
    requires WellFormed(s) && f < |s.clients| && Loggable(front) && Loggable(back) && n <= |LogText(back)|
    requires Frames.Proper(m) && !m.Array? && !m.NullArray?
    ensures Replay(s, f, LogText(front) + (Frames.Wire(m) + LogText(back)[..n]), "", now) == Run(s, Inputs(f, front, now))
  {
    hide Run, RespParse, Decode, Frames.Wire, Frames.Proper, LogText, WellFormed;
    var line, tail := Frames.Wire(m), LogText(back)[..n];
    ReplayFront(s, f, front, line + tail, now);
    var r := Run(s, Inputs(f, front, now));
    if r.Done? {
      Frames.MessageFramed(m, tail);
      NoStar(m);
      Frames.NoArray(line);
      assert "" + (line + tail)[..|line|] == line && (line + tail)[|line|..] == tail;
      Blocked(r.s, f, back, n, line, now);
    }
  }

  lemma NoStar(m: Frames.Message)
    requires Frames.Proper(m) && !m.Array? && !m.NullArray?
    ensures Frames.Wire(m) != "" && Frames.Wire(m)[0] != '*'
  {
    Frames.WireSome(m);
  }

  /** An array of no known length, or a line that starts with no type byte, leaves the model once
      the commands in front of it are executed. */
  lemma StrayOutside(s: Server, f: ClientId, front: seq<Request>, line: string, tail: string, now: int)
    requires WellFormed(s) && f < |s.clients| && Loggable(front)
    requires line == "*-1" || (line != "" && '\r' !in line && line[0] !in "+-:$*")
    ensures Replay(s, f, LogText(front) + (line + CRLF + tail), "", now) == Outside
  {
    hide Run, RespParse, Decode, LogText, WellFormed;
    ReplayFront(s, f, front, line + CRLF + tail, now);
    if line == "*-1" {
      var rest := line + CRLF + tail;
      Frames.NullFramed('*', tail);
      assert rest == ['*'] + "-1" + CRLF + tail;
      Frames.NegativeCount(-1, "");
      assert Print(-1) == "-1" && "" + rest[..5] == "*" + Print(-1) + CRLF + "";
    } else {
      Frames.UnknownKind(line, tail);
    }
  }
}
