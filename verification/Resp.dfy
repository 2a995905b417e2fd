/** The request wire format: arrays of bulk strings, as in the Redis serialization
    protocol specification (RESP2), sections "Bulk strings" and "Arrays". */
module Resp {
  import opened Decimal
  import opened Wrappers

  const CRLF: string := "\r\n"

  // ---------- Encoding ----------

  function Header(kind: char, n: nat): string { [kind] + Print(n) + CRLF }

  function Bulk(arg: string): string { Header('$', |arg|) + arg + CRLF }

  function BulkAll(args: seq<string>): string
  {
    if args == [] then "" else Bulk(args[0]) + BulkAll(args[1..])
  }

  function Encode(args: seq<string>): string { Header('*', |args|) + BulkAll(args) }

  /** The C code keeps argument counts and lengths in an int. */
  predicate Fits(args: seq<string>) {
    |args| <= INT_MAX && forall i :: 0 <= i < |args| ==> |args[i]| <= INT_MAX
  }

  const ENCODE_CAP := 1024

  /** Whether the encoder's buffer, with `len` of its `cap` bytes written, holds the rest: it
      doubles at most once an argument. */
  predicate Holds(args: seq<string>, cap: nat, len: nat)
    decreases |args|
  {
    if args == [] then len < cap
    else
      var h := len + |Header('$', |args[0]|)|;
      var end := h + |args[0]| + 2;
      var grown := if end >= cap then 2 * cap else cap;
      h < cap && end <= grown && Holds(args[1..], grown, end)
  }

  /** The encoder's buffer holds the whole request. */
  predicate Encodable(args: seq<string>) {
    |Header('*', |args|)| < ENCODE_CAP && Holds(args, ENCODE_CAP, |Header('*', |args|)|)
  }

  /** respEncodeArrayString; None when a header is cut short or the buffer is left. */
  method EncodeArrayString(args: seq<string>) returns (r: Option<string>)
    ensures r == if Encodable(args) then Some(Encode(args)) else None
  {
    hide Print;
    var cap: nat := ENCODE_CAP;
    var buf := "*" + Print(|args|) + "\r\n";
    if |buf| >= cap { return None; }
    for i := 0 to |args|
      invariant buf + BulkAll(args[i..]) == Encode(args)
      invariant Encodable(args) <==> Holds(args[i..], cap, |buf|)
    {
      ghost var before := buf;
      assert args[i..][0] == args[i] && args[i..][1..] == args[i + 1..];
      buf := buf + "$" + Print(|args[i]|) + "\r\n";
      assert |buf| == |before| + |Header('$', |args[i]|)|;
      if |buf| >= cap { return None; }
      if |buf| + |args[i]| + 2 >= cap { cap := cap * 2; }
      if |buf| + |args[i]| + 2 > cap { return None; }
      buf := buf + args[i];
      buf := buf + "\r\n";
      BulkAppended(before, args[i]);
      Regroup(before, Bulk(args[i]), BulkAll(args[i + 1..]));
    }
    assert args[|args|..] == [] && buf + "" == buf;
    return if |buf| < cap then Some(buf) else None;
  }

  /** Requests of less than 1024 bytes always fit. */
  lemma {:induction false} SmallHolds(args: seq<string>, cap: nat, len: nat)
    requires len + |BulkAll(args)| < cap
    ensures Holds(args, cap, len)
    decreases |args|
  {
    hide Print;
    if args != [] { SmallHolds(args[1..], cap, len + |Bulk(args[0])|); }
  }

  lemma SmallEncodable(args: seq<string>)
    requires |Encode(args)| < ENCODE_CAP
    ensures Encodable(args)
  {
    hide Header;
    SmallHolds(args, ENCODE_CAP, |Header('*', |args|)|);
  }

  /** One doubling is not enough for an argument of 2048 bytes in front. */
  lemma LargeNotEncodable(args: seq<string>)
    requires args != [] && |args[0]| >= 2 * ENCODE_CAP
    ensures !Encodable(args)
  {
    hide Print;
  }

  lemma BulkAppended(before: string, arg: string)
    ensures before + "$" + Print(|arg|) + "\r\n" + arg + "\r\n" == before + Bulk(arg)
  {
    hide Print;
    assert ("$" + Print(|arg|) + CRLF + arg + CRLF) == Bulk(arg);
  }

  lemma Regroup(a: string, b: string, c: string)
    ensures (a + b) + c == a + (b + c)
    ensures (a + (b + c))[|a|..] == b + c
  {
  }

  /** respEncodeBulkString writes into 1024 bytes, the final NUL included: it stays inside if
      and only if the text has at most 1014. */
  lemma BulkReplyFits(text: string)
    ensures |Bulk(text)| + 1 <= 1024 <==> |text| <= 1014
  {
    hide Print;
    PrintLength(|text|);
    assert |Bulk(text)| == 5 + |Print(|text|)| + |text|;
  }

  lemma PrintLength(n: nat)
    ensures (n < 1000 ==> |Print(n)| <= 3) && (1000 <= n < 10000 ==> |Print(n)| == 4) && |Print(n)| >= 1
  {
    assert Pow10(3) == 1000 by { assert Pow10(2) == 100; }
    if n < 1000 {
      DigitsLength(n, 3);
    } else if n < 10000 {
      var a, b, c := n / 10, n / 100, n / 1000;
      assert a / 10 == b && b / 10 == c && 1 <= c < 10 && 10 <= b && 100 <= a;
      assert |Digits(c)| == 1 && |Digits(b)| == 2 && |Digits(a)| == 3;
    }
  }

  // ---------- Framing: respParse ----------

  /** memchr / strchr: position of the first c, or |s|. */
  function Find(s: string, c: char): (n: nat)
    ensures n <= |s|
    ensures n < |s| ==> s[n] == c
    ensures forall i :: 0 <= i < n ==> s[i] != c
  {
    if s == "" || s[0] == c then 0 else 1 + Find(s[1..], c)
  }

  lemma FindIs(s: string, c: char, n: nat)
    requires n <= |s| && forall i :: 0 <= i < n ==> s[i] != c
    requires n < |s| ==> s[n] == c
    ensures Find(s, c) == n
  {
    assert !(Find(s, c) < n);
  }

  /** find_line_end: position of the '\n' of a CRLF that starts at the first '\r'. */
  function LineEnd(buf: string): (r: Option<nat>)
    ensures r.Some? ==> 1 <= r.value < |buf| && buf[r.value - 1] == '\r' && buf[r.value] == '\n'
  {
    if |buf| < 2 then None
    else
      var r := Find(buf[..|buf| - 1], '\r');
      if r < |buf| - 1 && buf[r + 1] == '\n' then Some(r + 1) else None
  }

  /** `Took(n)`: the first n bytes are one message. `Incomplete`: the null pointer.
      `Unspecified`: the C function reaches its end without returning a value. */
  datatype Parse = Took(n: nat) | Incomplete | Unspecified

  function RespParse(buf: string): (r: Parse)
    ensures r.Took? ==> 3 <= r.n <= |buf|
    decreases |buf|, 0, 0
  {
    if |buf| < 3 then Incomplete
    else match LineEnd(buf)
      case None => Incomplete
      case Some(e) =>
        var h := e + 1;
        if buf[0] == '+' || buf[0] == '-' then
          Took(h)
        else if buf[0] == ':' then
          if AllDigits(buf[1..e - 1]) then Took(h) else Incomplete
        else if buf[0] == '$' then
          var n := Strtol(buf[1..]);
          if n == -1 then Took(h)
          else if n < -1 || |buf| - h < n + 2 then Incomplete
          else if buf[h + n] == '\r' && buf[h + n + 1] == '\n' then Took(h + n + 2)
          else Incomplete
        else if buf[0] == '*' then
          var count := Strtol(buf[1..]);
          if count == 0 then Incomplete
          else After(h, ParseItems(buf[h..], count))
        else Unspecified
  }

  /** The element loop of an array: `count` messages in a row. */
  function ParseItems(buf: string, count: int): (r: Parse)
    ensures r.Took? ==> r.n <= |buf|
    decreases |buf|, 1, count
  {
    if count <= 0 then Took(0)
    else match RespParse(buf)
      case Took(n) => After(n, ParseItems(buf[n..], count - 1))
      case other => other
  }

  /** A parse that started n bytes further on. */
  function After(n: nat, r: Parse): Parse {
    if r.Took? then Took(n + r.n) else r
  }

  /** respParse as written: a cursor that walks over the elements of an array. */
  method RespParseAt(buf: string) returns (r: Parse)
    ensures r == RespParse(buf)
    decreases |buf|, 0
  {
    if |buf| < 3 { return Incomplete; }
    var line := LineEnd(buf);
    if line.None? { return Incomplete; }
    var h := line.value + 1;
    match buf[0]
    case '+' => return Took(h);
    case '-' => return Took(h);
    case ':' =>
      var p := 1;
      while p < h - 2
        invariant 1 <= p <= h - 2 && AllDigits(buf[1..p])
      {
        if !IsDigit(buf[p]) {
          assert buf[1..h - 2][p - 1] == buf[p];
          return Incomplete;
        }
        assert buf[1..p + 1] == buf[1..p] + [buf[p]];
        p := p + 1;
      }
      return Took(h);
    case '$' =>
      var n := Strtol(buf[1..]);
      if n == -1 { return Took(h); }
      if n < -1 || |buf| - h < n + 2 { return Incomplete; }
      if buf[h + n] == '\r' && buf[h + n + 1] == '\n' { return Took(h + n + 2); }
      return Incomplete;
    case '*' =>
      var count := Strtol(buf[1..]);
      if count == 0 { return Incomplete; }
      var items := ParseItemsAt(buf[h..], count);
      return After(h, items);
    case _ => return Unspecified;
  }

  lemma ItemsOne(buf: string, at: nat, count: int)
    requires at <= |buf| && count > 0
    ensures match RespParse(buf[at..])
            case Took(n) => ParseItems(buf[at..], count) == After(n, ParseItems(buf[at + n..], count - 1))
            case other => ParseItems(buf[at..], count) == other
  {
    hide RespParse;
    match RespParse(buf[at..])
    case Took(n) => assert buf[at..][n..] == buf[at + n..];
    case _ =>
  }

  lemma ItemsDone(buf: string, count: int)
    requires count <= 0
    ensures ParseItems(buf, count) == Took(0)
  {
  }

  /** The element loop of respParse. */
  method ParseItemsAt(buf: string, count: int) returns (r: Parse)
    ensures r == ParseItems(buf, count)
    decreases |buf|, 1
  {
    hide RespParse, ParseItems;
    var current: nat := 0;
    assert buf[0..] == buf;
    var i := 0;
    while i < count
      invariant current <= |buf| && 0 <= i && (i <= count || count < 0)
      invariant ParseItems(buf, count) ==
                After(current, ParseItems(buf[current..], count - i))
    {
      var element := RespParseAt(buf[current..]);
      ItemsOne(buf, current, count - i);
      if !element.Took? { return element; }
      current := current + element.n;
      i := i + 1;
    }
    ItemsDone(buf[current..], count - i);
    return Took(current);
  }

  // ---------- Framing of encoded requests ----------

  lemma PrintPlain(n: nat)
    ensures |Print(n)| > 0 && AllDigits(Print(n))
  {
    DigitsShape(n);
  }

  lemma LineEndAfter(kind: char, line: string, tail: string)
    requires kind != '\r' && AllDigits(line)
    ensures LineEnd([kind] + line + CRLF + tail) == Some(|line| + 2)
  {
    hide Find;
    var buf := [kind] + line + CRLF + tail;
    FindIs(buf[..|buf| - 1], '\r', |line| + 1);
  }

  lemma HeaderRead(kind: char, n: nat, tail: string)
    requires kind != '\r' && n <= LONG_MAX
    ensures LineEnd(Header(kind, n) + tail) == Some(|Print(n)| + 2)
    ensures Strtol((Header(kind, n) + tail)[1..]) == n
  {
    hide LineEnd, Strtol, Print;
    PrintPlain(n);
    LineEndAfter(kind, Print(n), tail);
    ScanPrint(n, CRLF + tail);
    assert (Header(kind, n) + tail)[1..] == Print(n) + (CRLF + tail);
  }

  /** A header that has not fully arrived shows no line end. */
  lemma HeaderCut(kind: char, n: nat, k: nat)
    requires kind != '\r' && k < |Header(kind, n)|
    ensures LineEnd(Header(kind, n)[..k]) == None
  {
    PrintPlain(n);
    var buf := Header(kind, n)[..k];
    if k >= 2 { FindIs(buf[..k - 1], '\r', k - 1); }
  }

  lemma BulkParse(arg: string, tail: string)
    requires |arg| <= INT_MAX
    ensures RespParse(Bulk(arg) + tail) == Took(|Bulk(arg)|)
  {
    hide LineEnd, Strtol, Print;
    HeaderRead('$', |arg|, arg + CRLF + tail);
    assert Bulk(arg) + tail == Header('$', |arg|) + (arg + CRLF + tail);
  }

  lemma BulkCut(arg: string, k: nat)
    requires |arg| <= INT_MAX && k < |Bulk(arg)|
    ensures RespParse(Bulk(arg)[..k]) == Incomplete
  {
    hide LineEnd, Strtol, Print;
    var buf := Bulk(arg)[..k];
    var head := Header('$', |arg|);
    if k < |head| {
      HeaderCut('$', |arg|, k);
      assert buf == head[..k];
    } else {
      HeaderRead('$', |arg|, buf[|head|..]);
      assert buf == head + buf[|head|..];
    }
  }

  lemma {:induction false} ItemsParse(args: seq<string>, tail: string)
    requires Fits(args)
    ensures ParseItems(BulkAll(args) + tail, |args|) == Took(|BulkAll(args)|)
  {
    hide RespParse, Bulk;
    if args != [] {
      BulkParse(args[0], BulkAll(args[1..]) + tail);
      ItemsParse(args[1..], tail);
      Regroup(Bulk(args[0]), BulkAll(args[1..]), tail);
    }
  }

  lemma {:induction false} ItemsCut(args: seq<string>, k: nat)
    requires Fits(args) && k < |BulkAll(args)|
    ensures ParseItems(BulkAll(args)[..k], |args|) == Incomplete
  {
    hide RespParse, Bulk;
    var first := Bulk(args[0]);
    var buf := BulkAll(args)[..k];
    if k < |first| {
      BulkCut(args[0], k);
      assert buf == first[..k];
    } else {
      var rest := BulkAll(args[1..])[..k - |first|];
      BulkParse(args[0], rest);
      ItemsCut(args[1..], k - |first|);
      assert buf == first + rest;
      assert buf[|first|..] == rest;
    }
  }

  lemma ArrayParse(n: nat, rest: string)
    requires 0 < n <= INT_MAX
    ensures RespParse(Header('*', n) + rest) ==
            After(|Header('*', n)|, ParseItems(rest, n))
  {
    hide LineEnd, Strtol, Print, ParseItems;
    HeaderRead('*', n, rest);
    assert (Header('*', n) + rest)[|Header('*', n)|..] == rest;
  }

  /** Framing: an encoded request is recognised whole, whatever bytes follow it. */
  lemma EncodeParse(args: seq<string>, tail: string)
    requires Fits(args) && args != []
    ensures RespParse(Encode(args) + tail) == Took(|Encode(args)|)
  {
    Regroup(Header('*', |args|), BulkAll(args), tail);
    ArrayParse(|args|, BulkAll(args) + tail);
    ItemsParse(args, tail);
  }

  /** Framing: no strict prefix of an encoded request is taken for a message. */
  lemma EncodeCut(args: seq<string>, k: nat)
    requires Fits(args) && args != [] && k < |Encode(args)|
    ensures RespParse(Encode(args)[..k]) == Incomplete
  {
    var head := Header('*', |args|);
    if k < |head| {
      HeaderCut('*', |args|, k);
      assert Encode(args)[..k] == head[..k];
    } else {
      ArrayParse(|args|, BulkAll(args)[..k - |head|]);
      ItemsCut(args, k - |head|);
      assert Encode(args)[..k] == head + BulkAll(args)[..k - |head|];
    }
  }

  /** The empty request is never framed, even when it is all there. */
  lemma EmptyRequestNeverFramed(tail: string)
    ensures RespParse(Encode([]) + tail) == Incomplete
  {
    HeaderRead('*', 0, tail);
    assert Encode([]) + tail == Header('*', 0) + tail;
  }

  // ---------- Decoding: resp_decode ----------

  /** `Overrun`: the C code uses a length it never read, or reads past the text. */
  datatype Decoded = Args(args: seq<string>) | Rejected | Overrun

  predicate IsCount(r: Scanned) { r.used > 0 && 0 <= r.value <= INT_MAX }

  function Decode(buf: string): Decoded {
    if buf == "" || buf[0] != '*' then Rejected
    else
      var argc := Scan(buf[1..]);
      var nl := Find(buf, '\n');
      if !IsCount(argc) || nl == |buf| then Overrun else DecodeItems(buf[nl + 1..], argc.value, [])
  }

  /** One argument: its text, and the text after it when the cursor stays inside. */
  datatype Argument = Argument(arg: string, rest: Option<string>) | NotBulk | Unread

  function NextArgument(p: string): Argument {
    if p == "" || p[0] != '$' then NotBulk
    else
      var len := Scan(p[1..]);
      var nl := Find(p, '\n');
      if !IsCount(len) || nl == |p| || nl + 1 + len.value > |p| then Unread
      else
        var next := nl + 1 + len.value + 2;
        Argument(p[nl + 1..nl + 1 + len.value], if next <= |p| then Some(p[next..]) else None)
  }

  /** n more arguments after those in argv. */
  function DecodeItems(p: string, n: nat, argv: seq<string>): Decoded
    decreases n
  {
    if n == 0 then Args(argv)
    else match NextArgument(p)
      case NotBulk => Rejected
      case Unread => Overrun
      case Argument(arg, Some(rest)) => DecodeItems(rest, n - 1, argv + [arg])
      case Argument(arg, None) => if n == 1 then Args(argv + [arg]) else Overrun
  }

  /** resp_decode as written: one cursor over the buffer, arguments collected in order. */
  method DecodeAt(buf: string) returns (r: Decoded)
    ensures r == Decode(buf)
  {
    if buf == "" || buf[0] != '*' { return Rejected; }
    var argc := Scan(buf[1..]);
    var nl := Find(buf, '\n');
    if !IsCount(argc) || nl == |buf| { return Overrun; }
    var p := nl + 1;
    r := DecodeItemsAt(buf[nl + 1..], argc.value);
  }

  /** The argument loop of resp_decode. */
  method DecodeItemsAt(text: string, argc: nat) returns (r: Decoded)
    ensures r == DecodeItems(text, argc, [])
  {
    var p: Option<string>, argv := Some(text), [];
    var i := 0;
    while i < argc
      invariant i <= argc && (p.None? ==> i == argc)
      invariant p.Some? ==> DecodeItems(text, argc, []) == DecodeItems(p.value, argc - i, argv)
      invariant p.None? ==> DecodeItems(text, argc, []) == Args(argv)
    {
      var next := NextArgument(p.value);
      match next
      case NotBulk => return Rejected;
      case Unread => return Overrun;
      case Argument(arg, rest) =>
        if rest.None? && i + 1 < argc { return Overrun; }
        argv := argv + [arg];
        p := rest;
        i := i + 1;
    }
    return Args(argv);
  }

  lemma FindAfter(kind: char, line: string, tail: string)
    requires kind != '\n' && AllDigits(line)
    ensures Find([kind] + line + CRLF + tail, '\n') == |line| + 2
  {
    hide Find;
    FindIs([kind] + line + CRLF + tail, '\n', |line| + 2);
  }

  lemma HeaderDecode(kind: char, n: nat, tail: string)
    requires kind != '\n' && n <= INT_MAX
    ensures Scan((Header(kind, n) + tail)[1..]) == Scanned(n, |Print(n)|) && |Print(n)| > 0
    ensures Find(Header(kind, n) + tail, '\n') == |Print(n)| + 2
  {
    hide Find, Scan, Print;
    PrintPlain(n);
    FindAfter(kind, Print(n), tail);
    ScanPrint(n, CRLF + tail);
    assert (Header(kind, n) + tail)[1..] == Print(n) + (CRLF + tail);
  }

  lemma BulkDecode(arg: string, rest: string)
    requires |arg| <= INT_MAX
    ensures NextArgument(Bulk(arg) + rest) == Argument(arg, Some(rest))
  {
    hide Scan, Find, Print;
    var head := Header('$', |arg|);
    var p := head + (arg + CRLF + rest);
    HeaderDecode('$', |arg|, arg + CRLF + rest);
    assert Bulk(arg) + rest == p;
    assert p[|head|..|head| + |arg|] == arg;
    assert p[|head| + |arg| + 2..] == rest;
  }

  lemma {:induction false} ItemsDecode(args: seq<string>, tail: string, argv: seq<string>)
    requires Fits(args)
    ensures DecodeItems(BulkAll(args) + tail, |args|, argv) == Args(argv + args)
  {
    hide NextArgument, Bulk;
    if args == [] {
      assert argv + args == argv;
    } else {
      BulkDecode(args[0], BulkAll(args[1..]) + tail);
      ItemsDecode(args[1..], tail, argv + [args[0]]);
      Regroup(Bulk(args[0]), BulkAll(args[1..]), tail);
      assert (argv + [args[0]]) + args[1..] == argv + args;
    }
  }

  /** Round trip: decoding gives back the encoded arguments and ignores what follows,
      so a buffer that holds several requests yields only the first. */
  lemma DecodeEncode(args: seq<string>, tail: string)
    requires Fits(args)
    ensures Decode(Encode(args) + tail) == Args(args)
  {
    hide Scan, Find, Print, BulkAll, DecodeItems;
    HeaderDecode('*', |args|, BulkAll(args) + tail);
    ItemsDecode(args, tail, []);
    Regroup(Header('*', |args|), BulkAll(args), tail);
  }

  lemma EncodeInjective(a: seq<string>, b: seq<string>)
    requires Fits(a) && Fits(b) && Encode(a) == Encode(b)
    ensures a == b
  {
    DecodeEncode(a, "");
    DecodeEncode(b, "");
  }
}
