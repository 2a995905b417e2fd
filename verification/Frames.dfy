/** Every kind of message of the protocol on the wire: what the two framing parsers and the
    decoder make of it whole, cut short, or wrong. */
module Frames {
  import opened Decimal
  import opened Wrappers
  import opened Resp
  import opened Net

  /** A status or error line, a number, a bulk string, an array, and the two nulls. */
  datatype Message =
    | Line(kind: char, text: string)
    | Number(digits: string)
    | BulkText(text: string)
    | Array(items: seq<Message>)
    | NullBulk
    | NullArray

  function Wire(m: Message): string {
    match m
    case Line(kind, text) => [kind] + text + CRLF
    case Number(digits) => ":" + digits + CRLF
    case BulkText(text) => Resp.Bulk(text)
    case Array(items) => Header('*', |items|) + WireAll(items)
    case NullBulk => "$-1\r\n"
    case NullArray => "*-1\r\n"
  }

  function WireAll(items: seq<Message>): string {
    if items == [] then "" else Wire(items[0]) + WireAll(items[1..])
  }

  /** No carriage return in a line, lengths that are an int, and no array without items. */
  predicate Proper(m: Message) {
    match m
    case Line(kind, text) => (kind == '+' || kind == '-') && '\r' !in text
    case Number(digits) => AllDigits(digits)
    case BulkText(text) => |text| <= INT_MAX
    case Array(items) => 0 < |items| <= INT_MAX && forall i :: 0 <= i < |items| ==> Proper(items[i])
    case _ => true
  }

  /** There is a bulk string of length zero in it. */
  predicate HasEmpty(m: Message) {
    match m
    case BulkText(text) => text == ""
    case Array(items) => exists i :: 0 <= i < |items| && HasEmpty(items[i])
    case _ => false
  }

  /** A request byte by byte. */
  lemma GoldenRequest()
    ensures Encode(["SET", "k", ""]) == "*3\r\n$3\r\nSET\r\n$1\r\nk\r\n$0\r\n\r\n"
  {
    hide Print, BulkAll;
    GoldenDigits();
    var args := ["SET", "k", ""];
    assert args[1..] == ["k", ""] && args[1..][1..] == [""] && [""][1..] == [];
    assert Header('*', 3) == "*3\r\n" && Resp.Bulk("SET") == "$3\r\nSET\r\n";
    assert Resp.Bulk("k") == "$1\r\nk\r\n" && Resp.Bulk("") == "$0\r\n\r\n";
    GoldenThree("SET", "k", "");
    assert Encode(args) == "*3\r\n" + ("$3\r\nSET\r\n" + ("$1\r\nk\r\n" + "$0\r\n\r\n"));
  }

  lemma GoldenDigits()
    ensures Print(3) == "3" && Print(1) == "1" && Print(0) == "0"
  {
  }

  lemma GoldenThree(a: string, b: string, c: string)
    ensures BulkAll([a, b, c]) == Resp.Bulk(a) + (Resp.Bulk(b) + Resp.Bulk(c))
  {
    hide Resp.Bulk;
    assert [a, b, c][1..] == [b, c] && [b, c][1..] == [c] && [c][1..] == [];
    assert BulkAll([c]) == Resp.Bulk(c) + "" == Resp.Bulk(c);
  }

  // ---------- respParse ----------

  lemma LineFound(line: string, tail: string)
    requires line != "" && '\r' !in line
    ensures LineEnd(line + CRLF + tail) == Some(|line| + 1)
  {
    hide Find;
    var buf := line + CRLF + tail;
    FindIs(buf[..|buf| - 1], '\r', |line|);
  }

  lemma LineCut(line: string, k: nat)
    requires line != "" && '\r' !in line && k < |line| + 2
    ensures LineEnd((line + CRLF)[..k]) == None
  {
    hide Find;
    var buf := (line + CRLF)[..k];
    if k >= 2 { FindIs(buf[..k - 1], '\r', k - 1); }
  }

  lemma MinusOne(tail: string)
    ensures Strtol("-1" + (CRLF + tail)) == -1
  {
    ScanPrint(-1, CRLF + tail);
    assert Print(-1) == "-1";
  }

  lemma NullFramed(kind: char, tail: string)
    requires kind == '$' || kind == '*'
    ensures RespParse([kind] + "-1" + CRLF + tail) == Took(5)
  {
    hide Strtol, LineEnd;
    var buf := [kind] + "-1" + CRLF + tail;
    LineFound([kind] + "-1", tail);
    MinusOne(tail);
    assert buf[1..] == "-1" + (CRLF + tail);
  }

  lemma SimpleFramed(m: Message, tail: string)
    requires Proper(m) && (m.Line? || m.Number?)
    ensures RespParse(Wire(m) + tail) == Took(|Wire(m)|)
  {
    hide LineEnd, Strtol;
    match m
    case Line(kind, text) => LineFound([kind] + text, tail);
    case Number(digits) =>
      LineFound(":" + digits, tail);
      assert (Wire(m) + tail)[1..|digits| + 1] == digits;
  }

  /** Every proper message is recognised whole, whatever follows it. */
  lemma {:induction false} MessageFramed(m: Message, tail: string)
    requires Proper(m)
    ensures RespParse(Wire(m) + tail) == Took(|Wire(m)|)
  {
    hide RespParse, Header;
    match m
    case Line(_, _) => SimpleFramed(m, tail);
    case Number(_) => SimpleFramed(m, tail);
    case BulkText(text) => BulkParse(text, tail);
    case Array(items) =>
      MessagesFramed(items, tail);
      Resp.Regroup(Header('*', |items|), WireAll(items), tail);
      ArrayParse(|items|, WireAll(items) + tail);
    case NullBulk =>
      NullFramed('$', tail);
      assert Wire(m) + tail == ['$'] + "-1" + CRLF + tail;
    case NullArray =>
      NullFramed('*', tail);
      assert Wire(m) + tail == ['*'] + "-1" + CRLF + tail;
  }

  lemma {:induction false} MessagesFramed(items: seq<Message>, tail: string)
    requires forall i :: 0 <= i < |items| ==> Proper(items[i])
    ensures ParseItems(WireAll(items) + tail, |items|) == Took(|WireAll(items)|)
  {
    hide RespParse, Wire;
    if items != [] {
      MessageFramed(items[0], WireAll(items[1..]) + tail);
      MessagesFramed(items[1..], tail);
      Resp.Regroup(Wire(items[0]), WireAll(items[1..]), tail);
    }
  }

  lemma SimpleCut(line: string, k: nat)
    requires line != "" && '\r' !in line && k < |line| + 2
    ensures RespParse((line + CRLF)[..k]) == Incomplete
  {
    hide LineEnd, Strtol;
    LineCut(line, k);
  }

  /** No strict prefix of a proper message is taken for one. */
  lemma {:induction false} MessageCut(m: Message, k: nat)
    requires Proper(m) && k < |Wire(m)|
    ensures RespParse(Wire(m)[..k]) == Incomplete
  {
    hide RespParse, Header;
    match m
    case Line(kind, text) => SimpleCut([kind] + text, k);
    case Number(digits) => SimpleCut(":" + digits, k);
    case BulkText(text) => BulkCut(text, k);
    case Array(items) =>
      var head := Header('*', |items|);
      if k < |head| {
        HeadCut(|items|, k);
        assert Wire(m)[..k] == head[..k];
      } else {
        ArrayParse(|items|, WireAll(items)[..k - |head|]);
        MessagesCut(items, k - |head|);
        assert Wire(m)[..k] == head + WireAll(items)[..k - |head|];
      }
    case NullBulk =>
      SimpleCut("$-1", k);
      assert Wire(m) == "$-1" + CRLF;
    case NullArray =>
      SimpleCut("*-1", k);
      assert Wire(m) == "*-1" + CRLF;
  }

  lemma HeadCut(n: nat, k: nat)
    requires k < |Header('*', n)|
    ensures RespParse(Header('*', n)[..k]) == Incomplete
  {
    hide LineEnd, Strtol, Print;
    HeaderCut('*', n, k);
  }

  lemma {:induction false} MessagesCut(items: seq<Message>, k: nat)
    requires k < |WireAll(items)| && forall i :: 0 <= i < |items| ==> Proper(items[i])
    ensures ParseItems(WireAll(items)[..k], |items|) == Incomplete
  {
    hide RespParse, Wire;
    var first, buf := Wire(items[0]), WireAll(items)[..k];
    if k < |first| {
      MessageCut(items[0], k);
      assert buf == first[..k];
    } else {
      var rest := WireAll(items[1..])[..k - |first|];
      MessageFramed(items[0], rest);
      MessagesCut(items[1..], k - |first|);
      assert buf == first + rest && buf[|first|..] == rest;
    }
  }

  // ---------- What respParse never takes ----------

  /** A number line with anything but digits, a minus sign included. */
  lemma NotNumber(text: string, tail: string)
    requires '\r' !in text && !AllDigits(text)
    ensures RespParse(":" + text + CRLF + tail) == Incomplete
  {
    hide LineEnd, Strtol, AllDigits;
    var buf := ":" + text + CRLF + tail;
    LineFound(":" + text, tail);
    assert buf[1..|text| + 1] == text;
  }

  /** A line that starts with no type byte: the C function returns nothing at all. */
  lemma UnknownKind(line: string, tail: string)
    requires line != "" && '\r' !in line && line[0] !in "+-:$*"
    ensures RespParse(line + CRLF + tail) == Unspecified && RespLength(line + CRLF + tail) == NotFound
  {
    hide LineEnd, Strtol;
    LineFound(line, tail);
  }

  /** A bulk string with a length below -1, or not followed by CRLF. */
  lemma WrongBulk(n: int, rest: string)
    requires -INT_MAX <= n <= INT_MAX && n != -1
    requires n >= 0 ==> |rest| < n + 2 || rest[n] != '\r' || rest[n + 1] != '\n'
    ensures RespParse("$" + Print(n) + CRLF + rest) == Incomplete
    ensures n > 0 ==> RespLength("$" + Print(n) + CRLF + rest) == NotFound
  {
    hide RespParse, RespLength, Print, Strtol, LineEnd, FindCrlf, Atoi;
    var head := "$" + Print(n) + CRLF;
    BulkHeader(n, rest);
    ParseBulk(head, rest, n);
    LengthBulk(head, rest, n);
  }

  lemma BulkHeader(n: int, rest: string)
    requires -INT_MAX <= n <= INT_MAX
    ensures var head := "$" + Print(n) + CRLF;
            && 3 <= |head| < LENGTH_BUFFER && LineEnd(head + rest) == Some(|head| - 1) && Strtol((head + rest)[1..]) == n
            && FindCrlf(head + rest, 1) == |head| - 2 && Atoi((head + rest)[1..|head| - 2]) == Some(n)
  {
    hide Print, Strtol, LineEnd, FindCrlf, Atoi, Scan;
    var head := "$" + Print(n) + CRLF;
    PrintShape(n);
    LineFound("$" + Print(n), rest);
    ScanPrint(n, CRLF + rest);
    assert (head + rest)[1..] == Print(n) + (CRLF + rest);
    LengthHeader('$', n, rest);
    assert head == ['$'] + Print(n) + CRLF;
  }

  lemma ParseBulk(head: string, rest: string, n: int)
    requires |head| >= 3 && head[0] == '$' && LineEnd(head + rest) == Some(|head| - 1)
    requires Strtol((head + rest)[1..]) == n && n != -1
    requires n >= 0 ==> |rest| < n + 2 || rest[n] != '\r' || rest[n + 1] != '\n'
    ensures RespParse(head + rest) == Incomplete
  {
    hide LineEnd, Strtol;
  }

  lemma LengthBulk(head: string, rest: string, n: int)
    requires 3 <= |head| < LENGTH_BUFFER && head[0] == '$' && FindCrlf(head + rest, 1) == |head| - 2
    requires |head| - 2 < |head + rest| && Atoi((head + rest)[1..|head| - 2]) == Some(n)
    requires n >= 0 ==> |rest| < n + 2 || rest[n] != '\r' || rest[n + 1] != '\n'
    ensures n > 0 ==> RespLength(head + rest) == NotFound
  {
    hide FindCrlf, Atoi;
  }

  /** An array of any negative length is its header to both parsers, and to the second also an
      empty array and a bulk string of no or negative length. */
  lemma HeaderOnly(n: int, rest: string)
    requires -INT_MAX <= n <= 0
    ensures n < 0 ==> RespParse("*" + Print(n) + CRLF + rest) == Took(|Print(n)| + 3)
    ensures RespLength("*" + Print(n) + CRLF + rest) == Len(|Print(n)| + 3)
    ensures RespLength("$" + Print(n) + CRLF + rest) == Len(|Print(n)| + 3)
  {
    hide LineEnd, Print, Strtol, FindCrlf, Atoi;
    LengthHeader('*', n, rest);
    LengthHeader('$', n, rest);
    assert ['*'] + Print(n) + CRLF + rest == "*" + Print(n) + CRLF + rest;
    assert ['$'] + Print(n) + CRLF + rest == "$" + Print(n) + CRLF + rest;
    if n < 0 { NegativeFramed(n, rest); }
  }

  lemma NegativeFramed(n: int, rest: string)
    requires n < 0 && IsLong(n)
    ensures RespParse("*" + Print(n) + CRLF + rest) == Took(|Print(n)| + 3)
  {
    hide LineEnd, Print, Strtol;
    var buf := "*" + Print(n) + CRLF + rest;
    PrintShape(n);
    LineFound("*" + Print(n), rest);
    ScanPrint(n, CRLF + rest);
    assert buf[1..] == Print(n) + (CRLF + rest);
  }

  lemma PrintShape(n: int)
    ensures Print(n) != "" && forall i :: 0 <= i < |Print(n)| ==> IsDigit(Print(n)[i]) || Print(n)[i] == '-'
    ensures '\r' !in Print(n)
    ensures -INT_MAX <= n <= INT_MAX ==> |Print(n)| <= 11
  {
    hide Digits;
    var m := if n < 0 then -n else n;
    DigitsShape(m);
    if m <= INT_MAX {
      assert Pow10(10) == 100_0000_0000 by { assert Pow10(5) == 100000; }
      DigitsLength(m, 10);
    }
  }

  // ---------- getRespLength ----------

  /** The header of a bulk string or an array as getRespLength reads it. */
  lemma LengthHeader(kind: char, n: int, rest: string)
    requires kind in "$*" && -INT_MAX <= n <= INT_MAX
    ensures var buf := [kind] + Print(n) + CRLF + rest;
            && FindCrlf(buf, 1) == |Print(n)| + 1 && |Print(n)| < LENGTH_BUFFER
            && Atoi(buf[1..|Print(n)| + 1]) == Some(n)
  {
    hide Print, Scan;
    PrintShape(n);
    var buf := [kind] + Print(n) + CRLF + rest;
    ScanPrint(n, "");
    assert Print(n) + "" == Print(n) && buf[1..|Print(n)| + 1] == Print(n);
    CrlfIs(buf, 1, |Print(n)| + 1);
  }

  lemma CrlfIs(buf: string, i: nat, j: nat)
    requires i <= j && j + 1 < |buf| && buf[j] == '\r' && buf[j + 1] == '\n'
    requires forall x :: i <= x < j ==> buf[x] != '\r'
    ensures FindCrlf(buf, i) == j
  {
    var r := FindCrlf(buf, i);
    assert r < |buf| ==> buf[r] == '\r';
  }

  lemma NoCrlf(buf: string, i: nat)
    requires i <= |buf| && forall x :: i <= x < |buf| - 1 ==> buf[x] != '\r'
    ensures FindCrlf(buf, i) == |buf|
  {
  }

  lemma SimpleLength(m: Message, tail: string)
    requires Proper(m) && (m.Line? || m.Number?)
    ensures RespLength(Wire(m) + tail) == Len(|Wire(m)|)
  {
    hide FindCrlf, Atoi;
    CrlfIs(Wire(m) + tail, 1, |Wire(m)| - 2);
  }

  lemma NullLength(kind: char, tail: string)
    requires kind in "$*"
    ensures RespLength([kind] + "-1" + CRLF + tail) == Len(5)
  {
    hide FindCrlf, Atoi;
    LengthHeader(kind, -1, tail);
    assert Print(-1) == "-1";
  }

  lemma BulkLength(text: string, tail: string)
    requires 0 < |text| <= INT_MAX
    ensures RespLength(Resp.Bulk(text) + tail) == Len(|Resp.Bulk(text)|)
  {
    hide FindCrlf, Atoi, Print;
    LengthHeader('$', |text|, text + CRLF + tail);
    assert Resp.Bulk(text) + tail == ['$'] + Print(|text|) + CRLF + (text + CRLF + tail);
  }

  lemma ArrayLength(n: nat, rest: string)
    requires 0 < n <= INT_MAX
    ensures RespLength(Header('*', n) + rest) == ItemsLength(rest, n, |Header('*', n)|)
  {
    hide FindCrlf, Atoi, Print, ItemsLength;
    LengthHeader('*', n, rest);
    assert (Header('*', n) + rest)[|Header('*', n)|..] == rest;
  }

  /** The second parser finds every proper message without an empty bulk string whole too, and
      as `Net.ParsersAgree` says no other. */
  lemma {:induction false} MessageLength(m: Message, tail: string)
    requires Proper(m) && !HasEmpty(m)
    ensures RespLength(Wire(m) + tail) == Len(|Wire(m)|)
  {
    hide RespLength, Header;
    match m
    case Line(_, _) => SimpleLength(m, tail);
    case Number(_) => SimpleLength(m, tail);
    case BulkText(text) => BulkLength(text, tail);
    case Array(items) =>
      MessagesLength(items, tail, |Header('*', |items|)|);
      Resp.Regroup(Header('*', |items|), WireAll(items), tail);
      ArrayLength(|items|, WireAll(items) + tail);
    case NullBulk =>
      NullLength('$', tail);
      assert Wire(m) + tail == ['$'] + "-1" + CRLF + tail;
    case NullArray =>
      NullLength('*', tail);
      assert Wire(m) + tail == ['*'] + "-1" + CRLF + tail;
  }

  lemma {:induction false} MessagesLength(items: seq<Message>, tail: string, offset: nat)
    requires forall i :: 0 <= i < |items| ==> Proper(items[i]) && !HasEmpty(items[i])
    ensures ItemsLength(WireAll(items) + tail, |items|, offset) == Len(offset + |WireAll(items)|)
  {
    hide RespLength, Wire;
    if items != [] {
      MessageLength(items[0], WireAll(items[1..]) + tail);
      MessagesLength(items[1..], tail, offset + |Wire(items[0])|);
      Resp.Regroup(Wire(items[0]), WireAll(items[1..]), tail);
      WireSome(items[0]);
    }
  }

  lemma WireSome(m: Message)
    ensures |Wire(m)| >= 3
  {
    if m.BulkText? || m.Array? { PrintShape(if m.Array? then |m.items| else |m.text|); }
  }

  lemma LineShort(line: string, k: nat)
    requires line != "" && '\r' !in line && k < |line| + 2
    ensures RespLength((line + CRLF)[..k]) == NotFound
  {
    hide Atoi, FindCrlf;
    if k >= 3 { NoCrlf((line + CRLF)[..k], 1); }
  }

  lemma BulkShort(text: string, k: nat)
    requires 0 < |text| <= INT_MAX && k < |Resp.Bulk(text)|
    ensures RespLength(Resp.Bulk(text)[..k]) == NotFound
  {
    hide FindCrlf, Atoi, Print;
    var head := "$" + Print(|text|);
    PrintShape(|text|);
    if k < |head| + 2 {
      LineShort(head, k);
      assert Resp.Bulk(text)[..k] == (head + CRLF)[..k];
    } else {
      var rest := Resp.Bulk(text)[..k][|head| + 2..];
      LengthHeader('$', |text|, rest);
      assert Resp.Bulk(text)[..k] == ['$'] + Print(|text|) + CRLF + rest;
    }
  }

  /** Nor does it take a strict prefix of such a message for one. */
  lemma {:induction false} MessageShort(m: Message, k: nat)
    requires Proper(m) && !HasEmpty(m) && k < |Wire(m)|
    ensures RespLength(Wire(m)[..k]) == NotFound
  {
    hide RespLength, Header;
    match m
    case Line(kind, text) => LineShort([kind] + text, k);
    case Number(digits) => LineShort(":" + digits, k);
    case BulkText(text) => BulkShort(text, k);
    case Array(items) =>
      var head := Header('*', |items|);
      if k < |head| {
        HeadShort(|items|, k);
        assert Wire(m)[..k] == head[..k];
      } else {
        ArrayLength(|items|, WireAll(items)[..k - |head|]);
        MessagesShort(items, k - |head|, |head|);
        assert Wire(m)[..k] == head + WireAll(items)[..k - |head|];
      }
    case NullBulk =>
      LineShort("$-1", k);
      assert Wire(m) == "$-1" + CRLF;
    case NullArray =>
      LineShort("*-1", k);
      assert Wire(m) == "*-1" + CRLF;
  }

  lemma HeadShort(n: nat, k: nat)
    requires k < |Header('*', n)|
    ensures RespLength(Header('*', n)[..k]) == NotFound
  {
    hide RespLength, Print;
    PrintShape(n);
    LineShort("*" + Print(n), k);
    assert Header('*', n) == "*" + Print(n) + CRLF;
  }

  lemma {:induction false} MessagesShort(items: seq<Message>, k: nat, offset: nat)
    requires k < |WireAll(items)| && forall i :: 0 <= i < |items| ==> Proper(items[i]) && !HasEmpty(items[i])
    ensures ItemsLength(WireAll(items)[..k], |items|, offset) == NotFound
  {
    hide RespLength, Wire;
    var first, buf := Wire(items[0]), WireAll(items)[..k];
    if k < |first| {
      MessageShort(items[0], k);
      assert buf == first[..k];
    } else {
      var rest := WireAll(items[1..])[..k - |first|];
      MessageLength(items[0], rest);
      MessagesShort(items[1..], k - |first|, offset + |first|);
      assert buf == first + rest && buf[|first|..] == rest;
    }
  }

  /** A header of 32 characters or more, or a number that is no int, is too much for it. */
  lemma LengthOverflows(kind: char, n: int, rest: string)
    requires kind in "$*"
    requires |Print(n)| >= 32 || !(-INT_MAX - 1 <= n <= INT_MAX)
    ensures RespLength([kind] + Print(n) + CRLF + rest) == Overflow
  {
    hide FindCrlf, Scan, Print;
    PrintShape(n);
    var buf := [kind] + Print(n) + CRLF + rest;
    ScanPrint(n, "");
    assert Print(n) + "" == Print(n) && buf[1..|Print(n)| + 1] == Print(n);
    CrlfIs(buf, 1, |Print(n)| + 1);
  }

  // ---------- resp_decode ----------

  /** What is not an array is rejected, and with it every buffer that it is in front of. */
  lemma NoArray(buf: string)
    requires buf == "" || buf[0] != '*'
    ensures Decode(buf) == Rejected
  {
  }

  lemma DecodeHead(n: nat, rest: string)
    requires n <= INT_MAX
    ensures Decode(Header('*', n) + rest) == DecodeItems(rest, n, [])
  {
    hide Scan, Find, Print, DecodeItems;
    HeaderDecode('*', n, rest);
    assert (Header('*', n) + rest)[|Header('*', n)|..] == rest;
  }

  /** The bulk strings in front of the rest are taken. */
  lemma {:induction false} DecodeFront(args: seq<string>, rest: string, n: nat, argv: seq<string>)
    requires Fits(args) && |args| <= n
    ensures DecodeItems(BulkAll(args) + rest, n, argv) == DecodeItems(rest, n - |args|, argv + args)
    decreases |args|
  {
    hide NextArgument, Resp.Bulk;
    if args == [] {
      assert argv + args == argv && "" + rest == rest;
    } else {
      BulkDecode(args[0], BulkAll(args[1..]) + rest);
      Resp.Regroup(Resp.Bulk(args[0]), BulkAll(args[1..]), rest);
      DecodeFront(args[1..], rest, n - 1, argv + [args[0]]);
      assert argv + [args[0]] + args[1..] == argv + args;
    }
  }

  lemma DecodeMore(n: nat, args: seq<string>, rest: string)
    requires Fits(args) && |args| <= n <= INT_MAX
    ensures Decode(Header('*', n) + BulkAll(args) + rest) == DecodeItems(rest, n - |args|, args)
  {
    hide Decode, Header, DecodeItems, BulkAll;
    Resp.Regroup(Header('*', n), BulkAll(args), rest);
    DecodeHead(n, BulkAll(args) + rest);
    DecodeFront(args, rest, n, []);
    assert [] + args == args;
  }

  /** An array with an item that is no bulk string, or that ends before an item, is rejected. */
  lemma OtherItem(n: nat, args: seq<string>, rest: string)
    requires Fits(args) && |args| < n <= INT_MAX && (rest == "" || rest[0] != '$')
    ensures Decode(Header('*', n) + BulkAll(args) + rest) == Rejected
  {
    hide Decode, Header, BulkAll;
    DecodeMore(n, args, rest);
  }

  /** An item that is cut short: its text is read past the end; without its CRLF it is taken
      as the last item, and otherwise the next one is read past the end. */
  lemma CutItem(n: nat, args: seq<string>, len: nat, part: string)
    requires Fits(args) && |args| < n <= INT_MAX && len <= INT_MAX && |part| < len + 2
    ensures Decode(Header('*', n) + BulkAll(args) + (Header('$', len) + part)) ==
            if |part| >= len && |args| + 1 == n then Args(args + [part[..len]]) else Overrun
  {
    hide Decode, Header, BulkAll, DecodeItems, NextArgument;
    DecodeMore(n, args, Header('$', len) + part);
    CutArgument(len, part);
    LastItems(Header('$', len) + part, n - |args|, args);
  }

  lemma LastItems(p: string, n: nat, argv: seq<string>)
    requires n > 0
    ensures match NextArgument(p)
            case Unread => DecodeItems(p, n, argv) == Overrun
            case Argument(arg, None) => DecodeItems(p, n, argv) == if n == 1 then Args(argv + [arg]) else Overrun
            case _ => true
  {
    hide NextArgument;
  }

  lemma CutArgument(len: nat, part: string)
    requires len <= INT_MAX && |part| < len + 2
    ensures NextArgument(Header('$', len) + part) == if |part| >= len then Argument(part[..len], None) else Unread
  {
    hide Scan, Find, Print;
    HeaderDecode('$', len, part);
    var head := Header('$', len);
    if |part| >= len { assert (head + part)[|head|..|head| + len] == part[..len]; }
  }

  /** A null or negative length is never read as one, and neither is such a count. */
  lemma NegativeRead(n: nat, args: seq<string>, len: int, rest: string)
    requires Fits(args) && |args| < n <= INT_MAX && len < 0
    ensures Decode(Header('*', n) + BulkAll(args) + ("$" + Print(len) + CRLF + rest)) == Overrun
    ensures Decode("*" + Print(len) + CRLF + rest) == Overrun
  {
    hide Decode, Header, BulkAll, DecodeItems, NextArgument, Print;
    var p := "$" + Print(len) + CRLF + rest;
    DecodeMore(n, args, p);
    NegativeCount(len, rest);
    LastItems(p, n - |args|, args);
  }

  lemma NegativeCount(len: int, rest: string)
    requires len < 0
    ensures NextArgument("$" + Print(len) + CRLF + rest) == Unread
    ensures Decode("*" + Print(len) + CRLF + rest) == Overrun
  {
    hide Scan, Find, Print, DecodeItems;
    ScanPrint(len, CRLF + rest);
    assert ("$" + Print(len) + CRLF + rest)[1..] == Print(len) + (CRLF + rest);
    assert ("*" + Print(len) + CRLF + rest)[1..] == Print(len) + (CRLF + rest);
  }
}
