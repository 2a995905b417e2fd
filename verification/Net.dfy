/** The second message parser, getRespLength, and exactly when it agrees with respParse. */
module Net {
  import opened Decimal
  import opened Wrappers
  import opened Resp

  /** `Overflow`: the header does not fit the 32-byte buffer or the number not an int. */
  datatype Length = Len(n: nat) | NotFound | Overflow

  const LENGTH_BUFFER := 32

  /** Position of the first CRLF at or after i that ends within the buffer, or |buf|. */
  function FindCrlf(buf: string, i: nat): (r: nat)
    requires i <= |buf|
    ensures i <= r <= |buf|
    ensures r < |buf| ==> r + 1 < |buf| && buf[r] == '\r' && buf[r + 1] == '\n'
    ensures forall j :: i <= j < r && j + 1 < |buf| ==> !(buf[j] == '\r' && buf[j + 1] == '\n')
    decreases |buf| - i
  {
    if i + 1 >= |buf| then |buf|
    else if buf[i] == '\r' && buf[i + 1] == '\n' then i
    else FindCrlf(buf, i + 1)
  }

  /** atoi, where its result is specified. */
  function Atoi(s: string): Option<int> {
    var v := Scan(s).value;
    if -INT_MAX - 1 <= v <= INT_MAX then Some(v) else None
  }

  function RespLength(buf: string): (r: Length)
    ensures r.Len? ==> 3 <= r.n <= |buf|
    decreases |buf|, 0, 0
  {
    if |buf| < 3 then NotFound
    else if buf[0] !in "+-:$*" then NotFound
    else
      var i := FindCrlf(buf, 1);
      if i == |buf| then NotFound
      else if buf[0] in "+-:" then Len(i + 2)
      else if i - 1 >= LENGTH_BUFFER then Overflow
      else match Atoi(buf[1..i])
        case None => Overflow
        case Some(n) =>
          if n <= 0 then Len(i + 2)
          else if buf[0] == '$' then
            var end := i + 2 + n;
            if |buf| < end + 2 then NotFound
            else if buf[end] == '\r' && buf[end + 1] == '\n' then Len(end + 2)
            else NotFound
          else ItemsLength(buf[i + 2..], n, i + 2)
  }

  /** `count` elements at the front of buf, which starts `offset` bytes into the message. */
  function ItemsLength(buf: string, count: int, offset: nat): (r: Length)
    ensures r.Len? ==> offset <= r.n <= offset + |buf|
    decreases |buf|, 1, count
  {
    if count <= 0 then Len(offset)
    else if buf == "" then NotFound
    else match RespLength(buf)
      case Len(n) => ItemsLength(buf[n..], count - 1, offset + n)
      case other => other
  }

  /** getRespLength as written: a scan for the line end, then an offset over the elements. */
  method GetRespLength(buf: string) returns (r: Length)
    ensures r == RespLength(buf)
    decreases |buf|, 0
  {
    if |buf| < 3 || buf[0] !in "+-:$*" { return NotFound; }
    var i := 1;
    while i < |buf| - 1
      invariant 1 <= i <= |buf| - 1 && FindCrlf(buf, 1) == FindCrlf(buf, i)
    {
      if buf[i] == '\r' && buf[i + 1] == '\n' { break; }
      i := i + 1;
    }
    if i == |buf| - 1 { return NotFound; }
    if buf[0] in "+-:" { return Len(i + 2); }
    if i - 1 >= LENGTH_BUFFER { return Overflow; }
    var n := Atoi(buf[1..i]);
    if n.None? { return Overflow; }
    var prefix := i + 2;
    if n.value <= 0 { return Len(prefix); }
    if buf[0] == '$' {
      if |buf| < prefix + n.value + 2 { return NotFound; }
      if buf[prefix + n.value] == '\r' && buf[prefix + n.value + 1] == '\n' { return Len(prefix + n.value + 2); }
      return NotFound;
    }
    r := GetItemsLength(buf[prefix..], n.value, prefix);
  }

  /** The element loop of getRespLength. */
  method GetItemsLength(buf: string, count: int, prefix: nat) returns (r: Length)
    ensures r == ItemsLength(buf, count, prefix)
    decreases |buf|, 1
  {
    hide RespLength;
    var offset := 0;
    var j := 0;
    assert buf[0..] == buf;
    while j < count
      invariant 0 <= offset <= |buf| && 0 <= j && (j <= count || count < 0)
      invariant ItemsLength(buf, count, prefix) == ItemsLength(buf[offset..], count - j, prefix + offset)
    {
      if offset >= |buf| { return NotFound; }
      var elem := GetRespLength(buf[offset..]);
      if !elem.Len? { return elem; }
      assert buf[offset..][elem.n..] == buf[offset + elem.n..];
      offset := offset + elem.n;
      j := j + 1;
    }
    return Len(prefix + offset);
  }

  // ---------- Agreement with respParse ----------

  /** The text between the type byte and the line end of a framed message. */
  function HeaderText(buf: string): string
    requires RespParse(buf).Took?
  {
    buf[1..LineEnd(buf).value - 1]
  }

  predicate DecimalHeader(h: string) {
    h != "" && |h| < LENGTH_BUFFER && Scan(h).used == |h| && Atoi(h).Some?
  }

  /** All length and count headers of a framed message are decimal, nested ones too. */
  predicate Headed(buf: string)
    requires RespParse(buf).Took?
    decreases |buf|, 0, 0
  {
    var h := LineEnd(buf).value + 1;
    && (buf[0] in "$*" ==> DecimalHeader(HeaderText(buf)))
    && (buf[0] == '*' ==> HeadedItems(buf[h..], Strtol(buf[1..])))
  }

  predicate HeadedItems(buf: string, count: int)
    requires ParseItems(buf, count).Took?
    decreases |buf|, 1, count
  {
    count > 0 ==> Headed(buf) && HeadedItems(buf[RespParse(buf).n..], count - 1)
  }

  /** No bulk string of length zero anywhere in a framed message. */
  predicate NoEmptyBulk(buf: string)
    requires RespParse(buf).Took?
    decreases |buf|, 0, 0
  {
    var h := LineEnd(buf).value + 1;
    && (buf[0] == '$' ==> Strtol(buf[1..]) != 0)
    && (buf[0] == '*' ==> NoEmptyBulks(buf[h..], Strtol(buf[1..])))
  }

  predicate NoEmptyBulks(buf: string, count: int)
    requires ParseItems(buf, count).Took?
    decreases |buf|, 1, count
  {
    count > 0 ==> NoEmptyBulk(buf) && NoEmptyBulks(buf[RespParse(buf).n..], count - 1)
  }

  lemma CrlfAtLineEnd(buf: string)
    requires RespParse(buf).Took?
    ensures FindCrlf(buf, 1) == LineEnd(buf).value - 1
  {
    var r := Find(buf[..|buf| - 1], '\r');
    assert forall j :: 0 <= j < r ==> buf[j] == buf[..|buf| - 1][j] && buf[j] != '\r';
  }

  lemma TookLine(buf: string)
    requires RespParse(buf).Took?
    ensures |buf| >= 3 && buf[0] in "+-:$*" && LineEnd(buf).Some? && 2 <= LineEnd(buf).value < |buf|
    ensures buf[LineEnd(buf).value - 1] == '\r'
  {
    hide LineEnd, Strtol, ParseItems;
    var e := LineEnd(buf).value;
    assert buf[e - 1] == '\r' && buf[0] != '\r';
  }

  lemma HeaderSplit(buf: string)
    requires RespParse(buf).Took?
    ensures LineEnd(buf).Some? && 1 <= LineEnd(buf).value - 1 < |buf|
    ensures var rest := buf[LineEnd(buf).value - 1..];
            buf[1..] == HeaderText(buf) + rest && rest[0] == '\r'
  {
    hide RespParse, LineEnd;
    TookLine(buf);
  }

  lemma TookNumber(h: string, rest: string)
    requires DecimalHeader(h) && rest != "" && rest[0] == '\r'
    ensures Atoi(h) == Some(Strtol(h + rest))
  {
    hide Scan;
    ScanWhole(h, rest);
  }

  lemma HeaderNumber(buf: string)
    requires RespParse(buf).Took? && DecimalHeader(HeaderText(buf))
    ensures Atoi(HeaderText(buf)) == Some(Strtol(buf[1..]))
  {
    hide RespParse, LineEnd, HeaderText, DecimalHeader, Atoi, Strtol;
    HeaderSplit(buf);
    TookNumber(HeaderText(buf), buf[LineEnd(buf).value - 1..]);
  }

  /** Every framed message ends with CRLF. */
  lemma {:induction false} EndsWithCrlf(buf: string)
    requires RespParse(buf).Took?
    ensures var n := RespParse(buf).n; buf[n - 2] == '\r' && buf[n - 1] == '\n'
    decreases |buf|, 0, 0
  {
    hide LineEnd, Strtol;
    var h := LineEnd(buf).value + 1;
    if buf[0] == '*' {
      var count := Strtol(buf[1..]);
      if count > 0 { ItemsEndWithCrlf(buf[h..], count); }
    }
  }

  lemma {:induction false} ItemsEndWithCrlf(buf: string, count: int)
    requires ParseItems(buf, count).Took? && count > 0
    ensures var n := ParseItems(buf, count).n; n >= 2 && buf[n - 2] == '\r' && buf[n - 1] == '\n'
    decreases |buf|, 1, count
  {
    hide RespParse;
    EndsWithCrlf(buf);
    var n := RespParse(buf).n;
    if count > 1 { ItemsEndWithCrlf(buf[n..], count - 1); }
  }

  /** getRespLength on a line that ends at i with the number n. */
  lemma LengthOfLine(buf: string, i: nat, n: int)
    requires |buf| >= 3 && buf[0] in "+-:$*" && 1 <= i && FindCrlf(buf, 1) == i && i + 1 < |buf|
    requires buf[0] in "$*" ==> i - 1 < LENGTH_BUFFER && Atoi(buf[1..i]) == Some(n)
    ensures RespLength(buf) ==
            if buf[0] !in "$*" || n <= 0 then Len(i + 2)
            else if buf[0] == '*' then ItemsLength(buf[i + 2..], n, i + 2)
            else if i + 2 + n + 2 <= |buf| && buf[i + 2 + n] == '\r' && buf[i + 2 + n + 1] == '\n' then Len(i + n + 4)
            else NotFound
  {
    hide Atoi, ItemsLength, FindCrlf;
  }

  /** getRespLength on a framed message, kind by kind. */
  lemma LengthOf(buf: string)
    requires RespParse(buf).Took? && (buf[0] in "$*" ==> DecimalHeader(HeaderText(buf)))
    ensures LineEnd(buf).Some?
    ensures var e, n := LineEnd(buf).value, Strtol(buf[1..]);
            && 2 <= e < |buf|
            && RespLength(buf) ==
               if buf[0] !in "$*" || n <= 0 then Len(e + 1)
               else if buf[0] == '*' then ItemsLength(buf[e + 1..], n, e + 1)
               else if e + 1 + n + 2 <= |buf| && buf[e + 1 + n] == '\r' && buf[e + 1 + n + 1] == '\n' then Len(e + n + 3)
               else NotFound
  {
    hide RespParse, RespLength, Strtol, LineEnd, Atoi, FindCrlf, ItemsLength, Scan;
    CrlfAtLineEnd(buf);
    TookLine(buf);
    if buf[0] in "$*" { HeaderNumber(buf); }
    LengthOfLine(buf, LineEnd(buf).value - 1, Strtol(buf[1..]));
  }

  /** respParse on a message that it accepts, kind by kind. */
  lemma FrameOf(buf: string)
    requires RespParse(buf).Took?
    ensures LineEnd(buf).Some?
    ensures var e, n := LineEnd(buf).value, Strtol(buf[1..]);
            match buf[0]
            case '$' =>
              if n == -1 then RespParse(buf) == Took(e + 1)
              else n >= 0 && e + n + 2 < |buf| && buf[e + 1 + n] == '\r' && buf[e + 1 + n + 1] == '\n' && RespParse(buf) == Took(e + n + 3)
            case '*' =>
              n != 0 && ParseItems(buf[e + 1..], n).Took? && RespParse(buf) == Took(e + 1 + ParseItems(buf[e + 1..], n).n)
            case _ => RespParse(buf) == Took(e + 1)
  {
    hide LineEnd, Strtol, ParseItems;
  }

  lemma {:induction false} NoItems(buf: string, count: int)
    requires count <= 0
    ensures ParseItems(buf, count) == Took(0) && NoEmptyBulks(buf, count)
  {
  }

  /** For a message that respParse accepts, with decimal headers: getRespLength returns the
      same length if and only if no bulk string in it is empty; otherwise it finds no
      message or stops two bytes short. */
  lemma {:induction false} ParsersAgree(buf: string)
    requires RespParse(buf).Took? && Headed(buf)
    ensures RespLength(buf) == Len(RespParse(buf).n) <==> NoEmptyBulk(buf)
    ensures !NoEmptyBulk(buf) ==> RespLength(buf) == NotFound || RespLength(buf) == Len(RespParse(buf).n - 2)
    decreases |buf|, 0, 0
  {
    hide RespParse, RespLength, Strtol, LineEnd, DecimalHeader, HeaderText, HeadedItems, NoEmptyBulks, ParseItems, ItemsLength;
    LengthOf(buf);
    FrameOf(buf);
    if buf[0] == '*' {
      var h := LineEnd(buf).value + 1;
      ItemsAgree(buf[h..], Strtol(buf[1..]), h);
      if Strtol(buf[1..]) <= 0 { NoItems(buf[h..], Strtol(buf[1..])); }
    }
  }

  lemma {:induction false} ItemsAgree(buf: string, count: int, offset: nat)
    requires ParseItems(buf, count).Took? && HeadedItems(buf, count)
    ensures ItemsLength(buf, count, offset) == Len(offset + ParseItems(buf, count).n) <==> NoEmptyBulks(buf, count)
    ensures !NoEmptyBulks(buf, count) ==>
              ItemsLength(buf, count, offset) == NotFound ||
              (ParseItems(buf, count).n >= 2 && ItemsLength(buf, count, offset) == Len(offset + ParseItems(buf, count).n - 2))
    decreases |buf|, 1, count
  {
    hide RespParse, RespLength, NoEmptyBulk, Headed;
    if count > 0 {
      var n := RespParse(buf).n;
      ParsersAgree(buf);
      EndsWithCrlf(buf);
      if NoEmptyBulk(buf) {
        ItemsAgree(buf[n..], count - 1, offset + n);
      } else if RespLength(buf) == Len(n - 2) && count > 1 {
        NoMessageAtCr(buf[n - 2..]);
      }
    }
  }

  lemma NoMessageAtCr(buf: string)
    requires buf != "" && buf[0] == '\r'
    ensures RespLength(buf) == NotFound
  {
  }
}
