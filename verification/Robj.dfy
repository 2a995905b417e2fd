/** String objects: the value encoding chosen when a value is stored, and the text
    it is shown as. */
module Robj {
  import opened Decimal
  import opened Wrappers

  /** An object of type REDIS_STRING by its encoding. */
  datatype Robj = Int(n: int) | Embstr(s: string) | Raw(s: string)

  const EMBSTR_LIMIT := 32
  const VALSTR_BUFFER := 1024

  predicate IsHex(c: char) { IsDigit(c) || 'a' <= c <= 'f' || 'A' <= c <= 'F' }

  predicate AllHex(s: string) { forall i :: 0 <= i < |s| ==> IsHex(s[i]) }

  function HexNumber(s: string): nat
    requires AllHex(s)
  {
    if s == "" then 0
    else
      var c := s[|s| - 1];
      var d: int := if IsDigit(c) then c as int - '0' as int
                    else if 'a' <= c <= 'f' then c as int - 'a' as int + 10
                    else c as int - 'A' as int + 10;
      16 * HexNumber(s[..|s| - 1]) + d
  }

  /** _string2l: the whole text must be one number in the range of a long. */
  function StringToLong(s: string): Option<int> {
    if |s| >= 2 && s[0] == '0' && (s[1] == 'x' || s[1] == 'X') then
      if |s| > 2 && AllHex(s[2..]) && IsLong(HexNumber(s[2..])) then Some(HexNumber(s[2..])) else None
    else
      var r := Scan(s);
      if r.used == |s| && s != "" && IsLong(r.value) then Some(r.value) else None
  }

  /** robjCreateStringObject */
  function Create(s: string): Robj {
    match StringToLong(s)
    case Some(n) => Int(n)
    case None => if |s| < EMBSTR_LIMIT then Embstr(s) else Raw(s)
  }

  /** robjGetValStr: copies into a zeroed buffer of VALSTR_BUFFER bytes, keeping the last for NUL. */
  function Show(v: Robj): string {
    match v
    case Int(n) => Print(n)
    case _ => if |v.s| < VALSTR_BUFFER then v.s else v.s[..VALSTR_BUFFER - 1]
  }

  /** The objects that storing some text can produce. */
  ghost predicate Canonical(v: Robj) { exists s :: Create(s) == v }

  lemma CreatePrint(n: int)
    requires IsLong(n)
    ensures Create(Print(n)) == Int(n)
  {
    ScanPrint(n, "");
    assert Print(n) + "" == Print(n);
    var m := if n < 0 then -n else n;
    DigitsShape(m);
    if |Print(n)| >= 2 && n >= 0 {
      assert IsDigit(Print(n)[1]);
    }
  }

  /** Exactly which texts come back unchanged: numbers in printf form, and other text
      that fits the reply buffer. */
  lemma ShowCreate(s: string)
    ensures Show(Create(s)) == s <==>
            (match StringToLong(s) case Some(n) => s == Print(n) case None => |s| < VALSTR_BUFFER)
  {
  }

  /** Canonical means: an integer in range, or text that does not read as one, split by length. */
  lemma CanonicalIff(v: Robj)
    ensures Canonical(v) <==>
            match v
            case Int(n) => IsLong(n)
            case Embstr(s) => StringToLong(s).None? && |s| < EMBSTR_LIMIT
            case Raw(s) => StringToLong(s).None? && |s| >= EMBSTR_LIMIT
  {
    match v
    case Int(n) =>
      if IsLong(n) { CreatePrint(n); }
    case Embstr(s) =>
      if StringToLong(s).None? && |s| < EMBSTR_LIMIT { assert Create(s) == v; }
    case Raw(s) =>
      if StringToLong(s).None? && |s| >= EMBSTR_LIMIT { assert Create(s) == v; }
  }

  // ---------- Hexadecimal text, and decimal text that printf does not write ----------

  function HexDigit(d: nat, capital: bool): char
    requires d < 16
  {
    if d < 10 then ('0' as int + d) as char else (if capital then 'A' as int + d - 10 else 'a' as int + d - 10) as char
  }

  /** n in hexadecimal, in small or capital letters. */
  function HexDigits(n: nat, capital: bool): string
  {
    if n < 16 then [HexDigit(n, capital)] else HexDigits(n / 16, capital) + [HexDigit(n % 16, capital)]
  }

  lemma {:induction false} HexRead(n: nat, capital: bool)
    ensures HexDigits(n, capital) != "" && AllHex(HexDigits(n, capital)) && HexNumber(HexDigits(n, capital)) == n
  {
    var s := HexDigits(n, capital);
    if n < 16 {
      assert s[..0] == "";
    } else {
      HexRead(n / 16, capital);
      assert s[..|s| - 1] == HexDigits(n / 16, capital);
    }
  }

  /** A text in hexadecimal, after 0x or 0X, is stored as its number; beyond a long, as text. */
  lemma CreateHex(n: nat, capital: bool, x: char)
    requires x == 'x' || x == 'X'
    ensures var s := ['0', x] + HexDigits(n, capital);
            if n <= LONG_MAX then Create(s) == Int(n) else !Create(s).Int? && Create(s).s == s
  {
    hide HexNumber, HexDigits, AllHex;
    HexRead(n, capital);
    var s := ['0', x] + HexDigits(n, capital);
    assert s[2..] == HexDigits(n, capital);
  }

  function Zeros(k: nat): string { seq(k, i => '0') }

  lemma {:induction false} ZerosRead(k: nat, s: string)
    requires AllDigits(s)
    ensures AllDigits(Zeros(k) + s) && Number(Zeros(k) + s) == Number(s)
    decreases |s|
  {
    var t := Zeros(k) + s;
    if s == "" {
      assert t == Zeros(k);
      ZerosNumber(k);
    } else {
      assert t[..|t| - 1] == Zeros(k) + s[..|s| - 1];
      ZerosRead(k, s[..|s| - 1]);
    }
  }

  lemma {:induction false} ZerosNumber(k: nat)
    ensures AllDigits(Zeros(k)) && Number(Zeros(k)) == 0
  {
    if k > 0 {
      assert Zeros(k)[..k - 1] == Zeros(k - 1);
      ZerosNumber(k - 1);
    }
  }

  /** A decimal text with leading zeros, with or without a sign, is stored as its number; beyond
      a long, as text. */
  lemma CreateDecimal(n: nat, k: nat, sign: string)
    requires sign == "" || sign == "+" || sign == "-"
    ensures var s, v := sign + (Zeros(k) + Digits(n)), if sign == "-" then -(n as int) else n;
            if IsLong(v) then Create(s) == Int(v) else !Create(s).Int? && Create(s).s == s
  {
    hide Digits, ScanDigits, Number;
    DigitsShape(n);
    ZerosRead(k, Digits(n));
    var d := Zeros(k) + Digits(n);
    var s := sign + d;
    assert d != "" && AllDigits(d);
    ScanDigitsOf(d, "", if sign == "" then 0 else 1, sign == "-");
    assert d + "" == d;
    assert Spaces(s) == 0 && s[0..] == s;
    if sign != "" { assert s[1..] == d; } else { assert s == d; }
    assert Scan(s) == Scanned(if sign == "-" then -(n as int) else n, |s|);
    assert !(|s| >= 2 && s[0] == '0' && (s[1] == 'x' || s[1] == 'X'));
  }

  // ---------- Text that is no number, and long text ----------

  lemma {:induction false} SpacesFront(w: string, s: string)
    requires (forall i :: 0 <= i < |w| ==> IsSpace(w[i])) && (s == "" || !IsSpace(s[0]))
    ensures Spaces(w + s) == |w|
  {
    if w == "" {
      assert w + s == s;
    } else {
      assert (w + s)[1..] == w[1..] + s;
      SpacesFront(w[1..], s);
    }
  }

  /** White space in front of a number is passed over: blanks, and codes 9 to 13. */
  lemma CreateSpaced(w: string, n: int)
    requires IsLong(n) && forall i :: 0 <= i < |w| ==> w[i] == ' ' || 9 <= w[i] as int <= 13
    ensures Create(w + Print(n)) == Int(n)
  {
    hide Digits, ScanDigits, Number, Spaces;
    var m := if n < 0 then -n else n;
    DigitsShape(m);
    var s := w + Print(n);
    SpacesFront(w, Print(n));
    SpacesFront("", Print(n));
    assert s[|w|..] == Print(n) && Print(n)[0..] == Print(n) && "" + Print(n) == Print(n);
    if n < 0 { assert Print(n)[1..] == Digits(m); }
    ScanDigitsOf(Digits(m), "", if n < 0 then |w| + 1 else |w|, n < 0);
    assert Digits(m) + "" == Digits(m);
    assert Scan(s) == Scanned(n, |s|);
    if w == "" { assert s == Print(n); CreatePrint(n); }
  }

  /** A number with anything behind it that is no digit is text. */
  lemma CreateTail(n: int, tail: string)
    requires tail != "" && !IsDigit(tail[0])
    requires n != 0 || (tail[0] != 'x' && tail[0] != 'X')
    ensures !Create(Print(n) + tail).Int? && Create(Print(n) + tail).s == Print(n) + tail
  {
    hide Digits, Scan;
    ScanPrint(n, tail);
    var m, s := if n < 0 then -n else n, Print(n) + tail;
    DigitsShape(m);
    if |s| >= 2 && s[0] == '0' && (s[1] == 'x' || s[1] == 'X') { ZeroFirst(n, tail); }
  }

  lemma ZeroFirst(n: int, tail: string)
    requires tail != "" && (tail[0] == 'x' || tail[0] == 'X' ==> n != 0)
    ensures var s := Print(n) + tail; !(s[0] == '0' && |s| >= 2 && (s[1] == 'x' || s[1] == 'X'))
  {
    var m := if n < 0 then -n else n;
    DigitsShape(m);
    if n >= 0 && |Digits(n)| >= 2 { assert IsDigit(Digits(n)[1]); }
    if n >= 10 { assert |Digits(n / 10)| > 0 by { DigitsShape(n / 10); } }
  }

  /** Longer text is shown cut to 1023 bytes. */
  lemma ShowCut(v: Robj)
    requires !v.Int?
    ensures Show(v) == if |v.s| <= 1023 then v.s else v.s[..1023]
  {
  }

  /** Short text is kept with its object, from 32 bytes on apart from it. */
  lemma TextSplit(s: string)
    requires !Create(s).Int?
    ensures Create(s) == if |s| <= 31 then Embstr(s) else Raw(s)
  {
  }

  /** White space, a sign or none, and digits. */
  predicate DecimalForm(w: string, sign: string, d: string) {
    && (forall i :: 0 <= i < |w| ==> IsSpace(w[i])) && (sign == "" || sign == "+" || sign == "-")
    && d != "" && AllDigits(d)
  }

  /** 0x or 0X and hexadecimal digits. */
  predicate HexForm(s: string) { |s| > 2 && s[0] == '0' && (s[1] == 'x' || s[1] == 'X') && AllHex(s[2..]) }

  lemma DecimalFormScan(w: string, sign: string, d: string)
    requires DecimalForm(w, sign, d)
    ensures var s := w + sign + d;
            Scan(s) == Scanned(if sign == "-" then -(Number(d) as int) else Number(d), |s|)
  {
    hide ScanDigits, Number, Spaces;
    var s := w + sign + d;
    var t := sign + d;
    assert s == w + t && s[|w|..] == t;
    SpacesFront(w, t);
    if sign != "" { assert t[1..] == d; } else { assert t == d; }
    ScanDigitsOf(d, "", |w| + |sign|, sign == "-");
    assert d + "" == d;
  }

  lemma ScanDecimalForm(s: string) returns (w: string, sign: string, d: string)
    requires s != "" && Scan(s).used == |s|
    ensures DecimalForm(w, sign, d) && s == w + sign + d
  {
    var k := Spaces(s);
    SpacesAre(s);
    w := s[..k];
    sign := if k < |s| && (s[k] == '-' || s[k] == '+') then [s[k]] else "";
    d := s[k + |sign|..];
    assert s[k..][1..] == s[k + 1..] || k == |s|;
    assert d[..|d|] == d;
  }

  lemma {:induction false} SpacesAre(s: string)
    ensures forall i :: 0 <= i < Spaces(s) ==> IsSpace(s[i])
  {
    if s != "" && IsSpace(s[0]) { SpacesAre(s[1..]); }
  }

  /** s is the decimal number n, with white space and a sign in front or without. */
  ghost predicate DecimalOf(s: string, n: int) {
    exists w, sign, d :: DecimalForm(w, sign, d) && s == w + sign + d && n == if sign == "-" then -(Number(d) as int) else Number(d)
  }

  /** Exactly which texts are stored as integers, and as which. */
  lemma CreateIntIff(s: string, n: int)
    ensures Create(s) == Int(n) <==> IsLong(n) && ((HexForm(s) && n == HexNumber(s[2..])) || DecimalOf(s, n))
  {
    hide Scan, HexNumber, AllHex, Number, IsLong;
    if DecimalOf(s, n) {
      var w, sign, d :| DecimalForm(w, sign, d) && s == w + sign + d && n == if sign == "-" then -(Number(d) as int) else Number(d);
      DecimalFormScan(w, sign, d);
      DecimalNotHex(w, sign, d);
    } else if Create(s) == Int(n) && !HexForm(s) {
      var w, sign, d := ScanDecimalForm(s);
      DecimalFormScan(w, sign, d);
    }
  }

  lemma DecimalNotHex(w: string, sign: string, d: string)
    requires DecimalForm(w, sign, d)
    ensures var s := w + sign + d; s != "" && !(|s| >= 2 && s[0] == '0' && (s[1] == 'x' || s[1] == 'X'))
  {
  }
}
