/** Decimal text as the C library writes and reads it: printf("%d") and strtol.
    Characters stand for bytes; a C string is a sequence without the final NUL. */
module Decimal {

  const LONG_MAX: int := 0x7FFF_FFFF_FFFF_FFFF
  const LONG_MIN: int := -0x8000_0000_0000_0000
  const INT_MAX: int := 0x7FFF_FFFF

  predicate IsLong(n: int) { LONG_MIN <= n <= LONG_MAX }

  predicate IsDigit(c: char) { '0' <= c <= '9' }

  /** isspace in the C locale. */
  predicate IsSpace(c: char) { c == ' ' || 9 <= c as int <= 13 }

  predicate AllDigits(s: string) { forall i :: 0 <= i < |s| ==> IsDigit(s[i]) }

  function Digit(d: nat): char
    requires d < 10
  {
    ('0' as int + d) as char
  }

  function Digits(n: nat): string
  {
    if n < 10 then [Digit(n)] else Digits(n / 10) + [Digit(n % 10)]
  }

  /** printf("%ld", n) */
  function Print(n: int): string {
    if n < 0 then "-" + Digits(-n) else Digits(n)
  }

  function Number(s: string): nat
    requires AllDigits(s)
  {
    if s == "" then 0
    else 10 * Number(s[..|s| - 1]) + (s[|s| - 1] as int - '0' as int)
  }

  /** How many characters at the front of s are white space. */
  function Spaces(s: string): (n: nat)
    ensures n <= |s|
  {
    if s != "" && IsSpace(s[0]) then 1 + Spaces(s[1..]) else 0
  }

  /** How many characters at the front of s are digits. */
  function DigitRun(s: string): (n: nat)
    ensures n <= |s| && AllDigits(s[..n])
    ensures n < |s| ==> !IsDigit(s[n])
  {
    if s != "" && IsDigit(s[0]) then 1 + DigitRun(s[1..]) else 0
  }

  function Clip(n: int): int {
    if n < LONG_MIN then LONG_MIN else if n > LONG_MAX then LONG_MAX else n
  }

  /** What strtol(s, &end, 10) finds: the unclipped value and how far it read;
      `used` is 0 when there is no number. */
  datatype Scanned = Scanned(value: int, used: nat)

  function Scan(s: string): (r: Scanned)
    ensures r.used <= |s|
  {
    var w := Spaces(s);
    var t := s[w..];
    if t != "" && t[0] == '-' then ScanDigits(t[1..], w + 1, true)
    else if t != "" && t[0] == '+' then ScanDigits(t[1..], w + 1, false)
    else ScanDigits(t, w, false)
  }

  /** The digits at the front of t, a text that starts at position `at`. */
  function ScanDigits(t: string, at: nat, negative: bool): (r: Scanned)
    ensures r.used <= at + |t|
  {
    var n := DigitRun(t);
    var v: int := Number(t[..n]);
    if n == 0 then Scanned(0, 0) else Scanned(if negative then -v else v, at + n)
  }

  function Strtol(s: string): int { Clip(Scan(s).value) }

  lemma {:induction false} DigitsShape(n: nat)
    ensures |Digits(n)| > 0 && AllDigits(Digits(n))
    ensures Number(Digits(n)) == n
  {
    if n < 10 {
      assert Digits(n)[..0] == "";
    } else {
      DigitsShape(n / 10);
      assert Digits(n)[..|Digits(n)| - 1] == Digits(n / 10);
    }
  }

  lemma {:induction false} DigitRunOf(s: string, tail: string)
    requires AllDigits(s)
    requires tail == "" || !IsDigit(tail[0])
    ensures DigitRun(s + tail) == |s|
  {
    if s == "" {
      assert s + tail == tail;
    } else {
      DigitRunOf(s[1..], tail);
      assert (s + tail)[1..] == s[1..] + tail;
    }
  }

  lemma ScanDigitsOf(d: string, tail: string, at: nat, negative: bool)
    requires d != "" && AllDigits(d)
    requires tail == "" || !IsDigit(tail[0])
    ensures ScanDigits(d + tail, at, negative) ==
            Scanned(if negative then -(Number(d) as int) else Number(d), at + |d|)
  {
    hide DigitRun, Number;
    DigitRunOf(d, tail);
    assert (d + tail)[..|d|] == d;
  }

  /** strtol reads back exactly what printf wrote, whatever follows it. */
  lemma ScanPrint(n: int, tail: string)
    requires tail == "" || !IsDigit(tail[0])
    ensures Scan(Print(n) + tail) == Scanned(n, |Print(n)|)
    ensures IsLong(n) ==> Strtol(Print(n) + tail) == n
  {
    hide Digits, ScanDigits;
    var m := if n < 0 then -n else n;
    DigitsShape(m);
    ScanDigitsOf(Digits(m), tail, if n < 0 then 1 else 0, n < 0);
    var s := Print(n) + tail;
    assert Spaces(s) == 0;
    assert s[0..] == s;
    if n < 0 { assert s[1..] == Digits(m) + tail; }
  }

  /** A number outside the range of a long is read as the nearest end of it. */
  lemma StrtolClips(n: int, tail: string)
    requires tail == "" || !IsDigit(tail[0])
    ensures Strtol(Print(n) + tail) ==
            if n > 9223372036854775807 then 9223372036854775807
            else if n < -9223372036854775808 then -9223372036854775808 else n
  {
    hide Scan, Print;
    ScanPrint(n, tail);
  }

  lemma {:induction false} SpacesOf(s: string, tail: string)
    requires Spaces(s) < |s|
    ensures Spaces(s + tail) == Spaces(s)
  {
    if IsSpace(s[0]) {
      SpacesOf(s[1..], tail);
      assert (s + tail)[1..] == s[1..] + tail;
    }
  }

  lemma ScanDigitsWhole(t: string, tail: string, at: nat, negative: bool)
    requires t != "" && ScanDigits(t, at, negative).used == at + |t|
    requires tail == "" || !IsDigit(tail[0])
    ensures ScanDigits(t + tail, at, negative) == ScanDigits(t, at, negative)
  {
    hide DigitRun, Number;
    assert t[..|t|] == t;
    DigitRunOf(t, tail);
    assert (t + tail)[..|t|] == t;
  }

  /** A text that is one whole number reads the same with a non-digit after it. */
  lemma ScanWhole(s: string, tail: string)
    requires s != "" && Scan(s).used == |s|
    requires tail == "" || !IsDigit(tail[0])
    ensures Scan(s + tail) == Scan(s)
  {
    hide ScanDigits, Spaces;
    var w := Spaces(s);
    var t := s[w..];
    if w == |s| {
      ScanNothing(w);
    } else {
      SpacesOf(s, tail);
      assert (s + tail)[w..] == t + tail;
      if t[0] == '-' || t[0] == '+' {
        assert (t + tail)[1..] == t[1..] + tail;
        if t[1..] == "" { ScanNothing(w + 1); }
        ScanDigitsWhole(t[1..], tail, w + 1, t[0] == '-');
      } else {
        ScanDigitsWhole(t, tail, w, false);
      }
    }
  }

  lemma ScanNothing(at: nat)
    ensures forall negative :: ScanDigits("", at, negative).used == 0
  {
  }

  function Pow10(k: nat): nat { if k == 0 then 1 else 10 * Pow10(k - 1) }

  lemma {:induction false} DigitsLength(n: nat, k: nat)
    requires k > 0 && n < Pow10(k)
    ensures |Digits(n)| <= k
  {
    if n >= 10 {
      assert k > 1;
      DigitsLength(n / 10, k - 1);
    }
  }
}
