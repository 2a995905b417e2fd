/** The hash of the key tables and of the command table. */
module Djb2 {
  /** A char as C reads it where plain char is signed. */
  function SignedChar(c: char): int {
    var b := c as int % 256;
    if b >= 128 then b - 256 else b
  }

  function HashFrom(h: nat, s: string): nat
    decreases |s|
  {
    if s == "" then h else HashFrom((33 * h + SignedChar(s[0])) % 0x1_0000_0000_0000_0000, s[1..])
  }

  /** dbDictKeyHash and commandDictHashFunction, for keys without NUL. */
  function KeyHash(k: string): nat { HashFrom(5381, k) }

  /** The hash of one byte: 33 times 5381 and the byte, which counts as negative from 128 on. */
  lemma OneByte(c: char)
    requires c < 256 as char
    ensures KeyHash([c]) == 177573 + if c as int < 128 then c as int else c as int - 256
  {
    assert [c][1..] == "";
    assert HashFrom((33 * 5381 + SignedChar(c)) % 0x1_0000_0000_0000_0000, "") == (33 * 5381 + SignedChar(c)) % 0x1_0000_0000_0000_0000;
  }

  /** The hash modulo 32 after the first n bytes, with 33 counted as 1. */
  function Low5(s: string, n: nat): int
    requires n <= |s|
  {
    if n == 0 then 5 else (Low5(s, n - 1) + SignedChar(s[n - 1])) % 32
  }

  lemma {:induction false} HashSnoc(h: nat, s: string, c: char)
    ensures HashFrom(h, s + [c]) == (33 * HashFrom(h, s) + SignedChar(c)) % 0x1_0000_0000_0000_0000
    decreases |s|
  {
    if s == "" {
      assert (s + [c])[1..] == "";
      var g := (33 * h + SignedChar(c)) % 0x1_0000_0000_0000_0000;
      assert HashFrom(g, "") == g;
    } else {
      assert (s + [c])[1..] == s[1..] + [c];
      HashSnoc((33 * h + SignedChar(s[0])) % 0x1_0000_0000_0000_0000, s[1..], c);
    }
  }

  lemma {:induction false} HashLow5(s: string, n: nat)
    requires n <= |s|
    ensures HashFrom(5381, s[..n]) % 32 == Low5(s, n)
  {
    if n > 0 {
      HashLow5(s, n - 1);
      HashSnoc(5381, s[..n - 1], s[n - 1]);
      assert s[..n] == s[..n - 1] + [s[n - 1]];
      var h, c := HashFrom(5381, s[..n - 1]), SignedChar(s[n - 1]);
      hide HashFrom, SignedChar;
      Mod64(33 * h + c);
      Mod33(h, c);
    }
  }

  lemma Mod33(h: nat, c: int)
    ensures (33 * h + c) % 32 == (h % 32 + c) % 32
  {
    assert 33 * h + c == 32 * (h + h / 32) + (h % 32 + c);
  }

  lemma Mod33Codes(a: int, c: int)
    ensures (a % 32 + c) % 32 == (a + c) % 32
  {
    assert a + c == 32 * (a / 32) + (a % 32 + c);
  }

  lemma AsciiChar(c: char)
    requires c < 128 as char
    ensures SignedChar(c) == c as int
  {
  }

  /** For ASCII names that is the sum of their codes, and 5. */
  function Codes(s: string, n: nat): nat
    requires n <= |s|
  {
    if n == 0 then 5 else Codes(s, n - 1) + s[n - 1] as int
  }

  lemma {:induction false} Low5Codes(s: string, n: nat)
    requires n <= |s| && forall i :: 0 <= i < |s| ==> s[i] < 128 as char
    ensures Low5(s, n) == Codes(s, n) % 32
  {
    if n > 0 {
      Low5Codes(s, n - 1);
      AsciiChar(s[n - 1]);
      hide SignedChar;
      Mod33Codes(Codes(s, n - 1), s[n - 1] as int);
    }
  }

  lemma Mod64(n: int)
    ensures n % 0x1_0000_0000_0000_0000 % 32 == n % 32
  {
  }

  /** Where a key goes in a table of 32 buckets. */
  lemma InThirtyTwo(k: string)
    requires forall i :: 0 <= i < |k| ==> k[i] < 128 as char
    ensures KeyHash(k) % 0x1_0000_0000 % 32 == Codes(k, |k|) % 32
  {
    hide HashFrom, SignedChar, Low5, Codes;
    Low5Codes(k, |k|);
    HashLow5(k, |k|);
    assert k[..|k|] == k;
  }
}
