/** Bitwise and on naturals, as used to turn a hash into a bucket index. */
module Bits {

  function Pow2(k: nat): (p: nat)
    ensures p > 0
  {
    if k == 0 then 1 else 2 * Pow2(k - 1)
  }

  ghost predicate IsPow2(n: nat) { exists k: nat :: n == Pow2(k) }

  /** a & b */
  function And(a: nat, b: nat): nat
  {
    if a == 0 || b == 0 then 0
    else 2 * And(a / 2, b / 2) + (if a % 2 == 1 && b % 2 == 1 then 1 else 0)
  }

  lemma MulAtLeast(x: nat, d: nat)
    requires x >= 1
    ensures x * d >= d
  {
  }

  lemma Distribute(x: int, y: int, d: int)
    ensures (x - y) * d == x * d - y * d
  {
  }

  lemma RemainderIs(n: nat, d: nat, q: nat, r: nat)
    requires d > 0 && r < d && n == q * d + r
    ensures n % d == r
  {
    var q', r' := n / d, n % d;
    DivMod(n, d);
    if q > q' {
      Distribute(q, q', d);
      MulAtLeast(q - q', d);
    } else if q < q' {
      Distribute(q', q, d);
      MulAtLeast(q' - q, d);
    }
  }

  lemma DivMod(n: nat, d: nat)
    requires d > 0
    ensures n == (n / d) * d + n % d && 0 <= n % d < d
  {
  }

  lemma HalfRemainder(h: nat, p: nat)
    requires p > 0
    ensures h % (2 * p) == 2 * ((h / 2) % p) + h % 2
  {
    var q, r := (h / 2) / p, (h / 2) % p;
    DivMod(h / 2, p);
    assert q * (2 * p) == 2 * (q * p);
    RemainderIs(h, 2 * p, q, 2 * r + h % 2);
  }

  /** Masking with a power of two minus one is the remainder. */
  lemma {:induction false} MaskIsRemainder(h: nat, k: nat)
    ensures And(h, Pow2(k) - 1) == h % Pow2(k)
  {
    if k == 0 {
    } else if h == 0 {
      ZeroRemainder(Pow2(k));
    } else {
      MaskIsRemainder(h / 2, k - 1);
      MaskStep(h, Pow2(k - 1));
    }
  }

  lemma ZeroRemainder(p: nat)
    requires p > 0
    ensures 0 % p == 0
  {
  }

  lemma MaskStep(h: nat, p: nat)
    requires h > 0 && p > 0 && And(h / 2, p - 1) == (h / 2) % p
    ensures And(h, 2 * p - 1) == h % (2 * p)
  {
    hide And;
    HalfRemainder(h, p);
    AndStep(h, p);
  }

  lemma AndStep(h: nat, p: nat)
    requires h > 0 && p > 0
    ensures And(h, 2 * p - 1) == 2 * And(h / 2, p - 1) + h % 2
  {
    assert (2 * p - 1) / 2 == p - 1 && (2 * p - 1) % 2 == 1;
  }

  /** _nextpower: the least power of two that is not below n (and at least 1). */
  method NextPower(n: nat) returns (res: nat)
    ensures res == NextPow(n)
  {
    res := 1;
    while res < n
      invariant NextPowFrom(1, n) == NextPowFrom(res, n)
      invariant res > 0
      decreases n - res
    {
      res := res * 2;
    }
  }

  function NextPowFrom(res: nat, n: nat): (p: nat)
    requires res > 0
    ensures p > 0
    decreases n - res
  {
    if res < n then NextPowFrom(2 * res, n) else res
  }

  function NextPow(n: nat): nat { NextPowFrom(1, n) }

  lemma {:induction false} NextPowFromIs(res: nat, k: nat, n: nat)
    requires res == Pow2(k) && (res == 1 || res < 2 * n)
    ensures var p := NextPowFrom(res, n);
            IsPow2(p) && p >= n && (p == 1 || p < 2 * n)
    decreases n - res
  {
    if res < n {
      NextPowFromIs(2 * res, k + 1, n);
    } else {
      assert IsPow2(res);
    }
  }

  /** It is a power of two, not below n and less than twice n. */
  lemma NextPowIs(n: nat)
    ensures var p := NextPow(n);
            IsPow2(p) && p >= n && (p == 1 || p < 2 * n)
  {
    NextPowFromIs(1, 0, n);
  }

  /** A power of two is its own next power. */
  lemma NextPowOfPow2(n: nat)
    requires IsPow2(n)
    ensures NextPow(n) == n
  {
    NextPowIs(n);
    var k: nat :| n == Pow2(k);
    var j: nat :| NextPow(n) == Pow2(j);
    if j != k { Pow2Gap(if j < k then j else k, if j < k then k else j); }
  }

  lemma {:induction false} Pow2Gap(j: nat, k: nat)
    requires j < k
    ensures 2 * Pow2(j) <= Pow2(k)
  {
    if j < k - 1 { Pow2Gap(j, k - 1); }
  }
}
