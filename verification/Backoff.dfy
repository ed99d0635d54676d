/** The doubling loop behind every retry delay, in Go's wrapping 64-bit arithmetic. */
module Backoff {

  const TWO_64 := 0x1_0000_0000_0000_0000
  const MAX_INT64 := 0x7FFF_FFFF_FFFF_FFFF
  const ONE_MINUTE := 60_000_000_000

  predicate FitsInt64(x: int) {
    -0x8000_0000_0000_0000 <= x <= MAX_INT64
  }

  /** Two's complement truncation to 64 bits. */
  function Wrap64(x: int): int {
    var m := x % TWO_64;
    if m > MAX_INT64 then m - TWO_64 else m
  }

  function Pow2(n: nat): (r: nat)
    ensures r >= 1
  {
    if n == 0 then 1 else 2 * Pow2(n - 1)
  }

  /** The delay before retry number `attempt`, as a closed form. */
  function Delay(base: int, attempt: int): int {
    Wrap64(base * Pow2(if attempt <= 1 then 0 else attempt - 1))
  }

  lemma WrapShift(x: int) returns (q: int)
    ensures x == q * TWO_64 + Wrap64(x) && FitsInt64(Wrap64(x))
  {
    q := if x % TWO_64 > MAX_INT64 then x / TWO_64 + 1 else x / TWO_64;
  }

  /** The truncation is the only int64 that differs by a multiple of 2^64. */
  lemma WrapUnique(x: int, q: int, r: int)
    requires x == q * TWO_64 + r && FitsInt64(r)
    ensures Wrap64(x) == r
  {
    var p := WrapShift(x);
    assert (p - q) * TWO_64 == r - Wrap64(x);
  }

  lemma WrapDoubles(x: int)
    ensures Wrap64(2 * Wrap64(x)) == Wrap64(2 * x)
  {
    var p := WrapShift(x);
    var q := WrapShift(2 * Wrap64(x));
    WrapUnique(2 * x, 2 * p + q, Wrap64(2 * Wrap64(x)));
  }

  lemma DelayStep(base: int, attempt: int)
    requires attempt >= 1
    ensures Delay(base, attempt + 1) == Wrap64(Delay(base, attempt) * 2)
  {
    var p := Pow2(attempt - 1);
    assert base * Pow2(attempt) == 2 * (base * p);
    WrapDoubles(base * p);
  }

  method RetryBackoff(base: int, attempt: int) returns (backoff: int)
    requires FitsInt64(base)
    ensures backoff == Delay(base, attempt)
  {
    if attempt <= 1 {
      return base;
    }
    backoff := base;
    for i := 1 to attempt
      invariant backoff == Delay(base, i)
    {
      DelayStep(base, i);
      backoff := Wrap64(backoff * 2);
    }
  }

  /** The n-th retry waits exactly base * 2^(n-1) if and only if that value is an int64. */
  lemma {:induction false} DelayExactIffFits(base: int, n: nat)
    requires n >= 1
    ensures Delay(base, n) == base * Pow2(n - 1) <==> FitsInt64(base * Pow2(n - 1))
  {
  }

  /**
   What the n-th wait is: base * 2^(n-1), as far as that is an int64, and otherwise the int64 that differs
   from it by a multiple of 2^64.
   */
  ghost predicate Waits(base: int, n: int, delay: int) {
    && n >= 1 && FitsInt64(delay)
    && (exists q: int :: delay == base * Pow2(n - 1) - q * TWO_64)
    && (FitsInt64(base * Pow2(n - 1)) ==> delay == base * Pow2(n - 1))
  }

  lemma DelayWaits(base: int, n: int)
    requires n >= 1
    ensures Waits(base, n, Delay(base, n))
  {
    var q := WrapShift(base * Pow2(n - 1));
    assert Delay(base, n) == base * Pow2(n - 1) - q * TWO_64;
  }

  /** Below the overflow point successive delays are positive and double. */
  lemma DelayDoublesWhileItFits(base: int, n: nat)
    requires base > 0 && n >= 1 && FitsInt64(base * Pow2(n))
    ensures 0 < Delay(base, n) && Delay(base, n + 1) == 2 * Delay(base, n)
  {
    assert base * Pow2(n) == 2 * (base * Pow2(n - 1));
    assert base * Pow2(n - 1) > 0;
  }

  lemma {:induction false} Pow2Monotone(m: nat, n: nat)
    requires m <= n
    ensures Pow2(m) <= Pow2(n)
  {
    if m < n {
      Pow2Monotone(m, n - 1);
    }
  }

  /** With the default base of one minute the first 28 delays are exact; the 29th is negative. */
  lemma {:induction false} DefaultDelayOverflowsAt29(n: nat)
    requires n >= 1
    ensures n <= 28 ==> Delay(ONE_MINUTE, n) == ONE_MINUTE * Pow2(n - 1) > 0
    ensures Delay(ONE_MINUTE, 29) < 0
  {
    assert Pow2(7) == 128;
    assert Pow2(14) == 16384;
    assert Pow2(21) == 2097152;
    assert Pow2(27) == 134217728;
    assert Pow2(28) == 268435456;
    if n <= 28 {
      Pow2Monotone(n - 1, 27);
    }
  }
}
