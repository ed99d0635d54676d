/** Small shared vocabulary: optional values, instants, and runs of a state machine's bookkeeping. */
module Common {

  datatype Option<+T> = None | Some(value: T)

  /** Instants and durations on one scale (nanoseconds for Go's clock, milliseconds for Redis). */
  type Time = int

  function Min(a: int, b: int): int { if a <= b then a else b }

  function Max(a: int, b: int): int { if a >= b then a else b }

  /** A page size or result count from a request: a default when it is not positive, a cap when it is too large. */
  function NormalizeLimit(value: int, default: int, cap: int): (r: int)
    requires 0 < default <= cap
    ensures 0 < r <= cap
  {
    if value <= 0 then default else if value > cap then cap else value
  }

  function UpTo(n: nat): (r: set<nat>)
    ensures |r| == n && forall a: nat :: a in r <==> a < n
  {
    if n == 0 then {} else UpTo(n - 1) + {n - 1}
  }

  lemma BoundedSize(some: set<nat>, n: nat)
    requires forall x :: x in some ==> x < n
    ensures |some| <= n
  {
    assert UpTo(n) == some + (UpTo(n) - some);
  }
}
