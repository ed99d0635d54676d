/** The fixed-window rate limiter: one atomic script per request, and the bound it keeps over whole runs. */
module RateLimit {
  import opened Common

  /** A Redis counter key. Times and windows are in milliseconds. */
  datatype Counter = Counter(count: nat, expiresAt: Option<Time>)

  predicate Alive(k: Option<Counter>, now: Time) {
    k.Some? && (k.value.expiresAt.None? || now < k.value.expiresAt.value)
  }

  /** INCR. */
  function Incremented(k: Option<Counter>, now: Time): Counter {
    if Alive(k, now) then k.value.(count := k.value.count + 1) else Counter(1, None)
  }

  /** PEXPIRE; a timeout that is not positive deletes the key. */
  function Expiring(k: Option<Counter>, window: Time, now: Time): Option<Counter> {
    if k.None? || window <= 0 then None else Some(k.value.(expiresAt := Some(now + window)))
  }

  /** PTTL: -2 without a key, -1 without an expiry. */
  function TTL(k: Option<Counter>, now: Time): Time {
    if k.None? then -2 else if k.value.expiresAt.None? then -1 else k.value.expiresAt.value - now
  }

  datatype Reply = Reply(allowed: bool, current: nat, ttl: Time)

  /** The whole script: the key it leaves behind and what it returns. */
  function Script(k: Option<Counter>, limit: int, window: Time, now: Time): (Option<Counter>, Reply) {
    var counted := Incremented(k, now);
    var started := if counted.count == 1 then Expiring(Some(counted), window, now) else Some(counted);
    var ttl := TTL(started, now);
    if ttl < 0 then (Expiring(started, window, now), Reply(counted.count <= limit, counted.count, window))
    else (started, Reply(counted.count <= limit, counted.count, ttl))
  }

  datatype Result = Result(allowed: bool, limit: int, remaining: int, retryAfter: Time, resetAfter: Time)

  class RedisLimiter {
    var keys: map<string, Counter>

    constructor ()
      ensures keys == map[]
    {
      keys := map[];
    }

    function Key(key: string): Option<Counter>
      reads this
    {
      if key in keys then Some(keys[key]) else None
    }

    /** What the caller is told. */
    static function Answer(limit: int, reply: Reply): Result {
      Result(reply.allowed, limit, Max(0, limit - reply.current), if reply.allowed then 0 else reply.ttl, reply.ttl)
    }

    method Allow(key: string, limit: int, window: Time, now: Time) returns (r: Result)
      modifies this
      ensures Key(key) == Script(old(Key(key)), limit, window, now).0
      ensures keys - {key} == old(keys) - {key}
      ensures r == Answer(limit, Script(old(Key(key)), limit, window, now).1)
    {
      var (left, reply) := Script(Key(key), limit, window, now);
      keys := if left.Some? then keys[key := left.value] else keys - {key};
      var remaining := limit - reply.current;
      if remaining < 0 {
        remaining := 0;
      }
      r := Result(reply.allowed, limit, remaining, 0, reply.ttl);
      if !reply.allowed {
        r := r.(retryAfter := reply.ttl);
      }
    }
  }

  // ---------------------------------------------------------------- whole runs on one key

  predicate Ordered(times: seq<Time>) {
    forall i, j :: 0 <= i < j < |times| ==> times[i] <= times[j]
  }

  /** The key after the first k requests, starting without one. */
  function KeyAfter(times: seq<Time>, limit: int, window: Time, k: nat): Option<Counter>
    requires k <= |times|
  {
    if k == 0 then None else Script(KeyAfter(times, limit, window, k - 1), limit, window, times[k - 1]).0
  }

  predicate Admitted(times: seq<Time>, limit: int, window: Time, k: nat)
    requires k < |times|
  {
    Script(KeyAfter(times, limit, window, k), limit, window, times[k]).1.allowed
  }

  function AdmittedIn(times: seq<Time>, limit: int, window: Time, lo: nat, hi: nat): nat
    requires lo <= hi <= |times|
    decreases hi - lo
  {
    if lo == hi then 0
    else AdmittedIn(times, limit, window, lo, hi - 1) + if Admitted(times, limit, window, hi - 1) then 1 else 0
  }

  /** The request that opened the window request k falls into. */
  function Opener(times: seq<Time>, window: Time, k: nat): (j: nat)
    requires k < |times|
    ensures j <= k
  {
    if k == 0 then 0
    else
      var j := Opener(times, window, k - 1);
      if times[k] < times[j] + window then j else k
  }

  /** The script's counter is the position inside the window. */
  lemma {:induction false} CounterIsPosition(times: seq<Time>, limit: int, window: Time, k: nat)
    requires window >= 1 && Ordered(times) && k < |times|
    ensures var j := Opener(times, window, k);
            && times[k] < times[j] + window
            && KeyAfter(times, limit, window, k + 1) == Some(Counter(k - j + 1, Some(times[j] + window)))
            && (Admitted(times, limit, window, k) <==> k - j < limit)
  {
    if k > 0 {
      CounterIsPosition(times, limit, window, k - 1);
    }
  }

  /**
   What request k is told: whether its position in the window is within the limit, how many are left after it,
   and when the window ends, which is also how long to wait if it was refused.
   */
  lemma AnswerTellsPosition(times: seq<Time>, limit: int, window: Time, k: nat)
    requires window >= 1 && Ordered(times) && k < |times|
    ensures var j := Opener(times, window, k);
            var position, left := k - j + 1, times[j] + window - times[k];
            var r := RedisLimiter.Answer(limit, Script(KeyAfter(times, limit, window, k), limit, window, times[k]).1);
            && (r.allowed <==> position <= limit) && r.limit == limit
            && r.remaining == (if position < limit then limit - position else 0)
            && r.resetAfter == left > 0 && r.retryAfter == (if position <= limit then 0 else left)
  {
    CounterIsPosition(times, limit, window, k);
    if k > 0 {
      CounterIsPosition(times, limit, window, k - 1);
    }
  }

  /** The window of a request: opened by the first request after the last window ended. */
  lemma OpenerOpens(times: seq<Time>, window: Time, k: nat)
    requires window >= 1 && Ordered(times) && k < |times|
    ensures var j := Opener(times, window, k);
            && Opener(times, window, j) == j && times[j] <= times[k] < times[j] + window
            && (j > 0 ==> times[j] >= times[Opener(times, window, j - 1)] + window)
  {
    if k > 0 {
      OpenerOpens(times, window, k - 1);
      if times[k] >= times[Opener(times, window, k - 1)] + window {
        assert Opener(times, window, k) == k;
      }
    }
  }

  /** Requests lo..hi of one window: those before the limit are admitted, the rest refused. */
  lemma {:induction false} ChunkCount(times: seq<Time>, limit: nat, window: Time, j: nat, lo: nat, hi: nat)
    requires window >= 1 && Ordered(times) && j <= lo <= hi <= |times|
    requires forall k :: lo <= k < hi ==> Opener(times, window, k) == j
    ensures AdmittedIn(times, limit, window, lo, hi) == Max(0, Min(hi, j + limit) - lo)
    decreases hi
  {
    if lo < hi {
      ChunkCount(times, limit, window, j, lo, hi - 1);
      CounterIsPosition(times, limit, window, hi - 1);
    }
  }

  /** A window opened by request j admits exactly min(requests, limit) of the requests up to hi. */
  lemma {:induction false} WindowAdmitsExactlyLimit(times: seq<Time>, limit: nat, window: Time, j: nat, hi: nat)
    requires window >= 1 && Ordered(times) && j <= hi <= |times|
    requires forall k :: j <= k < hi ==> Opener(times, window, k) == j
    ensures AdmittedIn(times, limit, window, j, hi) == Min(hi - j, limit)
  {
    ChunkCount(times, limit, window, j, j, hi);
  }

  /** Requests closer than a window to an opener share its window. */
  lemma {:induction false} CloseRequestsShare(times: seq<Time>, window: Time, b: nat, k: nat)
    requires window >= 1 && Ordered(times) && b <= k < |times|
    requires Opener(times, window, b) == b && times[k] < times[b] + window
    ensures Opener(times, window, k) == b
  {
    if k > b {
      CloseRequestsShare(times, window, b, k - 1);
    }
  }

  lemma {:induction false} AdmittedSplits(times: seq<Time>, limit: int, window: Time, lo: nat, mid: nat, hi: nat)
    requires lo <= mid <= hi <= |times|
    ensures AdmittedIn(times, limit, window, lo, hi)
            == AdmittedIn(times, limit, window, lo, mid) + AdmittedIn(times, limit, window, mid, hi)
    decreases hi
  {
    if mid < hi {
      AdmittedSplits(times, limit, window, lo, mid, hi - 1);
    }
  }

  /** Requests lo..hi all lie in [at, at + span). */
  predicate Within(times: seq<Time>, lo: nat, hi: nat, at: Time, span: Time) {
    lo <= hi <= |times| && forall k :: lo <= k < hi ==> at <= times[k] < at + span
  }

  /** Any half-open interval of one window's length admits at most twice the limit. */
  lemma {:induction false} TwiceTheLimit(times: seq<Time>, limit: nat, window: Time, lo: nat, hi: nat, at: Time)
    requires window >= 1 && Ordered(times) && Within(times, lo, hi, at, window)
    ensures AdmittedIn(times, limit, window, lo, hi) <= 2 * limit
  {
    if lo < hi {
      var j := Opener(times, window, lo);
      var b := lo;
      while b < hi && Opener(times, window, b) == j
        invariant lo <= b <= hi
        invariant forall k :: lo <= k < b ==> Opener(times, window, k) == j
      {
        b := b + 1;
      }
      ChunkCount(times, limit, window, j, lo, b);
      AdmittedSplits(times, limit, window, lo, b, hi);
      if b < hi {
        NewWindowOpens(times, window, j, b);
        forall k | b <= k < hi ensures Opener(times, window, k) == b {
          CloseRequestsShare(times, window, b, k);
        }
        ChunkCount(times, limit, window, b, b, hi);
      }
    }
  }

  lemma NewWindowOpens(times: seq<Time>, window: Time, j: nat, b: nat)
    requires 0 < b < |times| && Opener(times, window, b - 1) == j && Opener(times, window, b) != j
    ensures Opener(times, window, b) == b
  {
  }

  /** A window below one millisecond is truncated to zero: the key never survives and nothing is ever refused. */
  lemma {:induction false} SubMillisecondAdmitsAll(times: seq<Time>, limit: int, window: Time, k: nat)
    requires window <= 0 && limit >= 1 && k <= |times|
    ensures KeyAfter(times, limit, window, k).None? && AdmittedIn(times, limit, window, 0, k) == k
  {
    if k > 0 {
      SubMillisecondAdmitsAll(times, limit, window, k - 1);
    }
  }

  /** The bound for one limiter setting, over every run and every interval (of at least one millisecond). */
  ghost predicate Bounded(limit: nat, window: Time) {
    forall times, lo, hi, at :: Ordered(times) && Within(times, lo, hi, at, Max(window, 1)) ==>
      AdmittedIn(times, limit, window, lo, hi) <= 2 * limit
  }

  /** The 2 * limit bound holds exactly for windows of at least one millisecond. */
  lemma BoundedIffWholeMillisecond(limit: nat, window: Time)
    requires limit >= 1
    ensures Bounded(limit, window) <==> window >= 1
  {
    if window >= 1 {
      forall times, lo, hi, at | Ordered(times) && Within(times, lo, hi, at, Max(window, 1))
        ensures AdmittedIn(times, limit, window, lo, hi) <= 2 * limit
      {
        TwiceTheLimit(times, limit, window, lo, hi, at);
      }
    } else {
      var burst := seq(2 * limit + 1, _ => 0);
      SubMillisecondAdmitsAll(burst, limit, window, |burst|);
      assert Ordered(burst) && Within(burst, 0, |burst|, 0, Max(window, 1));
      assert AdmittedIn(burst, limit, window, 0, |burst|) > 2 * limit;
    }
  }
}
