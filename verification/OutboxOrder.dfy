/** Why no event waits forever behind others: who can get ahead of it, and by which round it is claimed. */
module OutboxOrder {
  import opened Common
  import opened Events
  import opened OutboxTable
  import opened OutboxProtocol
  import opened OutboxSafety
  import opened OutboxDispatch
  import Backoff

  // ---------------------------------------------------------------- no overtaking

  /** The active events ordered before `e` by (next_attempt_at, id). */
  function Ahead(rows: Table, e: nat): set<nat>
    requires e < |rows|
  {
    set i | 0 <= i < |rows| && Active(rows[i]) && Before(rows, i, e)
  }

  /** A creator that read its clock before `e` became due, and inserts only now. */
  predicate StaleInsert(s: State, a: Action, e: nat)
    requires e < |s.rows|
  {
    && a.Insert? && a.p in s.creators && s.creators[a.p].Inserting?
    && FindActive(s.rows, s.creators[a.p].topic, s.creators[a.p].key).None?
    && s.creators[a.p].at < s.rows[e].nextAttemptAt
  }

  /** An accepted failure mark that reschedules an event from behind `e` to a place before it. */
  predicate EarlyRetry(c: Config, s: State, a: Action, e: nat)
    requires e < |s.rows|
  {
    && a.MarkFailed? && a.d in s.dispatchers && s.dispatchers[a.d].pending != []
          && s.dispatchers[a.d].phase.WriteFailed?
    && var g, id := s.dispatchers[a.d], s.dispatchers[a.d].pending[0].id;
       && Holds(s.rows, id, g.claimId) && id != e && !Before(s.rows, id, e)
       && var next := MarkOf(c, g, a.message).next;
          next < s.rows[e].nextAttemptAt || (next == s.rows[e].nextAttemptAt && id < e)
  }

  /** The row a mark writes, and that it is the only one. */
  lemma MarkWrites(c: Config, s: State, a: Action, s': State, i: nat)
    requires Enabled(c, s, a) && s' == Apply(c, s, a) && (a.MarkSent? || a.MarkFailed?) && i < |s.rows|
    ensures |s'.rows| == |s.rows|
    ensures var g := s.dispatchers[a.d]; var id := g.pending[0].id;
            s'.rows[i] == if i == id && Holds(s.rows, id, g.claimId)
                          then MarkedRow(s.rows[i], MarkOf(c, g, if a.MarkSent? then "" else a.message)) else s.rows[i]
  {
  }

  /** Only marks change a row's place, and no step makes an inactive row active. */
  lemma PlaceKept(c: Config, s: State, a: Action, s': State, i: nat)
    requires Enabled(c, s, a) && s' == Apply(c, s, a) && i < |s.rows| && !a.MarkSent? && !a.MarkFailed?
    ensures |s.rows| <= |s'.rows| && s'.rows[i].nextAttemptAt == s.rows[i].nextAttemptAt
    ensures s'.rows[i].attempts == s.rows[i].attempts && s'.rows[i].createdAt == s.rows[i].createdAt
    ensures Active(s'.rows[i]) ==> Active(s.rows[i])
  {
    StepEvolves(c, s, a, s');
    if a.Claim? {
      BatchIsReady(c, s.rows, a.at, a.locked);
    }
  }

  lemma NotAheadStaysBehind(c: Config, s: State, a: Action, s': State, e: nat, i: nat)
    requires Enabled(c, s, a) && s' == Apply(c, s, a) && e < |s.rows| && !EarlyRetry(c, s, a, e)
    requires |s.rows| <= |s'.rows| && s'.rows[e].nextAttemptAt == s.rows[e].nextAttemptAt
    requires i < |s.rows| && i in Ahead(s'.rows, e)
    ensures i in Ahead(s.rows, e)
  {
    if a.MarkSent? || a.MarkFailed? {
      MarkWrites(c, s, a, s', i);
    } else {
      PlaceKept(c, s, a, s', i);
    }
  }

  lemma NewRowAhead(c: Config, s: State, a: Action, s': State, e: nat, i: nat)
    requires Enabled(c, s, a) && s' == Apply(c, s, a) && e < |s.rows| <= i < |s'.rows|
    requires s'.rows[e].nextAttemptAt == s.rows[e].nextAttemptAt
    ensures i in Ahead(s'.rows, e) ==> StaleInsert(s, a, e)
  {
    if a.MarkSent? || a.MarkFailed? {
      MarkWrites(c, s, a, s', e);
    }
  }

  lemma OvertakerIsAhead(c: Config, s: State, a: Action, s': State, e: nat)
    requires Enabled(c, s, a) && s' == Apply(c, s, a) && e < |s.rows| <= |s'.rows|
    requires s'.rows[e].nextAttemptAt == s.rows[e].nextAttemptAt && (StaleInsert(s, a, e) || EarlyRetry(c, s, a, e))
    ensures exists i :: i in Ahead(s'.rows, e) && i !in Ahead(s.rows, e)
  {
    if StaleInsert(s, a, e) {
      assert |s.rows| in Ahead(s'.rows, e) && |s.rows| !in Ahead(s.rows, e);
    } else {
      var id := s.dispatchers[a.d].pending[0].id;
      MarkWrites(c, s, a, s', id);
      assert id in Ahead(s'.rows, e) && id !in Ahead(s.rows, e);
    }
  }

  /**
   While an active event keeps its place, the set of events ahead of it never grows - except exactly when a
   creator inserts with a creation time older than the event's due time, or a failed event is rescheduled
   from behind it to a place before it.
   */
  lemma AheadGrowsExactlyOnOvertaking(c: Config, s: State, a: Action, s': State, e: nat)
    requires Enabled(c, s, a) && s' == Apply(c, s, a) && e < |s.rows|
    requires |s.rows| <= |s'.rows| && s'.rows[e].nextAttemptAt == s.rows[e].nextAttemptAt
    ensures Ahead(s'.rows, e) <= Ahead(s.rows, e) <==> !StaleInsert(s, a, e) && !EarlyRetry(c, s, a, e)
  {
    if StaleInsert(s, a, e) || EarlyRetry(c, s, a, e) {
      OvertakerIsAhead(c, s, a, s', e);
    } else {
      forall i | i in Ahead(s'.rows, e) ensures i in Ahead(s.rows, e) {
        if i < |s.rows| {
          NotAheadStaysBehind(c, s, a, s', e, i);
        } else {
          NewRowAhead(c, s, a, s', e, i);
        }
      }
    }
  }

  /** In `m`, `e` still has the place it has in `s`, and action `a` does not let anything overtake it. */
  ghost predicate KeepsPlace(c: Config, s: State, m: State, a: Action, e: nat)
    requires e < |s.rows|
  {
    && e < |m.rows| && m.rows[e].nextAttemptAt == s.rows[e].nextAttemptAt
    && !StaleInsert(m, a, e) && !EarlyRetry(c, m, a, e)
  }

  ghost predicate KeepsPlaceThroughout(c: Config, s: State, actions: seq<Action>, e: nat)
    requires e < |s.rows|
  {
    forall k :: 0 <= k < |actions| && After(c, s, actions[..k]).Some? ==>
      KeepsPlace(c, s, After(c, s, actions[..k]).value, actions[k], e)
  }

  lemma KeepsPlaceBefore(c: Config, s: State, actions: seq<Action>, e: nat)
    requires actions != [] && e < |s.rows| && KeepsPlaceThroughout(c, s, actions, e)
    ensures KeepsPlaceThroughout(c, s, actions[..|actions| - 1], e)
  {
    var front := actions[..|actions| - 1];
    forall k | 0 <= k < |front| && After(c, s, front[..k]).Some?
      ensures KeepsPlace(c, s, After(c, s, front[..k]).value, front[k], e)
    {
      assert front[..k] == actions[..k];
    }
  }

  /** Over any such run the set of events ahead of `e` only shrinks: nothing overtakes it. */
  lemma {:induction false} NothingOvertakes(c: Config, s: State, actions: seq<Action>, t: State, e: nat)
    requires Reaches(c, s, actions, t) && e < |s.rows| && e < |t.rows|
    requires KeepsPlaceThroughout(c, s, actions, e) && t.rows[e].nextAttemptAt == s.rows[e].nextAttemptAt
    ensures Ahead(t.rows, e) <= Ahead(s.rows, e)
  {
    if actions != [] {
      var last := |actions| - 1;
      var m := After(c, s, actions[..last]).value;
      KeepsPlaceBefore(c, s, actions, e);
      assert KeepsPlace(c, s, m, actions[last], e);
      NothingOvertakes(c, s, actions[..last], m, e);
      StepEvolves(c, m, actions[last], t);
      AheadGrowsExactlyOnOvertaking(c, m, actions[last], t, e);
    }
  }

  // ---------------------------------------------------------------- conditions checked at the start

  /** All delays scheduled so far are within the exact range of the backoff. */
  ghost predicate Tame(c: Config, rows: Table, m: nat) {
    && Backoff.FitsInt64(c.backoff * Backoff.Pow2(m))
    && forall i :: 0 <= i < |rows| ==> rows[i].attempts <= m
  }

  lemma {:induction false} DelayPositive(base: int, n: nat, m: nat)
    requires base > 0 && 1 <= n <= m && Backoff.FitsInt64(base * Backoff.Pow2(m))
    ensures Backoff.Delay(base, n) > 0
  {
    Backoff.Pow2Monotone(n, m);
    Scaled(base, Backoff.Pow2(n), Backoff.Pow2(m));
    Backoff.DelayDoublesWhileItFits(base, n);
  }

  lemma Scaled(k: int, x: int, y: int)
    requires k > 0 && 1 <= x <= y
    ensures 0 < k * x <= k * y
  {
  }

  /** Failure marks are only added, so attempts never go down. */
  lemma AttemptsGrow(c: Config, s: State, a: Action, s': State, i: nat)
    requires Inv(c, s) && Enabled(c, s, a) && s' == Apply(c, s, a) && i < |s.rows|
    ensures i < |s'.rows| && s.rows[i].attempts <= s'.rows[i].attempts
  {
    StepEvolves(c, s, a, s');
    InvStep(c, s, a);
    assert RowOk(c, s, i) && RowOk(c, s', i);
  }

  /** With positive delays a due time only moves later. */
  lemma DueMovesLater(c: Config, s: State, a: Action, s': State, i: nat, m: nat)
    requires Inv(c, s) && Enabled(c, s, a) && s' == Apply(c, s, a) && i < |s.rows| && Tame(c, s'.rows, m)
    ensures i < |s'.rows| && s.rows[i].nextAttemptAt <= s'.rows[i].nextAttemptAt
  {
    StepEvolves(c, s, a, s');
    if a.MarkSent? || a.MarkFailed? {
      MarkWrites(c, s, a, s', i);
      var g := s.dispatchers[a.d];
      if i == g.pending[0].id && Holds(s.rows, i, g.claimId) && a.MarkFailed? {
        HeldRowRescheduled(c, s, a, s');
        DelayPositive(c.backoff, s.rows[i].attempts + 1, m);
      }
    } else {
      PlaceKept(c, s, a, s', i);
    }
  }

  /** A failure mark that is accepted schedules exactly its delay after the claim, which the event was due at. */
  lemma HeldRowRescheduled(c: Config, s: State, a: Action, s': State)
    requires Inv(c, s) && Enabled(c, s, a) && s' == Apply(c, s, a) && a.MarkFailed?
    requires Holds(s.rows, s.dispatchers[a.d].pending[0].id, s.dispatchers[a.d].claimId)
    ensures var i := s.dispatchers[a.d].pending[0].id;
            && |s'.rows| == |s.rows| && s'.rows[i].attempts == s.rows[i].attempts + 1 >= 1
            && s'.rows[i].nextAttemptAt >= s.rows[i].nextAttemptAt + Backoff.Delay(c.backoff, s.rows[i].attempts + 1)
  {
    var g := s.dispatchers[a.d];
    var i := g.pending[0].id;
    assert DispatcherOk(c, s, g);
    assert ItemOk(c, s, g, g.pending[0]);
    assert RowOk(c, s, i);
    MarkWrites(c, s, a, s', i);
  }

  /** An early retry needs a delay that is not positive, so one that left the exact range. */
  lemma EarlyRetryMeansBadDelay(c: Config, s: State, a: Action, e: nat)
    requires Inv(c, s) && Enabled(c, s, a) && e < |s.rows| && EarlyRetry(c, s, a, e)
    ensures var n := s.rows[s.dispatchers[a.d].pending[0].id].attempts;
            n >= 0 && Backoff.Delay(c.backoff, n + 1) <= 0 && !Backoff.FitsInt64(c.backoff * Backoff.Pow2(n))
  {
    HeldRowRescheduled(c, s, a, Apply(c, s, a));
    MarkWrites(c, s, a, Apply(c, s, a), s.dispatchers[a.d].pending[0].id);
    var n := s.rows[s.dispatchers[a.d].pending[0].id].attempts;
    Backoff.DelayExactIffFits(c.backoff, n + 1);
    Scaled(c.backoff, 1, Backoff.Pow2(n));
  }

  lemma NoEarlyRetry(c: Config, s: State, a: Action, s': State, e: nat, m: nat)
    requires Inv(c, s) && Enabled(c, s, a) && s' == Apply(c, s, a) && e < |s.rows| && Tame(c, s'.rows, m)
    ensures !EarlyRetry(c, s, a, e)
  {
    if EarlyRetry(c, s, a, e) {
      EarlyRetryMeansBadDelay(c, s, a, e);
      HeldRowRescheduled(c, s, a, s');
      DelayPositive(c.backoff, s.rows[s.dispatchers[a.d].pending[0].id].attempts + 1, m);
    }
  }

  /** Every creator under way, and every one that begins, has a creation time of at least `due`. */
  ghost predicate CreatorsFrom(s: State, due: Time) {
    forall p :: p in s.creators && !s.creators[p].Returned? ==> s.creators[p].at >= due
  }

  ghost predicate BeginsFrom(actions: seq<Action>, due: Time) {
    forall k :: 0 <= k < |actions| && actions[k].Begin? ==> actions[k].at >= due
  }

  lemma CreatorsStep(c: Config, s: State, a: Action, s': State, due: Time)
    requires Enabled(c, s, a) && s' == Apply(c, s, a) && CreatorsFrom(s, due) && (a.Begin? ==> a.at >= due)
    ensures CreatorsFrom(s', due)
  {
  }

  lemma TameBefore(c: Config, s: State, a: Action, s': State, m: nat)
    requires Inv(c, s) && Enabled(c, s, a) && s' == Apply(c, s, a) && Tame(c, s'.rows, m)
    ensures Tame(c, s.rows, m)
  {
    forall i | 0 <= i < |s.rows| ensures s.rows[i].attempts <= m {
      AttemptsGrow(c, s, a, s', i);
    }
  }

  /** What a run from `s` to `t` keeps when its delays stay exact and its creators read their clocks late enough. */
  lemma {:induction false} QuietRun(c: Config, s: State, actions: seq<Action>, t: State, e: nat, due: Time, m: nat)
    requires Inv(c, s) && Reaches(c, s, actions, t) && e < |s.rows| && Tame(c, t.rows, m)
    requires CreatorsFrom(s, due) && BeginsFrom(actions, due)
    ensures Inv(c, t) && CreatorsFrom(t, due) && Tame(c, s.rows, m)
    ensures e < |t.rows| && s.rows[e].nextAttemptAt <= t.rows[e].nextAttemptAt
    ensures s.rows[e].nextAttemptAt == t.rows[e].nextAttemptAt && s.rows[e].nextAttemptAt <= due ==>
              Ahead(t.rows, e) <= Ahead(s.rows, e)
    decreases |actions|
  {
    if actions != [] {
      var last := |actions| - 1;
      var u := After(c, s, actions[..last]).value;
      InvRun(c, s, actions[..last]);
      InvStep(c, u, actions[last]);
      TameBefore(c, u, actions[last], t, m);
      QuietRun(c, s, actions[..last], u, e, due, m);
      CreatorsStep(c, u, actions[last], t, due);
      DueMovesLater(c, u, actions[last], t, e, m);
      NoEarlyRetry(c, u, actions[last], t, e, m);
      QuietStep(c, u, actions[last], t, e, due);
    }
  }

  lemma QuietStep(c: Config, s: State, a: Action, t: State, e: nat, due: Time)
    requires Enabled(c, s, a) && t == Apply(c, s, a) && e < |s.rows| && e < |t.rows|
    requires CreatorsFrom(s, due) && !EarlyRetry(c, s, a, e)
    ensures s.rows[e].nextAttemptAt == t.rows[e].nextAttemptAt && s.rows[e].nextAttemptAt <= due ==>
              Ahead(t.rows, e) <= Ahead(s.rows, e)
  {
    StepEvolves(c, s, a, t);
    if s.rows[e].nextAttemptAt == t.rows[e].nextAttemptAt && s.rows[e].nextAttemptAt <= due {
      AheadGrowsExactlyOnOvertaking(c, s, a, t, e);
    }
  }

  /** How many failure marks a run makes. */
  function FailureMarks(actions: seq<Action>): nat {
    if actions == [] then 0
    else FailureMarks(actions[..|actions| - 1]) + if actions[|actions| - 1].MarkFailed? then 1 else 0
  }

  /** No row's attempts, with `marks` failures more, exceed m, the number of delays that are exact. */
  ghost predicate Spared(c: Config, rows: Table, marks: nat, m: nat) {
    && Backoff.FitsInt64(c.backoff * Backoff.Pow2(m)) && marks <= m
    && forall i :: 0 <= i < |rows| ==> rows[i].attempts + marks <= m
  }

  lemma AttemptsStep(c: Config, s: State, a: Action, s': State, i: nat)
    requires Inv(c, s) && Enabled(c, s, a) && s' == Apply(c, s, a) && i < |s'.rows|
    ensures i < |s.rows| ==> s'.rows[i].attempts <= s.rows[i].attempts + if a.MarkFailed? then 1 else 0
    ensures i >= |s.rows| ==> s'.rows[i].attempts == 0
  {
    if i < |s.rows| {
      if a.MarkSent? || a.MarkFailed? {
        MarkWrites(c, s, a, s', i);
        if a.MarkFailed? && Holds(s.rows, s.dispatchers[a.d].pending[0].id, s.dispatchers[a.d].claimId) {
          HeldRowRescheduled(c, s, a, s');
        }
      } else {
        PlaceKept(c, s, a, s', i);
      }
    }
  }

  /** A run raises a row's attempts by at most its failure marks. */
  lemma {:induction false} AttemptsRise(c: Config, s: State, actions: seq<Action>, t: State, i: nat)
    requires Inv(c, s) && Reaches(c, s, actions, t) && i < |t.rows|
    ensures t.rows[i].attempts <= FailureMarks(actions) + if i < |s.rows| then s.rows[i].attempts else 0
    decreases |actions|
  {
    if actions != [] {
      var last := |actions| - 1;
      var u := After(c, s, actions[..last]).value;
      InvRun(c, s, actions[..last]);
      AttemptsStep(c, u, actions[last], t, i);
      if i < |u.rows| {
        AttemptsRise(c, s, actions[..last], u, i);
      } else {
        RowsKept(c, s, actions[..last], u);
      }
    }
  }

  lemma {:induction false} RowsKept(c: Config, s: State, actions: seq<Action>, t: State)
    requires Reaches(c, s, actions, t)
    ensures |s.rows| <= |t.rows|
  {
    if actions != [] {
      var last := |actions| - 1;
      var u := After(c, s, actions[..last]).value;
      RowsKept(c, s, actions[..last], u);
      StepEvolves(c, u, actions[last], t);
    }
  }

  lemma SparedStaysTame(c: Config, s: State, actions: seq<Action>, t: State, m: nat)
    requires Inv(c, s) && Reaches(c, s, actions, t) && Spared(c, s.rows, FailureMarks(actions), m)
    ensures Tame(c, t.rows, m)
  {
    forall i | 0 <= i < |t.rows| ensures t.rows[i].attempts <= m {
      AttemptsRise(c, s, actions, t, i);
    }
  }

  /**
   An event that is due and not rescheduled in between is overtaken by nothing, if the creators under way
   when it became due read their clocks since, later ones read theirs from now on, and the run has fewer
   failures than any row has exact delays left.
   */
  lemma DueEventNotOvertaken(c: Config, s: State, actions: seq<Action>, t: State, e: nat, m: nat)
    requires Inv(c, s) && Reaches(c, s, actions, t) && e < |s.rows| && Spared(c, s.rows, FailureMarks(actions), m)
    requires s.rows[e].nextAttemptAt <= s.now && CreatorsFrom(s, s.rows[e].nextAttemptAt) && BeginsFrom(actions, s.now)
    requires e < |t.rows| && t.rows[e].nextAttemptAt == s.rows[e].nextAttemptAt
    ensures Ahead(t.rows, e) <= Ahead(s.rows, e)
  {
    SparedStaysTame(c, s, actions, t, m);
    QuietRun(c, s, actions, t, e, s.rows[e].nextAttemptAt, m);
  }

  // ---------------------------------------------------------------- rounds of one dispatcher

  predicate PositiveDelays(c: Config, rows: Table, now: Time) {
    forall i :: 0 <= i < |rows| && i in Batch(rows, now, c.limit, {})
          ==> Backoff.Delay(c.backoff, rows[i].attempts + 1) > 0
  }

  /** One undisturbed round, and then events created at or after its start. */
  ghost predicate Round(c: Config, rows: Table, now: Time, broken: nat -> bool, rows': Table) {
    && PositiveDelays(c, rows, now)
    && Dispatched(c, rows, now, broken) <= rows'
    && forall i :: |rows| <= i < |rows'| ==> rows'[i].nextAttemptAt >= now
  }

  lemma {:induction false} DistinctSize(ids: seq<nat>, all: set<nat>)
    requires forall k :: 0 <= k < |ids| ==> ids[k] in all
    requires forall j, k :: 0 <= j < k < |ids| ==> ids[j] != ids[k]
    ensures |ids| <= |all|
  {
    if ids != [] {
      DistinctSize(ids[1..], all - {ids[0]});
    }
  }

  lemma {:induction false} RemovedSize(ids: seq<nat>, all: set<nat>, rest: set<nat>)
    requires forall k :: 0 <= k < |ids| ==> ids[k] in all && ids[k] !in rest
    requires forall j, k :: 0 <= j < k < |ids| ==> ids[j] != ids[k]
    requires rest <= all
    ensures |rest| + |ids| <= |all|
  {
    DistinctSize(ids, all - rest);
    assert |all| == |all - rest| + |rest|;
  }

  /** A round that does not claim a due event claims a full batch of events ahead of it. */
  lemma FullBatchAhead(c: Config, rows: Table, now: Time, e: nat)
    requires e < |rows| && Ready(rows[e], now) && e !in Batch(rows, now, c.limit, {})
    ensures |Batch(rows, now, c.limit, {})| == Limit(c.limit)
    ensures forall i :: i in Batch(rows, now, c.limit, {}) ==> i < |rows| && i in Ahead(rows, e)
  {
    var batch := Batch(rows, now, c.limit, {});
    SelectIsFirst(rows, ReadyIds(rows, now) - {}, Limit(c.limit));
    BatchIsReady(c, rows, now, {});
    assert ReadyIds(rows, now) - {} == ReadyIds(rows, now);
    if |ReadyIds(rows, now)| <= Limit(c.limit) {
      DistinctSize(batch, ReadyIds(rows, now) - {e});
    }
  }

  lemma RoundShrinksAhead(c: Config, rows: Table, now: Time, broken: nat -> bool, rows': Table, e: nat)
    requires Round(c, rows, now, broken, rows') && e < |rows|
    requires Ready(rows[e], now) && rows[e].nextAttemptAt <= now && e !in Batch(rows, now, c.limit, {})
    ensures e < |rows'| && rows'[e] == rows[e]
    ensures |Ahead(rows', e)| + Limit(c.limit) <= |Ahead(rows, e)|
  {
    var batch := Batch(rows, now, c.limit, {});
    var mid := Dispatched(c, rows, now, broken);
    BatchIsReady(c, rows, now, {});
    FullBatchAhead(c, rows, now, e);
    assert forall i :: 0 <= i < |rows| ==> rows'[i] == mid[i];
    forall i | i in Ahead(rows', e) ensures i in Ahead(rows, e) && i !in batch {
    }
    RemovedSize(batch, Ahead(rows, e), Ahead(rows', e));
  }

  /** j full batches. */
  function Quota(j: nat, limit: nat): nat {
    if j == 0 then 0 else Quota(j - 1, limit) + limit
  }

  lemma {:induction false} QuotaIsProduct(j: nat, limit: nat)
    ensures Quota(j, limit) == j * limit
  {
    if j > 0 {
      QuotaIsProduct(j - 1, limit);
      assert (j - 1) * limit + limit == j * limit;
    }
  }

  lemma {:induction false} QuotaMonotone(i: nat, j: nat, limit: nat)
    ensures i <= j ==> Quota(i, limit) <= Quota(j, limit)
  {
    if i < j {
      QuotaMonotone(i, j - 1, limit);
    }
  }

  lemma {:induction false} QuotaBound(j: nat, limit: nat, k: nat)
    requires limit > 0 && Quota(j, limit) <= k
    ensures j <= k / limit
  {
    var q := k / limit;
    QuotaIsProduct(q, limit);
    assert k == limit * q + k % limit;
    QuotaMonotone(q + 1, j, limit);
  }

  /** floor(k / limit) + 1 for an event with k active events ahead of it. */
  function RoundsNeeded(c: Config, rows: Table, e: nat): nat
    requires e < |rows|
  {
    |Ahead(rows, e)| / Limit(c.limit) + 1
  }

  /**
   With one dispatcher whose marks all succeed, an event that is due with k active events ahead of it is
   claimed by round floor(k / limit) + 1 (rounds are numbered from 0 here).
   */
  lemma ClaimedByRound(c: Config, tables: seq<Table>, times: seq<Time>, broken: seq<nat -> bool>, e: nat)
        returns (j: nat)
    requires |tables| == |times| + 1 && |broken| == |times|
    requires forall i :: 0 <= i < |times| ==> Round(c, tables[i], times[i], broken[i], tables[i + 1])
    requires forall i :: 0 < i < |times| ==> times[i - 1] <= times[i]
    requires e < |tables[0]| && |times| >= RoundsNeeded(c, tables[0], e)
    requires Ready(tables[0][e], times[0]) && tables[0][e].nextAttemptAt <= times[0]
    ensures j < RoundsNeeded(c, tables[0], e) && e in Batch(tables[j], times[j], c.limit, {})
  {
    var k := |Ahead(tables[0], e)|;
    j := 0;
    while e !in Batch(tables[j], times[j], c.limit, {})
      invariant j < RoundsNeeded(c, tables[0], e)
      invariant times[j] >= times[0] && e < |tables[j]| && tables[j][e] == tables[0][e]
      invariant |Ahead(tables[j], e)| + Quota(j, Limit(c.limit)) <= k
      decreases |times| - j
    {
      RoundShrinksAhead(c, tables[j], times[j], broken[j], tables[j + 1], e);
      j := j + 1;
      QuotaBound(j, Limit(c.limit), k);
    }
  }
}
