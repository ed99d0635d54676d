/** Runs in which an outbox event is overtaken, and how long the rarer one takes. */
module OutboxOvertaking {
  import opened Common
  import opened Events
  import opened OutboxTable
  import opened OutboxProtocol
  import opened OutboxSafety
  import opened OutboxOrder
  import Backoff

  const PAYLOAD := CollectionRequested("t", 1, 1, "k", 0, Some(0), None)

  /** Action `a` at the end of a run puts another event before event `e`, which keeps its own place. */
  ghost predicate Overtakes(c: Config, start: Time, actions: seq<Action>, s: State, a: Action, e: nat) {
    && Reaches(c, Init(start), actions, s) && Enabled(c, s, a)
    && var s' := Apply(c, s, a);
       e < |s.rows| <= |s'.rows| && s'.rows[e].nextAttemptAt == s.rows[e].nextAttemptAt
       && !(Ahead(s'.rows, e) <= Ahead(s.rows, e))
  }

  lemma Extend(c: Config, s: State, actions: seq<Action>, a: Action) returns (s': State, actions': seq<Action>)
    requires Reaches(c, Init(0), actions, s) && Enabled(c, s, a)
    ensures s' == Apply(c, s, a) && Reaches(c, Init(0), actions', s')
  {
    s', actions' := Apply(c, s, a), actions + [a];
    assert actions'[..|actions|] == actions;
  }

  lemma OvertakesNow(c: Config, actions: seq<Action>, s: State, a: Action, e: nat)
    requires Reaches(c, Init(0), actions, s) && Enabled(c, s, a) && e < |s.rows| <= |Apply(c, s, a).rows|
    requires Apply(c, s, a).rows[e].nextAttemptAt == s.rows[e].nextAttemptAt
    requires StaleInsert(s, a, e) || EarlyRetry(c, s, a, e)
    ensures Overtakes(c, 0, actions, s, a, e)
  {
    AheadGrowsExactlyOnOvertaking(c, s, a, Apply(c, s, a), e);
  }

  /** Creator 0 reads its clock at 0 and finds nothing; then time passes. */
  lemma LooksAndWaits(c: Config) returns (actions: seq<Action>, s: State)
    ensures Reaches(c, Init(0), actions, s)
    ensures s == Init(5).(creators := map[0 := Inserting("t", "a", PAYLOAD, 0)])
  {
    actions, s := [], Init(0);
    s, actions := Extend(c, s, actions, Begin(0, "t", "a", PAYLOAD, 0));
    s, actions := Extend(c, s, actions, Look(0));
    s, actions := Extend(c, s, actions, Tick(5));
  }

  /** Meanwhile creator 1 creates its event, due at 5; then creator 0 inserts one that was due at 0. */
  lemma StaleInsertOvertakes(c: Config) returns (actions: seq<Action>, s: State, a: Action)
    requires c.Valid()
    ensures Overtakes(c, 0, actions, s, a, 0) && StaleInsert(s, a, 0)
  {
    actions, s := LooksAndWaits(c);
    s, actions := Extend(c, s, actions, Begin(1, "t", "b", PAYLOAD, 5));
    s, actions := Extend(c, s, actions, Look(1));
    s, actions := Extend(c, s, actions, Insert(1));
    a := Insert(0);
    assert s.rows == [NewEvent("t", "b", PAYLOAD, 5)];
    OvertakesNow(c, actions, s, a, 0);
  }

  // ---------------------------------------------------------------- an early retry takes ages

  /** Half the range of the delays: 2^62 nanoseconds, 146 years. */
  const AGES := 0x4000_0000_0000_0000

  predicate Exact(c: Config, n: nat) {
    n == 0 || Backoff.FitsInt64(c.backoff * Backoff.Pow2(n - 1))
  }

  /** The wait that the row's last failure scheduled. */
  function Waited(c: Config, n: nat): int {
    if n == 0 then 0 else c.backoff * Backoff.Pow2(n - 1)
  }

  ghost predicate RowPaced(c: Config, s: State, i: nat)
    requires i < |s.rows|
  {
    var r := s.rows[i];
    && r.attempts >= 0
    && (Exact(c, r.attempts) ==> r.nextAttemptAt >= r.createdAt + Waited(c, r.attempts))
    && (!Exact(c, r.attempts) ==> s.now >= r.createdAt + AGES)
  }

  /** A delay beyond the exact range follows one of at least half of it. */
  lemma LastExactIsLong(c: Config, n: nat)
    requires c.Valid() && !Exact(c, n + 1)
    ensures n >= 1 && (Exact(c, n) ==> Waited(c, n) >= AGES)
    ensures Exact(c, n) ==> Backoff.Delay(c.backoff, n + 1) < 0
  {
    if n > 0 {
      assert c.backoff * Backoff.Pow2(n) == 2 * (c.backoff * Backoff.Pow2(n - 1));
    }
  }

  lemma ExactBefore(c: Config, n: nat)
    requires c.Valid() && Exact(c, n + 1)
    ensures Exact(c, n) && Waited(c, n) >= 0
    ensures Backoff.Delay(c.backoff, n + 1) == Waited(c, n + 1) > 0
  {
    Scaled(c.backoff, 1, Backoff.Pow2(n));
    if n > 0 {
      Scaled(c.backoff, 1, Backoff.Pow2(n - 1));
      assert c.backoff * Backoff.Pow2(n) == 2 * (c.backoff * Backoff.Pow2(n - 1));
    }
    Backoff.DelayExactIffFits(c.backoff, n + 1);
  }

  /** An accepted failure mark keeps the pace. */
  lemma FailurePaced(c: Config, s: State, a: Action, s': State)
    requires Inv(c, s) && Enabled(c, s, a) && s' == Apply(c, s, a) && a.MarkFailed?
    requires Holds(s.rows, s.dispatchers[a.d].pending[0].id, s.dispatchers[a.d].claimId)
    requires RowPaced(c, s, s.dispatchers[a.d].pending[0].id)
    ensures RowPaced(c, s', s.dispatchers[a.d].pending[0].id)
  {
    var i := s.dispatchers[a.d].pending[0].id;
    var n := s.rows[i].attempts;
    HeldRowRescheduled(c, s, a, s');
    HeldRowIsDue(c, s, a);
    MarkWrites(c, s, a, s', i);
    if Exact(c, n + 1) {
      ExactBefore(c, n);
    } else {
      LastExactIsLong(c, n);
    }
  }

  lemma HeldRowIsDue(c: Config, s: State, a: Action)
    requires Inv(c, s) && Enabled(c, s, a) && a.MarkFailed?
    requires Holds(s.rows, s.dispatchers[a.d].pending[0].id, s.dispatchers[a.d].claimId)
    ensures var i := s.dispatchers[a.d].pending[0].id; i < |s.rows| && s.rows[i].nextAttemptAt <= s.now
  {
    assert DispatcherOk(c, s, s.dispatchers[a.d]);
    assert ItemOk(c, s, s.dispatchers[a.d], s.dispatchers[a.d].pending[0]);
  }

  lemma PacedStep(c: Config, s: State, a: Action, s': State, i: nat)
    requires Inv(c, s) && Enabled(c, s, a) && s' == Apply(c, s, a) && i < |s'.rows|
    requires i < |s.rows| ==> RowPaced(c, s, i)
    ensures RowPaced(c, s', i)
  {
    StepEvolves(c, s, a, s');
    if i < |s.rows| {
      if a.MarkSent? || a.MarkFailed? {
        MarkWrites(c, s, a, s', i);
        var g := s.dispatchers[a.d];
        if a.MarkFailed? && i == g.pending[0].id && Holds(s.rows, i, g.claimId) {
          FailurePaced(c, s, a, s');
        }
      } else {
        PlaceKept(c, s, a, s', i);
      }
    }
  }

  lemma {:induction false} PacedRun(c: Config, start: Time, actions: seq<Action>, s: State, i: nat)
    requires c.Valid() && Reaches(c, Init(start), actions, s) && i < |s.rows|
    ensures RowPaced(c, s, i)
    decreases |actions|
  {
    if actions != [] {
      var last := |actions| - 1;
      var u := After(c, Init(start), actions[..last]).value;
      InvInit(c, start);
      InvRun(c, Init(start), actions[..last]);
      if i < |u.rows| {
        PacedRun(c, start, actions[..last], u, i);
      }
      PacedStep(c, u, actions[last], s, i);
    }
  }

  /** The event that an early retry puts forward was created at least 2^62 nanoseconds ago. */
  lemma EarlyRetryTakesAges(c: Config, start: Time, actions: seq<Action>, s: State, a: Action, e: nat)
    requires c.Valid() && Reaches(c, Init(start), actions, s) && Enabled(c, s, a)
    requires e < |s.rows| && EarlyRetry(c, s, a, e)
    ensures s.now >= s.rows[s.dispatchers[a.d].pending[0].id].createdAt + AGES
  {
    var i := s.dispatchers[a.d].pending[0].id;
    InvInit(c, start);
    InvRun(c, Init(start), actions);
    PacedRun(c, start, actions, s, i);
    EarlyRetryMeansBadDelay(c, s, a, e);
    HeldRowIsDue(c, s, a);
    LastExactIsLong(c, s.rows[i].attempts);
  }

  // ---------------------------------------------------------------- and it does happen

  /** A claim id of its own for every round. */
  function Name(n: nat): (r: string)
    ensures |r| == n
  {
    if n == 0 then "" else Name(n - 1) + "x"
  }

  /** One event, key "a", that has failed n times and is held by nobody. */
  ghost predicate FailedOften(s: State, n: nat) {
    && |s.rows| == 1 && s.rows[0].topic == "t" && s.rows[0].key == "a" && s.rows[0].attempts == n
    && (s.rows[0].status.Pending? || s.rows[0].status.Failed?)
    && s.dispatchers == map[] && 1 !in s.creators && forall x :: x in s.issued ==> |x| <= n
  }

  lemma OnlyBatch(c: Config, rows: Table, at: Time)
    requires |rows| == 1 && Ready(rows[0], at)
    ensures Batch(rows, at, c.limit, {}) == [0]
  {
    SelectIsFirst(rows, ReadyIds(rows, at) - {}, Limit(c.limit));
    assert ReadyIds(rows, at) == {0};
    var batch := Batch(rows, at, c.limit, {});
    assert |batch| == 1 && batch[0] in ReadyIds(rows, at) - {};
  }

  /** A dispatcher claims the event at the moment it is due. */
  lemma ClaimsWhenDue(c: Config, actions: seq<Action>, s: State, n: nat)
    returns (actions': seq<Action>, s': State)
    requires c.Valid() && Reaches(c, Init(0), actions, s) && FailedOften(s, n)
    ensures Reaches(c, Init(0), actions', s') && |s'.rows| == 1
    ensures s'.rows[0] == ClaimedRow(s.rows[0], Name(n + 1), s.rows[0].nextAttemptAt,
                                     s.rows[0].nextAttemptAt + c.claimTTL)
    ensures s'.dispatchers == map[0 := Dispatcher(Writing, Name(n + 1), s.rows[0].nextAttemptAt,
                                                  [Item(0, s'.rows[0])])]
    ensures s'.creators == s.creators && s'.issued == s.issued + {Name(n + 1)} && s'.now >= s.rows[0].nextAttemptAt
  {
    var due := s.rows[0].nextAttemptAt;
    s', actions' := Extend(c, s, actions, Tick(Max(s.now, due)));
    OnlyBatch(c, s'.rows, due);
    s', actions' := Extend(c, s', actions', Action.Claim(0, Name(n + 1), due, {}));
    assert Items(s'.rows, [0]) == [Item(0, s'.rows[0])];
  }

  /** A dispatcher fails to publish the event once more. */
  lemma FailsAgain(c: Config, actions: seq<Action>, s: State, n: nat) returns (actions': seq<Action>, s': State)
    requires c.Valid() && Reaches(c, Init(0), actions, s) && FailedOften(s, n)
    ensures Reaches(c, Init(0), actions', s') && FailedOften(s', n + 1)
  {
    actions', s' := ClaimsWhenDue(c, actions, s, n);
    s', actions' := Extend(c, s', actions', Write(0, false));
    s', actions' := Extend(c, s', actions', Action.MarkFailed(0, "timeout"));
    s', actions' := Extend(c, s', actions', Stop(0));
    assert s'.dispatchers == map[];
  }

  lemma {:induction false} Fails(c: Config, n: nat) returns (actions: seq<Action>, s: State)
    requires c.Valid()
    ensures Reaches(c, Init(0), actions, s) && FailedOften(s, n)
  {
    if n == 0 {
      actions, s := [], Init(0);
      s, actions := Extend(c, s, actions, Begin(0, "t", "a", PAYLOAD, 0));
      s, actions := Extend(c, s, actions, Look(0));
      s, actions := Extend(c, s, actions, Insert(0));
    } else {
      actions, s := Fails(c, n - 1);
      actions, s := FailsAgain(c, actions, s, n - 1);
    }
  }

  /** The number of exact delays. */
  lemma {:induction false} LastExact(c: Config, from: nat) returns (n: nat)
    requires c.Valid() && Exact(c, from)
    ensures Exact(c, n) && !Exact(c, n + 1)
    decreases Backoff.MAX_INT64 - Waited(c, from)
  {
    if Exact(c, from + 1) {
      ExactBefore(c, from);
      Scaled(c.backoff, 1, Backoff.Pow2(from));
      if from > 0 {
        assert Waited(c, from + 1) == 2 * Waited(c, from);
      }
      n := LastExact(c, from + 1);
    } else {
      n := from;
    }
  }

  /** While dispatcher 0 holds the event with key "a", another one is created with due time `at`. */
  lemma CreatesAnother(c: Config, actions: seq<Action>, s: State, at: Time)
    returns (actions': seq<Action>, s': State)
    requires Reaches(c, Init(0), actions, s) && |s.rows| == 1 && s.rows[0].key == "a"
    requires at <= s.now && 1 !in s.creators
    ensures Reaches(c, Init(0), actions', s') && s'.rows == s.rows + [NewEvent("t", "b", PAYLOAD, at)]
    ensures s'.dispatchers == s.dispatchers
  {
    s', actions' := Extend(c, s, actions, Begin(1, "t", "b", PAYLOAD, at));
    s', actions' := Extend(c, s', actions', Look(1));
    s', actions' := Extend(c, s', actions', Insert(1));
  }

  /**
   An event that fails as often as there are exact delays, and is claimed once more; meanwhile another event
   is created, due just before it; the next failure puts the first one in front.
   */
  lemma EarlyRetryOvertakes(c: Config) returns (actions: seq<Action>, s: State, a: Action)
    requires c.Valid()
    ensures Overtakes(c, 0, actions, s, a, 1) && EarlyRetry(c, s, a, 1)
  {
    var n := LastExact(c, 0);
    LastExactIsLong(c, n);
    actions, s := Fails(c, n);
    var due := s.rows[0].nextAttemptAt;
    actions, s := ClaimsWhenDue(c, actions, s, n);
    actions, s := CreatesAnother(c, actions, s, due - 1);
    s, actions := Extend(c, s, actions, Write(0, false));
    a := Action.MarkFailed(0, "timeout");
    MarkWrites(c, s, a, Apply(c, s, a), 0);
    MarkWrites(c, s, a, Apply(c, s, a), 1);
    OvertakesNow(c, actions, s, a, 1);
  }
}
