/** What every run of the worker protocol guarantees: publish-before-mark, fencing and the attempt bound. */
module WorkerSafety {
  import opened Common
  import opened Events
  import opened JobExecutions
  import opened Text
  import opened WorkerProtocol

  ghost predicate Reaches(c: Config, s: State, actions: seq<Action>, t: State) {
    After(c, s, actions) == Some(t)
  }

  ghost predicate CanReach(c: Config, s: State, t: State) {
    exists actions :: Reaches(c, s, actions, t)
  }

  lemma StaysPut(c: Config, s: State)
    ensures CanReach(c, s, s)
  {
    assert Reaches(c, s, [], s);
  }

  lemma {:induction false} ReachesOn(c: Config, s: State, a: seq<Action>, t: State, b: seq<Action>, u: State)
    requires Reaches(c, s, a, t) && Reaches(c, t, b, u)
    ensures Reaches(c, s, a + b, u)
  {
    if b == [] {
      assert a + b == a;
    } else {
      var last := |b| - 1;
      assert (a + b)[..|a + b| - 1] == a + b[..last];
      ReachesOn(c, s, a, t, b[..last], After(c, t, b[..last]).value);
    }
  }

  lemma CanReachOn(c: Config, s: State, t: State, u: State)
    requires CanReach(c, s, t) && CanReach(c, t, u)
    ensures CanReach(c, s, u)
  {
    var a :| Reaches(c, s, a, t);
    var b :| Reaches(c, t, b, u);
    ReachesOn(c, s, a, t, b, u);
  }

  lemma OneMoreAction(c: Config, s: State, t: State, a: Action)
    requires CanReach(c, s, t) && Enabled(c, t, a)
    ensures CanReach(c, s, Apply(c, t, a))
  {
    var actions :| Reaches(c, s, actions, t);
    AfterOneMore(c, s, actions, a);
    assert Reaches(c, s, actions + [a], Apply(c, t, a));
  }

  lemma InvReached(c: Config, s: State, t: State)
    requires Inv(c, s) && CanReach(c, s, t)
    ensures Inv(c, t)
  {
    var actions :| Reaches(c, s, actions, t);
    InvRun(c, s, actions);
  }

  /** Every reachable state has the invariant. */
  lemma ReachableInv(c: Config, start: Time, actions: seq<Action>, s: State)
    requires c.Valid() && Reaches(c, Init(start), actions, s)
    ensures Inv(c, s)
  {
    InvInit(c, start);
    InvRun(c, Init(start), actions);
  }

  // ---------------------------------------------------------------- publish before mark

  /** In every reachable state a row's status is backed by what was already published and stored. */
  lemma PublishBeforeMark(c: Config, start: Time, actions: seq<Action>, s: State, taskId: string)
    requires c.Valid() && Reaches(c, Init(start), actions, s) && taskId in s.rows
    ensures s.rows[taskId].status.Failed? ==>
              && s.rows[taskId].attempt + 1 < c.maxAttempts
              && HasRequested(s.log, taskId, s.rows[taskId].attempt + 1)
              && HasFailed(s.log, taskId, s.rows[taskId].attempt)
    ensures s.rows[taskId].status.Dlq? ==>
              && HasDeadLetter(s.log, taskId, s.rows[taskId].attempt)
              && HasFailed(s.log, taskId, s.rows[taskId].attempt)
              && (c.hasDlqRepo ==> HasDlqItem(s.dlq, taskId, s.rows[taskId].attempt))
    ensures s.rows[taskId].status.Succeeded? ==>
              HasCompleted(s.log, taskId, s.rows[taskId].runId) || (taskId in s.silent && s.rows[taskId].runId.None?)
  {
    ReachableInv(c, start, actions, s);
    assert RowOk(c, s, taskId);
  }

  /** Every requested event ever logged is within the attempt bound, and every retry follows each earlier failure. */
  lemma AttemptsBounded(c: Config, start: Time, actions: seq<Action>, s: State, e: CollectionRequested)
    requires c.Valid() && Reaches(c, Init(start), actions, s) && RequestedEvent(e) in s.log
    ensures 0 <= e.attempt < c.maxAttempts
    ensures forall n :: 0 <= n < e.attempt ==> HasRequested(s.log, e.taskId, n) && HasFailed(s.log, e.taskId, n)
  {
    ReachableInv(c, start, actions, s);
    assert RequestOk(c, s, e);
    EarlierAttempts(c, s, e);
  }

  lemma {:induction false} EarlierAttempts(c: Config, s: State, e: CollectionRequested)
    requires Inv(c, s) && RequestedEvent(e) in s.log
    ensures forall n :: 0 <= n < e.attempt ==> HasRequested(s.log, e.taskId, n) && HasFailed(s.log, e.taskId, n)
    decreases e.attempt
  {
    assert RequestOk(c, s, e);
    if e.attempt > 0 {
      var p :| RequestedEvent(p) in s.log && p.taskId == e.taskId && p.attempt == e.attempt - 1;
      EarlierAttempts(c, s, p);
    }
  }

  // ---------------------------------------------------------------- fencing

  /** A row is processing exactly when it carries a claim id, and exactly when it carries a lease. */
  lemma LeaseExactlyWhileProcessing(c: Config, start: Time, actions: seq<Action>, s: State, taskId: string)
    requires c.Valid() && Reaches(c, Init(start), actions, s) && taskId in s.rows
    ensures s.rows[taskId].status.Processing? <==> s.rows[taskId].claimId != ""
    ensures s.rows[taskId].status.Processing? <==> s.rows[taskId].lockedUntil.Some?
  {
    ReachableInv(c, start, actions, s);
    assert RowOk(c, s, taskId);
  }

  ghost predicate Handling(s: State, w: nat, e: CollectionRequested, claimId: string) {
    w in s.workers && !s.workers[w].Received? && s.workers[w].e == e && s.workers[w].claimId == claimId
  }

  /** At most one worker owns a processing row. */
  lemma OneOwner(c: Config, start: Time, actions: seq<Action>, s: State, v: nat, w: nat,
                 e: CollectionRequested, f: CollectionRequested, claimId: string)
    requires c.Valid() && c.hasExecutions && Reaches(c, Init(start), actions, s)
    requires Handling(s, v, e, claimId) && Handling(s, w, f, claimId)
    ensures v == w
  {
    ReachableInv(c, start, actions, s);
    assert Distinct(c, s, v, w);
  }

  /** The claim was issued but the row is held by somebody else, or by nobody. */
  ghost predicate Replaced(s: State, taskId: string, claimId: string) {
    claimId != "" && claimId in s.issued && !(taskId in s.rows && s.rows[taskId].claimId == claimId)
  }

  lemma ReplacedStep(c: Config, s: State, a: Action, taskId: string, claimId: string)
    requires Enabled(c, s, a) && Replaced(s, taskId, claimId)
    ensures Replaced(Apply(c, s, a), taskId, claimId)
  {
  }

  lemma {:induction false} ReplacedForever(c: Config, s: State, actions: seq<Action>, t: State, taskId: string,
        claimId: string)
    requires Reaches(c, s, actions, t) && Replaced(s, taskId, claimId)
    ensures Replaced(t, taskId, claimId)
  {
    if actions != [] {
      var last := |actions| - 1;
      ReplacedForever(c, s, actions[..last], After(c, s, actions[..last]).value, taskId, claimId);
      ReplacedStep(c, After(c, s, actions[..last]).value, actions[last], taskId, claimId);
    }
  }

  predicate ActsFor(a: Action, w: nat) {
    !a.Tick? && !a.Submit? && a.w == w
  }

  /** Once its claim is replaced, a worker changes no row for as long as it keeps handling that claim. */
  lemma ReplacedClaimNeverWrites(c: Config, s: State, actions: seq<Action>, t: State, w: nat,
                                 e: CollectionRequested, claimId: string, a: Action)
    requires c.hasExecutions && Replaced(s, e.taskId, claimId)
    requires Reaches(c, s, actions, t) && Handling(t, w, e, claimId) && ActsFor(a, w) && Enabled(c, t, a)
    ensures Apply(c, t, a).rows == t.rows
  {
    ReplacedForever(c, s, actions, t, e.taskId, claimId);
  }

  predicate Terminal(r: JobExecution) {
    r.status.Succeeded? || r.status.Dlq?
  }

  lemma TerminalStep(c: Config, s: State, a: Action, taskId: string)
    requires Enabled(c, s, a) && taskId in s.rows && Terminal(s.rows[taskId])
    ensures taskId in Apply(c, s, a).rows && Apply(c, s, a).rows[taskId] == s.rows[taskId]
  {
  }

  /** Succeeded and dlq rows never change again, whatever is redelivered. */
  lemma {:induction false} TerminalRowsAbsorb(c: Config, s: State, actions: seq<Action>, t: State, taskId: string)
    requires Reaches(c, s, actions, t) && taskId in s.rows && Terminal(s.rows[taskId])
    ensures taskId in t.rows && t.rows[taskId] == s.rows[taskId]
  {
    if actions != [] {
      var last := |actions| - 1;
      var m := After(c, s, actions[..last]).value;
      TerminalRowsAbsorb(c, s, actions[..last], m, taskId);
      TerminalStep(c, m, actions[last], taskId);
    }
  }

  /** A claim writes the row of the task its worker received, as a takeover. */
  lemma ClaimChange(c: Config, s: State, a: Action, s': State, taskId: string)
    requires a.Claim? && Enabled(c, s, a) && s' == Apply(c, s, a) && taskId in s.rows && RowOk(c, s, taskId)
    requires s'.rows[taskId] != s.rows[taskId]
    ensures s.workers[a.w].e.taskId == taskId && ShouldProcess(s.rows[taskId], s.workers[a.w].e, a.at)
    ensures s'.rows[taskId].status.Processing? && s'.rows[taskId].claimId == a.claimId
    ensures s'.rows[taskId].attempt == s.workers[a.w].e.attempt
  {
  }

  /** A mark writes the row its claim still owns, and keeps the attempt. */
  lemma MarkChange(c: Config, s: State, a: Action, s': State, taskId: string)
    requires a.Mark? && Enabled(c, s, a) && s' == Apply(c, s, a) && taskId in s.rows
    requires ClaimOk(c, s, s.workers[a.w]) && s'.rows[taskId] != s.rows[taskId]
    ensures s.rows[taskId].status.Processing? && s.rows[taskId].claimId == s.workers[a.w].claimId
    ensures !s'.rows[taskId].status.Processing? && s'.rows[taskId].attempt == s.rows[taskId].attempt
  {
  }

  lemma OnlyClaimsAndMarksWrite(c: Config, s: State, a: Action, s': State)
    requires Enabled(c, s, a) && s' == Apply(c, s, a) && !a.Claim? && !a.Mark?
    ensures s'.rows == s.rows
  {
  }

  /**
   The only ways a row changes: its own claim marks it, or a claim takes it over. A live lease and a
   failed row are taken over only by a strictly higher attempt.
   */
  lemma TakeoverNeedsHigherAttempt(c: Config, start: Time, actions: seq<Action>, s: State, a: Action, taskId: string)
    requires c.Valid() && Reaches(c, Init(start), actions, s) && Enabled(c, s, a)
    requires taskId in s.rows && taskId in Apply(c, s, a).rows && Apply(c, s, a).rows[taskId] != s.rows[taskId]
    ensures Takeover(c, s, a, Apply(c, s, a), taskId)
  {
    ReachableInv(c, start, actions, s);
    assert RowOk(c, s, taskId);
    if a.Mark? {
      assert ClaimOk(c, s, s.workers[a.w]);
    }
    ChangeIsTakeoverOrMark(c, s, a, Apply(c, s, a), taskId);
  }

  /** A changed row: taken over by a fresh claim, or marked by the claim that held it. */
  ghost predicate Takeover(c: Config, s: State, a: Action, s': State, taskId: string)
    requires taskId in s.rows && taskId in s'.rows
  {
    if s'.rows[taskId].status.Processing? then
      && a.Claim? && s'.rows[taskId].claimId == a.claimId
      && (s.rows[taskId].status.Failed? || (s.rows[taskId].lockedUntil.Some?
            && s.rows[taskId].lockedUntil.value > s.now)
          ==> s'.rows[taskId].attempt > s.rows[taskId].attempt)
    else
      && a.Mark? && a.w in s.workers && Marking(s.workers[a.w]) && s.rows[taskId].status.Processing?
      && s.workers[a.w].claimId == s.rows[taskId].claimId
      && s'.rows[taskId].attempt == s.rows[taskId].attempt
  }

  lemma ChangeIsTakeoverOrMark(c: Config, s: State, a: Action, s': State, taskId: string)
    requires Enabled(c, s, a) && s' == Apply(c, s, a) && taskId in s.rows && RowOk(c, s, taskId)
    requires a.Mark? ==> ClaimOk(c, s, s.workers[a.w])
    requires s'.rows[taskId] != s.rows[taskId]
    ensures Takeover(c, s, a, s', taskId)
  {
    if a.Claim? {
      ClaimChange(c, s, a, s', taskId);
    } else if a.Mark? {
      MarkChange(c, s, a, s', taskId);
    } else {
      OnlyClaimsAndMarksWrite(c, s, a, s');
    }
  }

  /** The action is a claim of an older message, seen after the row's lease ran out. */
  predicate ReclaimsExpired(s: State, a: Action, taskId: string)
    requires taskId in s.rows
  {
    && a.Claim? && a.w in s.workers && s.workers[a.w].e.taskId == taskId
    && s.workers[a.w].e.attempt < s.rows[taskId].attempt
    && s.rows[taskId].lockedUntil.Some? && s.rows[taskId].lockedUntil.value <= a.at
  }

  lemma ExpiredReclaimDropsAttempt(c: Config, s: State, a: Action, s': State, taskId: string)
    requires c.hasExecutions && Enabled(c, s, a) && s' == Apply(c, s, a) && taskId in s.rows && RowOk(c, s, taskId)
    requires ReclaimsExpired(s, a, taskId)
    ensures s'.rows[taskId].attempt < s.rows[taskId].attempt
  {
  }

  /** A row's attempt goes down exactly when an older message reclaims an expired lease. */
  lemma AttemptDropsExactlyOnExpiredReclaim(c: Config, start: Time, actions: seq<Action>, s: State, a: Action,
                                            s': State, taskId: string)
    requires c.Valid() && c.hasExecutions && Reaches(c, Init(start), actions, s)
    requires Enabled(c, s, a) && s' == Apply(c, s, a) && taskId in s.rows
    ensures taskId in s'.rows
    ensures s'.rows[taskId].attempt < s.rows[taskId].attempt <==> ReclaimsExpired(s, a, taskId)
  {
    ReachableInv(c, start, actions, s);
    InvOfTask(c, s, a, taskId);
    DropIsExpiredReclaim(c, s, a, s', taskId);
  }

  lemma InvOfTask(c: Config, s: State, a: Action, taskId: string)
    requires Inv(c, s) && Enabled(c, s, a) && taskId in s.rows
    ensures RowOk(c, s, taskId)
    ensures a.Mark? ==> ClaimOk(c, s, s.workers[a.w])
  {
  }

  lemma DropIsExpiredReclaim(c: Config, s: State, a: Action, s': State, taskId: string)
    requires c.hasExecutions && Enabled(c, s, a) && s' == Apply(c, s, a) && taskId in s.rows && RowOk(c, s, taskId)
    requires a.Mark? ==> ClaimOk(c, s, s.workers[a.w])
    ensures taskId in s'.rows
    ensures s'.rows[taskId].attempt < s.rows[taskId].attempt <==> ReclaimsExpired(s, a, taskId)
  {
    if ReclaimsExpired(s, a, taskId) {
      ExpiredReclaimDropsAttempt(c, s, a, s', taskId);
    } else if taskId in s'.rows && s'.rows[taskId] != s.rows[taskId] {
      ChangeIsTakeoverOrMark(c, s, a, s', taskId);
      if a.Claim? {
        ClaimChange(c, s, a, s', taskId);
      }
    }
  }

  // ---------------------------------------------------------------- a run in which it goes down

  /** Action `a` at the end of a run lowers the attempt of a task's row. */
  ghost predicate Drops(c: Config, start: Time, actions: seq<Action>, s: State, a: Action, taskId: string) {
    && Reaches(c, Init(start), actions, s) && Enabled(c, s, a)
    && taskId in s.rows && taskId in Apply(c, s, a).rows
    && Apply(c, s, a).rows[taskId].attempt < s.rows[taskId].attempt
  }

  lemma Extend(c: Config, s: State, actions: seq<Action>, a: Action) returns (s': State, actions': seq<Action>)
    requires Reaches(c, Init(0), actions, s) && Enabled(c, s, a)
    ensures s' == Apply(c, s, a) && Reaches(c, Init(0), actions', s')
  {
    AfterOneMore(c, Init(0), actions, a);
    s', actions' := Apply(c, s, a), actions + [a];
  }

  /** Attempt 0 of `e` fails at time 0, and attempt 1 is requested. */
  lemma RequestsRetry(c: Config, e: CollectionRequested, cause: Cause) returns (actions: seq<Action>, s: State)
    requires c.Valid() && c.hasExecutions && c.maxAttempts >= 2 && !cause.permanent
    requires ValidEvent(e) && e.attempt == 0 && e.nextAttemptAt.None?
    ensures Reaches(c, Init(0), actions, s)
    ensures s == State(map[e.taskId := FreshRow(e, "first", 0, c.claimTTL)],
                       [RequestedEvent(e), FailedFor(e, cause, 0), RequestedEvent(Retry(c, e, 0))], [], 0,
                       map[0 := RetrySent(e, "first", cause)], {"first"}, {})
  {
    actions, s := ClaimsOnce(c, e);
    s, actions := Extend(c, s, actions, Collect(0, Broken(cause)));
    s, actions := Extend(c, s, actions, SendFailed(0, 0));
    s, actions := Extend(c, s, actions, SendRetry(0, 0));
  }

  /** The failure is marked, all at time 0. */
  lemma FailsOnce(c: Config, e: CollectionRequested) returns (actions: seq<Action>, s: State)
    requires c.Valid() && c.hasExecutions && c.maxAttempts >= 2
    requires ValidEvent(e) && e.attempt == 0 && e.nextAttemptAt.None?
    ensures Reaches(c, Init(0), actions, s) && s.workers == map[] && s.now == 0 && s.issued == {"first"}
    ensures RequestedEvent(e) in s.log && RequestedEvent(Retry(c, e, 0)) in s.log
    ensures e.taskId in s.rows && s.rows[e.taskId].status.Failed? && s.rows[e.taskId].attempt == 0
  {
    actions, s := RequestsRetry(c, e, Cause(false, "timeout"));
    assert s.log[0] == RequestedEvent(e) && s.log[2] == RequestedEvent(Retry(c, e, 0));
    s, actions := Extend(c, s, actions, Mark(0, 0));
  }

  lemma ClaimsOnce(c: Config, e: CollectionRequested) returns (actions: seq<Action>, s: State)
    requires c.Valid() && c.hasExecutions && ValidEvent(e) && e.attempt == 0 && e.nextAttemptAt.None?
    ensures Reaches(c, Init(0), actions, s)
    ensures s == State(map[e.taskId := FreshRow(e, "first", 0, c.claimTTL)], [RequestedEvent(e)], [], 0,
                       map[0 := Claimed(e, "first")], {"first"}, {})
  {
    actions, s := [], Init(0);
    s, actions := Extend(c, s, actions, Submit(e));
    assert s.log[0] == RequestedEvent(e);
    s, actions := Extend(c, s, actions, Receive(0, e));
    s, actions := Extend(c, s, actions, Claim(0, "first", 0));
  }

  /** Attempt 1 is claimed and then abandoned by a crash. */
  lemma RetryAbandoned(c: Config, e: CollectionRequested) returns (actions: seq<Action>, s: State)
    requires c.Valid() && c.hasExecutions && c.maxAttempts >= 2
    requires ValidEvent(e) && e.attempt == 0 && e.nextAttemptAt.None?
    ensures Reaches(c, Init(0), actions, s) && RequestedEvent(e) in s.log && s.workers == map[]
    ensures e.taskId in s.rows && s.rows[e.taskId].status.Processing? && s.rows[e.taskId].attempt == 1
    ensures s.rows[e.taskId].lockedUntil.Some? && s.issued == {"first", "second"}
  {
    var retry := Retry(c, e, 0);
    actions, s := FailsOnce(c, e);
    s, actions := Extend(c, s, actions, Tick(Max(0, retry.nextAttemptAt.value)));
    s, actions := Extend(c, s, actions, Receive(1, retry));
    s, actions := Extend(c, s, actions, Claim(1, "second", s.now));
    s, actions := Extend(c, s, actions, Stop(1));
  }

  /** With any setting that retries, it does go down: attempt 0 is redelivered after the lease of attempt 1 ran out. */
  lemma RedeliveryDropsAttempt(c: Config) returns (actions: seq<Action>, s: State, a: Action, taskId: string)
    requires c.Valid() && c.hasExecutions && c.maxAttempts >= 2
    ensures Drops(c, 0, actions, s, a, taskId)
  {
    var e := CollectionRequested("t", 1, 1, "k", 0, Some(0), None);
    assert ValidEvent(e) by {
      NotBlank("t");
      NotBlank("k");
    }
    actions, s := RetryAbandoned(c, e);
    s, actions := Extend(c, s, actions, Tick(Max(s.now, s.rows["t"].lockedUntil.value)));
    s, actions := Extend(c, s, actions, Receive(2, e));
    a, taskId := Claim(2, "third", s.now), "t";
  }

  lemma OnlyAttemptStays(c: Config, s: State, a: Action, taskId: string)
    requires Inv(c, s) && Enabled(c, s, a) && c.maxAttempts == 1
    requires taskId in s.rows && taskId in Apply(c, s, a).rows
    ensures Apply(c, s, a).rows[taskId].attempt == s.rows[taskId].attempt
  {
    InvStep(c, s, a);
    assert RowOk(c, s, taskId) && RowOk(c, Apply(c, s, a), taskId);
  }

  /** So the attempt of a row can go down exactly where there is more than one attempt. */
  lemma AttemptsDropIffRetried(c: Config)
    requires c.Valid() && c.hasExecutions
    ensures (exists start, actions, s, a, taskId :: Drops(c, start, actions, s, a, taskId)) <==> c.maxAttempts >= 2
  {
    if c.maxAttempts >= 2 {
      var actions, s, a, taskId := RedeliveryDropsAttempt(c);
    } else {
      forall start, actions, s, a, taskId | Drops(c, start, actions, s, a, taskId) ensures false {
        ReachableInv(c, start, actions, s);
        OnlyAttemptStays(c, s, a, taskId);
      }
    }
  }
}
