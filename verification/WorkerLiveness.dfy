/** Why no task is stranded for good, and when the retries of a task are due. */
module WorkerLiveness {
  import opened Common
  import opened Events
  import opened JobExecutions
  import opened WorkerProtocol
  import opened WorkerSafety
  import opened WorkerEffects
  import opened WorkerDrain

  // ---------------------------------------------------------------- every unfinished task can be resumed

  /** Claiming the event leaves its task processing under the new claim, and no other row touched. */
  ghost predicate TakesOver(rows: Table, e: CollectionRequested, claimId: string, at: Time, until: Time) {
    var rows' := JobExecutions.Claimed(rows, e, claimId, at, until);
    && e.taskId in rows' && rows' - {e.taskId} == rows - {e.taskId}
    && rows'[e.taskId].status.Processing? && rows'[e.taskId].claimId == claimId
    && rows'[e.taskId].attempt == e.attempt && rows'[e.taskId].lockedUntil == Some(until)
  }

  /** The request that resumes a task: its own attempt again while it is processing, the next one once it failed. */
  ghost predicate ResumesTask(rows: Table, e: CollectionRequested)
    requires e.taskId in rows
  {
    var row := rows[e.taskId];
    || (row.status.Processing? && e.attempt == row.attempt)
    || (row.status.Failed? && e.attempt == row.attempt + 1)
  }

  /** From its wake-up time on the row is open to that request: the end of its lease, or any time once it failed. */
  predicate Awake(row: JobExecution, at: Time) {
    row.status.Processing? ==> row.lockedUntil.Some? && at >= row.lockedUntil.value
  }

  /**
   No task is ever stranded for good: in every reachable state a row that is neither succeeded nor dlq has a
   valid request in the log, and a claim of that request takes the row over exactly from its wake-up time on.
   */
  lemma NeverStranded(c: Config, start: Time, actions: seq<Action>, s: State, taskId: string)
    returns (e: CollectionRequested)
    requires c.Valid() && Reaches(c, Init(start), actions, s) && taskId in s.rows
    requires !s.rows[taskId].status.Succeeded? && !s.rows[taskId].status.Dlq?
    ensures RequestedEvent(e) in s.log && ValidEvent(e) && e.taskId == taskId && ResumesTask(s.rows, e)
    ensures forall claimId, at, until :: claimId != s.rows[taskId].claimId ==>
              (TakesOver(s.rows, e, claimId, at, until) <==> Awake(s.rows[taskId], at))
  {
    ReachableInv(c, start, actions, s);
    assert RowOk(c, s, taskId);
    var row := s.rows[taskId];
    var n := if row.status.Processing? then row.attempt else row.attempt + 1;
    assert HasRequested(s.log, taskId, n);
    e :| RequestedEvent(e) in s.log && ValidEvent(e) && e.taskId == taskId && e.attempt == n;
    forall claimId, at, until | claimId != row.claimId
      ensures TakesOver(s.rows, e, claimId, at, until) <==> Awake(row, at)
    {
      AwakeIsTakenOver(s.rows, e, claimId, at, until);
    }
  }

  lemma AwakeIsTakenOver(rows: Table, e: CollectionRequested, claimId: string, at: Time, until: Time)
    requires e.taskId in rows && ResumesTask(rows, e) && claimId != rows[e.taskId].claimId
    requires rows[e.taskId].status.Processing? ==> rows[e.taskId].lockedUntil.Some?
    ensures TakesOver(rows, e, claimId, at, until) <==> Awake(rows[e.taskId], at)
  {
    var rows' := JobExecutions.Claimed(rows, e, claimId, at, until);
    if Awake(rows[e.taskId], at) {
      assert rows' - {e.taskId} == rows - {e.taskId};
    } else {
      assert rows' == rows;
    }
  }

  /** A free worker that reads the request at such a moment ends up collecting it. */
  lemma ResumedByAnyWorker(c: Config, s: State, e: CollectionRequested, w: nat, claimId: string, at: Time)
    returns (s': State)
    requires c.hasExecutions && RequestedEvent(e) in s.log && ValidEvent(e) && e.taskId in s.rows
    requires ResumesTask(s.rows, e) && Awake(s.rows[e.taskId], at)
    requires w !in s.workers && claimId != "" && claimId !in s.issued
    requires s.now <= at && (e.nextAttemptAt.None? || e.nextAttemptAt.value <= at)
    ensures CanReach(c, s, s') && w in s'.workers && s'.workers[w] == Pc.Claimed(e, claimId)
    ensures e.taskId in s'.rows && s'.rows[e.taskId].status.Processing? && s'.rows[e.taskId].claimId == claimId
    ensures s'.rows[e.taskId].attempt == e.attempt && s'.rows[e.taskId].lockedUntil == Some(at + c.claimTTL)
  {
    s' := Claims(c, s, w, e, claimId, at);
  }

  // ---------------------------------------------------------------- retries wait for their backoff

  /** Record i asks again for what record j says has failed, due after the backoff of that attempt. */
  ghost predicate Follows(c: Config, log: seq<Entry>, now: Time, i: nat, j: nat, p: CollectionRequested)
    requires i < |log| && j < |log|
  {
    && j < i && log[i].RequestedEvent? && log[j].FailedEvent?
    && log[j].failed.taskId == log[i].event.taskId && log[j].failed.attempt == log[i].event.attempt - 1
    && RequestedEvent(p) in log[..i] && p.attempt == log[i].event.attempt - 1
    && NextAttempt(c, p, log[i], log[j].failed.failedAt, now)
  }

  ghost predicate Scheduled(c: Config, log: seq<Entry>, now: Time, i: nat)
    requires i < |log|
  {
    log[i].RequestedEvent? && log[i].event.attempt >= 1 ==>
      exists j: nat, p :: j < |log| && Follows(c, log, now, i, j, p)
  }

  lemma FollowsOn(c: Config, log: seq<Entry>, log': seq<Entry>, now: Time, now': Time, i: nat)
    requires i < |log| && log <= log' && now <= now' && Scheduled(c, log, now, i)
    ensures Scheduled(c, log', now', i)
  {
    if log[i].RequestedEvent? && log[i].event.attempt >= 1 {
      var j: nat, p :| j < |log| && Follows(c, log, now, i, j, p);
      assert log'[..i] == log[..i];
      assert Follows(c, log', now', i, j, p);
    }
  }

  lemma RetryFollows(c: Config, s: State, a: Action, s': State)
    requires a.SendRetry? && Enabled(c, s, a) && s' == Apply(c, s, a) && PcOk(c, s, s.workers[a.w])
    ensures Scheduled(c, s'.log, s'.now, |s.log|)
  {
    var pc := s.workers[a.w];
    var j :| 0 <= j < |s.log| && s.log[j] == FailedFor(pc.e, pc.cause, pc.failedAt);
    RetryIsNextAttempt(c, pc.e, pc.failedAt, a.at, s.now);
    assert s'.log[..|s.log|] == s.log;
    assert Follows(c, s'.log, s'.now, |s.log|, j, pc.e);
  }

  lemma ActorOk(c: Config, s: State, w: nat)
    requires Inv(c, s) && w in s.workers
    ensures PcOk(c, s, s.workers[w])
  {
  }

  /** Only a retry appends a request that is not a first attempt. */
  lemma NewRequestIsRetry(c: Config, s: State, a: Action, s': State, i: nat)
    requires Enabled(c, s, a) && s' == Apply(c, s, a) && |s.log| <= i < |s'.log|
    requires s'.log[i].RequestedEvent? && s'.log[i].event.attempt >= 1
    ensures a.SendRetry? && i == |s.log|
  {
  }

  lemma ScheduledStep(c: Config, s: State, a: Action, s': State, i: nat)
    requires Enabled(c, s, a) && s' == Apply(c, s, a) && i < |s'.log|
    requires a.SendRetry? ==> PcOk(c, s, s.workers[a.w])
    requires i < |s.log| ==> Scheduled(c, s.log, s.now, i)
    ensures Scheduled(c, s'.log, s'.now, i)
  {
    ActionGrows(c, s, a);
    if i < |s.log| {
      FollowsOn(c, s.log, s'.log, s.now, s'.now, i);
    } else if s'.log[i].RequestedEvent? && s'.log[i].event.attempt >= 1 {
      NewRequestIsRetry(c, s, a, s', i);
      RetryFollows(c, s, a, s');
    }
  }

  /**
   In every reachable state each request of attempt n >= 1 comes after a failure of attempt n - 1, repeats the
   fields of a request of that attempt, and is due exactly base * 2^(n-1) after a clock reading that is not before
   the failure - or, where that is no int64, its wrapped value.
   */
  lemma {:induction false} RetriesWaitTheirBackoff(c: Config, start: Time, actions: seq<Action>, s: State, i: nat)
    requires c.Valid() && Reaches(c, Init(start), actions, s) && i < |s.log|
    ensures Scheduled(c, s.log, s.now, i)
    decreases |actions|
  {
    if actions != [] {
      var last := |actions| - 1;
      var u := After(c, Init(start), actions[..last]).value;
      ReachableInv(c, start, actions[..last], u);
      if i < |u.log| {
        RetriesWaitTheirBackoff(c, start, actions[..last], u, i);
      }
      if actions[last].SendRetry? {
        ActorOk(c, u, actions[last].w);
      }
      ScheduledStep(c, u, actions[last], s, i);
    }
  }
}
