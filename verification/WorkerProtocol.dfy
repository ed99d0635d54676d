/**
 Any number of collection workers over one executions table, one broker log and one DLQ table.
 Every database transaction and every broker write is one atomic action. A worker may stop between
 any two actions (a crash, or any error return of HandleMessage), and any requested message in the
 log may be read again at any time.
 */
module WorkerProtocol {
  import opened Common
  import opened Events
  import opened JobExecutions
  import Backoff

  datatype Config = Config(
    maxAttempts: int,
    backoffBase: Time,
    claimTTL: Time,
    hasExecutions: bool,
    hasDlqRepo: bool)
  {
    predicate Valid() {
      maxAttempts > 0 && Backoff.FitsInt64(backoffBase) && claimTTL > 0
    }
  }

  datatype Reply = Reply(runId: int, fetched: int, inserted: int, duplicated: int)

  /** An error of CollectSource; `permanent` is IsPermanentError. */
  datatype Cause = Cause(permanent: bool, message: string)

  datatype Result = Collected(reply: Option<Reply>) | Broken(cause: Cause)

  /** Where a worker stands inside HandleMessage; a worker absent from the map is idle. */
  datatype Pc =
    | Received(e: CollectionRequested)
    | Claimed(e: CollectionRequested, claimId: string)
    | Succeeding(e: CollectionRequested, claimId: string, reply: Reply)
    | Reported(e: CollectionRequested, claimId: string, runId: int)
    | Failing(e: CollectionRequested, claimId: string, cause: Cause)
    | FailureSent(e: CollectionRequested, claimId: string, cause: Cause, failedAt: Time)
    | DlqStored(e: CollectionRequested, claimId: string, cause: Cause)
    | DlqSent(e: CollectionRequested, claimId: string, cause: Cause)
    | RetrySent(e: CollectionRequested, claimId: string, cause: Cause)

  /** `silent` is history: the tasks for which some collection returned a nil response. */
  datatype State = State(
    rows: Table,
    log: seq<Entry>,
    dlq: seq<DlqItem>,
    now: Time,
    workers: map<nat, Pc>,
    issued: set<string>,
    silent: set<string>)

  datatype Action =
    | Tick(to: Time)
    | Submit(e: CollectionRequested)
    | Receive(w: nat, e: CollectionRequested)
    | Claim(w: nat, claimId: string, at: Time)
    | Collect(w: nat, result: Result)
    | SendCompleted(w: nat, at: Time)
    | SendFailed(w: nat, at: Time)
    | StoreDlq(w: nat, at: Time)
    | SendDlq(w: nat)
    | SendRetry(w: nat, at: Time)
    | Mark(w: nat, at: Time)
    | Stop(w: nat)

  function Init(now: Time): State {
    State(map[], [], [], now, map[], {}, {})
  }

  predicate Exhausted(c: Config, e: CollectionRequested, cause: Cause) {
    cause.permanent || e.attempt + 1 >= c.maxAttempts
  }

  predicate Due(e: CollectionRequested, at: Time) {
    e.nextAttemptAt.None? || e.nextAttemptAt.value <= at
  }

  function Retry(c: Config, e: CollectionRequested, at: Time): CollectionRequested {
    e.(attempt := e.attempt + 1, nextAttemptAt := Some(at + Backoff.Delay(c.backoffBase, e.attempt + 1)))
  }

  predicate Marking(pc: Pc) {
    pc.Reported? || pc.DlqSent? || pc.RetrySent?
  }

  function MarkOutcome(pc: Pc): Outcome
    requires Marking(pc)
  {
    match pc
    case Reported(_, _, runId) => ToSucceeded(runId)
    case DlqSent(_, _, cause) => ToDlq(cause.message)
    case RetrySent(e, _, cause) => ToFailed(e.attempt, cause.message)
  }

  function CompletedFor(e: CollectionRequested, reply: Reply, at: Time): Entry {
    CompletedEvent(CollectionCompleted(e.taskId, e.sourceId, reply.runId, reply.fetched, reply.inserted,
                                       reply.duplicated, at, e.key, e.requestedAt))
  }

  function FailedFor(e: CollectionRequested, cause: Cause, at: Time): Entry {
    FailedEvent(CollectionFailed(e.taskId, e.sourceId, e.attempt, cause.message, at, e.key, e.requestedAt))
  }

  /** Clocks are read at or before the moment of commit: `at` is never in the future. */
  predicate Enabled(c: Config, s: State, a: Action) {
    match a
    case Tick(to) => s.now <= to
    case Submit(e) => e.attempt == 0
    case Receive(w, e) => w !in s.workers && RequestedEvent(e) in s.log && ValidEvent(e)
    case Claim(w, id, at) =>
      && w in s.workers && s.workers[w].Received? && Due(s.workers[w].e, at) && at <= s.now
      && (c.hasExecutions ==> id != "" && id !in s.issued)
    case Collect(w, _) => w in s.workers && s.workers[w].Claimed?
    case SendCompleted(w, at) => w in s.workers && s.workers[w].Succeeding? && at <= s.now
    case SendFailed(w, at) => w in s.workers && s.workers[w].Failing? && at <= s.now
    case StoreDlq(w, at) =>
      w in s.workers && s.workers[w].FailureSent? && Exhausted(c, s.workers[w].e, s.workers[w].cause)
      && c.hasDlqRepo && at <= s.now
    case SendDlq(w) =>
      w in s.workers
      && (s.workers[w].DlqStored?
          || (s.workers[w].FailureSent? && Exhausted(c, s.workers[w].e, s.workers[w].cause) && !c.hasDlqRepo))
    case SendRetry(w, at) =>
      w in s.workers && s.workers[w].FailureSent? && !Exhausted(c, s.workers[w].e, s.workers[w].cause)
      && s.workers[w].failedAt <= at <= s.now
    case Mark(w, at) => w in s.workers && Marking(s.workers[w]) && at <= s.now
    case Stop(w) => w in s.workers
  }

  function Apply(c: Config, s: State, a: Action): State
    requires Enabled(c, s, a)
  {
    match a
    case Tick(to) => s.(now := to)
    case Submit(e) => s.(log := s.log + [RequestedEvent(e)])
    case Receive(w, e) => s.(workers := s.workers[w := Received(e)])
    case Claim(w, id, at) =>
      var e := s.workers[w].e;
      if !c.hasExecutions then s.(workers := s.workers[w := Claimed(e, "")])
      else s.(rows := JobExecutions.Claimed(s.rows, e, id, at, at + c.claimTTL),
              issued := s.issued + {id},
              workers := if Claimable(s.rows, e, at) then s.workers[w := Claimed(e, id)] else s.workers - {w})
    case Collect(w, result) =>
      var e, id := s.workers[w].e, s.workers[w].claimId;
      (match result
       case Collected(Some(reply)) => s.(workers := s.workers[w := Succeeding(e, id, reply)])
       case Collected(None) => s.(workers := s.workers[w := Reported(e, id, 0)], silent := s.silent + {e.taskId})
       case Broken(cause) => s.(workers := s.workers[w := Failing(e, id, cause)]))
    case SendCompleted(w, at) =>
      var Succeeding(e, id, reply) := s.workers[w];
      s.(log := s.log + [CompletedFor(e, reply, at)], workers := s.workers[w := Reported(e, id, reply.runId)])
    case SendFailed(w, at) =>
      var Failing(e, id, cause) := s.workers[w];
      s.(log := s.log + [FailedFor(e, cause, at)], workers := s.workers[w := FailureSent(e, id, cause, at)])
    case StoreDlq(w, at) =>
      var FailureSent(e, id, cause, _) := s.workers[w];
      s.(dlq := s.dlq + [DlqItem(e, cause.message, at)], workers := s.workers[w := DlqStored(e, id, cause)])
    case SendDlq(w) =>
      var pc := s.workers[w];
      s.(log := s.log + [DeadLetterEvent(pc.e)], workers := s.workers[w := DlqSent(pc.e, pc.claimId, pc.cause)])
    case SendRetry(w, at) =>
      var FailureSent(e, id, cause, _) := s.workers[w];
      s.(log := s.log + [RequestedEvent(Retry(c, e, at))], workers := s.workers[w := RetrySent(e, id, cause)])
    case Mark(w, at) =>
      var pc := s.workers[w];
      s.(rows := if c.hasExecutions then Marked(s.rows, pc.e.taskId, pc.claimId, MarkOutcome(pc), at) else s.rows,
         workers := s.workers - {w})
    case Stop(w) => s.(workers := s.workers - {w})
  }

  /** The state after a sequence of actions, if every one of them was enabled. */
  function After(c: Config, s: State, actions: seq<Action>): Option<State> {
    if actions == [] then Some(s)
    else
      var last := |actions| - 1;
      match After(c, s, actions[..last])
      case None => None
      case Some(m) => if Enabled(c, m, actions[last]) then Some(Apply(c, m, actions[last])) else None
  }

  lemma {:induction false} AfterOneMore(c: Config, s: State, actions: seq<Action>, a: Action)
    requires After(c, s, actions).Some? && Enabled(c, After(c, s, actions).value, a)
    ensures After(c, s, actions + [a]) == Some(Apply(c, After(c, s, actions).value, a))
  {
    assert (actions + [a])[..|actions|] == actions;
  }

  // ---------------------------------------------------------------- what the log witnesses

  ghost predicate HasRequested(log: seq<Entry>, taskId: string, attempt: int) {
    exists e :: RequestedEvent(e) in log && ValidEvent(e) && e.taskId == taskId && e.attempt == attempt
  }

  ghost predicate HasFailed(log: seq<Entry>, taskId: string, attempt: int) {
    exists f :: FailedEvent(f) in log && f.taskId == taskId && f.attempt == attempt
  }

  /** A completed event whose run id is the one the row records. */
  ghost predicate HasCompleted(log: seq<Entry>, taskId: string, runId: Option<int>) {
    exists d :: CompletedEvent(d) in log && d.taskId == taskId && runId == (if d.runId > 0 then Some(d.runId) else None)
  }

  ghost predicate HasDeadLetter(log: seq<Entry>, taskId: string, attempt: int) {
    exists e :: DeadLetterEvent(e) in log && e.taskId == taskId && e.attempt == attempt
  }

  ghost predicate HasDlqItem(dlq: seq<DlqItem>, taskId: string, attempt: int) {
    exists d :: d in dlq && d.event.taskId == taskId && d.event.attempt == attempt
  }

  // ---------------------------------------------------------------- the invariant

  /** A row and everything that was published before it got its status. */
  ghost predicate RowOk(c: Config, s: State, taskId: string)
    requires taskId in s.rows
  {
    var r := s.rows[taskId];
    && r.taskId == taskId
    && !r.status.Unknown?
    && 0 <= r.attempt < c.maxAttempts
    && (r.status.Processing? <==> r.claimId != "")
    && (r.status.Processing? <==> r.lockedUntil.Some?)
    && (r.claimId != "" ==> r.claimId in s.issued)
    && HasRequested(s.log, taskId, r.attempt)
    && (r.status.Failed? ==>
          && HasFailed(s.log, taskId, r.attempt)
          && r.attempt + 1 < c.maxAttempts
          && HasRequested(s.log, taskId, r.attempt + 1))
    && (r.status.Dlq? ==>
          && HasFailed(s.log, taskId, r.attempt)
          && HasDeadLetter(s.log, taskId, r.attempt)
          && (c.hasDlqRepo ==> HasDlqItem(s.dlq, taskId, r.attempt)))
    && (r.status.Succeeded? ==> HasCompleted(s.log, taskId, r.runId) || (taskId in s.silent && r.runId.None?))
  }

  /** What a worker has already published at each point of HandleMessage. */
  ghost predicate PcOk(c: Config, s: State, pc: Pc) {
    && RequestedEvent(pc.e) in s.log
    && ValidEvent(pc.e)
    && (c.hasExecutions && !pc.Received? ==> pc.claimId != "" && pc.claimId in s.issued)
    && match pc
       case Reported(e, _, runId) =>
         HasCompleted(s.log, e.taskId, if runId > 0 then Some(runId) else None) || (e.taskId in s.silent && runId == 0)
       case FailureSent(e, _, cause, failedAt) =>
         FailedFor(e, cause, failedAt) in s.log && HasFailed(s.log, e.taskId, e.attempt)
       case DlqStored(e, _, _) => HasFailed(s.log, e.taskId, e.attempt) && HasDlqItem(s.dlq, e.taskId, e.attempt)
       case DlqSent(e, _, _) =>
         && HasFailed(s.log, e.taskId, e.attempt)
         && HasDeadLetter(s.log, e.taskId, e.attempt)
         && (c.hasDlqRepo ==> HasDlqItem(s.dlq, e.taskId, e.attempt))
       case RetrySent(e, _, _) =>
         && HasFailed(s.log, e.taskId, e.attempt)
         && e.attempt + 1 < c.maxAttempts
         && HasRequested(s.log, e.taskId, e.attempt + 1)
       case _ => true
  }

  /** Every requested event is within the attempt bound and, past attempt 0, follows a published failure. */
  ghost predicate RequestOk(c: Config, s: State, e: CollectionRequested) {
    && 0 <= e.attempt < c.maxAttempts
    && (e.attempt > 0 ==> HasFailed(s.log, e.taskId, e.attempt - 1) && HasRequested(s.log, e.taskId, e.attempt - 1))
  }

  /** A claim that still owns its row owns it for the event the worker is handling. */
  ghost predicate ClaimOk(c: Config, s: State, pc: Pc) {
    c.hasExecutions && !pc.Received? && pc.e.taskId in s.rows && s.rows[pc.e.taskId].claimId == pc.claimId
    ==> s.rows[pc.e.taskId].attempt == pc.e.attempt
  }

  ghost predicate Distinct(c: Config, s: State, v: nat, w: nat)
    requires v in s.workers && w in s.workers
  {
    v != w && c.hasExecutions && !s.workers[v].Received? && !s.workers[w].Received?
    ==> s.workers[v].claimId != s.workers[w].claimId
  }

  ghost predicate Inv(c: Config, s: State) {
    && c.Valid()
    && (forall t :: t in s.rows ==> RowOk(c, s, t))
    && (forall e :: RequestedEvent(e) in s.log ==> RequestOk(c, s, e))
    && (forall w :: w in s.workers ==> PcOk(c, s, s.workers[w]) && ClaimOk(c, s, s.workers[w]))
    && (forall v, w :: v in s.workers && w in s.workers ==> Distinct(c, s, v, w))
  }

  /** Nothing published, stored or issued is ever taken back. */
  ghost predicate Grows(s: State, s': State) {
    s.log <= s'.log && s.dlq <= s'.dlq && s.issued <= s'.issued && s.silent <= s'.silent
  }

  lemma ActionGrows(c: Config, s: State, a: Action)
    requires Enabled(c, s, a)
    ensures Grows(s, Apply(c, s, a))
  {
  }

  lemma LogKeeps(log: seq<Entry>, log': seq<Entry>)
    requires log <= log'
    ensures forall x :: x in log ==> x in log'
  {
    forall x | x in log ensures x in log' {
      var i :| 0 <= i < |log| && log[i] == x;
      assert log'[i] == x;
    }
  }

  lemma WitnessesKeep(s: State, s': State)
    requires Grows(s, s')
    ensures forall x :: x in s.log ==> x in s'.log
    ensures forall t, n :: HasRequested(s.log, t, n) ==> HasRequested(s'.log, t, n)
    ensures forall t, n :: HasFailed(s.log, t, n) ==> HasFailed(s'.log, t, n)
    ensures forall t, r :: HasCompleted(s.log, t, r) ==> HasCompleted(s'.log, t, r)
    ensures forall t, n :: HasDeadLetter(s.log, t, n) ==> HasDeadLetter(s'.log, t, n)
    ensures forall t, n :: HasDlqItem(s.dlq, t, n) ==> HasDlqItem(s'.dlq, t, n)
  {
    LogKeeps(s.log, s'.log);
    forall d | d in s.dlq ensures d in s'.dlq {
      var i :| 0 <= i < |s.dlq| && s.dlq[i] == d;
      assert s'.dlq[i] == d;
    }
  }

  /** A request appended by an action is within the bound and follows a published failure. */
  lemma AppendedRequestOk(c: Config, s: State, a: Action, s': State)
    requires c.Valid() && Enabled(c, s, a) && s' == Apply(c, s, a) && (a.Submit? || a.SendRetry?)
    requires a.SendRetry? ==> PcOk(c, s, s.workers[a.w]) && RequestOk(c, s, s.workers[a.w].e)
    ensures forall e :: RequestedEvent(e) in s'.log && RequestedEvent(e) !in s.log ==> RequestOk(c, s', e)
  {
    LogKeeps(s.log, s'.log);
    if a.SendRetry? {
      var e := s.workers[a.w].e;
      assert HasRequested(s'.log, e.taskId, e.attempt);
      assert HasFailed(s'.log, e.taskId, e.attempt);
    }
  }

  lemma RequestPreserved(c: Config, s: State, a: Action, s': State, e: CollectionRequested)
    requires Inv(c, s) && Enabled(c, s, a) && s' == Apply(c, s, a) && RequestedEvent(e) in s'.log
    ensures RequestOk(c, s', e)
  {
    if RequestedEvent(e) in s.log {
      assert RequestOk(c, s, e);
      ActionGrows(c, s, a);
      WitnessesKeep(s, s');
    } else {
      if a.SendRetry? {
        assert PcOk(c, s, s.workers[a.w]) && RequestOk(c, s, s.workers[a.w].e);
      }
      AppendedRequestOk(c, s, a, s');
    }
  }

  lemma PcKeeps(c: Config, s: State, s': State, pc: Pc)
    requires Grows(s, s') && PcOk(c, s, pc)
    ensures PcOk(c, s', pc)
  {
    WitnessesKeep(s, s');
  }

  lemma RowKeeps(c: Config, s: State, s': State, taskId: string)
    requires Grows(s, s') && taskId in s.rows && taskId in s'.rows && s'.rows[taskId] == s.rows[taskId]
    requires RowOk(c, s, taskId)
    ensures RowOk(c, s', taskId)
  {
    WitnessesKeep(s, s');
  }

  /** What an action publishes or stores is what its worker's new program point promises. */
  lemma SenderPreserved(c: Config, s: State, a: Action, s': State, w: nat)
    requires Enabled(c, s, a) && s' == Apply(c, s, a) && w in s.workers && w in s'.workers
    requires a.SendCompleted? || a.SendFailed? || a.SendDlq? || a.SendRetry? || a.StoreDlq?
    requires a.w == w && PcOk(c, s, s.workers[w]) && PcOk(c, s', s.workers[w])
    ensures PcOk(c, s', s'.workers[w])
  {
    var pc := s.workers[w];
    match a {
      case SendCompleted(v, at) => assert s'.log[|s.log|] == CompletedFor(pc.e, pc.reply, at);
      case SendFailed(v, at) => assert s'.log[|s.log|] == FailedFor(pc.e, pc.cause, at);
      case SendDlq(v) => assert s'.log[|s.log|] == DeadLetterEvent(pc.e);
      case SendRetry(v, at) => assert s'.log[|s.log|] == RequestedEvent(Retry(c, pc.e, at));
      case StoreDlq(v, at) => assert s'.dlq[|s.dlq|] == DlqItem(pc.e, pc.cause.message, at);
      case _ =>
    }
  }

  /** The acting worker's new program point satisfies its assertion. */
  lemma ActorPreserved(c: Config, s: State, a: Action, s': State, w: nat)
    requires Enabled(c, s, a) && s' == Apply(c, s, a) && !a.Receive? && w in s.workers && w in s'.workers
    requires PcOk(c, s, s.workers[w]) && s'.workers[w] != s.workers[w]
    ensures PcOk(c, s', s'.workers[w])
  {
    ActionGrows(c, s, a);
    PcKeeps(c, s, s', s.workers[w]);
    if a.SendCompleted? || a.SendFailed? || a.SendDlq? || a.SendRetry? || a.StoreDlq? {
      SenderPreserved(c, s, a, s', w);
    }
  }

  lemma PcPreserved(c: Config, s: State, a: Action, s': State, w: nat)
    requires Enabled(c, s, a) && s' == Apply(c, s, a) && w in s'.workers
    requires w in s.workers ==> PcOk(c, s, s.workers[w])
    ensures PcOk(c, s', s'.workers[w])
  {
    ActionGrows(c, s, a);
    if w !in s.workers {
      LogKeeps(s.log, s'.log);
    } else if s'.workers[w] == s.workers[w] {
      PcKeeps(c, s, s', s.workers[w]);
    } else {
      ActorPreserved(c, s, a, s', w);
    }
  }

  lemma ClaimPreserved(c: Config, s: State, a: Action, s': State, w: nat)
    requires Enabled(c, s, a) && s' == Apply(c, s, a) && w in s'.workers
    requires w in s.workers ==> PcOk(c, s, s.workers[w]) && ClaimOk(c, s, s.workers[w])
    ensures ClaimOk(c, s', s'.workers[w])
  {
    if a.Claim? {
      ClaimKeepsClaims(c, s, a, s', w);
    } else if a.Mark? {
      MarkKeepsClaims(c, s, a, s', w);
    }
  }

  /** A claim gives its row a claim id nobody has. */
  lemma ClaimKeepsClaims(c: Config, s: State, a: Action, s': State, w: nat)
    requires a.Claim? && Enabled(c, s, a) && s' == Apply(c, s, a) && w in s.workers && w in s'.workers
    requires PcOk(c, s, s.workers[w]) && ClaimOk(c, s, s.workers[w])
    ensures ClaimOk(c, s', s'.workers[w])
  {
  }

  /** A mark leaves its row without a claim id. */
  lemma MarkKeepsClaims(c: Config, s: State, a: Action, s': State, w: nat)
    requires a.Mark? && Enabled(c, s, a) && s' == Apply(c, s, a) && w in s.workers && w in s'.workers
    requires PcOk(c, s, s.workers[w]) && ClaimOk(c, s, s.workers[w])
    ensures ClaimOk(c, s', s'.workers[w])
  {
  }

  /** A worker past its claim has the claim id it had before, or just made one that was never issued. */
  lemma ClaimIdKept(c: Config, s: State, a: Action, s': State, w: nat)
    requires c.hasExecutions && Enabled(c, s, a) && s' == Apply(c, s, a) && w in s'.workers && !s'.workers[w].Received?
    ensures || (a.Claim? && a.w == w && s'.workers[w].claimId == a.claimId && a.claimId !in s.issued)
            || (w in s.workers && !s.workers[w].Received? && s'.workers[w].claimId == s.workers[w].claimId)
  {
  }

  lemma DistinctPreserved(c: Config, s: State, a: Action, s': State, v: nat, w: nat)
    requires Enabled(c, s, a) && s' == Apply(c, s, a) && v in s'.workers && w in s'.workers
    requires v in s.workers ==> PcOk(c, s, s.workers[v])
    requires w in s.workers ==> PcOk(c, s, s.workers[w])
    requires v in s.workers && w in s.workers ==> Distinct(c, s, v, w)
    ensures Distinct(c, s', v, w)
  {
    if c.hasExecutions && !s'.workers[v].Received? && !s'.workers[w].Received? {
      ClaimIdKept(c, s, a, s', v);
      ClaimIdKept(c, s, a, s', w);
    }
  }

  /** A row that an action writes has its witnesses in place. */
  lemma WrittenRowOk(c: Config, s: State, a: Action, s': State)
    requires Enabled(c, s, a) && s' == Apply(c, s, a) && (a.Claim? || a.Mark?) && s'.rows != s.rows
    requires PcOk(c, s, s.workers[a.w]) && ClaimOk(c, s, s.workers[a.w]) && RequestOk(c, s, s.workers[a.w].e)
    requires s.workers[a.w].e.taskId in s.rows ==> RowOk(c, s, s.workers[a.w].e.taskId)
    ensures RowOk(c, s', s.workers[a.w].e.taskId)
  {
    var e := s.workers[a.w].e;
    assert HasRequested(s.log, e.taskId, e.attempt);
  }

  /** Only a claim or a mark writes a row, and only the row of the task it handles. */
  lemma OnlyOwnRowWritten(c: Config, s: State, a: Action, s': State, taskId: string)
    requires Enabled(c, s, a) && s' == Apply(c, s, a)
    requires taskId in s'.rows && !(taskId in s.rows && s'.rows[taskId] == s.rows[taskId])
    ensures (a.Claim? || a.Mark?) && s.workers[a.w].e.taskId == taskId && s'.rows != s.rows
  {
  }

  lemma RowPreserved(c: Config, s: State, a: Action, s': State, taskId: string)
    requires Inv(c, s) && Enabled(c, s, a) && s' == Apply(c, s, a) && taskId in s'.rows
    ensures RowOk(c, s', taskId)
  {
    if taskId in s.rows {
      assert RowOk(c, s, taskId);
    }
    if taskId in s.rows && s'.rows[taskId] == s.rows[taskId] {
      ActionGrows(c, s, a);
      RowKeeps(c, s, s', taskId);
    } else {
      OnlyOwnRowWritten(c, s, a, s', taskId);
      assert PcOk(c, s, s.workers[a.w]) && ClaimOk(c, s, s.workers[a.w]) && RequestOk(c, s, s.workers[a.w].e);
      WrittenRowOk(c, s, a, s');
    }
  }

  lemma InvInit(c: Config, now: Time)
    requires c.Valid()
    ensures Inv(c, Init(now))
  {
  }

  /** Every action of every participant keeps the invariant. */
  lemma InvStep(c: Config, s: State, a: Action)
    requires Inv(c, s) && Enabled(c, s, a)
    ensures Inv(c, Apply(c, s, a))
  {
    var s' := Apply(c, s, a);
    forall e | RequestedEvent(e) in s'.log ensures RequestOk(c, s', e) {
      RequestPreserved(c, s, a, s', e);
    }
    forall t | t in s'.rows ensures RowOk(c, s', t) {
      RowPreserved(c, s, a, s', t);
    }
    forall w | w in s'.workers ensures PcOk(c, s', s'.workers[w]) && ClaimOk(c, s', s'.workers[w]) {
      PcPreserved(c, s, a, s', w);
      ClaimPreserved(c, s, a, s', w);
    }
    forall v, w | v in s'.workers && w in s'.workers ensures Distinct(c, s', v, w) {
      DistinctPreserved(c, s, a, s', v, w);
    }
  }

  lemma {:induction false} InvRun(c: Config, s: State, actions: seq<Action>)
    requires Inv(c, s) && After(c, s, actions).Some?
    ensures Inv(c, After(c, s, actions).value)
  {
    if actions != [] {
      var last := |actions| - 1;
      InvRun(c, s, actions[..last]);
      InvStep(c, After(c, s, actions[..last]).value, actions[last]);
    }
  }
}
