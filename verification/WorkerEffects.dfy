/** What one undisturbed HandleMessage does, and why handling a queue of messages drains it. */
module WorkerEffects {
  import opened Common
  import opened Events
  import opened JobExecutions
  import opened WorkerProtocol
  import opened WorkerSafety
  import Backoff

  /** The next attempt of a failed request: due after its backoff from a clock reading between the two times. */
  ghost predicate NextAttempt(c: Config, e: CollectionRequested, x: Entry, before: Time, after: Time) {
    && x.RequestedEvent? && x.event.nextAttemptAt.Some?
    && x.event.taskId == e.taskId && x.event.userId == e.userId && x.event.sourceId == e.sourceId
    && x.event.key == e.key && x.event.requestedAt == e.requestedAt && x.event.attempt == e.attempt + 1
    && exists at :: before <= at <= after
                    && Backoff.Waits(c.backoffBase, e.attempt + 1, Passed(at, x.event.nextAttemptAt.value))
  }

  function Passed(from: Time, to: Time): Time { to - from }

  lemma RetryIsNextAttempt(c: Config, e: CollectionRequested, before: Time, at: Time, after: Time)
    requires e.attempt >= 0 && before <= at <= after
    ensures NextAttempt(c, e, RequestedEvent(Retry(c, e, at)), before, after)
  {
    Backoff.DelayWaits(c.backoffBase, e.attempt + 1);
    assert Passed(at, Retry(c, e, at).nextAttemptAt.value) == Backoff.Delay(c.backoffBase, e.attempt + 1);
  }

  ghost predicate ReportsCompleted(e: CollectionRequested, reply: Reply, x: Entry, before: Time, after: Time) {
    && x.CompletedEvent? && x.completed.taskId == e.taskId && x.completed.sourceId == e.sourceId
    && x.completed.runId == reply.runId && x.completed.fetchedCount == reply.fetched
    && x.completed.insertedCount == reply.inserted && x.completed.duplicatedCount == reply.duplicated
    && x.completed.key == e.key && x.completed.originalRequested == e.requestedAt
    && before <= x.completed.completedAt <= after
  }

  ghost predicate ReportsFailed(e: CollectionRequested, cause: Cause, x: Entry, before: Time, after: Time) {
    && x.FailedEvent? && x.failed.taskId == e.taskId && x.failed.sourceId == e.sourceId
    && x.failed.attempt == e.attempt && x.failed.errorMessage == cause.message
    && x.failed.key == e.key && x.failed.originalRequested == e.requestedAt
    && before <= x.failed.failedAt <= after
  }

  ghost predicate StoresDlq(e: CollectionRequested, cause: Cause, d: DlqItem, before: Time, after: Time) {
    d.event == e && d.errorMessage == cause.message && before <= d.createdAt <= after
  }

  /**
   What one finished collection publishes, in order. A permanent error and the last attempt go to the dead
   letter at once, any other failure asks for the next attempt.
   */
  ghost predicate Publishes(c: Config, e: CollectionRequested, result: Result, before: Time, after: Time,
        out: seq<Entry>) {
    match result
    case Collected(None) => out == []
    case Collected(Some(reply)) => |out| == 1 && ReportsCompleted(e, reply, out[0], before, after)
    case Broken(cause) =>
      && |out| == 2 && ReportsFailed(e, cause, out[0], before, after)
      && (if cause.permanent || e.attempt + 1 >= c.maxAttempts then out[1] == DeadLetterEvent(e)
          else NextAttempt(c, e, out[1], out[0].failed.failedAt, after))
  }

  /** The row after one finished collection of `e`. */
  ghost predicate Records(c: Config, e: CollectionRequested, result: Result, row: JobExecution) {
    && row.attempt == e.attempt && row.claimId == "" && row.lockedUntil.None?
    && match result
       case Collected(None) => row.status == Succeeded && row.runId.None?
       case Collected(Some(reply)) =>
         row.status == Succeeded && row.runId == if reply.runId > 0 then Some(reply.runId) else None
       case Broken(cause) =>
         && row.status == (if cause.permanent || e.attempt + 1 >= c.maxAttempts then Dlq else Failed)
         && row.lastError == cause.message
  }

  /**
   A message handled without error, its claim decided at clock reading `at`: either skipped with no
   effect, or collected, published and recorded.
   */
  ghost predicate Handled(c: Config, s: State, s': State, calls: seq<CollectionRequested>,
                          calls': seq<CollectionRequested>, e: CollectionRequested, result: Result, at: Time) {
    || (s'.rows == s.rows && s'.log == s.log && s'.dlq == s.dlq && calls' == calls
        && c.hasExecutions && !Claimable(s.rows, e, at))
    || (&& calls' == calls + [e]
        && (c.hasExecutions ==>
              && Claimable(s.rows, e, at)
              && e.taskId in s'.rows && s'.rows == s.rows[e.taskId := s'.rows[e.taskId]]
              && Records(c, e, result, s'.rows[e.taskId]))
        && (!c.hasExecutions ==> s'.rows == s.rows)
        && s.log <= s'.log && Publishes(c, e, result, s.now, s'.now, s'.log[|s.log|..])
        && (if result.Broken? && (result.cause.permanent || e.attempt + 1 >= c.maxAttempts) && c.hasDlqRepo
            then |s'.dlq| == |s.dlq| + 1 && s.dlq <= s'.dlq
                 && StoresDlq(e, result.cause, s'.dlq[|s.dlq|], s.now, s'.now)
            else s'.dlq == s.dlq))
  }

  /** From a granted claim in `m` to the end in `s'`. */
  ghost predicate Processed(c: Config, m: State, s': State, e: CollectionRequested, result: Result) {
    && m.log <= s'.log && Publishes(c, e, result, m.now, s'.now, s'.log[|m.log|..])
    && (if c.hasExecutions then
          && e.taskId in s'.rows && s'.rows == m.rows[e.taskId := s'.rows[e.taskId]]
          && Records(c, e, result, s'.rows[e.taskId])
        else s'.rows == m.rows)
    && (if result.Broken? && (result.cause.permanent || e.attempt + 1 >= c.maxAttempts) && c.hasDlqRepo
        then |s'.dlq| == |m.dlq| + 1 && m.dlq <= s'.dlq && StoresDlq(e, result.cause, s'.dlq[|m.dlq|], m.now, s'.now)
        else s'.dlq == m.dlq)
  }

  lemma ProcessedIsHandled(c: Config, s: State, m: State, s': State, calls: seq<CollectionRequested>,
                           calls': seq<CollectionRequested>, e: CollectionRequested, result: Result, claimId: string,
                           at: Time)
    requires m.log == s.log && m.dlq == s.dlq && s.now <= m.now && calls' == calls + [e]
    requires if c.hasExecutions then Claimable(s.rows, e, at)
                                     && m.rows == JobExecutions.Claimed(s.rows, e, claimId, at, at + c.claimTTL)
             else m.rows == s.rows
    requires Processed(c, m, s', e, result)
    ensures Handled(c, s, s', calls, calls', e, result, at)
  {
  }

  // ---------------------------------------------------------------- draining the requested topic

  /** A message costs the collections it may still cause, and the records they may append. */
  function Cost(c: Config, x: Entry): nat {
    if x.RequestedEvent? then 1 + 2 * Max(0, c.maxAttempts - x.event.attempt) else 1
  }

  function Work(c: Config, log: seq<Entry>): nat {
    if log == [] then 0 else Cost(c, log[0]) + Work(c, log[1..])
  }

  lemma {:induction false} WorkSplits(c: Config, a: seq<Entry>, b: seq<Entry>)
    ensures Work(c, a + b) == Work(c, a) + Work(c, b)
  {
    if a == [] {
      assert a + b == b;
    } else {
      assert (a + b)[1..] == a[1..] + b;
      WorkSplits(c, a[1..], b);
    }
  }

  /** A valid request for the task. */
  predicate Requests(x: Entry, taskId: string) {
    x.RequestedEvent? && ValidEvent(x.event) && x.event.taskId == taskId
  }

  predicate InBound(c: Config, log: seq<Entry>) {
    forall i :: 0 <= i < |log| && log[i].RequestedEvent? ==> log[i].event.attempt < c.maxAttempts
  }

  /** What a collection publishes costs less than the request did, and stays within the attempt bound. */
  lemma {:induction false} PublishesLess(c: Config, e: CollectionRequested, result: Result, before: Time, after: Time,
                                         out: seq<Entry>)
    requires c.Valid() && 0 <= e.attempt < c.maxAttempts && Publishes(c, e, result, before, after, out)
    ensures Work(c, out) < Cost(c, RequestedEvent(e)) && InBound(c, out)
  {
    if |out| == 2 {
      assert out == [out[0]] + [out[1]];
      WorkSplits(c, [out[0]], [out[1]]);
    } else if |out| == 1 {
      assert out[1..] == [];
    }
  }

  /** Handling one message strictly lowers the work left, whatever the collection returned. */
  lemma {:induction false} HandledLowersWork(c: Config, s: State, s': State, calls: seq<CollectionRequested>,
                                             calls': seq<CollectionRequested>, e: CollectionRequested, result: Result,
                                             at: Time, offset: nat)
    requires c.Valid() && Handled(c, s, s', calls, calls', e, result, at)
    requires offset < |s.log| && s.log[offset] == RequestedEvent(e) && 0 <= e.attempt < c.maxAttempts
    requires InBound(c, s.log)
    ensures s.log <= s'.log && InBound(c, s'.log)
    ensures Work(c, s'.log[offset + 1..]) < Work(c, s.log[offset..])
  {
    if s'.log == s.log {
      IgnoredLowersWork(c, s.log, offset);
    } else {
      PublishesLess(c, e, result, s.now, s'.now, s'.log[|s.log|..]);
      AppendedLowersWork(c, s.log, s'.log, offset);
    }
  }

  lemma {:induction false} AppendedLowersWork(c: Config, log: seq<Entry>, log': seq<Entry>, offset: nat)
    requires offset < |log| && log <= log' && Work(c, log'[|log|..]) < Cost(c, log[offset])
    requires InBound(c, log) && InBound(c, log'[|log|..])
    ensures Work(c, log'[offset + 1..]) < Work(c, log[offset..]) && InBound(c, log')
  {
    var out := log'[|log|..];
    assert log' == log + out;
    assert log'[offset + 1..] == log[offset + 1..] + out;
    WorkSplits(c, log[offset + 1..], out);
    assert log[offset..][1..] == log[offset + 1..];
    forall i | 0 <= i < |log'| && log'[i].RequestedEvent? ensures log'[i].event.attempt < c.maxAttempts {
      assert log'[i] == if i < |log| then log[i] else out[i - |log|];
    }
  }

  lemma {:induction false} IgnoredLowersWork(c: Config, log: seq<Entry>, offset: nat)
    requires offset < |log|
    ensures Work(c, log[offset + 1..]) < Work(c, log[offset..])
  {
    assert log[offset..][1..] == log[offset + 1..];
  }

  /** Reachable logs keep to the attempt bound. */
  lemma InvBounds(c: Config, s: State)
    requires Inv(c, s)
    ensures InBound(c, s.log)
  {
    forall i | 0 <= i < |s.log| && s.log[i].RequestedEvent? ensures s.log[i].event.attempt < c.maxAttempts {
      assert RequestedEvent(s.log[i].event) in s.log;
      assert RequestOk(c, s, s.log[i].event);
    }
  }

  // ---------------------------------------------------------------- what a drain does to each task

  /** A drain that began at record `from` with table `start`; `readAt` are the clock readings of the claims. */
  datatype Drain = Drain(start: Table, from: nat, offset: nat, readAt: map<nat, Time>)

  /** A request still to be read that may take the task's failed row over. */
  ghost predicate Pending(log: seq<Entry>, offset: nat, taskId: string, attempt: int) {
    exists i :: offset <= i < |log| && Requests(log[i], taskId) && log[i].event.attempt > attempt
  }

  /** Some request read so far may take the row over that the drain started with. */
  ghost predicate Revived(d: Drain, log: seq<Entry>, taskId: string)
    requires taskId in d.start
  {
    exists i :: d.from <= i < d.offset && i < |log| && Requests(log[i], taskId) && i in d.readAt
                && MayTakeOver(d.start[taskId], log[i].event, d.readAt[i])
  }

  predicate Called(calls: seq<CollectionRequested>, taskId: string) {
    exists i :: 0 <= i < |calls| && calls[i].taskId == taskId
  }

  /** A task this drain collected: ended, or failed with its retry ahead of the reader. */
  ghost predicate Touched(d: Drain, rows: Table, log: seq<Entry>, taskId: string) {
    && taskId in rows && (rows[taskId].status.Failed? || Terminal(rows[taskId]))
    && (rows[taskId].status.Failed? ==> Pending(log, d.offset, taskId, rows[taskId].attempt))
    && (taskId in d.start ==> Revived(d, log, taskId))
  }

  /** A task this drain skipped at every request: its row is still the one found at the start. */
  ghost predicate Untouched(d: Drain, rows: Table, log: seq<Entry>, taskId: string) {
    && taskId in d.start && taskId in rows && rows[taskId] == d.start[taskId]
    && !Revived(d, log, taskId)
  }

  /** The collections of one task were made for strictly increasing attempts below the bound. */
  ghost predicate CallsRise(c: Config, rows: Table, calls: seq<CollectionRequested>) {
    && (forall i :: 0 <= i < |calls| ==>
          && 0 <= calls[i].attempt < c.maxAttempts
          && calls[i].taskId in rows && calls[i].attempt <= rows[calls[i].taskId].attempt)
    && (forall i, j :: 0 <= i < j < |calls| && calls[i].taskId == calls[j].taskId
          ==> calls[i].attempt < calls[j].attempt)
  }

  /** Every valid request read so far has its row, and so has every task of the start. */
  ghost predicate Accounted(d: Drain, rows: Table, log: seq<Entry>) {
    && (forall i, t :: d.from <= i < d.offset && i < |log| && Requests(log[i], t) ==> t in rows)
    && (forall t :: t in d.start ==> t in rows)
  }

  ghost predicate Tracks(d: Drain, rows: Table, log: seq<Entry>, calls: seq<CollectionRequested>) {
    forall t :: t in rows ==> if Called(calls, t) then Touched(d, rows, log, t) else Untouched(d, rows, log, t)
  }

  function Advance(d: Drain, at: Time): Drain {
    d.(offset := d.offset + 1, readAt := d.readAt[d.offset := at])
  }

  /** Clock readings are recorded for records already read. */
  predicate Recorded(d: Drain, log: seq<Entry>) {
    d.from <= d.offset <= |log| && forall i :: i in d.readAt ==> i < d.offset
  }

  /** Every record read has its clock reading, in order, and no request was handled before it was due. */
  ghost predicate Timeline(d: Drain, log: seq<Entry>, since: Time, now: Time) {
    && (forall i :: d.from <= i < d.offset ==> i in d.readAt && since <= d.readAt[i] <= now)
    && (forall i, j :: d.from <= i < j < d.offset && i in d.readAt && j in d.readAt ==> d.readAt[i] <= d.readAt[j])
    && (forall i, t :: d.from <= i < d.offset && i < |log| && i in d.readAt && Requests(log[i], t)
          ==> Due(log[i].event, d.readAt[i]))
  }

  lemma TimelineAdvances(d: Drain, log: seq<Entry>, log': seq<Entry>, since: Time, before: Time, at: Time, now: Time)
    requires Recorded(d, log) && d.offset < |log| && log <= log' && Timeline(d, log, since, before)
    requires since <= before <= at <= now
    requires log[d.offset].RequestedEvent? && ValidEvent(log[d.offset].event) ==> Due(log[d.offset].event, at)
    ensures Timeline(Advance(d, at), log', since, now)
  {
    forall i, t | d.from <= i <= d.offset && i < |log'| && i in Advance(d, at).readAt && Requests(log'[i], t)
      ensures Due(log'[i].event, Advance(d, at).readAt[i])
    {
      assert log'[i] == log[i];
    }
  }

  // ---------------------------------------------------------------- what can be known when a drain starts

  /** A drain that starts at `since` has waited for every valid request among records from..n before it is past them. */
  function Floor(log: seq<Entry>, from: nat, since: Time, n: nat): Time
    requires n <= |log|
  {
    if n <= from then since else LaterDue(Floor(log, from, since, n - 1), log[n - 1])
  }

  function LaterDue(t: Time, x: Entry): Time {
    if x.RequestedEvent? && ValidEvent(x.event) && x.event.nextAttemptAt.Some? then Max(t, x.event.nextAttemptAt.value)
    else t
  }

  lemma {:induction false} FloorKept(log: seq<Entry>, log': seq<Entry>, from: nat, since: Time, n: nat)
    requires log <= log' && n <= |log|
    ensures Floor(log', from, since, n) == Floor(log, from, since, n)
  {
    if n > from {
      FloorKept(log, log', from, since, n - 1);
    }
  }

  /** No record is read before its floor. */
  lemma {:induction false} ReadAfterFloor(d: Drain, log: seq<Entry>, since: Time, now: Time, i: nat)
    requires Timeline(d, log, since, now) && d.from <= i < d.offset <= |log|
    ensures Floor(log, d.from, since, i + 1) <= d.readAt[i]
  {
    if i > d.from {
      ReadAfterFloor(d, log, since, now, i - 1);
    }
    assert log[i].RequestedEvent? && ValidEvent(log[i].event) ==> Requests(log[i], log[i].event.taskId);
  }

  /** Some request in the log may take the row over even if it is read as early as a drain can read it. */
  ghost predicate CanResume(row: JobExecution, log: seq<Entry>, from: nat, since: Time, taskId: string) {
    exists i :: from <= i < |log| && Requests(log[i], taskId)
                && MayTakeOver(row, log[i].event, Floor(log, from, since, i + 1))
  }

  /** Whatever the clock does during the drain, such a row is taken over. */
  lemma ResumableIsRevived(d: Drain, log: seq<Entry>, log': seq<Entry>, since: Time, now: Time, t: string)
    requires log <= log' && Timeline(d, log', since, now) && d.offset == |log'| && t in d.start
    requires CanResume(d.start[t], log, d.from, since, t)
    ensures Revived(d, log', t)
  {
    var i :| d.from <= i < |log| && Requests(log[i], t)
             && MayTakeOver(d.start[t], log[i].event, Floor(log, d.from, since, i + 1));
    FloorKept(log, log', d.from, since, i + 1);
    ReadAfterFloor(d, log', since, now, i);
    StillProcessed(d.start[t], log[i].event, Floor(log, d.from, since, i + 1), d.readAt[i]);
    assert log'[i] == log[i];
  }

  /** A row that may be taken over may be taken over later as well. */
  lemma StillProcessed(row: JobExecution, e: CollectionRequested, at: Time, later: Time)
    requires MayTakeOver(row, e, at) && at <= later
    ensures MayTakeOver(row, e, later)
  {
  }

  lemma ResumablesAreRevived(d: Drain, log: seq<Entry>, log': seq<Entry>, since: Time, now: Time)
    requires log <= log' && Timeline(d, log', since, now) && d.offset == |log'|
    ensures forall t :: t in d.start && CanResume(d.start[t], log, d.from, since, t) ==> Revived(d, log', t)
  {
    forall t | t in d.start && CanResume(d.start[t], log, d.from, since, t) ensures Revived(d, log', t) {
      ResumableIsRevived(d, log, log', since, now, t);
    }
  }

  /** Every record was read at its floor. */
  ghost predicate AtFloor(d: Drain, log: seq<Entry>, since: Time)
    requires d.offset <= |log|
  {
    forall i :: d.from <= i < d.offset ==> i in d.readAt && d.readAt[i] == Floor(log, d.from, since, i + 1)
  }

  /** A drain that reads every record at its floor revives only what any drain would. */
  lemma FloorRevivesOnlyResumable(d: Drain, log: seq<Entry>, log': seq<Entry>, since: Time, t: string)
    requires log <= log' && d.offset == |log'| && AtFloor(d, log', since) && t in d.start
    requires forall i :: |log| <= i < |log'| ==> !Requests(log'[i], t)
    ensures Revived(d, log', t) ==> CanResume(d.start[t], log, d.from, since, t)
  {
    if Revived(d, log', t) {
      var i :| d.from <= i < |log'| && Requests(log'[i], t) && i in d.readAt
               && MayTakeOver(d.start[t], log'[i].event, d.readAt[i]);
      FloorKept(log, log', d.from, since, i + 1);
      assert log'[i] == log[i];
    }
  }

  lemma RevivedAdvances(d: Drain, log: seq<Entry>, log': seq<Entry>, at: Time, taskId: string)
    requires Recorded(d, log) && d.offset < |log| && log <= log' && taskId in d.start
    ensures Revived(Advance(d, at), log', taskId)
            <==> Revived(d, log, taskId)
                 || (Requests(log[d.offset], taskId) && MayTakeOver(d.start[taskId], log[d.offset].event, at))
  {
    var d' := Advance(d, at);
    if Revived(d, log, taskId) {
      var i :| d.from <= i < d.offset && i < |log| && Requests(log[i], taskId) && i in d.readAt
               && MayTakeOver(d.start[taskId], log[i].event, d.readAt[i]);
      assert log'[i] == log[i] && d'.readAt[i] == d.readAt[i];
    } else if Revived(d', log', taskId) {
      var i :| d'.from <= i < d'.offset && i < |log'| && Requests(log'[i], taskId) && i in d'.readAt
               && MayTakeOver(d'.start[taskId], log'[i].event, d'.readAt[i]);
      assert log'[i] == log[i];
    } else {
      assert log'[d.offset] == log[d.offset] && d'.readAt[d.offset] == at;
    }
  }

  /** A pending request stays ahead of the reader unless it is the one just read. */
  lemma PendingAdvances(log: seq<Entry>, log': seq<Entry>, offset: nat, taskId: string, attempt: int)
    requires Pending(log, offset, taskId, attempt) && log <= log' && offset < |log|
    requires !(Requests(log[offset], taskId) && log[offset].event.attempt > attempt)
    ensures Pending(log', offset + 1, taskId, attempt)
  {
    var i :| offset <= i < |log| && Requests(log[i], taskId) && log[i].event.attempt > attempt;
    assert log'[i] == log[i];
  }

  /** A record that does not concern a task leaves what is known about the task as it was. */
  lemma OtherTaskKept(d: Drain, rows: Table, log: seq<Entry>, rows': Table, log': seq<Entry>, at: Time, t: string)
    requires Recorded(d, log) && d.offset < |log| && log <= log' && !Requests(log[d.offset], t)
    requires t in rows && t in rows' && rows'[t] == rows[t]
    ensures Touched(d, rows, log, t) ==> Touched(Advance(d, at), rows', log', t)
    ensures Untouched(d, rows, log, t) ==> Untouched(Advance(d, at), rows', log', t)
  {
    if t in d.start {
      RevivedAdvances(d, log, log', at, t);
    }
    if Touched(d, rows, log, t) && rows[t].status.Failed? {
      PendingAdvances(log, log', d.offset, t, rows[t].attempt);
    }
  }

  /** So does a request that is skipped. */
  lemma SkippedTaskKept(d: Drain, rows: Table, log: seq<Entry>, at: Time, t: string)
    requires Recorded(d, log) && d.offset < |log| && Requests(log[d.offset], t)
    requires t in rows && !MayTakeOver(rows[t], log[d.offset].event, at)
    ensures Touched(d, rows, log, t) ==> Touched(Advance(d, at), rows, log, t)
    ensures Untouched(d, rows, log, t) ==> Untouched(Advance(d, at), rows, log, t)
  {
    if t in d.start {
      RevivedAdvances(d, log, log, at, t);
    }
    if Touched(d, rows, log, t) && rows[t].status.Failed? {
      PendingAdvances(log, log, d.offset, t, rows[t].attempt);
    }
  }

  /** The message was collected, published and recorded. */
  ghost predicate Collects(c: Config, s: State, s': State, e: CollectionRequested, result: Result, at: Time) {
    && Claimable(s.rows, e, at) && e.taskId in s'.rows && s'.rows == s.rows[e.taskId := s'.rows[e.taskId]]
    && Records(c, e, result, s'.rows[e.taskId])
    && s.log <= s'.log && Publishes(c, e, result, s.now, s'.now, s'.log[|s.log|..])
  }

  /** A collected task has ended, or has failed with its retry in the log. */
  lemma CollectedTaskTouched(c: Config, d: Drain, s: State, s': State, calls: seq<CollectionRequested>,
                             e: CollectionRequested, result: Result, at: Time)
    requires Recorded(d, s.log) && d.offset < |s.log| && s.log[d.offset] == RequestedEvent(e) && ValidEvent(e)
    requires Collects(c, s, s', e, result, at)
    requires e.taskId in s.rows ==> Touched(d, s.rows, s.log, e.taskId) || Untouched(d, s.rows, s.log, e.taskId)
    requires e.taskId in d.start ==> e.taskId in s.rows
    ensures Touched(Advance(d, at), s'.rows, s'.log, e.taskId)
  {
    if e.taskId in d.start {
      RevivedAdvances(d, s.log, s'.log, at, e.taskId);
    }
    if s'.rows[e.taskId].status.Failed? {
      var last := |s.log| + 1;
      assert s'.log[last] == s'.log[|s.log|..][1];
      assert Requests(s'.log[last], e.taskId) && s'.log[last].event.attempt == e.attempt + 1;
    }
  }

  /** Handling one message keeps track of every task. */
  lemma HandledKeepsTracks(c: Config, d: Drain, s: State, s': State, calls: seq<CollectionRequested>,
                           calls': seq<CollectionRequested>, e: CollectionRequested, result: Result, at: Time)
    requires c.hasExecutions && Handled(c, s, s', calls, calls', e, result, at) && ValidEvent(e)
    requires Recorded(d, s.log) && d.offset < |s.log| && s.log[d.offset] == RequestedEvent(e)
    requires Tracks(d, s.rows, s.log, calls) && Accounted(d, s.rows, s.log)
    ensures Tracks(Advance(d, at), s'.rows, s'.log, calls')
  {
    forall t | t in s'.rows
      ensures if Called(calls', t) then Touched(Advance(d, at), s'.rows, s'.log, t)
              else Untouched(Advance(d, at), s'.rows, s'.log, t)
    {
      if t != e.taskId {
        CalledElsewhere(calls, calls', e, t);
        OtherTaskKept(d, s.rows, s.log, s'.rows, s'.log, at, t);
      } else if calls' == calls {
        SkippedTaskKept(d, s.rows, s.log, at, t);
      } else {
        assert calls'[|calls|] == e;
        CollectedTaskTouched(c, d, s, s', calls, e, result, at);
      }
    }
  }

  lemma CalledElsewhere(calls: seq<CollectionRequested>, calls': seq<CollectionRequested>, e: CollectionRequested,
        t: string)
    requires calls' == calls || calls' == calls + [e]
    requires t != e.taskId
    ensures Called(calls', t) <==> Called(calls, t)
  {
    if Called(calls, t) {
      var i :| 0 <= i < |calls| && calls[i].taskId == t;
      assert calls'[i].taskId == t;
    }
  }

  lemma HandledKeepsAccounted(c: Config, d: Drain, s: State, s': State, calls: seq<CollectionRequested>,
                              calls': seq<CollectionRequested>, e: CollectionRequested, result: Result, at: Time)
    requires c.hasExecutions && Handled(c, s, s', calls, calls', e, result, at)
    requires Recorded(d, s.log) && d.offset < |s.log| && s.log[d.offset] == RequestedEvent(e)
    requires Accounted(d, s.rows, s.log)
    ensures Accounted(Advance(d, at), s'.rows, s'.log)
  {
  }

  // ---------------------------------------------------------------- a drain as a whole

  /** The valid requests among records from..n, in order. */
  function ValidRequests(log: seq<Entry>, from: nat, n: nat): seq<CollectionRequested>
    requires n <= |log|
  {
    if n <= from then []
    else ValidRequests(log, from, n - 1) +
         if log[n - 1].RequestedEvent? && ValidEvent(log[n - 1].event) then [log[n - 1].event] else []
  }

  lemma {:induction false} ValidRequestsKept(log: seq<Entry>, log': seq<Entry>, from: nat, n: nat)
    requires log <= log' && n <= |log|
    ensures ValidRequests(log', from, n) == ValidRequests(log, from, n)
  {
    if n > from {
      ValidRequestsKept(log, log', from, n - 1);
    }
  }

  /** With an executions table every task is tracked; without one every valid request is collected. */
  ghost predicate Drained(c: Config, d: Drain, rows: Table, log: seq<Entry>, calls: seq<CollectionRequested>) {
    && Recorded(d, log)
    && if c.hasExecutions then Tracks(d, rows, log, calls) && Accounted(d, rows, log) && CallsRise(c, rows, calls)
       else rows == d.start && calls == ValidRequests(log, d.from, d.offset)
  }

  lemma HandledKeepsDrained(c: Config, d: Drain, s: State, s': State, calls: seq<CollectionRequested>,
                            calls': seq<CollectionRequested>, e: CollectionRequested, result: Result, at: Time)
    requires Handled(c, s, s', calls, calls', e, result, at) && ValidEvent(e) && 0 <= e.attempt < c.maxAttempts
    requires Drained(c, d, s.rows, s.log, calls) && d.offset < |s.log| && s.log[d.offset] == RequestedEvent(e)
    ensures Drained(c, Advance(d, at), s'.rows, s'.log, calls')
  {
    if c.hasExecutions {
      HandledKeepsTracks(c, d, s, s', calls, calls', e, result, at);
      HandledKeepsAccounted(c, d, s, s', calls, calls', e, result, at);
      HandledKeepsCalls(c, d, s, s', calls, calls', e, result, at);
    } else {
      HandledKeepsRequests(c, d, s, s', calls, calls', e, result, at);
    }
  }

  lemma HandledKeepsRequests(c: Config, d: Drain, s: State, s': State, calls: seq<CollectionRequested>,
                             calls': seq<CollectionRequested>, e: CollectionRequested, result: Result, at: Time)
    requires !c.hasExecutions && Handled(c, s, s', calls, calls', e, result, at) && ValidEvent(e)
    requires Drained(c, d, s.rows, s.log, calls) && d.offset < |s.log| && s.log[d.offset] == RequestedEvent(e)
    ensures Drained(c, Advance(d, at), s'.rows, s'.log, calls')
  {
    EverythingCollected(c, s, s', calls, calls', e, result, at);
    RequestDrained(c, d, s.rows, s.log, s'.log, calls, e, at);
  }

  lemma RequestDrained(c: Config, d: Drain, rows: Table, log: seq<Entry>, log': seq<Entry>,
                       calls: seq<CollectionRequested>, e: CollectionRequested, at: Time)
    requires !c.hasExecutions && Drained(c, d, rows, log, calls) && log <= log'
    requires d.offset < |log| && log[d.offset] == RequestedEvent(e) && ValidEvent(e)
    ensures Drained(c, Advance(d, at), rows, log', calls + [e])
  {
    RequestRead(log, log', d.from, d.offset, e);
  }

  lemma EverythingCollected(c: Config, s: State, s': State, calls: seq<CollectionRequested>,
                            calls': seq<CollectionRequested>, e: CollectionRequested, result: Result, at: Time)
    requires !c.hasExecutions && Handled(c, s, s', calls, calls', e, result, at)
    ensures s'.rows == s.rows && calls' == calls + [e] && s.log <= s'.log
  {
  }

  lemma RequestRead(log: seq<Entry>, log': seq<Entry>, from: nat, n: nat, e: CollectionRequested)
    requires from <= n < |log| && log <= log' && log[n] == RequestedEvent(e) && ValidEvent(e)
    ensures ValidRequests(log', from, n + 1) == ValidRequests(log, from, n) + [e]
  {
    ValidRequestsKept(log, log', from, n);
  }

  lemma IgnoredKeepsDrained(c: Config, d: Drain, rows: Table, log: seq<Entry>, calls: seq<CollectionRequested>,
        at: Time)
    requires Drained(c, d, rows, log, calls) && d.offset < |log| && forall t :: !Requests(log[d.offset], t)
    ensures Drained(c, Advance(d, at), rows, log, calls)
  {
    if c.hasExecutions {
      IgnoredKeepsTracks(d, rows, log, calls, at);
    } else {
      assert log[d.offset].RequestedEvent? ==> !Requests(log[d.offset], log[d.offset].event.taskId);
    }
  }

  /** A record that is no valid request changes nothing but the offset. */
  lemma IgnoredKeepsTracks(d: Drain, rows: Table, log: seq<Entry>, calls: seq<CollectionRequested>, at: Time)
    requires Recorded(d, log) && d.offset < |log| && forall t :: !Requests(log[d.offset], t)
    requires Tracks(d, rows, log, calls) && Accounted(d, rows, log)
    ensures Tracks(Advance(d, at), rows, log, calls) && Accounted(Advance(d, at), rows, log)
  {
    forall t | t in rows
      ensures if Called(calls, t) then Touched(Advance(d, at), rows, log, t)
            else Untouched(Advance(d, at), rows, log, t)
    {
      OtherTaskKept(d, rows, log, rows, log, at, t);
    }
  }

  lemma HandledKeepsCalls(c: Config, d: Drain, s: State, s': State, calls: seq<CollectionRequested>,
                          calls': seq<CollectionRequested>, e: CollectionRequested, result: Result, at: Time)
    requires c.hasExecutions && Handled(c, s, s', calls, calls', e, result, at) && 0 <= e.attempt < c.maxAttempts
    requires Tracks(d, s.rows, s.log, calls) && CallsRise(c, s.rows, calls)
    ensures CallsRise(c, s'.rows, calls')
  {
    if Called(calls, e.taskId) {
      assert Touched(d, s.rows, s.log, e.taskId);
    }
  }

  /**
   At the end of the log a task has ended exactly if it was new, had ended before, or some request read
   for it was allowed to take its row over at the moment it was read.
   */
  lemma EndedIffRevived(d: Drain, rows: Table, log: seq<Entry>, calls: seq<CollectionRequested>, t: string)
    requires Tracks(d, rows, log, calls) && Accounted(d, rows, log) && d.offset == |log| && t in rows
    ensures Terminal(rows[t]) <==> t !in d.start || Terminal(d.start[t]) || Revived(d, log, t)
    ensures !Terminal(rows[t]) ==> t in d.start && rows[t] == d.start[t]
  {
    if Called(calls, t) {
      assert Touched(d, rows, log, t);
    } else {
      assert Untouched(d, rows, log, t);
    }
  }

  function CallsOf(calls: seq<CollectionRequested>, taskId: string): set<nat> {
    set i | 0 <= i < |calls| && calls[i].taskId == taskId
  }

  lemma {:induction false} InjectionSize(calls: seq<CollectionRequested>, indices: set<nat>, range: set<nat>)
    requires forall i :: i in indices ==> i < |calls| && calls[i].attempt in range
    requires forall i, j :: i in indices && j in indices && i != j ==> calls[i].attempt != calls[j].attempt
    ensures |indices| <= |range|
    decreases |indices|
  {
    if indices != {} {
      var i :| i in indices;
      InjectionSize(calls, indices - {i}, range - {calls[i].attempt});
    }
  }

  /** No task is collected more than maxAttempts times. */
  lemma CollectionsBounded(c: Config, rows: Table, calls: seq<CollectionRequested>, taskId: string)
    requires c.Valid() && CallsRise(c, rows, calls)
    ensures |CallsOf(calls, taskId)| <= c.maxAttempts
  {
    InjectionSize(calls, CallsOf(calls, taskId), UpTo(c.maxAttempts));
  }

  // ---------------------------------------------------------------- from the start of a drain to its end

  /** `last` is reached from `first` by a run in which drain `d` reads on from record `d.from`. */
  ghost predicate Drains(c: Config, first: State, last: State, d: Drain, calls: seq<CollectionRequested>) {
    && CanReach(c, first, last) && first.log <= last.log && first.now <= last.now && d.start == first.rows
    && Drained(c, d, last.rows, last.log, calls) && Timeline(d, last.log, first.now, last.now)
  }

  /** Nothing read, nothing collected. */
  lemma DrainStarts(c: Config, s: State, from: nat)
    requires from <= |s.log|
    ensures Drains(c, s, s, Drain(s.rows, from, from, map[]), [])
  {
    StaysPut(c, s);
  }

  /** One more message handled without error. */
  lemma DrainHandles(c: Config, first: State, s: State, s': State, d: Drain, calls: seq<CollectionRequested>,
                     calls': seq<CollectionRequested>, e: CollectionRequested, result: Result, at: Time)
    requires Drains(c, first, s, d, calls) && CanReach(c, s, s') && s.now <= at <= s'.now
    requires Handled(c, s, s', calls, calls', e, result, at) && ValidEvent(e) && 0 <= e.attempt < c.maxAttempts
    requires d.offset < |s.log| && s.log[d.offset] == RequestedEvent(e) && Due(e, at)
    ensures Drains(c, first, s', Advance(d, at), calls')
  {
    CanReachOn(c, first, s, s');
    HandledKeepsDrained(c, d, s, s', calls, calls', e, result, at);
    TimelineAdvances(d, s.log, s'.log, first.now, s.now, at, s'.now);
  }

  /** It also leaves less to do. */
  lemma DrainTurn(c: Config, first: State, s: State, s': State, d: Drain, calls: seq<CollectionRequested>,
                  calls': seq<CollectionRequested>, e: CollectionRequested, result: Result, at: Time)
    requires c.Valid() && Drains(c, first, s, d, calls) && CanReach(c, s, s') && s.now <= at <= s'.now
    requires Handled(c, s, s', calls, calls', e, result, at) && ValidEvent(e) && InBound(c, s.log)
    requires d.offset < |s.log| && s.log[d.offset] == RequestedEvent(e) && Due(e, at)
    ensures Drains(c, first, s', Advance(d, at), calls')
    ensures s.log <= s'.log && InBound(c, s'.log) && Work(c, s'.log[d.offset + 1..]) < Work(c, s.log[d.offset..])
  {
    HandledLowersWork(c, s, s', calls, calls', e, result, at, d.offset);
    DrainHandles(c, first, s, s', d, calls, calls', e, result, at);
  }

  /** One more record that is no valid request. */
  lemma DrainIgnores(c: Config, first: State, s: State, d: Drain, calls: seq<CollectionRequested>)
    requires Drains(c, first, s, d, calls) && d.offset < |s.log|
    requires !(s.log[d.offset].RequestedEvent? && ValidEvent(s.log[d.offset].event))
    ensures Drains(c, first, s, Advance(d, s.now), calls)
  {
    IgnoredKeepsDrained(c, d, s.rows, s.log, calls, s.now);
    TimelineAdvances(d, s.log, s.log, first.now, s.now, s.now, s.now);
  }

  /** The end of a drain, task by task. */
  ghost predicate Ended(c: Config, first: State, last: State, d: Drain, calls: seq<CollectionRequested>)
    requires d.offset == |last.log|
  {
    if c.hasExecutions then
      && (forall i, t :: d.from <= i < |last.log| && Requests(last.log[i], t) ==> t in last.rows)
      && (forall t :: t in last.rows ==>
            (Terminal(last.rows[t]) <==> t !in d.start || Terminal(d.start[t]) || Revived(d, last.log, t)))
      && (forall t :: t in d.start ==> t in last.rows && (Terminal(last.rows[t]) || last.rows[t] == d.start[t]))
      && (forall t :: t in d.start && CanResume(d.start[t], first.log, d.from, first.now, t)
            ==> t in last.rows && Terminal(last.rows[t]))
      && CallsRise(c, last.rows, calls)
      && (forall t :: |CallsOf(calls, t)| <= c.maxAttempts)
    else
      last.rows == d.start && calls == ValidRequests(last.log, d.from, |last.log|)
  }

  lemma DrainEnds(c: Config, first: State, last: State, d: Drain, calls: seq<CollectionRequested>)
    requires c.Valid() && Drains(c, first, last, d, calls) && d.offset == |last.log|
    ensures Ended(c, first, last, d, calls)
  {
    if c.hasExecutions {
      forall t | t in last.rows
        ensures Terminal(last.rows[t]) <==> t !in d.start || Terminal(d.start[t]) || Revived(d, last.log, t)
        ensures !Terminal(last.rows[t]) ==> t in d.start && last.rows[t] == d.start[t]
      {
        EndedIffRevived(d, last.rows, last.log, calls, t);
      }
      ResumablesAreRevived(d, first.log, last.log, first.now, last.now);
      forall t ensures |CallsOf(calls, t)| <= c.maxAttempts {
        CollectionsBounded(c, last.rows, calls, t);
      }
    }
  }
}
