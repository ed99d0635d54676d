/** The collection worker: HandleMessage as the worker runs it, shown to be a run of the worker protocol. */
module CollectionWorker {
  import opened Common
  import opened Clocks
  import opened Events
  import opened JobExecutions
  import opened Text
  import opened WorkerProtocol
  import opened WorkerSafety
  import opened WorkerEffects
  import Backoff

  class Broker {
    var log: seq<Entry>

    method Write(x: Entry, fails: bool)
      modifies this
      ensures log == if fails then old(log) else old(log) + [x]
    {
      if !fails {
        log := log + [x];
      }
    }
  }

  class DlqRepository {
    var items: seq<DlqItem>

    method Create(item: DlqItem, fails: bool)
      modifies this
      ensures items == if fails then old(items) else old(items) + [item]
    {
      if !fails {
        items := items + [item];
      }
    }
  }

  /** Which external calls fail during one HandleMessage. */
  datatype Faults = Faults(sleep: bool, claim: bool, firstWrite: bool, dlqCreate: bool, secondWrite: bool, mark: bool)

  const NO_FAULTS := Faults(false, false, false, false, false, false)

  datatype HandleError = InvalidMessage | Interrupted | ClaimFailed | WriteFailed | DlqFailed | MarkFailed | ClaimLost

  class Worker {
    const c: Config
    const id: nat
    const clock: Clock
    const broker: Broker
    const dlqRepo: DlqRepository
    const executions: JobExecutionRepository
    /** The events CollectSource was called for, in order. */
    var calls: seq<CollectionRequested>
    /** The protocol state this worker's objects represent, and the run that led to it since `origin`. */
    ghost var view: State
    ghost var origin: State
    ghost var trace: seq<Action>

    constructor (c: Config, id: nat, clock: Clock, broker: Broker, dlqRepo: DlqRepository,
                 executions: JobExecutionRepository)
      requires c.Valid()
      ensures Valid() && this.c == c && this.id == id && this.executions == executions && this.broker == broker
      ensures view == State(executions.rows, broker.log, dlqRepo.items, clock.now, map[], {}, {}) && calls == []
    {
      this.c, this.id, this.clock, this.broker, this.dlqRepo, this.executions := c, id, clock, broker, dlqRepo,
            executions;
      view := State(executions.rows, broker.log, dlqRepo.items, clock.now, map[], {}, {});
      origin := State(executions.rows, broker.log, dlqRepo.items, clock.now, map[], {}, {});
      trace := [];
      calls := [];
    }

    ghost predicate Valid()
      reads this, clock, broker, dlqRepo, executions
    {
      && c.Valid()
      && view.rows == executions.rows && view.log == broker.log && view.dlq == dlqRepo.items && view.now == clock.now
      && Reaches(c, origin, trace, view)
    }

    ghost predicate At(pc: Pc)
      reads this
    {
      id in view.workers && view.workers[id] == pc
    }

    ghost method Take(a: Action)
      requires Reaches(c, origin, trace, view) && Enabled(c, view, a)
      modifies this`view, this`trace
      ensures view == Apply(c, old(view), a) && Reaches(c, origin, trace, view)
    {
      AfterOneMore(c, origin, trace, a);
      trace := trace + [a];
      view := Apply(c, view, a);
    }

    method Now() returns (t: Time)
      requires Valid()
      modifies this`view, this`trace, clock
      ensures Valid() && t == view.now >= old(view.now) && view == old(view).(now := t)
    {
      t := clock.Now();
      Take(Tick(t));
    }

    /** Leaves HandleMessage with an error: the worker keeps nothing. */
    ghost method Abandon()
      requires Valid() && id in view.workers
      modifies this`view, this`trace
      ensures Valid() && view == old(view).(workers := old(view).workers - {id})
    {
      Take(Stop(id));
    }

    method WaitUntilNextAttempt(e: CollectionRequested, interrupted: bool) returns (err: Option<HandleError>)
      requires Valid()
      modifies this`view, this`trace, clock
      ensures Valid() && view == old(view).(now := view.now) && view.now >= old(view.now)
      ensures err.None? ==> e.nextAttemptAt.None? || view.now >= e.nextAttemptAt.value
      ensures err.Some? ==> interrupted && err.value == Interrupted
    {
      if e.nextAttemptAt.None? {
        return None;
      }
      var now := Now();
      if e.nextAttemptAt.value - now <= 0 {
        return None;
      }
      if interrupted {
        return Some(Interrupted);
      }
      clock.SleepUntil(e.nextAttemptAt.value);
      Take(Tick(clock.now));
      return None;
    }

    method ClaimExecution(e: CollectionRequested, claimId: string, fails: bool)
      returns (err: Option<HandleError>, claim: string, shouldProcess: bool)
      requires Valid() && At(Received(e)) && Due(e, view.now) && e.taskId != ""
      requires claimId != "" && claimId !in view.issued
      modifies this`view, this`trace, clock, executions
      ensures Valid() && old(view.issued) <= view.issued <= old(view.issued) + {claimId}
      ensures view.log == old(view.log) && view.dlq == old(view.dlq) && view.now >= old(view.now)
      ensures err.None? && !shouldProcess ==> view.workers == old(view.workers) - {id}
      ensures err.Some? ==> fails && err.value == ClaimFailed
      ensures err.Some? ==> view.rows == old(view.rows) && view.workers == old(view.workers) - {id}
      ensures err.None? && shouldProcess ==> At(Claimed(e, claim)) && view.workers - {id} == old(view.workers) - {id}
      ensures err.None? && c.hasExecutions ==>
                && view.rows == JobExecutions.Claimed(old(view.rows), e, claimId, view.now, view.now + c.claimTTL)
                && (shouldProcess
                    <==> e.taskId !in old(view.rows) || MayTakeOver(old(view.rows)[e.taskId], e, view.now))
                && (shouldProcess ==> claim == claimId)
      ensures err.None? && !c.hasExecutions ==> shouldProcess && view.rows == old(view.rows)
    {
      if !c.hasExecutions {
        Take(Action.Claim(id, "", view.now));
        return None, "", true;
      }
      var now := Now();
      if fails {
        Abandon();
        return Some(ClaimFailed), "", false;
      }
      var error, granted := executions.Claim(e, claimId, now, now + c.claimTTL);
      Take(Action.Claim(id, claimId, now));
      return None, claimId, granted;
    }

    /** markExecutionSucceeded, markExecutionFailed and markExecutionDLQ. */
    method MarkExecution(pc: Pc, fails: bool) returns (err: Option<HandleError>)
      requires Valid() && At(pc) && Marking(pc)
      modifies this`view, this`trace, clock, executions
      ensures Valid()
      ensures view == old(view).(rows := view.rows, workers := old(view).workers - {id}, now := view.now)
      ensures view.now >= old(view.now)
      ensures fails || !c.hasExecutions ==> view.rows == old(view.rows)
      ensures c.hasExecutions && !fails ==>
                && view.rows == Marked(old(view.rows), pc.e.taskId, pc.claimId, MarkOutcome(pc), view.now)
                && (err == Some(ClaimLost) <==> !HoldsRow(old(view.rows), pc.e.taskId, pc.claimId))
      ensures err.Some? ==> c.hasExecutions && (fails || err == Some(ClaimLost))
      ensures c.hasExecutions && fails ==> err.Some?
      ensures err != Some(InvalidMessage)
    {
      if !c.hasExecutions {
        Take(Mark(id, view.now));
        return None;
      }
      var now := Now();
      if fails {
        Abandon();
        return Some(MarkFailed);
      }
      var lost := executions.UpdateClaimed(pc.e.taskId, pc.claimId, MarkOutcome(pc), now);
      Take(Mark(id, now));
      return if lost then Some(ClaimLost) else None;
    }

    /** writeDLQ: the stored item first, then the dead-letter event. */
    method WriteDlq(e: CollectionRequested, claimId: string, cause: Cause, faults: Faults, ghost failedAt: Time)
      returns (err: Option<HandleError>)
      requires Valid() && At(FailureSent(e, claimId, cause, failedAt)) && Exhausted(c, e, cause)
      modifies this`view, this`trace, clock, broker, dlqRepo
      ensures Valid() && view.issued == old(view.issued) && view.now >= old(view.now) && view.rows == old(view.rows)
      ensures view.workers - {id} == old(view).workers - {id}
      ensures err.None? ==> At(DlqSent(e, claimId, cause)) && view.log == old(view.log) + [DeadLetterEvent(e)]
      ensures err.None? && c.hasDlqRepo ==>
                && |view.dlq| == |old(view.dlq)| + 1 && old(view.dlq) <= view.dlq
                && StoresDlq(e, cause, view.dlq[|old(view.dlq)|], old(view.now), view.now)
      ensures err.None? && !c.hasDlqRepo ==> view.dlq == old(view.dlq)
      ensures err.Some? ==> (faults.dlqCreate || faults.secondWrite) && view.workers == old(view).workers - {id}
      ensures err != Some(InvalidMessage)
    {
      if c.hasDlqRepo {
        var now := Now();
        dlqRepo.Create(DlqItem(e, cause.message, now), faults.dlqCreate);
        if faults.dlqCreate {
          Abandon();
          return Some(DlqFailed);
        }
        Take(StoreDlq(id, now));
      }
      broker.Write(DeadLetterEvent(e), faults.secondWrite);
      if faults.secondWrite {
        Abandon();
        return Some(WriteFailed);
      }
      Take(SendDlq(id));
      return None;
    }

    /** The retry branch of handleFailed: the next attempt is published with its backoff. */
    method RequestRetry(e: CollectionRequested, claimId: string, cause: Cause, faults: Faults, ghost failedAt: Time)
      returns (err: Option<HandleError>)
      requires Valid() && At(FailureSent(e, claimId, cause, failedAt)) && failedAt <= view.now
      requires e.attempt >= 0 && !Exhausted(c, e, cause)
      modifies this`view, this`trace, clock, broker
      ensures Valid() && view.issued == old(view.issued) && view.now >= old(view.now)
      ensures view.rows == old(view.rows) && view.dlq == old(view.dlq)
      ensures view.workers - {id} == old(view).workers - {id}
      ensures err.None? ==>
                && At(RetrySent(e, claimId, cause))
                && |view.log| == |old(view.log)| + 1 && old(view.log) <= view.log
                && var next := view.log[|old(view.log)|];
                   && next.RequestedEvent?
                   && next.event == e.(attempt := e.attempt + 1, nextAttemptAt := next.event.nextAttemptAt)
                   && NextAttempt(c, e, next, old(view.now), view.now)
      ensures err.Some? ==> faults.secondWrite && view.workers == old(view).workers - {id}
      ensures err != Some(InvalidMessage)
    {
      var nextAttempt := e.attempt + 1;
      var now := Now();
      var backoff := Backoff.RetryBackoff(c.backoffBase, nextAttempt);
      var next := e.(attempt := nextAttempt, nextAttemptAt := Some(now + backoff));
      broker.Write(RequestedEvent(next), faults.secondWrite);
      if faults.secondWrite {
        Abandon();
        return Some(WriteFailed);
      }
      assert next == Retry(c, e, now);
      Take(SendRetry(id, now));
      RetryIsNextAttempt(c, e, old(view.now), now, view.now);
      return None;
    }

    /** The dead-letter branch of handleFailed: writeDLQ, then the mark. */
    method DeadLetter(e: CollectionRequested, claimId: string, cause: Cause, faults: Faults, ghost failedAt: Time)
      returns (err: Option<HandleError>)
      requires Valid() && At(FailureSent(e, claimId, cause, failedAt)) && Exhausted(c, e, cause)
      requires c.hasExecutions ==> HoldsRow(view.rows, e.taskId, claimId)
      modifies this`view, this`trace, clock, broker, dlqRepo, executions
      ensures Valid() && view.issued == old(view.issued) && view.now >= old(view.now)
      ensures view.workers == old(view).workers - {id}
      ensures err.None? ==>
                && view.log == old(view.log) + [DeadLetterEvent(e)]
                && view.rows == (if c.hasExecutions
                                 then Marked(old(view.rows), e.taskId, claimId, ToDlq(cause.message), view.now)
                                 else old(view.rows))
                && (if c.hasDlqRepo
                    then |view.dlq| == |old(view.dlq)| + 1 && old(view.dlq) <= view.dlq
                         && StoresDlq(e, cause, view.dlq[|old(view.dlq)|], old(view.now), view.now)
                    else view.dlq == old(view.dlq))
      ensures faults == NO_FAULTS ==> err.None?
      ensures err != Some(InvalidMessage)
    {
      err := WriteDlq(e, claimId, cause, faults, failedAt);
      if err.Some? {
        return;
      }
      err := MarkExecution(DlqSent(e, claimId, cause), faults.mark);
    }

    /** The retry branch: the next request, then the mark. */
    method RetryLater(e: CollectionRequested, claimId: string, cause: Cause, faults: Faults, ghost failedAt: Time)
      returns (err: Option<HandleError>)
      requires Valid() && At(FailureSent(e, claimId, cause, failedAt)) && failedAt <= view.now
      requires e.attempt >= 0 && !Exhausted(c, e, cause)
      requires c.hasExecutions ==> HoldsRow(view.rows, e.taskId, claimId)
      modifies this`view, this`trace, clock, broker, executions
      ensures Valid() && view.issued == old(view.issued) && view.now >= old(view.now)
      ensures view.workers == old(view).workers - {id}
      ensures view.dlq == old(view.dlq)
      ensures err.None? ==>
                && |view.log| == |old(view.log)| + 1 && old(view.log) <= view.log
                && NextAttempt(c, e, view.log[|old(view.log)|], old(view.now), view.now)
                && view.rows == (if c.hasExecutions
                                 then Marked(old(view.rows), e.taskId, claimId, ToFailed(e.attempt, cause.message),
                                       view.now)
                                 else old(view.rows))
      ensures faults == NO_FAULTS ==> err.None?
      ensures err != Some(InvalidMessage)
    {
      err := RequestRetry(e, claimId, cause, faults, failedAt);
      if err.Some? {
        return;
      }
      err := MarkExecution(RetrySent(e, claimId, cause), faults.mark);
    }

    /** handleFailed: the failure, then either the dead letter or the retry, and only then the mark. */
    method HandleFailed(e: CollectionRequested, claimId: string, cause: Cause, faults: Faults)
      returns (err: Option<HandleError>)
      requires Valid() && At(Failing(e, claimId, cause)) && e.attempt >= 0
      requires c.hasExecutions ==> HoldsRow(view.rows, e.taskId, claimId)
      modifies this`view, this`trace, clock, broker, dlqRepo, executions
      ensures Valid() && view.issued == old(view.issued) && view.now >= old(view.now)
      ensures view.workers == old(view).workers - {id}
      ensures err.None? ==>
                && old(view.log) <= view.log
                && Publishes(c, e, Broken(cause), old(view.now), view.now, view.log[|old(view.log)|..])
                && view.rows == (if c.hasExecutions
                                 then Marked(old(view.rows), e.taskId, claimId,
                                        if cause.permanent || e.attempt + 1 >= c.maxAttempts
                                        then ToDlq(cause.message) else ToFailed(e.attempt, cause.message),
                                        view.now)
                                 else old(view.rows))
                && (if (cause.permanent || e.attempt + 1 >= c.maxAttempts) && c.hasDlqRepo
                    then |view.dlq| == |old(view.dlq)| + 1 && old(view.dlq) <= view.dlq
                         && StoresDlq(e, cause, view.dlq[|old(view.dlq)|], old(view.now), view.now)
                    else view.dlq == old(view.dlq))
      ensures faults == NO_FAULTS ==> err.None?
      ensures err != Some(InvalidMessage)
    {
      var now := Now();
      broker.Write(FailedFor(e, cause, now), faults.firstWrite);
      if faults.firstWrite {
        Abandon();
        return Some(WriteFailed);
      }
      Take(SendFailed(id, now));
      if cause.permanent || e.attempt + 1 >= c.maxAttempts {
        err := DeadLetter(e, claimId, cause, faults, now);
      } else {
        err := RetryLater(e, claimId, cause, faults, now);
      }
    }

    method ReportCompleted(e: CollectionRequested, claimId: string, reply: Reply, faults: Faults)
      returns (err: Option<HandleError>)
      requires Valid() && At(Succeeding(e, claimId, reply))
      requires c.hasExecutions ==> HoldsRow(view.rows, e.taskId, claimId)
      modifies this`view, this`trace, clock, broker, executions
      ensures Valid() && view.issued == old(view.issued) && view.now >= old(view.now)
      ensures view.workers == old(view).workers - {id}
      ensures view.dlq == old(view.dlq)
      ensures err.None? ==>
                && old(view.log) <= view.log
                && Publishes(c, e, Collected(Some(reply)), old(view.now), view.now, view.log[|old(view.log)|..])
                && (c.hasExecutions ==>
                      view.rows == old(view.rows)[e.taskId :=
                        MarkedRow(old(view.rows)[e.taskId], ToSucceeded(reply.runId), view.now)])
                && (!c.hasExecutions ==> view.rows == old(view.rows))
      ensures faults == NO_FAULTS ==> err.None?
      ensures err != Some(InvalidMessage)
    {
      var now := Now();
      broker.Write(CompletedFor(e, reply, now), faults.firstWrite);
      if faults.firstWrite {
        Abandon();
        return Some(WriteFailed);
      }
      Take(SendCompleted(id, now));
      err := MarkExecution(Reported(e, claimId, reply.runId), faults.mark);
    }

    /** The part of HandleMessage after a granted claim. */
    method Process(e: CollectionRequested, claimId: string, result: Result, faults: Faults)
      returns (err: Option<HandleError>)
      requires Valid() && At(Claimed(e, claimId)) && e.attempt >= 0
      requires c.hasExecutions ==> HoldsRow(view.rows, e.taskId, claimId) && view.rows[e.taskId].attempt == e.attempt
      modifies this`view, this`trace, this`calls, clock, broker, dlqRepo, executions
      ensures Valid() && view.issued == old(view.issued) && view.now >= old(view.now)
      ensures view.workers == old(view).workers - {id}
      ensures calls == old(calls) + [e]
      ensures err.None? ==> Processed(c, old(view), view, e, result)
      ensures faults == NO_FAULTS ==> err.None?
      ensures err != Some(InvalidMessage)
    {
      calls := calls + [e];
      Take(Collect(id, result));
      match result
      case Broken(cause) =>
        err := HandleFailed(e, claimId, cause, faults);
      case Collected(None) =>
        err := MarkExecution(Reported(e, claimId, 0), faults.mark);
      case Collected(Some(reply)) =>
        err := ReportCompleted(e, claimId, reply, faults);
    }

    /** HandleMessage for an event that passed validation. */
    method HandleEvent(e: CollectionRequested, claimId: string, result: Result, faults: Faults)
      returns (err: Option<HandleError>, ghost at: Time)
      requires Valid() && At(Received(e)) && e.taskId != "" && e.attempt >= 0
      requires claimId != "" && claimId !in view.issued
      modifies this`view, this`trace, this`calls, clock, broker, dlqRepo, executions
      ensures old(view.issued) <= view.issued <= old(view.issued) + {claimId}
      ensures Valid() && view.now >= old(view.now) && view.workers == old(view).workers - {id}
      ensures err.None? ==> Handled(c, old(view), view, old(calls), calls, e, result, at)
      ensures old(view.now) <= at <= view.now && (err.None? ==> Due(e, at))
      ensures faults == NO_FAULTS ==> err.None?
      ensures err != Some(InvalidMessage)
    {
      err := WaitUntilNextAttempt(e, faults.sleep);
      at := view.now;
      if err.Some? {
        Abandon();
        return;
      }
      err, at := HandleDue(e, claimId, result, faults);
    }

    /** The part of HandleMessage after the wait. */
    method HandleDue(e: CollectionRequested, claimId: string, result: Result, faults: Faults)
      returns (err: Option<HandleError>, ghost at: Time)
      requires Valid() && At(Received(e)) && Due(e, view.now) && e.taskId != "" && e.attempt >= 0
      requires claimId != "" && claimId !in view.issued
      modifies this`view, this`trace, this`calls, clock, broker, dlqRepo, executions
      ensures old(view.issued) <= view.issued <= old(view.issued) + {claimId}
      ensures Valid() && view.now >= old(view.now) && view.workers == old(view).workers - {id}
      ensures err.None? ==> Handled(c, old(view), view, old(calls), calls, e, result, at)
      ensures old(view.now) <= at <= view.now
      ensures faults == NO_FAULTS ==> err.None?
      ensures err != Some(InvalidMessage)
    {
      ghost var s, before := view, calls;
      var claim, shouldProcess;
      err, claim, shouldProcess := ClaimExecution(e, claimId, faults.claim);
      at := view.now;
      if err.Some? || !shouldProcess {
        return;
      }
      ghost var m := view;
      err := Process(e, claim, result, faults);
      if err.None? {
        ProcessedIsHandled(c, s, m, view, before, calls, e, result, claimId, at);
      }
    }

    /**
     One message, executed alone. Whatever fails, the shared tables and the log end in a state the
     protocol reaches; without an error the message is skipped or fully handled.
     */
    method HandleMessage(msg: Message, claimId: string, result: Result, faults: Faults)
      returns (err: Option<HandleError>, ghost at: Time)
      requires Valid() && id !in view.workers
      requires msg.body.Some? ==> RequestedEvent(msg.body.value) in view.log
      requires claimId != "" && claimId !in view.issued
      modifies this`view, this`trace, this`calls, this`origin, clock, broker, dlqRepo, executions
      ensures old(view.issued) <= view.issued <= old(view.issued) + {claimId}
      ensures Valid() && origin == old(view) && view.now >= old(view.now) && view.workers == old(view).workers
      ensures err == Some(InvalidMessage) <==> !ValidMessage(msg)
      ensures ValidMessage(msg) <==>
                && msg.body.Some? && (msg.topic == "" || msg.topic == TOPIC_COLLECTION_REQUESTED)
                && var e := msg.body.value;
                   && !Blank(e.taskId) && e.userId > 0 && e.sourceId > 0 && !Blank(e.key) && e.attempt >= 0
                   && e.requestedAt.Some? && (msg.key == "" || msg.key == e.key)
      ensures !ValidMessage(msg) ==> view == old(view) && calls == old(calls)
      ensures err.None? ==> Handled(c, old(view), view, old(calls), calls, msg.body.value, result, at)
      ensures old(view.now) <= at <= view.now
      ensures err.None? ==> msg.body.value.nextAttemptAt.None? || at >= msg.body.value.nextAttemptAt.value
      ensures ValidMessage(msg) && faults == NO_FAULTS ==> err.None?
    {
      origin, trace := view, [];
      at := view.now;
      if !ValidMessage(msg) {
        return Some(InvalidMessage), at;
      }
      Take(Receive(id, msg.body.value));
      err, at := HandleEvent(msg.body.value, claimId, result, faults);
    }

    /** What holds between two messages of an undisturbed Run that began in `first`. */
    ghost predicate Draining(first: State, d: Drain)
      reads this, clock, broker, dlqRepo, executions
    {
      Valid() && Inv(c, view) && id !in view.workers && Drains(c, first, view, d, calls)
    }

    /** HandleMessage without faults, for a valid request of the log. */
    method HandleRequest(e: CollectionRequested, result: Result, claimId: string) returns (ghost at: Time)
      requires Valid() && Inv(c, view) && id !in view.workers && RequestedEvent(e) in view.log && ValidEvent(e)
      requires claimId != "" && claimId !in view.issued
      modifies this`view, this`trace, this`origin, this`calls, clock, broker, dlqRepo, executions
      ensures Valid() && Inv(c, view) && id !in view.workers && old(view.now) <= at <= view.now && Due(e, at)
      ensures view.issued <= old(view.issued) + {claimId} && CanReach(c, old(view), view)
      ensures Handled(c, old(view), view, old(calls), calls, e, result, at)
    {
      var err;
      err, at := HandleMessage(Message(TOPIC_COLLECTION_REQUESTED, e.key, Some(e)), claimId, result, NO_FAULTS);
      assert CanReach(c, origin, view);
      InvReached(c, origin, view);
    }

    /** A request that fails validation is dropped. */
    method DropInvalid(e: CollectionRequested, result: Result, claimId: string)
      requires Valid() && Inv(c, view) && id !in view.workers && RequestedEvent(e) in view.log && !ValidEvent(e)
      requires claimId != "" && claimId !in view.issued
      modifies this`view, this`trace, this`origin, this`calls, clock, broker, dlqRepo, executions
      ensures Valid() && view == old(view) && calls == old(calls)
    {
      var err, _ := HandleMessage(Message(TOPIC_COLLECTION_REQUESTED, e.key, Some(e)), claimId, result, NO_FAULTS);
    }

    /** One turn of Run: read the next record, handle it if it is a request, commit. */
    method HandleNext(ghost first: State, ghost d: Drain, offset: nat, result: Result, claimId: string)
      returns (ghost d': Drain)
      requires Draining(first, d) && d.offset == offset < |view.log|
      requires claimId != "" && claimId !in view.issued
      modifies this`view, this`trace, this`origin, this`calls, clock, broker, dlqRepo, executions
      ensures Draining(first, d') && old(view.log) <= view.log
      ensures d'.start == d.start && d'.from == d.from && d'.offset == offset + 1
      ensures Work(c, view.log[offset + 1..]) < Work(c, old(view.log)[offset..])
      ensures view.issued <= old(view.issued) + {claimId}
    {
      ghost var s := view;
      var x := broker.log[offset];
      if x.RequestedEvent? && ValidEvent(x.event) {
        d' := HandleValid(first, d, x.event, result, claimId);
        return;
      }
      if x.RequestedEvent? {
        DropInvalid(x.event, result, claimId);
      }
      IgnoredLowersWork(c, s.log, offset);
      DrainIgnores(c, first, s, d, calls);
      return Advance(d, s.now);
    }

    method HandleValid(ghost first: State, ghost d: Drain, e: CollectionRequested, result: Result, claimId: string)
      returns (ghost d': Drain)
      requires Draining(first, d) && d.offset < |view.log| && view.log[d.offset] == RequestedEvent(e) && ValidEvent(e)
      requires claimId != "" && claimId !in view.issued
      modifies this`view, this`trace, this`origin, this`calls, clock, broker, dlqRepo, executions
      ensures Draining(first, d') && old(view.log) <= view.log
      ensures d'.start == d.start && d'.from == d.from && d'.offset == d.offset + 1
      ensures Work(c, view.log[d.offset + 1..]) < Work(c, old(view.log)[d.offset..])
      ensures view.issued <= old(view.issued) + {claimId}
    {
      ghost var s, before := view, calls;
      assert InBound(c, s.log) by {
        InvBounds(c, s);
      }
      ghost var at := HandleRequest(e, result, claimId);
      DrainTurn(c, first, s, view, d, before, calls, e, result, at);
      return Advance(d, at);
    }

    /** Before a turn of the loop: `budget` is the work left, and claim ids from number n on are unused. */
    ghost predicate Looping(first: State, d: Drain, budget: nat, claimIds: nat -> string, n: nat)
      reads this, clock, broker, dlqRepo, executions
    {
      && Draining(first, d)
      && d.offset <= |view.log| && Work(c, view.log[d.offset..]) == budget
      && (forall i :: i >= n ==> claimIds(i) != "" && claimIds(i) !in view.issued)
    }

    method Turn(ghost first: State, ghost d: Drain, ghost budget: nat, offset: nat, result: Result,
                claimIds: nat -> string, n: nat)
      returns (ghost d': Drain, ghost left: nat)
      requires Looping(first, d, budget, claimIds, n) && d.offset == offset < |broker.log|
      requires forall i, j :: i != j ==> claimIds(i) != claimIds(j)
      modifies this`view, this`trace, this`origin, this`calls, clock, broker, dlqRepo, executions
      ensures Looping(first, d', left, claimIds, n + 1) && left < budget
      ensures d'.start == d.start && d'.from == d.from && d'.offset == offset + 1
    {
      d' := HandleNext(first, d, offset, result, claimIds(n));
      left := Work(c, view.log[offset + 1..]);
    }

    /**
     Run with one worker, a reliable broker and reliable tables, from any reachable state - tasks left
     processing by crashed workers included - reading the log from `from` until no message is left. It
     stops, and the whole of it is a run of the protocol. A task has then ended exactly if it was new, had
     ended before, or some request read for it was allowed to take its row over at the moment it was read;
     every other task still has the row it started with. Every row that the log is able to move on when the
     drain starts does end, whatever the clock does. No task is collected more than maxAttempts times.
     Without an executions table every valid request is collected, in order. `results(n)` is the outcome of
     the n-th turn, `claimIds(n)` the claim id it generates.
     */
    method Run(from: nat, results: nat -> Result, claimIds: nat -> string)
      returns (offset: nat, ghost d: Drain)
      requires Valid() && Inv(c, view) && id !in view.workers && from <= |view.log| && calls == []
      requires forall i :: claimIds(i) != "" && claimIds(i) !in view.issued
      requires forall i, j :: i != j ==> claimIds(i) != claimIds(j)
      modifies this`view, this`trace, this`origin, this`calls, clock, broker, dlqRepo, executions
      ensures Valid() && Inv(c, view) && offset == |view.log|
      ensures d.from == from && d.offset == offset && Drains(c, old(view), view, d, calls)
      ensures Ended(c, old(view), view, d, calls)
    {
      offset, d := ReadAll(from, results, claimIds);
      DrainEnds(c, old(view), view, d, calls);
    }

    /** The loop of Run. */
    method ReadAll(from: nat, results: nat -> Result, claimIds: nat -> string)
      returns (offset: nat, ghost d: Drain)
      requires Valid() && Inv(c, view) && id !in view.workers && from <= |view.log| && calls == []
      requires forall i :: claimIds(i) != "" && claimIds(i) !in view.issued
      requires forall i, j :: i != j ==> claimIds(i) != claimIds(j)
      modifies this`view, this`trace, this`origin, this`calls, clock, broker, dlqRepo, executions
      ensures Draining(old(view), d) && offset == |view.log|
      ensures d.from == from && d.offset == offset
    {
      ghost var first := view;
      offset := from;
      d := Drain(view.rows, from, from, map[]);
      DrainStarts(c, view, from);
      ghost var budget := Work(c, view.log[from..]);
      var turns: nat := 0;
      while offset < |broker.log|
        invariant Looping(first, d, budget, claimIds, turns)
        invariant d.offset == offset && d.from == from
        decreases budget
      {
        d, budget := Turn(first, d, budget, offset, results(turns), claimIds, turns);
        turns := turns + 1;
        offset := offset + 1;
      }
    }
  }
}
