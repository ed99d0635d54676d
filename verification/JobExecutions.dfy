/** The collection_job_executions table: one row per task, claimed with a lease and marked under a fence. */
module JobExecutions {
  import opened Common
  import opened Events

  datatype JobStatus = Processing | Succeeded | Failed | Dlq | Unknown(text: string)

  /** An empty `claimId` is the column's default: nobody holds the row. */
  datatype JobExecution = JobExecution(
    taskId: string,
    key: string,
    sourceId: int,
    status: JobStatus,
    attempt: int,
    runId: Option<int>,
    lastError: string,
    claimId: string,
    lockedUntil: Option<Time>,
    createdAt: Time,
    updatedAt: Time)

  type Table = map<string, JobExecution>

  datatype ClaimError = EmptyTaskId | EmptyClaimId

  /** The columns written by MarkSucceeded, MarkFailed and MarkDLQ. */
  datatype Outcome =
    | ToSucceeded(runId: int)
    | ToFailed(attempt: int, message: string)
    | ToDlq(message: string)

  /** Whether an event may take the row over. */
  predicate ShouldProcess(row: JobExecution, e: CollectionRequested, now: Time) {
    match row.status
    case Succeeded => false
    case Dlq => false
    case Processing => e.attempt > row.attempt || row.lockedUntil.None? || row.lockedUntil.value <= now
    case Failed => e.attempt > row.attempt
    case Unknown(_) => true
  }

  /**
   The rule, told apart: a task that ended is left alone, a failed one needs a later attempt, and one being
   processed needs a later attempt or a lease that has run out - to its own attempt it is open then as well.
   */
  ghost predicate MayTakeOver(row: JobExecution, e: CollectionRequested, now: Time) {
    && !row.status.Succeeded? && !row.status.Dlq?
    && (row.status.Failed? ==> e.attempt > row.attempt)
    && (row.status.Processing? && row.lockedUntil.Some? && now < row.lockedUntil.value ==> e.attempt > row.attempt)
  }

  lemma ShouldProcessByTheRule(row: JobExecution, e: CollectionRequested, now: Time)
    ensures ShouldProcess(row, e, now) <==> MayTakeOver(row, e, now)
  {
  }

  function FreshRow(e: CollectionRequested, claimId: string, now: Time, lockedUntil: Time): JobExecution {
    JobExecution(e.taskId, e.key, e.sourceId, Processing, e.attempt, None, "", claimId, Some(lockedUntil), now, now)
  }

  function ReclaimedRow(row: JobExecution, e: CollectionRequested, claimId: string, now: Time, lockedUntil: Time)
    : JobExecution
  {
    row.(key := e.key, sourceId := e.sourceId, status := Processing, attempt := e.attempt, lastError := "",
         claimId := claimId, lockedUntil := Some(lockedUntil), updatedAt := now)
  }

  predicate Claimable(rows: Table, e: CollectionRequested, now: Time) {
    e.taskId !in rows || ShouldProcess(rows[e.taskId], e, now)
  }

  /** The committed effect of a claim transaction. */
  function Claimed(rows: Table, e: CollectionRequested, claimId: string, now: Time, lockedUntil: Time): Table {
    if !Claimable(rows, e, now) then rows
    else if e.taskId !in rows then rows[e.taskId := FreshRow(e, claimId, now, lockedUntil)]
    else rows[e.taskId := ReclaimedRow(rows[e.taskId], e, claimId, now, lockedUntil)]
  }

  function MarkedRow(row: JobExecution, o: Outcome, now: Time): JobExecution {
    var released := row.(claimId := "", lockedUntil := None, updatedAt := now);
    match o
    case ToSucceeded(runId) =>
      released.(status := Succeeded, runId := if runId > 0 then Some(runId) else None, lastError := "")
    case ToFailed(attempt, message) => released.(status := Failed, attempt := attempt, lastError := message)
    case ToDlq(message) => released.(status := Dlq, lastError := message)
  }

  /** The fence: only the current claim of a processing row may write. */
  predicate HoldsRow(rows: Table, taskId: string, claimId: string) {
    taskId in rows && rows[taskId].status == Processing && rows[taskId].claimId == claimId
  }

  function Marked(rows: Table, taskId: string, claimId: string, o: Outcome, now: Time): Table {
    if HoldsRow(rows, taskId, claimId) then rows[taskId := MarkedRow(rows[taskId], o, now)] else rows
  }

  class JobExecutionRepository {
    var rows: Table

    constructor ()
      ensures rows == map[]
    {
      rows := map[];
    }

    method Claim(e: CollectionRequested, claimId: string, now: Time, lockedUntil: Time)
      returns (error: Option<ClaimError>, shouldProcess: bool)
      modifies this
      ensures error.Some? <==> e.taskId == "" || claimId == ""
      ensures error.Some? ==> rows == old(rows) && !shouldProcess
      ensures error.None? ==> rows == Claimed(old(rows), e, claimId, now, lockedUntil)
      ensures error.None? ==> shouldProcess == Claimable(old(rows), e, now)
      ensures error.None? && e.taskId !in old(rows) ==> shouldProcess
      ensures error.None? && e.taskId in old(rows) ==>
                var row := old(rows)[e.taskId];
                match row.status
                case Succeeded => !shouldProcess
                case Dlq => !shouldProcess
                case Failed => shouldProcess <==> e.attempt > row.attempt
                case Processing =>
                  shouldProcess
                  <==> e.attempt > row.attempt || row.lockedUntil.None? || now >= row.lockedUntil.value
                case Unknown(_) => shouldProcess
      ensures error.None? && shouldProcess ==>
                && rows - {e.taskId} == old(rows) - {e.taskId} && e.taskId in rows
                && var row := rows[e.taskId];
                   && row.status == Processing && row.claimId == claimId && row.lockedUntil == Some(lockedUntil)
                   && row.taskId == (if e.taskId in old(rows) then old(rows)[e.taskId].taskId else e.taskId)
                   && row.attempt == e.attempt && row.key == e.key && row.sourceId == e.sourceId
                   && row.lastError == "" && row.updatedAt == now
      ensures error.None? && !shouldProcess ==> rows == old(rows)
    {
      if e.taskId == "" {
        return Some(EmptyTaskId), false;
      }
      if claimId == "" {
        return Some(EmptyClaimId), false;
      }
      if e.taskId !in rows {
        rows := rows[e.taskId := FreshRow(e, claimId, now, lockedUntil)];
        return None, true;
      }
      var claimed := rows[e.taskId];
      if !ShouldProcess(claimed, e, now) {
        return None, false;
      }
      rows := rows[e.taskId := ReclaimedRow(claimed, e, claimId, now, lockedUntil)];
      return None, true;
    }

    /** updateClaimed: `lost` is ErrJobExecutionClaimLost. */
    method UpdateClaimed(taskId: string, claimId: string, o: Outcome, now: Time) returns (lost: bool)
      modifies this
      ensures rows == Marked(old(rows), taskId, claimId, o, now)
      ensures lost <==>
                !(taskId in old(rows) && old(rows)[taskId].status.Processing? && old(rows)[taskId].claimId == claimId)
      ensures lost ==> rows == old(rows)
      ensures !lost ==>
                && rows - {taskId} == old(rows) - {taskId} && taskId in rows
                && var was, row := old(rows)[taskId], rows[taskId];
                   && row.claimId == "" && row.lockedUntil.None? && row.updatedAt == now
                   && row.taskId == was.taskId && row.key == was.key && row.sourceId == was.sourceId
                   && match o
                      case ToSucceeded(runId) =>
                        && row.status == Succeeded && row.lastError == "" && row.attempt == was.attempt
                        && row.runId == if runId > 0 then Some(runId) else None
                      case ToFailed(attempt, message) =>
                        row.status == Failed && row.lastError == message && row.attempt == attempt
                        && row.runId == was.runId
                      case ToDlq(message) =>
                        row.status == Dlq && row.lastError == message && row.attempt == was.attempt
                        && row.runId == was.runId
    {
      if taskId !in rows || rows[taskId].status != Processing || rows[taskId].claimId != claimId {
        return true;
      }
      rows := rows[taskId := MarkedRow(rows[taskId], o, now)];
      return false;
    }
  }
}
