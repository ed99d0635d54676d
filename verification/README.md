# Verified model of the content-collection services

A Dafny model of the parts of this repository that have to survive crashes, retries, redelivery and
concurrency, together with machine-checked proofs about them. `dafny verify dfyconfig.toml` checks everything.

## What is modelled

Concurrent cores are state machines: a `State`, an `Action` per database transaction, Redis script or
broker write, `Enabled`/`Apply`, and `After` for a sequence of actions. Any participant may stop between two
actions, so every theorem about `After` holds for every interleaving with every crash. Beside each machine
stand classes for the imperative code - tables, broker, clock, worker, dispatcher, services - whose methods are
proved against the same table functions the machine uses; where a method spans several steps, the fields `view`
and `trace` show that it really is a run of the machine. The outbox dispatcher and producer are shown so amid any
actions of other participants between their steps; the worker, the collection service and the refresh of a token
are executed alone, and their interleavings are covered by the machines.

- **Collection jobs.** `JobExecutions`, `WorkerProtocol`, `WorkerSafety`, `WorkerEffects`, `WorkerDrain`,
  `WorkerLiveness` and `CollectionWorker` model the execution rows, any number of workers, and `HandleMessage`/`Run`.
  Proved: publish-before-mark, fencing, the attempt bound, the backoff of every retry, that no task is stranded for good,
  and which tasks one undisturbed worker is sure to end by draining the log, from any reachable state. `Backoff` is the doubling loop in wrapping 64-bit arithmetic.
- **Outbox.** `OutboxTable`, `OutboxProtocol`, `OutboxSafety`, `OutboxDispatch`, `OutboxOrder` and
  `OutboxOvertaking` model leased claims, any number of dispatchers and check-then-insert creators. Proved: at-least-once, never stuck,
  exclusive batches, one active event per key, exactly what overtakes an event, and the round by which an event is claimed.
- **Collection runs.** `CollectionRuns`, `CollectionProtocol` and `CollectionSafety` model the TTL lock, the stale-run
  sweep outside it and the run rows; `CollectionService` and `Articles` the finalization transaction and article saving.
- **Scheduler pool, rate limiter, refresh tokens.** `Scheduler`, `RateLimit`, `RefreshTokens`.
- **Source listing.** `Redaction`, `SourceTable`, `SourceListing` and `SourceService`: the cached listing refines the
  uncached one. `CacheKeys` has the key encodings of both list caches and the deletion by pattern.
- **Email cursor.** `EmailCursor`, on the generic lists of `SeenLists`.
- **Ranking.** `Ranking` in exact real arithmetic, on `Sorting`.

`Common`, `Text`, `Clocks` and `Events` hold shared vocabulary.

Times are integers on one scale, clocks never run backwards and are read at or before the commit of the
transaction that uses the reading, and claim ids, lock tokens and token hashes are fresh. What comes from outside -
collector results, mailbox contents, failing calls, races with another process - is a parameter of the method.

## Where the code does less than it may seem to promise

Each of these is proved: as an exact condition wherever there is one, and with an input that shows it happens.

- An execution row's attempt can go down: exactly when an older message reclaims a lease that has run out
  (`WorkerSafety.AttemptDropsExactlyOnExpiredReclaim`), and it does in some run whenever there is more than one attempt
  (`WorkerSafety.RedeliveryDropsAttempt`).
- The retry delay is base * 2^(n-1) only while that fits 64 bits; with a one-minute base the 29th delay is negative
  (`Backoff.DelayExactIffFits`, `Backoff.DefaultDelayOverflowsAt29`).
- A task whose row a crashed worker left processing is skipped by every message read before its lease runs out, and such
  a message is committed all the same (`WorkerDrain.CrashStrandsTask`). A drain is sure to end an unfinished task exactly
  if some request for it in the log may take its row over as early as it can be read, that is at the latest of the start
  and the due times of the valid requests up to it (`WorkerDrain.EndsInEveryDrainIffResumable`).
- An outbox event can be overtaken: exactly by an insert whose creator read its clock before the event was due
  (`OutboxOvertaking.StaleInsertOvertakes`), or by a failed event whose retry delay has wrapped and puts it before the
  event (`OutboxOrder.AheadGrowsExactlyOnOvertaking`, `OutboxOvertaking.EarlyRetryOvertakes`). The latter takes 2^62
  nanoseconds, about 146 years, since the failed event was created (`OutboxOvertaking.EarlyRetryTakesAges`).
- `Finish` does not look at the status it replaces, so a final run status is final exactly if the sweep is off or the
  lock's lifetime does not exceed the stale timeout (by more than one tick); the defaults meet this
  (`CollectionSafety.StatusesFinalIffTimed`, `CollectionSafety.DefaultsAreTimed`).
- The limiter truncates its window to milliseconds: the bound holds exactly for windows of at least one millisecond
  (`RateLimit.BoundedIffWholeMillisecond`).
- A failed cache invalidation is ignored; a cached source list is then right exactly if the listing is as it was when
  the entry was stored (`SourceListing.FreshIffUnchanged`, `SourceListing.StaysFreshIffSurvivorsUnchanged`,
  `SourceListing.FailedDeletionServesOldListing`).
- After an article error the collector's advanced configuration is still saved with the failed source
  (`CollectionService.Service.CollectAndFinish`).

## Model

| member | source | states |
|---|---|---|
| `WorkerProtocol.InvStep` | internal/module/collectionjob/worker.go:131-346 | every step of any number of workers (crash, redelivery and clock steps included) keeps the invariant over rows, log, DLQ items, claims and worker positions |
| `WorkerProtocol.InvRun` | internal/module/collectionjob/worker.go:131-346 | the invariant holds in every state of every run, whatever the interleaving |
| `WorkerProtocol.RowPreserved` | internal/module/collectionjob/job_execution.go:71-202 | each step leaves every row with the publications its status needs, a claim exactly while processing, and its attempt in bounds |
| `WorkerProtocol.RequestPreserved` | internal/module/collectionjob/worker.go:276-283 | every requested event in the log stays below the attempt bound and follows a published failure and request of the attempt before it |
| `WorkerProtocol.PcPreserved` | internal/module/collectionjob/worker.go:154-318 | at each point of HandleMessage the worker has already published what that point promises |
| `WorkerProtocol.DistinctPreserved` | internal/module/collectionjob/worker.go:233-244 | two workers never hold the same claim id |
| `WorkerProtocol.WitnessesKeep` | internal/module/collectionjob/worker.go:348-365 | nothing published or stored is ever taken back by a later step |
| `WorkerSafety.PublishBeforeMark` | internal/module/collectionjob/worker.go:175-318 | in every reachable state: failed at n means the log holds the failure of n and a request for n+1 < maxAttempts; dlq at n means the failure of n, a dead-letter event of attempt n and, with a DLQ repository, a stored item of attempt n; succeeded means a completed event with the recorded run id, unless it has no run id and some collection of its task returned a nil response |
| `WorkerSafety.AttemptsBounded` | internal/module/collectionjob/worker.go:276-283 | every requested event ever logged has an attempt in [0, maxAttempts), and all earlier attempts of its task were requested and failed |
| `WorkerSafety.LeaseExactlyWhileProcessing` | internal/module/collectionjob/job_execution.go:71-202 | in every reachable state a row is processing exactly when it has a claim id, and exactly when it has a lease |
| `WorkerSafety.OneOwner` | internal/module/collectionjob/job_execution.go:71-133 | in every reachable state a claim belongs to at most one worker |
| `WorkerSafety.ReplacedForever` | internal/module/collectionjob/job_execution.go:184-202 | a claim that lost its row never gets it back |
| `WorkerSafety.ReplacedClaimNeverWrites` | internal/module/collectionjob/job_execution.go:184-202 | once its claim was replaced, no later action of that worker on that claim changes any row, however long the run |
| `WorkerSafety.TerminalRowsAbsorb` | internal/module/collectionjob/job_execution.go:135-146 | succeeded and dlq rows never change again in any run |
| `WorkerSafety.TakeoverNeedsHigherAttempt` | internal/module/collectionjob/job_execution.go:71-146 | a row changes only by its own claim marking it or by a claim taking it over; a live lease and a failed row are taken over only by a strictly higher attempt |
| `WorkerSafety.AttemptDropsExactlyOnExpiredReclaim` | internal/module/collectionjob/job_execution.go:135-146 | a row's attempt goes down if and only if an older message reclaims a lease that has run out |
| `WorkerSafety.RedeliveryDropsAttempt` | internal/module/collectionjob/job_execution.go:135-146 | an input for every setting with two attempts: attempt 1 is claimed and abandoned, its lease runs out, and a redelivered attempt 0 takes the row |
| `WorkerSafety.AttemptsDropIffRetried` | internal/module/collectionjob/job_execution.go:135-146 | some run lowers some row's attempt if and only if maxAttempts is at least 2 |
| `WorkerSafety.OnlyClaimsAndMarksWrite` | internal/module/collectionjob/job_execution.go:71-202 | no step but a claim or a mark writes the executions table |
| `WorkerEffects.HandledLowersWork` | internal/module/collectionjob/worker.go:154-284 | handling one message strictly lowers the work left in the log, whatever the collection returned |
| `WorkerEffects.HandledKeepsDrained` | internal/module/collectionjob/worker.go:131-203 | handling one message keeps track of every task: the ones collected so far have ended or have their retry ahead of the reader, the others still have the row they started with and no request read so far could take it over |
| `WorkerEffects.EndedIffRevived` | internal/module/collectionjob/worker.go:131-203 | at the end of the log a task has ended if and only if it was new, had ended before, or some request was allowed to take its row over when it was read; otherwise its row is unchanged |
| `WorkerEffects.ResumableIsRevived` | internal/module/collectionjob/job_execution.go:135-146 | a row that some request in the log may take over even if read as early as a drain can read it is taken over whatever the clock does |
| `WorkerEffects.FloorRevivesOnlyResumable` | internal/module/collectionjob/job_execution.go:135-146 | a drain that reads every record as early as it can takes over no other row |
| `WorkerEffects.DrainEnds` | internal/module/collectionjob/worker.go:131-203 | the above for all tasks of a drain, with every valid request accounted for and at most maxAttempts collections a task; without an executions table every valid request is collected in order |
| `WorkerDrain.FloorDrainExists` | internal/module/collectionjob/worker.go:131-203 | from every state with the invariant and a free worker there is a run of the protocol that drains the log reading every record as early as it can |
| `WorkerDrain.EndsInEveryDrainIffResumable` | internal/module/collectionjob/worker.go:131-203 | told from the state a drain starts in: every drain ends an unfinished task if and only if some request for it in the log may take its row over at the latest of the start and the due times of the valid requests read up to it |
| `WorkerDrain.CrashStrandsTask` | internal/module/collectionjob/worker.go:131-172 | an input where it is not: a worker claims the only message and crashes, the whole log is read again before the lease runs out, and the task stays processing |
| `WorkerEffects.HandledKeepsCalls` | internal/module/collectionjob/worker.go:163-178 | the collections of one task are made for strictly increasing attempts |
| `WorkerEffects.CollectionsBounded` | internal/module/collectionjob/worker.go:276-283 | no task is collected more than maxAttempts times |
| `JobExecutions.JobExecutionRepository.Claim` | internal/module/collectionjob/job_execution.go:71-146 | granted exactly if there is no row, or the row failed at a lower attempt, or it is processing at a lower attempt or with a lease that has run out, or its status is unknown; the row then has every field of the claim, and nothing else changes; empty ids are refused |
| `JobExecutions.ShouldProcessByTheRule` | internal/module/collectionjob/job_execution.go:135-146 | that condition equals the rule told apart: tasks that ended stay, failed ones need a later attempt, live leases too, a lease that ran out is open to its own attempt |
| `WorkerLiveness.NeverStranded` | internal/module/collectionjob/job_execution.go:71-146 | in every reachable state a row that is neither succeeded nor dlq has a valid request in the log - its own attempt while processing, the next one once failed - and a claim of it takes the row over if and only if it is read from the end of the lease on, or at any time once failed |
| `WorkerLiveness.ResumedByAnyWorker` | internal/module/collectionjob/worker.go:154-172 | a free worker reading that request then ends up collecting it under its own claim |
| `WorkerLiveness.RetriesWaitTheirBackoff` | internal/module/collectionjob/worker.go:256-283 | in every reachable state each request of attempt n >= 1 comes after a failure of attempt n-1, repeats the fields of a request of that attempt, and is due exactly base * 2^(n-1) (or, beyond int64, its wrapped value) after a clock reading not before that failure |
| `JobExecutions.JobExecutionRepository.UpdateClaimed` | internal/module/collectionjob/job_execution.go:148-202 | a mark writes only while the row is processing under that claim, field by field as the outcome says, and otherwise reports the claim lost |
| `CollectionWorker.Worker.WaitUntilNextAttempt` | internal/module/collectionjob/worker.go:320-334 | returns without an error only when the event is due |
| `CollectionWorker.Worker.ClaimExecution` | internal/module/collectionjob/worker.go:233-244 | the claim step: granted exactly by that rule at the clock reading, always granted without an executions table |
| `CollectionWorker.Worker.MarkExecution` | internal/module/collectionjob/worker.go:246-304 | the mark step: the fenced row update, or a lost claim |
| `CollectionWorker.Worker.WriteDlq` | internal/module/collectionjob/worker.go:306-318 | the stored item first, then the dead-letter event; a failure of either leaves the row untouched |
| `CollectionWorker.Worker.RequestRetry` | internal/module/collectionjob/worker.go:276-283 | publishes the same request with attempt+1, due exactly base * 2^attempt (or, beyond int64, its wrapped value) after a clock reading inside the call |
| `CollectionWorker.Worker.HandleFailed` | internal/module/collectionjob/worker.go:256-284 | failure event, then the dead letter at once for a permanent error or the last attempt and the next request with its backoff otherwise, and only then the mark; any fault stops before the mark |
| `CollectionWorker.Worker.ReportCompleted` | internal/module/collectionjob/worker.go:183-203 | the completed event first, then the success mark with the run id |
| `CollectionWorker.Worker.Process` | internal/module/collectionjob/worker.go:163-203 | after a granted claim: exactly one collection, its publications and its record |
| `CollectionWorker.Worker.HandleMessage` | internal/module/collectionjob/worker.go:154-231 | whatever fails, tables and log end in a state the protocol reaches; invalid messages - told field by field - change nothing; without an error the message was read when due and skipped or fully handled; without faults there is no error |
| `CollectionWorker.Worker.HandleNext` | internal/module/collectionjob/worker.go:131-152 | one turn of the loop lowers the work left, keeps track of every task, and reads the clock no earlier than before |
| `CollectionWorker.Worker.ReadAll` | internal/module/collectionjob/worker.go:131-152 | the loop stops with the whole log read |
| `CollectionWorker.Worker.Run` | internal/module/collectionjob/worker.go:131-152 | one worker without faults, started in any reachable state (rows left processing by crashed workers included), reads the log to its end and stops; the whole of it is a run of the protocol and a drain, and each task has ended exactly under the condition of EndedIffRevived |
| `Backoff.RetryBackoff` | internal/module/collectionjob/worker.go:336-346 | the doubling loop in wrapping 64-bit arithmetic computes base * 2^(n-1) truncated to int64 |
| `Backoff.DelayExactIffFits` | internal/module/collectionjob/worker.go:336-346 | the n-th delay is exactly base * 2^(n-1) if and only if that value is an int64 |
| `Backoff.DelayDoublesWhileItFits` | internal/module/collectionjob/outbox.go:197-206 | below the overflow point delays are positive and double |
| `Backoff.DefaultDelayOverflowsAt29` | internal/module/collectionjob/worker.go:336-346 | with a one-minute base the first 28 delays are exact and the 29th is negative |
| `OutboxTable.FindActive` | internal/module/collectionjob/outbox_repository.go:87-101 | finds the active row of lowest id for a topic and key, if there is one |
| `OutboxTable.SelectIsFirst` | internal/module/collectionjob/outbox_repository.go:150-160 | the batch is full up to the limit, in the order of (next_attempt_at, id), and nothing left out comes before anything taken |
| `OutboxTable.BatchIsFirst` | internal/module/collectionjob/outbox_repository.go:133-202 | told from the columns: the batch is the first 100, or as many as the limit says, of the rows that are pending or failed and due or processing with a lease that ran out, without the locked ones |
| `OutboxTable.OutboxRepository.Insert` | internal/module/collectionjob/outbox_repository.go:60-76 | inserts unless an active event has the same topic and key |
| `OutboxDispatch.SharedOutbox.Reached` | internal/module/collectionjob/outbox.go:137-185 | table and broker as the methods leave them are always in a state the protocol reaches, so all its theorems apply to them |
| `OutboxDispatch.SharedOutbox.Others` | internal/module/collectionjob/outbox.go:137-185 | any actions of other participants between two steps leave this participant where it is |
| `OutboxDispatch.OutboxProducer.Create` | internal/module/collectionjob/outbox_repository.go:47-85 | check, insert and second look amid any actions of others: a protocol run; what it returns is active when it returns; it can fail only if others acted in both gaps; undisturbed it returns the existing event or adds exactly the new one |
| `OutboxDispatch.OutboxProducer.InsertOrLookAgain` | internal/module/collectionjob/outbox_repository.go:73-85 | inserts when no event is active, otherwise returns the active event found on the second look |
| `OutboxTable.OutboxRepository.ClaimReady` | internal/module/collectionjob/outbox_repository.go:133-193 | claims exactly the selected batch, passing over rows locked by other transactions, returns those rows in order as claimed, and counts all ready rows |
| `OutboxTable.OutboxRepository.UpdateClaimed` | internal/module/collectionjob/outbox_repository.go:229-264 | a mark writes only while the row is processing under that claim, and otherwise reports the claim lost |
| `OutboxProtocol.InvStep` | internal/module/collectionjob/outbox.go:154-185 | every step of any number of dispatchers and creators keeps the invariant: leases, accurate batch copies, one active event per key, counted failures |
| `OutboxProtocol.InvRun` | internal/module/collectionjob/outbox.go:154-185 | the invariant holds in every state of every run |
| `OutboxProtocol.UniquePreserved` | internal/module/collectionjob/outbox_repository.go:47-85 | no step creates a second active event for a topic and key |
| `OutboxProtocol.ItemPreserved` | internal/module/collectionjob/outbox.go:162-182 | while its lease is live a dispatcher's claim holds and its copy of the row is accurate, across every other participant's step |
| `OutboxProtocol.StepEvolves` | internal/module/collectionjob/outbox_repository.go:229-264 | rows are never removed or renamed, inactive rows never become active again, and sent rows never change |
| `OutboxSafety.SentWasPublished` | internal/module/collectionjob/outbox.go:162-176 | in every reachable state a sent row's topic, key and value are in the broker log |
| `OutboxSafety.NeverStuck` | internal/module/collectionjob/outbox_repository.go:195-202 | in every reachable state a row not sent is claimable exactly from its wake-up time on |
| `OutboxSafety.LiveBatchesDisjoint` | internal/module/collectionjob/outbox_repository.go:133-193 | two dispatchers with live leases never share an event, and no batch exceeds the limit |
| `OutboxSafety.AttemptsCountFailures` | internal/module/collectionjob/outbox_repository.go:240-250 | a row's attempts is the number of accepted MarkFailed calls on it |
| `OutboxSafety.OneActivePerKey` | internal/module/collectionjob/outbox_repository.go:47-101 | at most one active event per topic and key in every interleaving |
| `OutboxSafety.SentForever` | internal/module/collectionjob/outbox_repository.go:229-264 | sent is absorbing in every run |
| `OutboxSafety.LateMarkRefused` | internal/module/collectionjob/outbox_repository.go:252-264 | a mark by a replaced claim changes nothing and ends that dispatch, however late it comes |
| `OutboxSafety.ReturnedWasActive` | internal/module/collectionjob/outbox_repository.go:47-101 | the event a creator hands back was active under its key at some moment of that very call |
| `OutboxDispatch.OutboxDispatcher.DispatchOne` | internal/module/collectionjob/outbox.go:162-182 | publish, then mark by the broker's answer, with any actions of others in between; a refused or failed mark ends the dispatch |
| `OutboxDispatch.OutboxDispatcher.DispatchNext` | internal/module/collectionjob/outbox.go:162-182 | one turn of the loop: what the broker took is in the log even if the mark is lost; undisturbed the round advances by one item |
| `OutboxDispatch.OutboxDispatcher.DispatchBatch` | internal/module/collectionjob/outbox.go:162-185 | the loop ends early exactly on a refused or failed mark; when it is done everything the broker took is in the log |
| `OutboxDispatch.OutboxDispatcher.DispatchReady` | internal/module/collectionjob/outbox.go:154-185 | one round amid any actions of others is a protocol run; the batch is the first candidates; when done, every event of it that the broker took is in the log; undisturbed, each event of the batch is sent, or has failed once more and is due after its exact backoff, deliveries are in order, and nothing else changes |
| `OutboxDispatch.OutboxProducer.RequestCollection` | internal/module/collectionjob/outbox.go:244-279 | the requester gets the task id of an active event of its source; a new event is added only when none was active, with exactly the user, source, task and time of the request, attempt 0, and due at once; with positive ids and a task id it is a message the worker accepts |
| `OutboxDispatch.KeysPerSource` | internal/module/collectionjob/producer.go:101-103 | different sources have different idempotency keys |
| `OutboxOrder.AheadGrowsExactlyOnOvertaking` | internal/module/collectionjob/outbox_repository.go:150-250 | while an event keeps its place, the active events ahead of it grow if and only if a creator inserts with a creation time older than its due time, or an accepted failure mark reschedules an event from behind it to before it |
| `OutboxOrder.EarlyRetryMeansBadDelay` | internal/module/collectionjob/outbox.go:169-206 | the latter needs a delay that is not positive, so one whose exact value is no int64 |
| `OutboxOvertaking.StaleInsertOvertakes` | internal/module/collectionjob/outbox_repository.go:42-76 | an input for the first: a creator looks at 0, another event is created at 5, the first creator inserts |
| `OutboxOvertaking.EarlyRetryOvertakes` | internal/module/collectionjob/outbox.go:169-206 | an input for the second, with every positive backoff: an event fails as often as there are exact delays, is claimed once more, and fails again after an event due just before it was created |
| `OutboxOvertaking.EarlyRetryTakesAges` | internal/module/collectionjob/outbox.go:197-206 | in every run the event put forward by an early retry was created at least 2^62 ns (146 years) before |
| `OutboxOrder.NothingOvertakes` | internal/module/collectionjob/outbox_repository.go:150-182 | over any run without either the set ahead of an event only shrinks |
| `OutboxOrder.DueEventNotOvertaken` | internal/module/collectionjob/outbox_repository.go:150-182 | the same from the start and the actions of the run: the event is due, creators under way read their clocks since it became due and later ones from now on, and no row's attempts plus the failure marks of the run exceed the number of exact delays |
| `OutboxOrder.AttemptsRise` | internal/module/collectionjob/outbox_repository.go:221-250 | a run raises a row's attempts by at most its failure marks |
| `OutboxOrder.FullBatchAhead` | internal/module/collectionjob/outbox_repository.go:150-160 | a round that does not claim a due event claims a full batch of events ahead of it |
| `OutboxOrder.ClaimedByRound` | internal/module/collectionjob/outbox.go:154-176 | with one dispatcher whose marks succeed, a due event with k active ahead is claimed by round floor(k/limit)+1 |
| `CollectionRuns.RedisCollectionLock.Acquire` | internal/module/collector/lock.go:24-38 | taken exactly when the key is free or expired, with the default TTL for a non-positive one |
| `CollectionRuns.RedisCollectionLock.Release` | internal/module/collector/lock.go:38-52 | removes the key only while it still holds this token |
| `CollectionRuns.RunRepository.Finish` | internal/module/collector/run_repository.go:65-85 | overwrites the run by id without looking at its status |
| `CollectionRuns.RunRepository.MarkStaleRunningFailed` | internal/module/collector/run_repository.go:87-103 | fails exactly the running runs of the source that started before the cut, and counts them |
| `CollectionProtocol.InvStep` | internal/module/collector/service.go:146-295 | every step of any number of concurrent CollectSource calls keeps locks, tokens and runs consistent |
| `CollectionProtocol.InvRun` | internal/module/collector/service.go:146-295 | the invariant holds in every state of every run |
| `CollectionSafety.BodiesNeverOverlap` | internal/module/collector/lock.go:24-52 | two calls within their lock's lifetime never execute the same source's body at once |
| `CollectionSafety.ReleaseOnlyOwnLock` | internal/module/collector/lock.go:38-52 | a release removes only the releasing call's own lock; every other live call keeps its lock |
| `CollectionSafety.SweepSparesExecutingRuns` | internal/module/collector/service.go:235-284 | with a lock lifetime not above the stale timeout the sweep never fails a run still executing in time |
| `CollectionSafety.TimedKeepsFinalStatus` | internal/module/collector/run_repository.go:65-103 | under that timing no action changes a run that is already success or failed |
| `CollectionSafety.UntimedOverwrites` | internal/module/collector/run_repository.go:65-70 | for every other setting there is a punctual run in which a swept run is overwritten |
| `CollectionSafety.StatusesFinalIffTimed` | internal/module/collector/run_repository.go:65-103 | if collections end within their lock's lifetime, final statuses are final if and only if the sweep is off or the lock lifetime does not exceed the stale timeout by more than one tick |
| `CollectionSafety.OverwriteOnlyAfterSweep` | internal/module/collector/service.go:341-455 | whatever the timing, a final status changes only by the run's own collection after a sweep failed it |
| `CollectionSafety.DefaultsAreTimed` | internal/module/collector/service.go:17-18 | the default lifetimes meet the timing condition |
| `CollectionService.Service.WriteOutcome` | internal/module/collector/service.go:341-462 | run and source are written together or not at all |
| `CollectionService.Service.FinishSuccess` | internal/module/collector/service.go:341-392 | articles, run and source commit together; an article error leaves the articles as they were and fails run and source together; any other error changes none of the three |
| `CollectionService.Service.FinishFailed` | internal/module/collector/service.go:394-455 | run and source become failed together or not at all |
| `CollectionService.Service.FailStaleRuns` | internal/module/collector/service.go:235-284 | the sweep's transaction: stale runs and source together, or nothing - exactly when a database call fails or the source of a stale run cannot be updated |
| `CollectionService.Service.SweepStaleRuns` | internal/module/collector/service.go:235-284 | the sweep as a protocol step, skipped without a timeout, with the same exact condition of failure |
| `CollectionService.Service.CollectAndFinish` | internal/module/collector/service.go:197-233 | for each way a collection can end: exactly which run row, source row and articles result, with the collector's advanced config saved in both |
| `CollectionService.Service.CollectLocked` | internal/module/collector/service.go:165-233 | in progress exactly when the lock is held; otherwise the own lock is gone at the end, unless the release itself fails |
| `CollectionService.Service.CollectSource` | internal/module/collector/service.go:146-233 | a run of the protocol; a success reports fetched = inserted + duplicated as stored; every other response leaves the articles alone; a lock that was taken is given back unless the release fails |
| `CollectionService.MarkedIffChanged` | internal/module/collector/service.go:244-262 | the sweep touches the source exactly when it failed some run |
| `Articles.ArticleService.CreateIfNotExists` | internal/module/article/repository.go:70-82 | inserts if and only if no stored article of the same source has the same content hash or the same external id |
| `Articles.ArticleService.SaveCollectedItems` | internal/module/article/service.go:58-86 | saves if and only if every item is acceptable and the database does not fail: then the table is extended by one article for each new item, field by field, inserted counts the new items, and exactly their users are invalidated |
| `Articles.SavedStoresNew` | internal/module/article/service.go:58-86 | which items are new, told from the items and the old table alone: no stored article and no earlier new item of the same source has the trimmed hash or the trimmed non-blank external id |
| `Articles.OtherSourcesDoNotMatter` | internal/module/article/service.go:58-86 | whether an item is new never depends on the articles of other sources |
| `Articles.DroppedItemReservesNothing` | internal/module/article/service.go:58-86 | an input: an earlier item dropped for its hash does not keep a later one with the same external id from being stored |
| `Articles.SavedConserves` | internal/module/article/service.go:58-86 | inserted + duplicated = batch size, the table grows at its end by exactly inserted and stays free of key conflicts |
| `Articles.SavedCovers` | internal/module/article/service.go:58-86 | after a save every item of the batch conflicts with a stored article |
| `Articles.KeysIgnoreClock` | internal/module/article/service.go:168-218 | validity and unique keys of an article do not depend on the clock |
| `Articles.SaveTwiceInsertsNothing` | internal/module/article/service.go:58-86 | saving the same batch again, at any later time, inserts nothing and reports every item a duplicate |
| `Scheduler.InvStep` | internal/module/scheduler/scheduler.go:105-150 | every step of every schedule keeps: each source handed out is being collected or was, never twice |
| `Scheduler.Progress` | internal/module/scheduler/scheduler.go:105-150 | before the return some step of the program itself is always possible: no deadlock |
| `Scheduler.ActionsRunOut` | internal/module/scheduler/scheduler.go:105-150 | every step lowers the work left, so every schedule ends |
| `Scheduler.ConcurrencyBound` | internal/module/scheduler/scheduler.go:105-150 | at most min(concurrency, n) sources are collected at once |
| `Scheduler.RunOnce` | internal/module/scheduler/scheduler.go:105-150 | under any schedule a nil return means every source was collected exactly once, a cancelled return exactly a proper prefix, and none is running at the return; the pool has min(max(concurrency, 1), n) workers |
| `Scheduler.PoolCanBeFull` | internal/module/scheduler/scheduler.go:105-150 | there is a schedule in which all of them collect at the same time |
| `RateLimit.RedisLimiter.Allow` | internal/ratelimit/limiter.go:95-150 | one atomic script step on its own key, and the derived remaining and retry values |
| `RateLimit.CounterIsPosition` | internal/ratelimit/limiter.go:133-150 | the counter is the request's position in its window, and the request is admitted exactly below the limit |
| `RateLimit.AnswerTellsPosition` | internal/ratelimit/limiter.go:95-131 | what a request is told: allowed iff its position is within the limit, remaining = max(0, limit - position), reset after the time left in its window, retry after that time iff refused |
| `RateLimit.OpenerOpens` | internal/ratelimit/limiter.go:133-150 | a window is opened by the first request after the last window ended |
| `RateLimit.WindowAdmitsExactlyLimit` | internal/ratelimit/limiter.go:133-150 | a window admits exactly min(requests, limit) |
| `RateLimit.TwiceTheLimit` | internal/ratelimit/limiter.go:95-150 | any half-open interval of one window's length admits at most 2 * limit requests |
| `RateLimit.SubMillisecondAdmitsAll` | internal/ratelimit/limiter.go:95-97 | a window below one millisecond admits everything |
| `RateLimit.BoundedIffWholeMillisecond` | internal/ratelimit/limiter.go:95-150 | the 2 * limit bound holds if and only if the window is at least one millisecond |
| `RefreshTokens.RefreshTokenRepository.FindValidByHash` | internal/module/auth/refresh_token_repository.go:38-52 | finds exactly unrevoked, unexpired tokens |
| `RefreshTokens.RefreshTokenRepository.RevokeByHash` | internal/module/auth/refresh_token_repository.go:54-67 | revokes an unrevoked token once, whatever its expiry; otherwise not found |
| `RefreshTokens.RefreshTokenRepository.Create` | internal/module/auth/refresh_token_repository.go:31-36 | adds a token under a hash not used before |
| `RefreshTokens.InvStep` | internal/module/auth/service.go:109-238 | every step of interleaved logins, refreshes and logouts keeps the balance of each user's sessions |
| `RefreshTokens.InvRun` | internal/module/auth/service.go:109-238 | the balance holds in every state of every run |
| `RefreshTokens.ConsumedAtMostOnce` | internal/module/auth/refresh_token_repository.go:54-67 | in any interleaving each stored token is consumed by at most one refresh or logout, and exactly the revoked ones were |
| `RefreshTokens.SessionsConserved` | internal/module/auth/service.go:109-238 | unrevoked tokens + refreshes between revoke and create + refreshes that stopped there + logouts = logins, per user; so live sessions never exceed logins minus logouts |
| `RefreshTokens.AuthService.Login` | internal/module/auth/service.go:140-161 | adds exactly one token |
| `RefreshTokens.AuthService.Refresh` | internal/module/auth/service.go:163-222 | rejects exactly tokens that are unknown, revoked, expired at the reading or whose user is gone, without a change; otherwise the old token is revoked, and either one new one of the same user, good for the TTL, exists or, after a failure, neither |
| `RefreshTokens.AuthService.Logout` | internal/module/auth/service.go:224-238 | revokes the token, or rejects one that is unknown or already revoked |
| `CacheKeys.ArticleKeyInjective` | internal/module/article/cache.go:71-93 | two article list requests share a key if and only if they are equal, for arbitrary query text |
| `CacheKeys.SourceKeyInjective` | internal/module/source/cache.go:71-73 | the same for source list requests, for arbitrary type text |
| `CacheKeys.UserOfKey` | internal/module/article/cache.go:71-83 | the user can be read off a key |
| `CacheKeys.GlobIsPrefix` | internal/module/article/cache.go:57-60 | a plain text followed by * matches exactly the strings that start with it |
| `CacheKeys.PatternMatchesOwnArticles` | internal/module/article/cache.go:57-69 | the deletion pattern of a user matches an article key if and only if the key is that user's: 1 never matches 10 |
| `CacheKeys.PatternMatchesOwnSources` | internal/module/source/cache.go:57-69 | the same for source keys |
| `CacheKeys.CachesDisjoint` | internal/module/article/cache.go:17-25 | clearing one cache never touches a key of the other |
| `CacheKeys.RedisListCache.DeleteUser` | internal/module/source/cache.go:57-69 | the scan loop removes only keys matching the pattern, and all of them unless Redis fails first |
| `Redaction.RedactionKeepsShape` | internal/module/source/service.go:422-443 | along every path without a sensitive key redaction changes nothing but what lies below |
| `Redaction.SecretsAreHidden` | internal/module/source/service.go:422-453 | whatever a sensitive key held, at any depth, is replaced by the marker and nothing below it remains |
| `Redaction.UnchangedIffNoSecrets` | internal/module/source/service.go:422-443 | redaction is the identity exactly on trees without secrets |
| `Redaction.RedactedHasNoSecrets` | internal/module/source/service.go:422-443 | no secret survives redaction |
| `Redaction.RedactionIdempotent` | internal/module/source/service.go:413-443 | redacting twice is redacting once, on arbitrary JSON trees |
| `Redaction.RedactConfigIdempotent` | internal/module/source/service.go:396-420 | redacting a stored config again changes nothing, and none is shown with a secret |
| `Redaction.RedactConfigShows` | internal/module/source/service.go:396-443 | what is shown of a stored config: the same structure with every scalar not under a sensitive key, the marker for everything that is, and the empty object for nothing or non-JSON |
| `Redaction.SensitiveNames` | internal/module/source/service.go:445-453 | exactly twelve names are sensitive, whatever their case and surrounding white space |
| `SourceTable.SourceRepository.Create` | internal/module/source/repository.go:51-59 | adds a row unless the user has a visible source with the URL |
| `SourceTable.SourceRepository.Update` | internal/module/source/repository.go:143-174 | writes the updatable columns of the user's visible row, or reports not found or a duplicate URL |
| `SourceTable.SourceRepository.SoftDelete` | internal/module/source/repository.go:176-197 | hides and deactivates the user's visible row, or reports not found |
| `SourceTable.SourceRepository.ListByUserID` | internal/module/source/repository.go:79-119 | total is the number of the user's visible rows of the type; the page holds only such rows, newest first, and is as long as limit and total allow |
| `SourceTable.ListingIsExact` | internal/module/source/repository.go:79-119 | the list the pages are cut from holds exactly the user's visible rows of the type, as many as there are, newest first |
| `SourceTable.UncachedAnswers` | internal/module/source/service.go:130-179 | the uncached listing is the right answer, row by row: the exact total, and a page of the stored rows with their fields and redacted configs, each once, newest first, at the exact length |
| `SourceTable.PagesTile` | internal/module/source/repository.go:98-114 | consecutive pages lose nothing and repeat nothing |
| `SourceTable.WriteTouches` | internal/module/source/repository.go:143-197 | writing one row changes no other user's listing |
| `SourceListing.CoherentStep` | internal/module/source/service.go:76-277 | every operation keeps: each entry equals the uncached listing of the table it was computed from, up to redaction, and that of now unless it outlived a deletion of its user |
| `SourceListing.CoherentRun` | internal/module/source/service.go:76-277 | that holds after any sequence of mutations, listings and expiries |
| `SourceListing.CachedRefinesUncached` | internal/module/source/service.go:130-179 | in every run a request gets exactly the uncached listing, hit or miss, even while Redis fails, unless its entry outlived a deletion of its user |
| `SourceListing.FreshIffUnchanged` | internal/module/source/service.go:130-179 | in every run the reply is right if and only if it is no hit or the listing is as it was when the entry was stored |
| `SourceListing.StaysFreshIffSurvivorsUnchanged` | internal/module/source/service.go:130-179 | at each change: if every reply was right before it, every reply is right after it if and only if each own entry that was not removed belongs to a request whose listing did not change |
| `SourceListing.FailedDeletionServesOldListing` | internal/module/source/service.go:130-179 | an input where it is not: a user without sources lists, creates one, and Redis removes nothing; the total served is 0 and should be 1 |
| `SourceListing.NothingMissed` | internal/module/source/service.go:273-277 | if every deletion goes through, no entry outlives one |
| `SourceListing.RepliesHaveNoSecrets` | internal/module/source/service.go:146-151 | no reply carries a secret, even from entries an older version cached unredacted |
| `SourceService.CreatedIsAsRequested` | internal/module/source/service.go:76-110 | a create request fails with the first of name, type, URL, config that does not pass, and otherwise yields a row with exactly what was asked for |
| `SourceService.PatchedIsAsRequested` | internal/module/source/service.go:206-236 | an update fails with the first of name, URL, config that does not pass, and otherwise sets exactly the requested fields |
| `SourceService.CreatedIsWellFormed` | internal/module/source/service.go:76-110 | a create request is accepted only as a well-formed source |
| `SourceService.PatchedIsWellFormed` | internal/module/source/service.go:206-236 | an update never turns a well-formed source into another |
| `SourceService.Service.CreateSource` | internal/module/source/service.go:76-128 | the first validation error, a duplicate, or exactly one new row that has what was asked for field by field, shown redacted, and the invalidation of its user |
| `SourceService.Service.UpdateSource` | internal/module/source/service.go:196-257 | not accessible, the first validation error, a duplicate, or exactly the requested fields written, all others kept, and the user invalidated |
| `SourceService.Service.Patch` | internal/module/source/service.go:206-236 | sets only requested fields, each validated, in the order of the checks |
| `SourceService.Service.DeleteSource` | internal/module/source/service.go:259-271 | hides the row and invalidates its user |
| `SourceService.Service.RecordFetch` | internal/module/collector/service.go:425-432 | what a finished collection or a sweep writes to a source is followed by the same invalidation |
| `SourceService.Service.DeleteUserListCache` | internal/module/source/service.go:273-277 | a mutation step of the run; if Redis deletes long enough no entry of the user survives |
| `SourceService.Service.RedactListResponse` | internal/module/source/service.go:413-420 | the loop redacts every config of a cached reply |
| `SourceService.Service.ListSources` | internal/module/source/service.go:130-179 | rejects unknown types; otherwise, unless the entry outlived a deletion of its user, the right answer row by row: exact total, stored rows with their fields and redacted configs, newest first |
| `EmailCursor.NormalizeSeenMessageIDs` | internal/module/collector/email/collector.go:174-186 | the loop computes the trimmed ids in first-seen order |
| `EmailCursor.SeenMessageIDSet` | internal/module/collector/email/collector.go:163-172 | the set holds exactly the non-blank trimmed ids |
| `EmailCursor.NormalizedKeeps` | internal/module/collector/email/collector.go:174-186 | normalization keeps exactly the non-blank ids |
| `EmailCursor.NormalizedIsClean` | internal/module/collector/email/collector.go:174-186 | the normalized list has no blanks, no repetitions and no surrounding white space |
| `EmailCursor.NormalizedAbsorbs` | internal/module/collector/email/collector.go:188-209 | merging new ids into the normalized list extends it at its end |
| `EmailCursor.Collector.Collect` | internal/module/collector/email/collector.go:81-132 | errors leave the config alone; otherwise there is one item, with its title, author and external id, for each message that is new, contains the from filter in its sender and the alias in some recipient, and has a subject, in the order of the mailbox; the cursor advances by them and the rest of the config stays |
| `EmailCursor.CollectableIsWanted` | internal/module/collector/email/collector.go:94-110 | that condition, told from the fields of message and config |
| `EmailCursor.ContainsFoldIff` | internal/module/collector/email/collector.go:311-313 | containsFold: the part stands somewhere in the text, letter by letter up to case |
| `EmailCursor.Collector.Select` | internal/module/collector/email/collector.go:90-119 | the loop chooses against the seen set of the start of the call |
| `EmailCursor.ChosenAreCollectable` | internal/module/collector/email/collector.go:94-110 | a message is collected if and only if it is unseen, inside the filters and has a subject |
| `EmailCursor.AdvancedEffect` | internal/module/collector/email/collector.go:121-130 | rewriting the stored cursor only when something is new has the same effect on the next call as always rewriting it |
| `EmailCursor.CollectedAtMostOnce` | internal/module/collector/email/collector.go:81-132 | over any sequence of calls whose cursor is saved a non-empty message id is collected in at most one |
| `EmailCursor.SeenListIsHistory` | internal/module/collector/email/collector.go:188-209 | the seen list is the initial one extended by every collected id, each once, in first-seen order |
| `EmailCursor.SeenListOnlyGrows` | internal/module/collector/email/collector.go:188-209 | it only grows at its end and stays free of blanks and repetitions |
| `EmailCursor.UidIsMaximum` | internal/module/collector/email/collector.go:116-130 | last_seen_uid ends as the maximum of its old value and every collected UID |
| `EmailCursor.UidNeverDecreases` | internal/module/collector/email/collector.go:211-230 | and never decreases from one call to a later one |
| `EmailCursor.HighestUidIsMaximum` | internal/module/collector/email/collector.go:116-118 | the tracked UID is an upper bound that is reached |
| `Ranking.CauchySchwarz` | internal/module/ai/service.go:541-546 | the accumulated sums satisfy dot^2 <= normA * normB for all vectors |
| `Ranking.CosineBounded` | internal/module/ai/service.go:537-551 | scores lie in [-1, 1] |
| `Ranking.CosineSymmetric` | internal/module/ai/service.go:537-551 | similarity is symmetric, and 1 for a non-zero vector with itself |
| `Ranking.CosineTimesNorms` | internal/module/ai/service.go:537-551 | the cosine times both norms is the dot product |
| `Ranking.DisjointScoresZero` | internal/module/ai/service.go:537-551 | vectors without a common non-zero coordinate score 0 |
| `Ranking.MultiplesScoreAlike` | internal/module/ai/service.go:537-551 | a positive multiple of a vector scores the same |
| `Ranking.CosineSimilarity` | internal/module/ai/service.go:537-551 | the loop computes the cosine; 0 for empty, unequal or zero vectors |
| `Ranking.PositiveScores` | internal/module/ai/service.go:291-300 | what is ranked are exactly the positive scores of the records other than the article itself, and none exceeds one |
| `Ranking.TopKeepsTheBest` | internal/module/ai/service.go:301-306 | the kept list is non-increasing, as long as the limit allows, keeps the earliest of equal scores in order, and nothing dropped beats anything kept |
| `Ranking.ReadableKeepsOrder` | internal/module/ai/service.go:308-323 | skipping articles that cannot be read keeps the order, adds nothing and drops no other |
| `Ranking.SimilarArticles` | internal/module/ai/service.go:272-323 | at most 20 results and 5 by default, best first; each is a readable article other than the target with its positive score; a readable article with a positive score is listed unless there are more than the limit and everything listed is at least as good |
| `Ranking.EmbeddingRAGInputs` | internal/module/ai/service.go:435-458 | the same for a query embedding |
| `Sorting.SortedAndStable` | internal/module/ai/service.go:301-303 | the sorted list is descending and every group of equal keys keeps its order |
| `Sorting.StableOrderUnique` | internal/module/ai/service.go:301-303 | there is only one stable descending order, so any stable sort returns this list |

## Left out

- CollectionWorker.Worker.Run: is stated for one worker without faults. The real loop skips a failed message without
  committing it and may commit a later one, so "no message is lost" depends on broker offset rules that are not modelled.
- CollectionWorker.Worker.HandleMessage: does not model exactly-once delivery. A completed event may be published twice, because
  publishing comes before marking; the property proved is publish-before-mark.
- OutboxSafety.OneActivePerKey: rests on the unique index of active events per topic and key, which is modelled as part of
  the insert; the one-time deduplication of old rows by migration 000009 is left out.
- OutboxDispatch.OutboxProducer.Create: leaves out database errors other than the duplicate key.
- CollectionService.Service.CollectSource: always has a transaction runner and a lock; running without them, and
  source edits concurrent with a collection, are not modelled. Without a stale-run repository it behaves as with the sweep
  off.
- RefreshTokens.AuthService.Login: starts after the credentials were accepted; password checks, access tokens and
  RevokeAllByUserID are left out. Refresh and Logout start after a blank token was rejected.
- CacheKeys.RedisListCache.DeleteUser: requires a prefix without pattern characters, as both prefixes in use are; bracket
  classes of Redis patterns are not modelled.
- SourceTable.SourceRepository.ListByUserID: breaks ties in creation time by id, where the database leaves the order open.
- SourceService.Service.CreateSource: takes URL parsing and the network guard as a parameter.
- SourceService.Service.RecordFetch: stands for the source write of a collection or sweep, without the transaction around it.
- EmailCursor.Collector.Collect: takes the mailbox contents as a parameter; content hashes and message bodies are left out.
- Letter case: `ToLower` has every letter that Go folds into ASCII, which decides comparisons with ASCII names; letters that fold to
  others outside ASCII stay as they are, which an email filter may notice.
- Ranking.SimilarArticles: uses real numbers, so floating-point rounding is left out; so are the generation of a missing
  embedding and the DTO fields of an article.
- Scheduler.RunOnce: lists sources and collects them as abstract steps; errors of single collections are only logged by the
  code and do not matter to it.
- RateLimit.RedisLimiter.Allow: treats a key as gone once its expiry is reached.
- Coherence of the article list cache: deleting a source does not invalidate it, so only its keys are modelled.
- DLQ replay and handled marks, ListReady, and the summary queue have no status guard, lease or claim to prove anything hard about.
- Broker, Postgres, Redis, GORM and JSON internals; HTTP, metrics, logging, configuration and the web client.
