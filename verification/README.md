# TaskPilot: the task table, verified

TaskPilot keeps background jobs as rows of one PostgreSQL table. Any number of workers poll it: each
tick first reaps rows that have been `running` for too long, then claims a batch of due rows with
`SELECT ... FOR UPDATE SKIP LOCKED`, executes them outside any lock under a FIFO semaphore, and writes
each outcome in a transaction of its own. Clients create, PATCH and delete rows meanwhile. This project
models that table and everything that steps it as a timed transition system, and proves what holds over
every run. Dafny 4.11 checks it with `dafny verify dfyconfig.toml`.

## How it is built

- `Tasks`, `StateMachine`, `Retry`: rows, settings, the two worker queries, the transition table, backoff,
  the retry-or-bury decision, and how an edited ORM object reaches its row.
- `Protocol`: the state (clock, table, deleted rows, batches with their queue and live executors, create
  calls, counters, a history per task), the fourteen actions, and runs as sequences of actions.
- `Columns`: what each action does to a row, column by column, and when it can be taken.
- `Ownership`, `Threshold`, `DoubleRun`, `SoleWorker`: who owns a claimed row, exactly when that holds,
  exactly when no task is executed twice at once, and the case of a single polling loop.
- `Patching`, `Refinement`, `Rows`, `Conservation`, `Measure`: histories with and without PATCH, reachable
  rows, counters, remaining work.
- `Waiting`, `Pacing`, `Drain`, `Progress`, `Recovery`: how long a due task waits, that every task ends,
  and that time is never blocked. `Polling` puts run_loop inside the protocol and derives the polling
  period from the settings; `Heartbeat` shows that the loop never halts.
- `Creates`, `Linearise`: idempotent create under interleaving. `Locking`: claims and reaps row lock by row
  lock.
- `Worker`, `Semaphore`, `Runner`, `Service`, `Listing`: the code's own imperative form. Their methods
  are specified with the functions the protocol's steps are made of (`ClaimRows`, `ReapRows`,
  `FailedRow`, `Edited`, `Flush`, `Count`, `NewRow`, `PatchedRow`, `WithKey`, `NextStart`).

## Modelling decisions

- B is `worker_batch_size` (at least 1), C is max(1, `worker_concurrency`), E the execution timeout, R the
  running-task timeout, M `max_retries` (at least 0), base the backoff base (at least 1), all in the unit
  of one global clock. E also covers the short transactions around an execution.
- `updated_at` is `now()`, which in PostgreSQL is the start of the transaction, while a batch is
  dispatched after the commit. `overhead` bounds that distance. The timing hypothesis `Exclusive` is
  therefore overhead + ceil(B / C) * E <= R.
- An executor's second `session.get` answers from the object its session already holds
  (`expire_on_commit=False`), so an outcome is computed from the snapshot and only columns whose value
  differs from it are sent. When the row is gone the UPDATE matches nothing and the commit raises;
  `_apply_failure` has bumped its counter by then. A commit can also fail for reasons of its own: then a
  reap or a recorded failure has been counted and nothing is written (`VoidReap`, `Lose` with `counted`),
  and `spurious` holds what was counted so.
- A create commits its row, refreshes it in a new transaction, and counts it only then. A DELETE in between
  makes the refresh raise: the row was inserted, the create answers with an error and is not counted
  (`DeletedBeforeRefresh`). The metric is therefore the number of rows ever inserted only under the
  condition of `CreatedIsExactWhen`.
- A batch belongs to one call of `run_once`. An exception escaping one task ends the gather early while
  its siblings go on, so batches, not workers, are the unit; a crash ends a batch, and a single
  executor can be lost too.
- The outcome of an execution is an oracle; a payload with `force_fail` never succeeds.
- The repository's README says that PATCH takes a row lock, so that a request racing the worker cannot
  corrupt the state, and that `succeeded` and `dead` are final (README.md:250-251). The code does not give
  that: executors record without looking at the status. `PatchRaceReopensTask` is a run in which a
  succeeded task becomes pending again. What decides is the recording, not the PATCH: a PATCH of a running
  task does no harm if and only if the outcome recorded later agrees with it (`PatchThenRecord`), and over
  any run, with any PATCHes and any timeouts, a history is one the state machine accepts, or keeps its
  terminal status, if and only if every recording finds a status it may write over (`HistoryExactlyWhen`,
  `FinalExactlyWhen`). The results about ownership assume that no PATCH changes a running row
  (`SparesRunning`), those about rows and counters that there is none (`NoPatch`).
- It also says that SKIP LOCKED guarantees that no task runs twice (README.md:119-121). That executors keep
  their rows needs exactly the timing hypothesis (`OwnershipThreshold`). That no task is executed twice at
  once needs less, because a row taken by the reaper comes due again only after its backoff, and an
  attempt that gets its slot meanwhile finds it pending. It holds if and only if M = 0, or both halves of
  an attempt are safe: E < base or overhead + ceil(B / C) * E <= R + base, and, with
  Q = floor((B - 1) / C) * E the longest wait for a slot, Q < base or overhead + Q <= R + base
  (`NeverTwiceExactlyWhen`). With E >= base this is M = 0 or overhead + ceil(B / C) * E <= R + base
  (`NeverTwiceByMargin`).
- Polls may skip rows that other transactions have locked; those transactions are taken to move the rows
  within the overhead, as `Locking` shows for transactions that do not roll back.

## Model

| member | source | states |
|---|---|---|
| StateMachine.TerminalIsFinal | app/state_machine.py:14-27 | in any history the transition table accepts, a terminal status is followed only by itself |
| StateMachine.TransitionsExactly | app/state_machine.py:21-31 | a transition is allowed exactly along the six edges, and terminal are exactly the statuses that none of them leaves |
| Retry.BackoffSum | app/worker/processing.py:42-44 | the first n backoffs add up to base * (2^n - 1), for every n and base |
| Retry.FailureOutcomes | app/worker/processing.py:47-71 | a failed run leaves the row pending base * 2^(retries so far) from now, strictly in the future and within the longest backoff, with one attempt more, or dead with its count and schedule unchanged, according to the retries left; the error kept is the prefix of min(length, 1000) characters; every other column stays |
| Retry.FlushCurrent | app/worker/processing.py:138-153 | when the loaded object still equals the row, a success makes it succeeded without an error, a failure makes it what a failed run leaves, and nothing else changes |
| Retry.StaleSuccess | app/worker/processing.py:138-143 | over a row changed since it was loaded, a success sets the status, keeps the others' retry count and schedule, and clears the error only if the loaded row had one |
| Retry.StaleFailure | app/worker/processing.py:148-153 | over a row changed since it was loaded, a failure charges the attempt that the loaded row had coming, schedules it by that attempt, and keeps of each column computed alike what the row has now; the error is kept up to 1000 characters |
| Ownership.TimelyStep | app/worker/processing.py:167-177 | every step keeps the FIFO bound: position i of a batch has its slot by the claim's commit + (i / C) * E, at most C run at once, none past its timeout |
| Ownership.SlotsRespected | app/worker/processing.py:167-177 | in every run whatever, no tick has more than max(1, worker_concurrency) tasks running, and none runs past its timeout |
| Ownership.ActiveInSpan | app/worker/processing.py:167-177 | no queued or running task of a batch is active later than ceil(B / C) * E after the claim's commit, nor overhead + ceil(B / C) * E after its stamp |
| Ownership.OwnedStep | app/worker/processing.py:92-153 | every step that spares running rows from PATCH and held rows from the reaper keeps each held row equal to its executor's snapshot, and held by one position only |
| Ownership.ReapTakesOrphans | app/worker/processing.py:74-89 | under the timing hypothesis a reap takes no row that is executing or queued |
| Ownership.ExclusiveOwnership | app/worker/processing.py:74-179 | over every run from the empty table: one executor per row, each executor's row unchanged since it loaded it or deleted, and only orphans reaped |
| Ownership.OutcomeIsNotStale | app/worker/processing.py:138-153 | no lost update: an outcome write leaves the edits applied to the row that is there, which is running, and never recreates a deleted row |
| Threshold.OwnershipThreshold | app/worker/processing.py:74-179 | executors keep their rows in every reachable state if and only if overhead + ceil(B / C) * E <= R |
| Threshold.BadRun | app/worker/processing.py:74-179 | whenever the timing hypothesis fails, for any settings, a run of one claim and one reap leaves an executor working on a row that is pending or dead |
| DoubleRun.NotDueWhileHeld | app/worker/processing.py:92-107 | in a state kept by every step, a row held by a queued or running attempt is not due, unless half an attempt can outlast both the backoff and the reaper's margin |
| DoubleRun.NeverTwiceExactlyWhen | app/worker/processing.py:74-179 | in every reachable state no two executors work on one row, if and only if there are no retries or neither half of an attempt, its wait for a slot or its execution, outlasts the backoff and the reaper's timeout plus the backoff; otherwise a run of two claims and one reap has two |
| DoubleRun.NeverTwiceByMargin | app/worker/processing.py:74-179 | M = 0 or overhead + ceil(B / C) * E <= R + base is enough for that, and when E >= base it is also necessary |
| DoubleRun.ShortHalvesNeedNoMargin | app/worker/processing.py:118-122 | when E < base it is not: settings whose span exceeds R + base, with retries, under which no task is ever executed twice at once |
| Patching.RecordingAccepted | app/worker/processing.py:138-153 | whatever a row has become since it was loaded, the state machine accepts the recording exactly when the outcome fits the status found: any over running, a success over succeeded, a failure over failed or pending, a failure without retries left over dead |
| Patching.PatchThenRecord | app/service.py:97-120 | a PATCH of a running row to an allowed target, followed by the executor's outcome, makes an accepted history if and only if the target is succeeded exactly when the outcome is a success |
| Patching.HistoryExactlyWhen | app/service.py:97-120 | over any run, with any PATCHes and any timeouts, a task's history is accepted by the state machine if and only if every outcome recorded on it fits the status found there |
| Patching.FinalExactlyWhen | app/state_machine.py:14-27 | over any run succeeded and dead are final for a task if and only if every recording over a terminal row repeats its status |
| Patching.PatchRaceReopensTask | app/service.py:97-120 | a run in which a task PATCHed to succeeded is pending again after its executor's failure |
| SoleWorker.ReaperMeetsNoExecutor | app/worker/runner.py:35-49 | with one loop and no exception escaping a task, nothing is executing or queued wherever the loop may reap, and ownership holds, whatever the timeouts and however long anything takes |
| Refinement.StepFollowsMachine | app/worker/processing.py:47-71 | each step changes a status along zero or one allowed edge, or two through `failed`, and the latter only when a failure is charged |
| Refinement.HistoriesRefineMachine | app/worker/processing.py:47-107 | with the hidden `failed` put back, every task's whole history is accepted by the transition table and shows nothing after a terminal status |
| Refinement.TerminalForever | app/worker/processing.py:47-153 | a succeeded or dead row keeps every column until it is deleted |
| Columns.InsertColumns | app/service.py:38-48 | a create inserts one pending, untried row without an error, due at the time asked for or else now, created and updated now, with the request's key and payload; a taken key inserts nothing; other rows stay |
| Columns.ClaimColumns | app/worker/processing.py:103-104 | a claim changes the status and the stamp of the rows it takes, which were pending and due, and no other column or row |
| Columns.ClaimChooses | app/worker/processing.py:94-100 | it takes at most B, none locked, all due, longest waiting first, and leaves a due one only for a full batch of rows no younger |
| Columns.ReapColumns | app/worker/processing.py:84-88 | a reap fails the rows it takes, which were running and stale, by one attempt with the message of a stalled execution, and changes no other row |
| Columns.ReapChooses | app/worker/processing.py:77-82 | it takes at most B stale rows, none locked, and leaves one only when B are taken |
| Columns.OutcomeColumns | app/worker/processing.py:138-153 | when executors own their rows, an outcome succeeds its row and clears the error, never for a payload that forces failure, or fails it by one attempt with its error; no other column or row changes |
| Columns.PatchColumns | app/service.py:106-118 | a PATCH keeps the retry count, schedule, creation time, error, key and payload of every row; an allowed one sets the status and the stamp, any other changes nothing |
| Columns.DispatchStarts | app/worker/processing.py:118-122 | the head of the queue is executed exactly when its row is there and running, from the row as it is then; either way its turn has passed |
| Columns.IdentityKept | app/models.py:36-54 | over any run whatever, with any PATCHes and timeouts, creation time, key and payload of a row never change |
| Rows.ReachableRows | app/worker/processing.py:47-153 | in PATCH-free runs: never `failed`, retry_count at most M, dead means retry_count M and an error, succeeded means none, pending or running has an error exactly when retry_count is positive, and claims and failures match the status |
| Rows.UntouchedUntilClaimed | app/service.py:38-48 | in every PATCH-free run a row never claimed is pending, untried, without an error and due exactly when its creator asked, or else at its insertion; created_at is the instant of the insertion, for every row |
| Rows.NeverEarly | app/worker/processing.py:94-99 | whatever a run claims is due, and not before the time its creator asked for |
| Rows.RetryCountNeverFalls | app/worker/processing.py:47-71 | retry_count never falls along a run |
| Rows.AlwaysFailing | app/worker/processing.py:42-71 | a task that always fails never succeeds, is claimed at most M + 1 times, is dead exactly when charged M + 1 failures, with retry_count M, and no sooner than base * (2^M - 1) after the first |
| Measure.StepWork | app/worker/processing.py:47-107 | with weight 2(M - rc) + 2 for pending and 2(M - rc) + 1 for running rows, the table's sum falls by at least one for every row claimed, recorded or reaped |
| Measure.WorkIsBounded | app/worker/processing.py:47-107 | over any PATCH-free run from the empty table workers move at most (2M + 2) * (rows there + rows deleted) rows |
| Measure.WorkAtMost | app/worker/processing.py:47-107 | the work left on a table is at most 2M + 2 for each of its rows, whatever they are |
| Waiting.AheadOnlyShrinks | app/worker/processing.py:55-67 | no step puts a pending row at or ahead of a due one; retried and reaped rows land strictly behind it |
| Waiting.BoundedWait | app/worker/processing.py:92-107 | a due row with k pending rows at or ahead of it is claimed within k / B + 1 claims that do not find it locked |
| Pacing.ClaimLatency | app/worker/processing.py:92-107 | with a poll at least every period, a due row is claimed before (k / B + 1) periods and an overhead have passed, even if polls find it locked by transactions that move it |
| Polling.LoopIsPaced | app/worker/runner.py:35-49 | a run of the loop amid other workers and clients, in which at most f ticks in a row fail, polls at least every (f + 1) * max(interval, longest tick) + 2 overheads, where the longest tick is 2 overheads + ceil(B / C) * E |
| Polling.TicksAreRunLoops | app/worker/runner.py:30-51 | the loop's ticks in the protocol start where run_loop starts ticks of those durations, failed or not, and none is longer than 2 overheads + ceil(B / C) * E |
| Polling.PeriodInSettings | app/worker/runner.py:35-49 | the polling period is (f + 1) * max(interval, 2 overheads + ceil(B / max(1, worker_concurrency)) * E) + 2 overheads |
| Polling.LoopClaimLatency | app/worker/runner.py:35-49 | in such a run a due row is claimed before (k / B + 1) of those periods and an overhead have passed: a bound from the settings alone |
| Polling.LatencyIs | app/worker/runner.py:35-49 | without overhead and failed ticks that bound is (k / B + 1) * max(interval, longest tick) |
| Polling.LoopEndsEveryTask | app/worker/processing.py:47-179 | in such a run without creates, PATCHes and `failed` rows every row is succeeded, dead or deleted once the clock passes t0 + (work left) * (period + overhead + max(longest backoff, R)) |
| Polling.DrainedByInSettings | app/worker/processing.py:47-179 | that instant is at most t0 + (2M + 2) * (rows) * (period + overhead + max(base * 2^(M - 1), R)) |
| Heartbeat.LoopGoesOn | app/worker/runner.py:35-49 | with an interval of at least one unit the loop can go on from any stage, any debts and any executors to any instant, in time |
| Drain.EveryTaskEnds | app/worker/processing.py:47-179 | the same for any worker that polls every period: crashes, lost executors, failed commits, deletes, other workers and polls that skip rows other transactions then move are allowed |
| Drain.FailingTaskIsBuried | app/worker/processing.py:47-71 | by that time an always-failing task is dead, after exactly M + 1 claims |
| Progress.AnyInstantIsReached | app/worker/runner.py:35-49 | with a period of at least one unit, from every state on time a paced run reaches any instant: deadlines of executors, polls and locked rows never block time |
| Progress.TasksDoEnd | app/worker/processing.py:47-179 | so there is a run in which the workers alone bring every task to its end |
| Recovery.LostHaveNoExecutor | app/worker/processing.py:74-89 | a row past the reaper's timeout is held by no executor and no queue position |
| Recovery.LostStep | app/worker/processing.py:74-89 | rows lost by a crash stop being so only by a reap, which charges exactly one failure, or a delete; no step adds one |
| Recovery.CrashRecovery | app/worker/processing.py:74-89 | n lost rows are all out of `running` after ceil(n / B) reaper passes if no other rows go stale |
| Conservation.CountersConserved | app/worker/processing.py:57-67 | in every PATCH-free run, failed commits and deletes of running rows included: claims + failures counted in vain = succeeded + retried + dead + rows running or deleted while running; retry counts of all rows ever created + retries counted in vain = retried; reclaimed is at most retried + dead |
| Conservation.MetricsBalanceExactlyWhen | app/worker/processing.py:57-87 | the metrics alone balance if and only if no retry was counted in vain and the dead letters counted in vain equal the rows deleted while running |
| Conservation.CalmRunsBalance | app/worker/processing.py:57-67 | without failed commits and deletes of running rows: claims = succeeded + retried + dead + running rows, and retry counts of all rows ever created add up to the retried outcomes |
| Creates.ReachableCreates | app/service.py:29-60 | in every run: one row per key; a create re-raised its conflict only if the row it conflicted with was deleted, and raised on refresh only if its own was; rows ever inserted = created + calls yet to refresh + calls that found their row deleted |
| Creates.CreatedIsExactWhen | app/service.py:47-60 | created is the number of rows ever inserted if and only if no call has its row still to refresh and none found it deleted |
| Creates.DeletedBeforeRefresh | app/service.py:47-60 | a run of a create and a DELETE between its commit and its refresh: the row was inserted, the create raises and counts nothing |
| Creates.RaisesExactlyWhen | app/service.py:47-60 | a call raises exactly when its second lookup finds no row with the key or its refresh finds its own row deleted; a call that returns, returns a row that is there and carries its key |
| Creates.RepeatReturnsOriginal | app/service.py:30-36 | while a row carries the key, a create with that key that returns, returns that row, and only one that lost its own row before refreshing it raises |
| Creates.SharedKeySameTask | app/service.py:47-57 | without deletes no create raises and all creates with one key return one id |
| Linearise.CreatesLinearise | app/service.py:29-60 | every run is a run of a machine whose only create is an atomic get-or-insert, one for each call that gets a row, in a step of that call; tables, deleted rows and answers agree |
| Linearise.RealTimeOrder | app/service.py:29-60 | a create that was answered before another began takes effect before it |
| Locking.CommitIsAtomic | app/worker/processing.py:74-107 | the commit of a lock-by-lock scan is an enabled atomic claim or reap: no row twice, at most B, all qualifying still, oldest first, full unless every row left out was skipped |
| Locking.InterleavingsAreAtomic | app/worker/processing.py:74-107 | every interleaving of overlapping scans with everything else is a run of atomic steps, so ownership holds in it, and open transactions hold disjoint rows |
| Locking.SkippedRowsAreInOtherHands | app/worker/processing.py:74-107 | a due, or stale, row that the commit of an open claim, or reap, would leave out though its batch is not full is locked by another transaction, was locked by one that has rolled back, or was created after the snapshot |
| Worker.ApplyFailure | app/worker/processing.py:47-71 | the object, edited in place, gets the error up to 1000 characters and, with retries left, one attempt more, pending, base * 2^(retries so far) from now, counting one retried; else dead, count and schedule kept, counting one dead |
| Worker.Database.SelectDue | app/worker/processing.py:94-100 | the oldest `limit` due rows not locked, oldest first |
| Worker.Database.SelectStale | app/worker/processing.py:77-82 | up to `limit` stale rows not locked, fewer only when there are no more |
| Worker.ReclaimStaleRunning | app/worker/processing.py:74-89 | the loop over loaded rows and their commit equal the protocol's reap of the selected rows, counters included; only rows running past the timeout are touched; when the commit fails the counters have moved and the rows have not |
| Worker.ClaimDueTasks | app/worker/processing.py:92-107 | the loop over loaded rows and their commit equal the protocol's claim of the selected rows: the due ones taken, in order of schedule, become running and stamped, and every other column and row stays |
| Worker.Execution.Guard | app/worker/processing.py:118-122 | execution goes on exactly for a running row, with the loaded object kept |
| Worker.Execution.Record | app/worker/processing.py:138-153 | the outcome computed from the loaded object is written over the row as it is then, or the commit raises if it is gone or fails, with the counters as the code bumps them |
| Worker.ProcessClaimedTask | app/worker/processing.py:110-153 | end to end, with other sessions in between: the row at recording time gets the changed columns of the edits to the row at guard time |
| Worker.ReapThenClaim | app/worker/processing.py:156-165 | the two opening transactions of a tick, each with its own clock reading and with other sessions in between, are the protocol's reap of the table the first meets and the protocol's claim of the table the second meets, and the ids returned are the new batch |
| Semaphore.Gather | app/worker/processing.py:167-177 | for any durations up to E, at most max(1, worker_concurrency) tasks run at any instant, none waits while a slot is free, tasks start in FIFO order, task i by (i / C) * E, the gather ends when its last task does, by ceil(n / C) * E |
| Semaphore.AtMostCAtOnce | app/worker/processing.py:170-174 | at most C tasks of a tick run at any instant |
| Runner.RunLoop | app/worker/runner.py:30-51 | tick k + 1 starts at max(start + interval, end) of tick k, failed or not, while stop is not set; the heartbeat comes after every tick; no tick starts once stop is set, and the current one finishes |
| Runner.GapBounds | app/worker/runner.py:35-49 | consecutive starts are at least an interval and at most the longest of interval and tick apart |
| Runner.CadenceBounds | app/worker/runner.py:35-49 | tick k starts between k intervals and k periods after the first |
| Service.CreateCall.Find | app/service.py:33-36 | the first lookup returns the row with the key, if there is one |
| Service.CreateCall.Insert | app/service.py:38-57 | the insert commits one row, pending, untried, without an error, due at the time asked for or else now, created now, with the request's key and payload, or leaves everything alone when the key is taken; it counts nothing yet |
| Service.CreateCall.Refresh | app/service.py:58-60 | the refresh returns and counts the row, or raises uncounted when it has been deleted |
| Service.CreateCall.Refind | app/service.py:52-57 | the second lookup returns the winner's row or re-raises when none has the key |
| Service.CreateTask | app/service.py:29-60 | end to end, with other sessions between its transactions: which of them answers, that at most one row is inserted, only where the key is free and with every column as requested, when it is counted and when the call raises |
| Service.ApplyStatus | app/service.py:103-118 | not found, no-op, rejected or applied; only an applied change writes, only the status and the stamp of that row, and only along an allowed edge |
| Service.UpdateStatus | app/service.py:97-120 | end to end: the same writes, and a change is answered with the row as a later transaction finds it, whatever its status by then, or raises when it has been deleted |
| Service.DeleteTask | app/service.py:91-94 | the row is removed, or not found |
| Listing.ListTasks | app/service.py:70-88 | at every limit and offset: the total is the number of rows with the status asked for, the answer has min(limit, total - offset) rows, or none past the end, and its i-th is the (offset + i)-th of an order of all of them, newest first |
| Listing.PagesExactlyWhen | app/service.py:70-88 | however the database orders ties, the pages at offsets 0, L, 2L, ... joined are the filtered rows newest first, each once, if and only if no two rows created at one instant meet at a page boundary |
| Listing.TieRepeats | app/service.py:83-87 | for any such tie, answers whose joined pages show one row on both sides of the boundary |
| Listing.PagesCoverTheList | app/service.py:70-88 | with distinct creation times the joined pages are the one list there is |

## Left out

- HTTP routing, authentication, error envelopes, middleware, logging, health checks, Prometheus rendering, migrations, the frontend and `task_service_fixed.py`: no state of the table.
- Request validation and payload limits: titles and payloads are taken as valid, and new ids as never used before.
- PostgreSQL and SQLAlchemy themselves: atomic commits, row locks, the unique index on non-null keys, `updated_at` stamped on every real UPDATE, and an UPDATE of a missing row changing nothing are taken as given.
- A claim, a first lookup or an insert whose transaction fails as a whole changes nothing and counts nothing: it is a step not taken; the escape of an exception from a task is the action `Lose`.
- Pacing.ClaimLatency: a row that a poll finds locked is taken to be moved within the overhead by the transaction that holds it; a transaction that rolls back instead leaves it to a later poll.
- Drain.EveryTaskEnds: makes the same assumption about rows found locked, and the polling worker itself must not stop.
- Polling.LoopIsPaced: a reap and a claim of the loop take at most the overhead each, and its wait ends when the interval is over.
- Recovery.CrashRecovery: counts reaper passes that find none of the lost rows locked.
- Runner.RunLoop: runs over a given finite sequence of ticks, since the loop has no end of its own but `stop`.
- Worker.ProcessClaimedTask: the execution between guard and recording is its outcome; its duration and timeout are in `Protocol` and `Semaphore`.
- Service.CreateCall.Insert: reports the conflict as a phase where the code catches the index's IntegrityError and rolls back.
- `get_task` and the worker's entry point: a lookup, and wiring of the loop to signals.
