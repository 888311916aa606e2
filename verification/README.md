# Durable work: a verified model

This project models the parts of the backend that must not lose or duplicate work, and proves
what they guarantee.

**The durable-work engine.** `Dispatch` is the protocol of the job queue and the worker dispatcher
as a state machine: any number of worker processes share the queue and dead-letter tables; a step
is the code between two awaits; a crash takes a worker's tasks with it. `WorkerProcess` holds the
queue adapter and the dispatcher as objects that update their fields, each method proved to be a
step of that machine. Over every schedule, `Conservation` shows that each job is in exactly one
place, `TasksInFlight` how many one worker can hold, `Retries` bounds and accounts for its handler
calls, `Verdicts` says what each way out means, `Waits` puts the back-off on the clock, `Drain`
shows that work runs out and that a system at rest has settled every job, and `Bypass` says how
long a row waits. `TickProtocol` models overlapping scheduler ticks with row locks, commits and
rollbacks; `Lease` the Redis key around a tick; `SchedulerRunner` one worker's ticks and loop.
`Admission` composes the webhook's overlapping deliveries and time-limited marks with the
dispatcher machine, and `WebhookHubla` is the endpoint.

**Sequential algorithms.** The message splitter (`Texts`, `MessageSplitter`, `TextCuts`), the
token chunker (`Chunker`), two data migrations (`StepDelays` with its round trips in `FlowOrders`,
`UpgradeFirst` and `DowngradeFirst`, and `TenantBackfill`), the agent's tool-calling loop and its
stored history (`AgentRunner`, `AgentHistory`), the event names with the migration that renames
them (`Renames`, `EventTypes`), the Hubla event handler with the histories of its jobs
(`HublaPayloads`, `HublaEvents`, `HublaHistory`), and the reprocessing of events of unmapped
products (`UnmappedProducts`).

The remaining modules are shared vocabulary: `Wrappers`, `Folds` (bags and sums over
sequences), `Timing` (real-number arithmetic), `PythonSlices`, `JobTables`, `ScheduledJobs`,
`RedisStore`.

A run is `Exec(c, s, es)` for a list of events `es`, and is `None` when some step is not enabled;
a lemma about `Exec(c, s, es).value` therefore speaks of every reachable state. A history variable
(`Envelope.origin`, `Dispatch.Log`, `TickProtocol.Log`, `Admission.Delivery`) records what happened and
never decides a branch. Clocks, failures, other transactions' locks, completions of the language
model and tool outcomes are parameters, so every claim holds for all of them. Time is a `real`.

## What the code does, where it differs from its comments

- A dequeue deletes the row. The dispatcher's documentation promises a graceful shutdown, but
  `apps/api/src/worker.py:78-90` cancels the dispatcher on a signal, which is the model's crash
  step: jobs in flight are then lost (`CrashLosesJob` is such a run). A run loses nothing if and
  only if each crash meets a worker with nothing in flight (`LossIffBusyCrash`).
- The semaphore bounds running handlers, not tasks in flight: the loop keeps dequeuing. A worker's
  tasks stay within the permits in all runs exactly when `iterations` is set to no more than those
  (`NeverMoreIff`); without it, as the worker program runs, one crash can lose any number of jobs
  (`OneCrashLosesMany`).
- The webhook marks a sale before it stores the event and enqueues the job. If either fails, every
  redelivery within 24 hours is answered as a duplicate although nothing is enqueued, contrary to
  the comment that double processing is better than a lost sale (`FailedDeliverySilencesSale`). A
  delivery that is still storing has the same effect on a retry (`SlowStoreLosesSale`): a duplicate
  answer is backed by a job exactly when the delivery that marked the key has finished with its
  enqueue (`DuplicatesAreBacked`), and `UnbackedIff` says exactly which steps change that.
  Two different sales share a key exactly when a colon in an event type makes one nested in the
  other (`SharedKeyIff`).
- Due jobs whose handler raises keep a tick from committing anything, whatever it picks, exactly
  when fewer than `limit` other free due jobs are as old as all of them (`BlockedIff`; `StuckIff`
  for whole runs). Rows without a handler are never marked, and `StarvedIff` says exactly when
  they starve all others. Effects of handlers outside the transaction survive a rollback
  (`CallsLaw`).
- With `memory_limit` 0 the slice `[-0:]` is the whole history, not the last 0 messages
  (`WindowIsLastMessages`); nothing is lost in the stored history for any limit (`SlicesRejoin`).
  A limit can cut between a tool reply and the assistant message that made the call, exactly when
  the window begins with a tool reply (`WindowAtRoundBoundary`).
- An assistant message can be stored with calls that nobody answers, when the model ends for another
  reason or makes calls of another kind (`EveryCallAnswered` says exactly when none is).
- When no completion of a turn says anything, an assistant message of an earlier turn inside the
  window is sent again (`ReplyOrigin`).
- `split_message` drops short paragraphs too, not only short sentence groups
  (`SplitContent` says exactly when something is dropped).
- The renaming migration's header says 13 names; the map has 14.
- The Hubla job runs in one transaction, so an event that raises leaves no event row and no lead,
  although the handler writes them first and marks them processed in a `finally`.
- Upgrade and downgrade of the step delays undo each other only under conditions. Nothing makes
  the positions of a flow distinct, so the SELECTs of the two migrations may list tied steps in
  different orders, and the downgrade itself merges positions 0 and 1 (`TieLosesDelays`,
  `TieLosesRelatives`, `MergeLosesRelatives`). `UpThenDown` and `DownThenUp` state exactly which
  flows come back whatever the SELECTs return, `NeverLoweredIff` when no delay can be lowered, and
  `PositionsUpThenDown` and `PositionsDownThenUp` when a position comes back.

## Model

| member | source | states |
|---|---|---|
| `Conservation.RunConserves` | apps/api/src/interface/worker/dispatcher.py:43-107 | in every interleaving of any number of workers, the jobs enqueued are exactly those queued, in flight, handled, discarded without handler, dead-lettered, dropped without dead-letter table, or lost in a crash; every worker runs at most `max_concurrency` handlers |
| `Conservation.OnePlace` | apps/api/src/shared/adapters/db/queue.py:17-114 | from empty tables, each single enqueue is in exactly one of these places exactly once, and nothing is lost if and only if every crash met an idle worker |
| `Conservation.LossIffBusyCrash` | apps/api/src/interface/worker/dispatcher.py:89-107 | a run loses nothing if and only if every crash step of it meets a worker with no task, where a row is with its worker from the commit of its DELETE on |
| `Conservation.NoCrashNoLoss` | apps/api/src/interface/worker/dispatcher.py:89-107 | in particular schedules without a crash step lose nothing |
| `TasksInFlight.NeverMoreIff` | apps/api/src/interface/worker/dispatcher.py:43-105 | all runs keep every worker's tasks within n exactly when `iterations` is set, to at most n, and n is not 0; so within the semaphore's permits only then |
| `TasksInFlight.TasksAllowed` | apps/api/src/interface/worker/dispatcher.py:102-105 | in every run a worker holds at most max(1, `iterations`) tasks if `iterations` is set, and its crash loses exactly those it holds |
| `TasksInFlight.OneCrashLosesMany` | apps/api/src/interface/worker/dispatcher.py:89-107 | for any number n of jobs, up to max(1, `iterations`) if that is set, some run enqueues n jobs and loses all of them in its only crash |
| `TasksInFlight.StepCounted` | apps/api/src/interface/worker/dispatcher.py:89-105 | every step keeps the tasks within the dequeues, and the loop polling only while another one is allowed |
| `Conservation.CrashLosesJob` | apps/api/src/worker.py:78-90 | a concrete run from empty tables in which a cancelled worker loses the job it had dequeued |
| `Conservation.ExitLeavesNothing` | apps/api/src/interface/worker/dispatcher.py:40-41 | a worker that has left its task group has no job in flight |
| `Conservation.StepConserves` | apps/api/src/interface/worker/dispatcher.py:46-107 | every step keeps the equality of enqueued jobs and places |
| `Conservation.StepDisciplined` | apps/api/src/interface/worker/dispatcher.py:58-62 | every step keeps the permit bound: only a task that takes a free permit runs a handler |
| `Retries.RetryBound` | apps/api/src/interface/worker/dispatcher.py:70-87 | in every run a job's handler is called at most max(1, `max_retries`) times; a dead letter is the job as enqueued, after exactly that many calls and failures and a total pause of base * (2 ** (m - 1) - 1) |
| `Retries.RunAccounts` | apps/api/src/interface/worker/dispatcher.py:48-87 | at every moment of every run each queued row, task and dead letter agrees with the number of calls, failures and pauses its job has had |
| `Retries.ConservedAlone` | apps/api/src/shared/adapters/db/queue.py:17-26 | a job in flight has no other row, task or dead letter: a retry never duplicates it |
| `Retries.BackoffStep` | apps/api/src/interface/worker/dispatcher.py:71-72 | the pauses add up: the closed form grows by base * 2 ** (attempt - 1) |
| `Verdicts.DeadLetterOrDrop` | apps/api/src/interface/worker/dispatcher.py:82-87 | in every run, with a dead-letter table no job is ever dropped; without one none is ever dead-lettered or about to be |
| `Verdicts.Verdict` | apps/api/src/interface/worker/dispatcher.py:53-87 | in every run: a handled job has a handler and its last call succeeded; a discarded one has none and was never called; a dead-lettered or dropped one has failed all its attempts; and a job that has, unless a crash lost it, is dead-lettered or about to be with a dead-letter table, and dropped without one |
| `Verdicts.FailuresAreTold` | apps/api/src/interface/worker/dispatcher.py:65-87 | in every run a queued row carries the error of its job's last failure, or none; so does a dead letter; a task waiting to retry wakes exactly base * 2 ** (attempt - 1) after that failure |
| `Verdicts.StepExit` | apps/api/src/interface/worker/dispatcher.py:82-87 | every step keeps jobs on the right way out |
| `Waits.BackoffOnTheClock` | apps/api/src/interface/worker/dispatcher.py:71-81 | in every run a dead letter appears at least base * (2 ** (m - 1) - 1) after its job's enqueue, and attempt a runs no earlier than base * (2 ** (a - 1) - 1) after it |
| `Waits.StepWaited` | apps/api/src/interface/worker/dispatcher.py:46-87 | every step keeps rows, tasks and dead letters behind the back-off due for their attempt |
| `Drain.StepWorks` | apps/api/src/interface/worker/dispatcher.py:46-107 | without enqueues no step increases the remaining work, and each dequeue, start, finish, re-insert and dead-letter step decreases it |
| `Drain.DrainBound` | apps/api/src/interface/worker/dispatcher.py:46-107 | every schedule without enqueues takes at most Work(s) steps of work, crashes included |
| `Drain.CallBudget` | apps/api/src/interface/worker/dispatcher.py:60-72 | N enqueued jobs cause at most N * max(1, `max_retries`) handler calls in every run |
| `Drain.QuiescentIsDrained` | apps/api/src/interface/worker/dispatcher.py:89-105 | while one worker polls and the semaphore has a permit, a system that can take no step, now or after any wait, has an empty queue and nothing in flight |
| `Drain.DrainSettlesAll` | apps/api/src/interface/worker/dispatcher.py:40-107 | a crash-free system at rest has handled, discarded, dropped or dead-lettered every job ever enqueued |
| `Drain.NoPermitsNoProgress` | apps/api/src/interface/worker/dispatcher.py:43-61 | with `max_concurrency` 0, in every run no handler is called, nothing is handled, dropped or dead-lettered, and each job that has a handler is queued, in a task, or lost in a crash |
| `Bypass.WaitingLaw` | apps/api/src/shared/adapters/db/queue.py:17-26 | while a row waits, the rows ahead of it are those at the start plus better-priority arrivals minus dequeues |
| `Bypass.BoundedBypass` | apps/api/src/shared/adapters/db/queue.py:17-26 | a row with k rows ahead is returned within k + 1 dequeues plus one per better-priority arrival |
| `Bypass.NoOvertaking` | apps/api/src/shared/adapters/db/queue.py:17-26 | of two queued rows the later one is not returned before the earlier one |
| `Bypass.RetryGoesBehind` | apps/api/src/shared/adapters/db/queue.py:80-96 | a retried job joins behind every row of NORMAL or better priority |
| `WorkerProcess.PostgresJobQueue.Enqueue` | apps/api/src/shared/adapters/db/queue.py:40-59 | appends one row with attempt 1, no error, the given priority and the clock; the rest is unchanged |
| `WorkerProcess.PostgresJobQueue.DequeueOnce` | apps/api/src/shared/adapters/db/queue.py:17-26 | removes and returns a best (priority, created_at) row no other transaction holds, or nothing exactly when all are held |
| `WorkerProcess.PostgresJobQueue.Dequeue` | apps/api/src/shared/adapters/db/queue.py:61-78 | whatever other transactions hold or change between polls: every poll but the last finds nothing, the last takes a best obtainable row of the table it meets, None is returned exactly at the deadline, and no pause is longer than the poll interval or goes past the deadline |
| `WorkerProcess.PostgresJobQueue.Nack` | apps/api/src/shared/adapters/db/queue.py:80-97 | re-inserts kind and payload with attempt + 1, the error, NORMAL priority and a fresh timestamp |
| `WorkerProcess.PostgresJobQueue.ToDlq` | apps/api/src/shared/adapters/db/queue.py:99-114 | appends the job with its attempt number and error to the dead-letter table |
| `WorkerProcess.WorkerDispatcher.Poll` | apps/api/src/interface/worker/dispatcher.py:89-105 | one loop round is a Stop step, a Dequeue step, or no step when nothing can be taken; the dispatched counter and `iterations` end the loop |
| `WorkerProcess.WorkerDispatcher.Start` | apps/api/src/interface/worker/dispatcher.py:46-61 | a new task is discarded without a handler, takes a permit, or waits exactly while all permits are taken |
| `WorkerProcess.WorkerDispatcher.Finish` | apps/api/src/interface/worker/dispatcher.py:61-87 | success and failure are the machine's steps; the permit is free again, and a failure backs off, goes to the dead letters, or is dropped |
| `WorkerProcess.WorkerDispatcher.WakeUp` | apps/api/src/interface/worker/dispatcher.py:80-81 | after its pause the task's re-insert is the machine's Nack step |
| `WorkerProcess.WorkerDispatcher.GiveUp` | apps/api/src/interface/worker/dispatcher.py:86-87 | the dead-letter insert is the machine's ToDlq step |
| `WorkerProcess.WorkerDispatcher.Leave` | apps/api/src/interface/worker/dispatcher.py:106-107 | the task group is left exactly when no task remains |
| `TickProtocol.OverlappingTicksAreSafe` | apps/api/src/shared/application/scheduler/runner.py:32-61 | without any lease, for any number of overlapping, crashing and rolled-back ticks, and whatever rows other transactions hold: open ticks hold disjoint rows, and each job gets at most one committed mark, from a tick whose clock reading was at or after its `run_at` |
| `TickProtocol.CallsLaw` | apps/api/src/shared/application/scheduler/runner.py:54-61 | a job's handler calls are its committed mark, its calls in rolled-back ticks and at most one in an open tick; so it runs at most once unless a tick was rolled back after it |
| `TickProtocol.CallsAreSteps` | apps/api/src/shared/application/scheduler/runner.py:54-58 | the handler calls of that law are those of the run: one for each step that handles or raises |
| `TickProtocol.CommitIsExact` | apps/api/src/shared/application/scheduler/runner.py:54-61 | after any run a commit executes exactly the picked rows whose type has a handler, at the tick's clock reading, and changes nothing else in the table |
| `TickProtocol.StepInv` | apps/api/src/shared/adapters/db/repositories/scheduled_job.py:61-118 | begin, handle, skip, raise, abort, commit, schedule and cancel all keep locks disjoint and marks single |
| `TickProtocol.LeasedTicksAlone` | apps/api/src/interface/worker/scheduler.py:18-37 | with the lease, two ticks are open together only if one of the workers has outstayed its lease, or has died and its transaction is not rolled back yet |
| `SchedulerRunner.Runner.PickDueJobs` | apps/api/src/shared/adapters/db/repositories/scheduled_job.py:61-73 | pending due unlocked rows, oldest first, at most `limit`, leaving none out that is older than a picked one unless locked |
| `SchedulerRunner.Runner.Tick` | apps/api/src/shared/application/scheduler/runner.py:49-61 | any raise of a picked handled job commits no mark at all; otherwise exactly the picked jobs with a handler are executed, at the tick's clock reading, and every other row stays as it is |
| `SchedulerRunner.Runner.RunForever` | apps/api/src/interface/worker/scheduler.py:18-37 | errors are swallowed and counted; the loop makes exactly `iterations` ticks, each an outcome of the table as the earlier ticks and others have left it |
| `SchedulerRunner.CalmRun` | apps/api/src/shared/application/scheduler/runner.py:49-61 | in every run where all types are handled, nothing raises, at most m rows are held at a time and others leave the jobs due by the horizon alone: no tick fails, and those jobs shrink by `limit` a tick down to m at worst, exactly so for m = 0 |
| `SchedulerRunner.StuckIff` | apps/api/src/shared/application/scheduler/runner.py:49-61 | all ticks of every run fail if and only if at each tick the raising jobs block it: there are some, and fewer than `limit` other free due jobs are as old as all of them |
| `SchedulerRunner.TickProgress` | apps/api/src/shared/adapters/db/repositories/scheduled_job.py:61-73 | a fully marked tick takes exactly min(`limit`, free jobs) of the jobs due by any earlier horizon, whatever other transactions hold: younger jobs never get in front |
| `SchedulerRunner.TicksNeeded` | apps/api/src/shared/application/scheduler/runner.py:49-60 | in such a run with nothing held, n due jobs are all executed after k ticks if and only if k >= ceil(n / limit) |
| `SchedulerRunner.QuietTick` | apps/api/src/shared/application/scheduler/runner.py:54-59 | when every type has a handler, a clean tick marks all it picked, takes min(`limit`, free jobs) of the due ones, and keeps that condition |
| `SchedulerRunner.PickedIff` | apps/api/src/shared/adapters/db/repositories/scheduled_job.py:61-73 | a due free job is in every pick if and only if fewer than `limit` other free due jobs are not younger |
| `SchedulerRunner.HitIff` | apps/api/src/shared/adapters/db/repositories/scheduled_job.py:61-73 | the same for a set: every pick has one of its jobs if and only if it is not empty and fewer than `limit` free due jobs outside it are as old as all of it |
| `SchedulerRunner.BlockedIff` | apps/api/src/shared/application/scheduler/runner.py:53-61 | a tick fails whatever it picks if and only if the jobs whose handler raises block it |
| `SchedulerRunner.StarvedIff` | apps/api/src/shared/application/scheduler/runner.py:53-57 | no pick of a tick contains a row with a handler, however ties are broken, if and only if every free due row with a handler has at least `limit` strictly older free due rows |
| `SchedulerRunner.HandlerlessStarve` | apps/api/src/shared/application/scheduler/runner.py:55-57 | `limit` free due rows without a handler, older than all pending rows with one, make that so at every later time |
| `RedisStore.Redis.SetNxEx` | apps/api/src/shared/adapters/redis/mutex.py:37 | succeeds exactly when the key is absent or expired, and only then writes it |
| `RedisStore.Redis.EvalRelease` | apps/api/src/shared/adapters/redis/mutex.py:15-21 | deletes the key exactly when it holds the caller's token unexpired |
| `RedisStore.RedisMutex.Acquire` | apps/api/src/shared/adapters/redis/mutex.py:28-42 | whatever other clients do between tries: every try but the last finds the key held, the last takes a free key and writes only that entry, or fails at or after the deadline with the store unchanged |
| `RedisStore.RedisMutex.Release` | apps/api/src/shared/adapters/redis/mutex.py:43-46 | gives back only the holder's own entry |
| `RedisStore.RedisDedup.TryMark` | apps/api/src/shared/adapters/redis/dedup.py:12-16 | true exactly for the first sighting within the time to live, and only then sets the mark |
| `Lease.OneUnexpiredHolder` | apps/api/src/shared/adapters/redis/mutex.py:28-46 | in every run at most one worker inside its section holds an unexpired lease |
| `Lease.PunctualExclusion` | apps/api/src/shared/adapters/redis/mutex.py:28-46 | while no section outstays its time to live, at most one worker is inside |
| `Lease.LeaveSparesOthers` | apps/api/src/shared/adapters/redis/mutex.py:15-21 | a release never removes the key of another unexpired holder |
| `Lease.LeaveFrees` | apps/api/src/shared/adapters/redis/mutex.py:43-46 | a release by an unexpired holder frees the key; one by an expired holder changes nothing |
| `Lease.LateHolderOverlaps` | apps/api/src/shared/adapters/redis/mutex.py:36-39 | a concrete run in which a late worker and its successor are inside together: punctuality is needed |
| `Admission.MarksSpaced` | apps/api/src/interface/http/routers/webhook_hubla.py:74-80 | in every run, however deliveries overlap, marks of one key are at least 24 hours apart, a delivery makes at most one enqueue, of its own body, and no two share one |
| `Admission.WindowEndToEnd` | apps/api/src/interface/http/routers/webhook_hubla.py:70-93 | the deliveries for one key that mark it within any 24 hours cause at most max(1, `max_retries`) handler calls between them, through the queue and all retries |
| `Admission.DuplicateIff` | apps/api/src/interface/http/routers/webhook_hubla.py:74-84 | a delivery is answered as a duplicate if and only if it has a subscription or transaction id and its key was marked within the last 24 hours; without an id never |
| `Admission.DuplicatesAreBacked` | apps/api/src/interface/http/routers/webhook_hubla.py:74-93 | in every run exactly one recent delivery has marked the key of a duplicate, and there is a job for the key if and only if that delivery has finished with its enqueue; there is none if it failed or is still between mark, store and enqueue |
| `Admission.UnbackedIff` | apps/api/src/interface/http/routers/webhook_hubla.py:74-93 | exactly which steps leave a key without a job: one that marks it, and afterwards all but that delivery's own enqueue; and exactly which silence it: that delivery's failure to store or enqueue |
| `Admission.FailedDeliverySilencesSale` | apps/api/src/interface/http/routers/webhook_hubla.py:76-93 | after a failure between mark and enqueue, whatever happens until the window ends, every delivery of the key is a duplicate, there is no job for the key, and its deliveries cause no handler call |
| `Admission.SlowStoreLosesSale` | apps/api/src/interface/http/routers/webhook_hubla.py:76-93 | a concrete run: the retry that arrives while the first delivery is still storing is a duplicate with nothing enqueued and nothing failed, and then the store fails and the sale is lost |
| `Admission.SharedKeyIff` | apps/api/src/interface/http/routers/webhook_hubla.py:70-76 | two requests share a key exactly when event type and sale agree or one is nested in the other across a colon |
| `Admission.SubscriptionFirst` | apps/api/src/interface/http/routers/webhook_hubla.py:70-76 | deliveries of one event type with subscription ids share a key exactly when those agree, whatever their transaction ids; without, exactly when the transaction ids agree; with neither there is no key |
| `Admission.UntypedIsUnknown` | apps/api/src/interface/http/routers/webhook_hubla.py:63 | a delivery without an event type is keyed as one of type "unknown" |
| `Admission.KeyInjective` | apps/api/src/interface/http/routers/webhook_hubla.py:75-76 | for event types without a colon a key determines event type and sale |
| `Admission.ColonCollides` | apps/api/src/interface/http/routers/webhook_hubla.py:75-76 | a concrete pair of different sales with the same key |
| `Admission.StepInv` | apps/api/src/interface/http/routers/webhook_hubla.py:59-101 | every arrival, store, enqueue, clock and dispatcher step keeps marks spaced, keys backed by marks, each enqueue with its delivery, and the engine's own invariants |
| `WebhookHubla.Router.Mark` | apps/api/src/interface/http/routers/webhook_hubla.py:63-84 | up to the mark a delivery is exactly the machine's Arrive step, answered as a duplicate exactly when the machine says so; the row id is the marked key without its prefix, or the event type without a sale id |
| `WebhookHubla.Router.Store` | apps/api/src/interface/http/routers/webhook_hubla.py:86-91 | the event insert is exactly the Store step; the row is keyed by sale, or by event type without one, and added only if nothing raises |
| `WebhookHubla.Router.Finish` | apps/api/src/interface/http/routers/webhook_hubla.py:93-101 | the enqueue is exactly the Finish step: one NORMAL row with the delivery's body, whose number is the answer, or none if it raises |
| `MessageSplitter.SplitBySentence` | apps/api/src/shared/adapters/chatnexo/message_splitter.py:53-73 | the packing loop computes the packing of the sentence list |
| `MessageSplitter.PackIsOptimal` | apps/api/src/shared/adapters/chatnexo/message_splitter.py:53-73 | the groups cut the sentences into consecutive runs, each one sentence or within `max_chars` when joined, none could have taken the next sentence, and no such packing has fewer groups |
| `MessageSplitter.GreedyIsShortest` | apps/api/src/shared/adapters/chatnexo/message_splitter.py:61-71 | a greedy packing of a suffix never needs more groups than any packing of the longer list |
| `MessageSplitter.SplitMessage` | apps/api/src/shared/adapters/chatnexo/message_splitter.py:6-50 | the paragraph loop with its two filters and two fallbacks computes the specified parts |
| `TextCuts.BlankLineSplitIff` | apps/api/src/shared/adapters/chatnexo/message_splitter.py:25 | the pieces are exactly the leftmost cut at blank lines: joined by blank lines they are the text, none has one inside, and none begins in a piece and ends in the separator after it |
| `TextCuts.NoPartHasBlankLine` | apps/api/src/shared/adapters/chatnexo/message_splitter.py:20-50 | a text without a blank line comes out in one part; otherwise no part has a blank line unless the whole text is the only part |
| `TextCuts.SentencesAreCut` | apps/api/src/shared/adapters/chatnexo/message_splitter.py:55-56 | the sentences are the stretches between the maximal runs of white space that follow ".", "?" or "!", and none has such a run inside |
| `TextCuts.JoinedBySpaces` | apps/api/src/shared/adapters/chatnexo/message_splitter.py:62 | a group's sentences are joined by single spaces |
| `TextCuts.StripSlice` | apps/api/src/shared/adapters/chatnexo/message_splitter.py:16 | stripping leaves a stretch of the text, and takes off only white space at either end |
| `MessageSplitter.FiltersCompose` | apps/api/src/shared/adapters/chatnexo/message_splitter.py:36-45 | the inner filter with its fallback and the outer filter together keep exactly the long enough candidates |
| `MessageSplitter.SplitShape` | apps/api/src/shared/adapters/chatnexo/message_splitter.py:16-50 | empty exactly for blank text; all parts stripped and non-empty; all at least `min_chars`, or the result is just the stripped text |
| `MessageSplitter.SplitContent` | apps/api/src/shared/adapters/chatnexo/message_splitter.py:24-50 | the non-white characters come out in order as a subsequence, and all of them exactly when no candidate is dropped beside a surviving one |
| `MessageSplitter.SoftLimit` | apps/api/src/shared/adapters/chatnexo/message_splitter.py:30-50 | a part over `max_chars` is the whole text, a single sentence of a long paragraph, or a long paragraph all of whose groups are below `min_chars` |
| `MessageSplitter.FittingParagraphSurvives` | apps/api/src/shared/adapters/chatnexo/message_splitter.py:20-47 | a paragraph within both limits, both included, comes out unchanged |
| `MessageSplitter.KeepInk` | apps/api/src/shared/adapters/chatnexo/message_splitter.py:45-47 | a length filter keeps all non-white characters exactly when it drops no part |
| `MessageSplitter.SentencesFacts` | apps/api/src/shared/adapters/chatnexo/message_splitter.py:55-56 | the sentences of a stripped text are stripped, non-empty and carry all of its non-white characters in order |
| `Chunker.Chunk` | apps/api/src/shared/adapters/kb/chunker.py:14-27 | the window loop ends and computes the overlapping chunks |
| `Chunker.Reconstruction` | apps/api/src/shared/adapters/kb/chunker.py:17-27 | the first chunk and the later chunks without their first `overlap` tokens are the token list |
| `Chunker.SharedOverlap` | apps/api/src/shared/adapters/kb/chunker.py:21-26 | a chunk that has a successor is full, and its last `overlap` tokens are the successor's first, which has at least one more |
| `Chunker.ChunkSizes` | apps/api/src/shared/adapters/kb/chunker.py:20-23 | chunks have between 1 and `chunk_size` tokens, later ones more than `overlap` |
| `Chunker.ChunkCount` | apps/api/src/shared/adapters/kb/chunker.py:20-26 | the exact number of chunks: 0, 1, or 1 + ceil((n - size) / (size - overlap)) |
| `Chunker.LoopEndsIff` | apps/api/src/shared/adapters/kb/chunker.py:18-27 | some number of iterations ends the loop if and only if overlap < size or the tokens fit one window; with overlap < size it ends with the chunks above |
| `StepDelays.UpgradeDelays` | apps/api/migrations/versions/9f07c98d5b22_step_delay_relative_and_position_one_.py:46-67 | the single pass with a dictionary per parent, over the rows in any order the SELECT may return, sets every relative delay to the clamped difference to the parent's previous row |
| `StepDelays.DowngradeDelays` | apps/api/migrations/versions/9f07c98d5b22_step_delay_relative_and_position_one_.py:119-140 | the single pass, in any order the SELECT may return, sets every absolute delay to the parent's running sum |
| `FlowOrders.UpgradePerFlow` | apps/api/migrations/versions/9f07c98d5b22_step_delay_relative_and_position_one_.py:56-67 | however parents interleave, each parent's relative delays are the clamped differences along its own listing |
| `FlowOrders.DowngradePerFlow` | apps/api/migrations/versions/9f07c98d5b22_step_delay_relative_and_position_one_.py:130-140 | however parents interleave, each parent's absolute delays add up along its own listing |
| `FlowOrders.Realize` | apps/api/migrations/versions/9f07c98d5b22_step_delay_relative_and_position_one_.py:50-55 | every listing of a parent by position, ties in any order, is one that some result of the SELECT has |
| `FlowOrders.OneListing` | apps/api/migrations/versions/9f07c98d5b22_step_delay_relative_and_position_one_.py:50-55 | with distinct positions a parent has only one listing |
| `DowngradeFirst.DownThenUp` | apps/api/migrations/versions/9f07c98d5b22_step_delay_relative_and_position_one_.py:46-146 | downgrade then upgrade, position shifts included, restores a parent's relative delays for all orders of both SELECTs if and only if none is negative, tied steps have none, and where positions 0 and 1 are both in use those at 0 have none, nor those at 1 if later positions exist |
| `DowngradeFirst.DownThenUpDistinct` | apps/api/migrations/versions/9f07c98d5b22_step_delay_relative_and_position_one_.py:46-146 | with distinct positions, not both 0 and 1, for each pair of orders: restored if and only if none is negative |
| `DowngradeFirst.TieLosesRelatives` | apps/api/migrations/versions/9f07c98d5b22_step_delay_relative_and_position_one_.py:119-140 | two tied steps with delays 5 and 3 come back as 0 and 8 |
| `DowngradeFirst.MergeLosesRelatives` | apps/api/migrations/versions/9f07c98d5b22_step_delay_relative_and_position_one_.py:142-146 | the same for distinct positions 0 and 1, which the downgrade merges |
| `UpgradeFirst.UpThenDown` | apps/api/migrations/versions/9f07c98d5b22_step_delay_relative_and_position_one_.py:46-146 | upgrade then downgrade, position shifts included, restores a parent's absolute delays for all orders of both SELECTs if and only if they are non-negative, never decrease with the position, and tied steps repeat the delay before them |
| `UpgradeFirst.UpThenDownDistinct` | apps/api/migrations/versions/9f07c98d5b22_step_delay_relative_and_position_one_.py:46-146 | with distinct positions, for each pair of orders: no absolute delay is lowered, and all are restored if and only if they are non-negative and never decrease |
| `UpgradeFirst.NeverLoweredIff` | apps/api/migrations/versions/9f07c98d5b22_step_delay_relative_and_position_one_.py:46-146 | upgrade then downgrade can lower no delay of a parent, whatever its delays and the orders, if and only if its positions are distinct |
| `UpgradeFirst.TieLosesDelays` | apps/api/migrations/versions/9f07c98d5b22_step_delay_relative_and_position_one_.py:46-140 | two tied steps with delays 1 and 5, which never decrease, come back as 5 and 4 |
| `StepDelays.ShiftUp` | apps/api/migrations/versions/9f07c98d5b22_step_delay_relative_and_position_one_.py:69-89 | every row of a parent that had a position 0 before the statement moves up by one, no other row changes |
| `StepDelays.ShiftDown` | apps/api/migrations/versions/9f07c98d5b22_step_delay_relative_and_position_one_.py:142-146 | every row with a positive position moves down by one |
| `StepDelays.PositionsUpThenDown` | apps/api/migrations/versions/9f07c98d5b22_step_delay_relative_and_position_one_.py:69-146 | exactly when upgrade then downgrade restores a row's position |
| `StepDelays.PositionsDownThenUp` | apps/api/migrations/versions/9f07c98d5b22_step_delay_relative_and_position_one_.py:69-146 | exactly when downgrade then upgrade restores a row's position |
| `TenantBackfill.Migration.Upgrade` | apps/api/migrations/versions/aa01_multitenant_identities_memberships.py:95-176 | fails exactly on a duplicate e-mail, touching nothing, or on an empty password; the count, orphan and owner checks never fire; otherwise one identity per user and one membership with the user's own account, role and creation time, but that each account's earliest admin, or else its earliest user, owns it alone and is admin |
| `TenantBackfill.Migration.RunMigration` | apps/api/migrations/env.py:27-30 | all or nothing: it succeeds exactly without duplicate e-mails and empty passwords, and then the memberships are as said for every user; otherwise the tables are as before |
| `TenantBackfill.Migration.InsertIdentities` | apps/api/migrations/versions/aa01_multitenant_identities_memberships.py:101-109 | without duplicates one identity per user, in order, with the user's id, address and password |
| `TenantBackfill.Migration.InsertMemberships` | apps/api/migrations/versions/aa01_multitenant_identities_memberships.py:110-118 | without duplicates the join yields one membership per user, with the user's account, role and creation time, none an owner |
| `TenantBackfill.Migration.ElectOwners` | apps/api/migrations/versions/aa01_multitenant_identities_memberships.py:119-138 | the two updates leave each account one owner, now admin: its earliest user with the admin role, or else its earliest user; every other row keeps its user's role |
| `TenantBackfill.Migration.PostChecks` | apps/api/migrations/versions/aa01_multitenant_identities_memberships.py:141-176 | on settled tables only the password check can fire, exactly on an empty password |
| `TenantBackfill.DistinctOnAccount` | apps/api/migrations/versions/aa01_multitenant_identities_memberships.py:123-134 | picks for each account with an eligible row exactly one of its earliest eligible rows |
| `TenantBackfill.OwnerElection` | apps/api/migrations/versions/aa01_multitenant_identities_memberships.py:119-138 | for every way of breaking ties: each account has exactly one owner, its earliest admin or else its earliest member promoted, and no other row changes at all |
| `AgentRunner.RunAgent` | apps/api/src/agent/runner.py:87-171 | for every memory limit the thread holds what it held, the user message and the turn's segment; a completion that raises saves nothing; other threads are untouched |
| `AgentRunner.Converse` | apps/api/src/agent/runner.py:113-162 | the bounded loop appends exactly the turn's segment to what it was given |
| `AgentRunner.DispatchAll` | apps/api/src/agent/runner.py:174-193 | one reply per function call, in order, also for unknown and raising tools |
| `AgentRunner.LastReply` | apps/api/src/agent/runner.py:168-171 | the search from the end finds the specified reply |
| `AgentRunner.LastContentIs` | apps/api/src/agent/runner.py:168-170 | the reply is found exactly when some assistant message has content, and is the content of one after which no assistant message has any |
| `AgentRunner.TurnGrammar` | apps/api/src/agent/runner.py:113-162 | a segment is, for each completion that stopped for tools, an assistant message with its content and calls and, in order, the outcome of each function call; then the last completion's content and calls, or the fallback exactly when 10 rounds did not suffice |
| `AgentRunner.TurnFailsIff` | apps/api/src/agent/runner.py:113-131 | a turn fails exactly when the model stops for tools until a completion raises |
| `AgentRunner.FunctionCallsExact` | apps/api/src/agent/runner.py:134-138 | the calls dispatched are the function calls, each as often as it was made |
| `AgentRunner.FunctionCallsConcat` | apps/api/src/agent/runner.py:134-138 | and in the order they were made |
| `AgentRunner.SlicesRejoin` | apps/api/src/agent/runner.py:92-97 | prefix and window are the whole history for every limit, zero and negative ones included |
| `AgentRunner.WindowIsLastMessages` | apps/api/src/agent/runner.py:88-97 | the model sees the last `limit` messages exactly when the limit is positive or the history empty |
| `AgentRunner.NegativeLimit` | apps/api/src/agent/runner.py:92-97 | a limit below zero leaves out the first messages instead |
| `AgentRunner.ReplyOrigin` | apps/api/src/agent/runner.py:168-171 | the reply is this turn's last content if it has any, otherwise that of an earlier turn in the window |
| `AgentRunner.LastWordIsReply` | apps/api/src/agent/runner.py:130-170 | a turn whose last completion says something answers with that |
| `AgentRunner.ExhaustedReply` | apps/api/src/agent/runner.py:159-171 | a turn that runs out of iterations answers with the fallback |
| `AgentRunner.HistoryGrows` | apps/api/src/agent/runner.py:164-166 | over sequential turns each stored history is a prefix of every later one |
| `AgentHistory.WindowAtRoundBoundary` | apps/api/src/agent/runner.py:92-97 | in every history that turns produce, each tool reply comes with the assistant message that made its call; for every limit the window keeps that if and only if it does not begin with a tool reply |
| `AgentHistory.EveryCallAnswered` | apps/api/src/agent/runner.py:130-162 | in a stored history every tool call is replied to, right after it and in order, if and only if each completion of each saved turn makes no call or stopped for its calls and makes function calls only |
| `AgentRunner.ConversationHistory.Load` | apps/api/src/agent/history.py:26-42 | the stored list of the thread, empty if there is none, cut by the optional limit as the window is |
| `AgentRunner.ConversationHistory.Save` | apps/api/src/agent/history.py:44-54 | replaces the thread's list and no other |
| `Renames.RenameAll` | apps/api/migrations/versions/f2e1d3c4b5a6_normalize_hubla_event_type_names.py:68-76 | one table-wide update after another sends each row through all renames in order |
| `Renames.SequentialIsLookup` | apps/api/migrations/versions/f2e1d3c4b5a6_normalize_hubla_event_type_names.py:68-76 | with distinct old and new names that never meet, sequential updates equal one dictionary lookup and are idempotent |
| `Renames.OrderIrrelevant` | apps/api/migrations/versions/f2e1d3c4b5a6_normalize_hubla_event_type_names.py:69 | any order of the same updates has the same effect |
| `Renames.UpThenDown` | apps/api/migrations/versions/f2e1d3c4b5a6_normalize_hubla_event_type_names.py:68-87 | downgrade undoes upgrade exactly on rows that held no new name |
| `Renames.DownThenUp` | apps/api/migrations/versions/f2e1d3c4b5a6_normalize_hubla_event_type_names.py:68-87 | upgrade undoes downgrade exactly on rows that held no old name |
| `EventTypes.Upgrade` | apps/api/migrations/versions/f2e1d3c4b5a6_normalize_hubla_event_type_names.py:68-76 | the migration rewrites every text of the column in place with the 14 renames |
| `EventTypes.Downgrade` | apps/api/migrations/versions/f2e1d3c4b5a6_normalize_hubla_event_type_names.py:79-87 | the migration rewrites every text of the column in place with the renames swapped |
| `EventTypes.LegacyClean` | apps/api/migrations/versions/f2e1d3c4b5a6_normalize_hubla_event_type_names.py:50-65 | of the dictionary's texts the 14 old names are distinct, the 14 new names are distinct, and none is both |
| `EventTypes.CatalogueIsDistinct` | apps/api/src/shared/domain/value_objects/hubla_event_type.py:16-48 | the catalogue has 25 names, no two alike |
| `EventTypes.MigrationIsNormalize` | apps/api/src/shared/domain/value_objects/hubla_event_type.py:83-113 | for every text: the migration applies the runtime map, which is idempotent, changes exactly the legacy names and sends each from outside into the official catalogue |
| `HublaPayloads.V1TargetFacts` | apps/api/src/shared/adapters/hubla/v1_normalizer.py:33-147 | the rewrite covers exactly the seven version 1 names and lands in the official catalogue, and event type with status forgets only whether it was a sale or a renewal |
| `HublaPayloads.V1TargetIsTable` | apps/api/src/shared/adapters/hubla/v1_normalizer.py:14-23 | the code's dictionaries are the tables of its documentation, for every name |
| `HublaPayloads.NormalizeV1Idempotent` | apps/api/src/shared/adapters/hubla/v1_normalizer.py:44-136 | a rewritten payload still counts as version 1, and a second rewrite leaves it alone |
| `HublaPayloads.NameRoundTrip` | apps/api/src/shared/adapters/hubla/v1_normalizer.py:90-95 | the name split followed by the handler's join gives the stripped name back |
| `HublaPayloads.FirstNameHasNoSpace` | apps/api/src/shared/adapters/hubla/v1_normalizer.py:90-95 | the first name is the text before the first space |
| `HublaEvents.V1Details` | apps/api/src/shared/application/hubla_event_handler.py:111-156 | what the handler reads of a rewritten payload is the version 1 payload's own fields, scheduled at its own time of payment |
| `HublaEvents.V2Details` | apps/api/src/shared/application/hubla_event_handler.py:121-156 | of any other payload the handler reads the subscription's and payer's fields and the first listed product, or the single one without a list |
| `HublaEvents.EnrollFlows` | apps/api/src/shared/application/hubla_event_handler.py:407-445 | a failing flow is skipped and the others go on |
| `HublaEvents.RouteEvent` | apps/api/src/shared/application/hubla_event_handler.py:311-470 | routing raises exactly when a lookup it gets to or the purchase handler does, and otherwise decides as specified |
| `HublaEvents.IsolatedFlows` | apps/api/src/shared/application/hubla_event_handler.py:324-445 | routing decides exactly with a telephone and a known contact, and matches exactly when besides the product is found, by id before name; the flows attempted are exactly that product's flows for the very event, or for either name of access granted; those enrolled are exactly the ones whose own calls succeed |
| `HublaEvents.FlowsForConcat` | apps/api/src/shared/application/hubla_event_handler.py:393-402 | flows are attempted in table order |
| `HublaEvents.SucceedingConcat` | apps/api/src/shared/application/hubla_event_handler.py:407-445 | one flow's failure changes nothing for the others |
| `HublaEvents.DecisionIff` | apps/api/src/shared/application/hubla_event_handler.py:274-340 | a job decides for its lead exactly with a telephone and a known contact, and decides that it matched exactly when a product is found |
| `HublaEvents.FailureRaises` | apps/api/src/shared/application/hubla_event_handler.py:205-309 | a job raises whenever a repository call it makes does, whatever else happens |
| `HublaEvents.OutsideFailureRaises` | apps/api/src/shared/application/hubla_event_handler.py:304-470 | so with the publication, and with the purchase handler for subscription.activated, product or not |
| `HublaEvents.CalmJobCommits` | apps/api/src/shared/application/hubla_event_handler.py:256-309 | without such failures a job commits, and failing flows never make one raise |
| `HublaEvents.SameMeaning` | apps/api/src/shared/application/hubla_event_handler.py:390-402 | all spellings of access granted attempt and enrol the same flows, for every product and flow table; only the purchase handler tells them apart |
| `HublaEvents.HublaEventHandler.Handle` | apps/api/src/shared/application/hubla_event_handler.py:205-309 | one job commits its event row with the rewritten payload, processed once, and its lead together, or nothing when any repository call, routing, the publication or the commit raises; the lead of a known contact is then unmatched exactly when no product is found |
| `HublaHistory.FlagIsLastDecision` | apps/api/src/shared/application/hubla_event_handler.py:274-288 | after any history `product_unmatched` of a lead is the negation of the last committed decision; undecided and raising events leave it |
| `HublaHistory.RowsProcessedOnce` | apps/api/src/shared/application/hubla_event_handler.py:205-309 | after any history the event rows are the earlier ones and one for each committed job in order, each marked processed exactly once |
| `HublaHistory.LeadsAreBacked` | apps/api/src/shared/application/hubla_event_handler.py:226-254 | after any history the leads are exactly the earlier ones and those named by a committed job |
| `HublaHistory.LeadKeepsProduct` | apps/api/src/shared/adapters/db/repositories/lead_repo.py:146-170 | a lead keeps its product over any history, and a new one has that of its first committed job |
| `UnmappedProducts.Reprocess` | apps/api/src/shared/application/use_cases/admin/unmapped_products.py:74-109 | the loop sends one job for each selected event, in order, and counts them |
| `UnmappedProducts.RequestsExact` | apps/api/src/shared/application/use_cases/admin/unmapped_products.py:77-106 | a payload is sent if and only if it is that of an event of the product whose lead is pending, with the requested mode in place of any other |
| `UnmappedProducts.ReprocessKeepsRequest` | apps/api/src/shared/application/use_cases/admin/unmapped_products.py:92-95 | for every event row of any history: what is sent again is left alone by the version 1 rewrite, keeps the requested mode, and otherwise reads as the stored event |
| `UnmappedProducts.PendingLeadsAreSent` | apps/api/src/shared/application/use_cases/admin/unmapped_products.py:77-90 | after any history every pending lead of the product has an event among those sent again |
| `UnmappedProducts.LeavesPendingIff` | apps/api/src/shared/application/use_cases/admin/unmapped_products.py:61-109 | once the product is mapped, for any history and any order, repetition or loss of the jobs sent: a pending lead leaves the list if and only if one of its jobs commits with a known contact, and no other lead changes |
| `UnmappedProducts.ReprocessEmptiesList` | apps/api/src/shared/application/use_cases/admin/unmapped_products.py:61-109 | if all that was sent commits with known contacts, no lead of the product is pending any more |

## Left out

- HTTP, SQL, Redis, OpenAI, ChatNexo and token decoding: statements and calls are their effect on the tables or an arbitrary outcome.
- Admin panel, repositories, use cases and admin routers outside the files cited, the idle-conversation jobs, the refund and retention skills and the Redis queue the worker does not use.
- WorkerProcess.PostgresJobQueue.Dequeue: assumes a positive poll interval.
- WorkerProcess.WorkerDispatcher.Poll: one attempt of the polling dequeue, so that steps of other workers can come between two attempts; `Dequeue` has the whole loop. The StopSignal value has no step of its own, because this queue never returns it and leaving the loop on it is the Stop step.
- RedisStore.RedisMutex.Acquire: assumes a positive retry delay.
- Conservation.LossIffBusyCrash: takes the commit of the DELETE and the creation of the task as one step, so a worker cancelled at `await session.commit()`, after the commit, counts as one with that task in flight.
- Admission.UnbackedIff: says nothing of the clock step, which only ends a mark's time to live. An insert that raises has inserted nothing: a commit whose acknowledgement is lost is not modelled.
- Lease.OneUnexpiredHolder: assumes that tokens never repeat, as random UUIDs are taken not to.
- SchedulerRunner.Runner.RunForever: the loop around one worker's ticks without lease and sleep, for a given positive number of iterations; the endless loop (iterations absent or 0) is covered by letting that number grow. A failing pick or commit is a step of `TickProtocol` only.
- Bypass.WaitingLaw: states order for one consumer and untied timestamps only; with ties or several consumers the SELECT leaves the order open.
- Texts: the regular expression is replaced by a cut function for this one pattern; Unicode beyond Python's white-space list does not matter.
- Chunker.Chunk: tokens are abstract, and a size or overlap below 0 is not modelled; `LoopEndsIff` covers the sizes for which the loop does not end.
- StepDelays.UpgradeDelays: one of the two identically treated tables; adding and dropping the columns is not modelled.
- TenantBackfill.Migration.Upgrade: profile, avatar and activity columns, random ids, the schema steps and lower() itself are not modelled; the lower-cased address is a field.
- AgentRunner.RunAgent: guards change only the system prompt, so they are part of the arbitrary completions; two turns at once on one thread are not modelled.
- AgentRunner.DispatchAll: the texts of the error replies stay symbolic; tools run one after another in the model, since only the order of their replies is observable.
- HublaEvents.V1Details: the amount in cents (float rounding) is not modelled, and the activation time stays a text.
- HublaEvents.HublaEventHandler.Handle: of a lead only its product and `product_unmatched` are kept; enrolments, messages and the contact are effects outside the two tables, and a database error inside a caught exception does not poison the transaction.
- UnmappedProducts.LeavesPendingIff: speaks of the jobs sent; new events of the same purchase in between are covered by `FlagIsLastDecision`. The alias table and the one account are part of the arbitrary catalogues.
- Unknown payload shapes (null where an object is expected) raise in the original before anything is written; payloads here have their fields.
