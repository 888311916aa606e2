/**
 The dispatcher protocol: any number of worker processes share one queue table.
 A step is the code between two awaits of a worker loop or of one job task, so an
 execution of `Exec` is one interleaving.  A crash stands for every way a worker's
 task group can die: a killed process, a cancelled dispatcher, a failed insert.
 */
module Dispatch {
  import opened Wrappers
  import opened Folds
  import opened JobTables

  datatype Config = Config(
    handlers: set<string>,
    maxConcurrency: nat,
    maxRetries: int,
    baseDelay: real,
    hasDlq: bool,
    iterations: Option<int>)

  datatype Phase =
    | Spawned
    | Running
    | BackingOff(error: string, until: real)
    | Exhausted(error: string)

  datatype Task = Task(env: Envelope, phase: Phase)

  datatype Loop = Polling | Draining | Exited

  datatype Worker = Worker(loop: Loop, dispatched: nat, tasks: seq<Task>)

  /** What happened so far.  `enqueued[o]` is the job that enqueue number o inserted, at time `born[o]`. */
  datatype Log = Log(
    enqueued: seq<Job>,
    handled: multiset<Ticket>,
    discarded: multiset<Ticket>,
    dropped: multiset<Ticket>,
    lost: multiset<Ticket>,
    calls: multiset<nat>,
    failures: multiset<nat>,
    slept: map<nat, real>,
    born: seq<real>)

  const EMPTY_LOG: Log :=
    Log([], multiset{}, multiset{}, multiset{}, multiset{}, multiset{}, multiset{}, map[], [])

  datatype State = State(
    now: real,
    rows: seq<Row>,
    dlq: seq<DeadLetter>,
    workers: seq<Worker>,
    log: Log)

  datatype Event =
    | Advance(dt: real)
    | Enqueue(job: Job, priority: int)
    | Dequeue(w: nat, i: nat, locked: set<nat>)
    | NoHandler(w: nat, t: nat)
    | Acquire(w: nat, t: nat)
    | Succeed(w: nat, t: nat)
    | Fail(w: nat, t: nat, error: string)
    | Nack(w: nat, t: nat)
    | ToDlq(w: nat, t: nat)
    | Stop(w: nat)
    | Exit(w: nat)
    | Crash(w: nat)
    | Boot(w: nat)

  function MaxAttempts(c: Config): pos {
    if c.maxRetries > 1 then c.maxRetries else 1
  }

  function Pow2(n: nat): pos {
    if n == 0 then 1 else 2 * Pow2(n - 1)
  }

  /** The pause after a failed attempt: base_delay * 2 ** (attempt - 1). */
  function Delay(c: Config, attempt: pos): real {
    c.baseDelay * Pow2(attempt - 1) as real
  }

  function TaskTicket(t: Task): Ticket {
    EnvTicket(t.env)
  }

  function IsRunning(t: Task): nat {
    if t.phase.Running? then 1 else 0
  }

  /** How many handlers a worker is running: the semaphore permits it has taken. */
  function RunningCount(tasks: seq<Task>): nat {
    Sum(tasks, IsRunning)
  }

  function Slept(log: Log, origin: nat): real {
    if origin in log.slept then log.slept[origin] else 0.0
  }

  predicate TaskAt(s: State, w: nat, t: nat) {
    w < |s.workers| && t < |s.workers[w].tasks|
  }

  ghost predicate Enabled(c: Config, s: State, e: Event) {
    match e
    case Advance(dt) => dt >= 0.0
    case Enqueue(_, _) => true
    case Dequeue(w, i, locked) =>
      w < |s.workers| && s.workers[w].loop.Polling? && IsHead(s.rows, locked, i)
    case NoHandler(w, t) =>
      && TaskAt(s, w, t)
      && s.workers[w].tasks[t].phase.Spawned?
      && s.workers[w].tasks[t].env.job.kind !in c.handlers
    case Acquire(w, t) =>
      && TaskAt(s, w, t)
      && s.workers[w].tasks[t].phase.Spawned?
      && s.workers[w].tasks[t].env.job.kind in c.handlers
      && RunningCount(s.workers[w].tasks) < c.maxConcurrency
    case Succeed(w, t) => TaskAt(s, w, t) && s.workers[w].tasks[t].phase.Running?
    case Fail(w, t, _) => TaskAt(s, w, t) && s.workers[w].tasks[t].phase.Running?
    case Nack(w, t) =>
      && TaskAt(s, w, t)
      && s.workers[w].tasks[t].phase.BackingOff?
      && s.workers[w].tasks[t].phase.until <= s.now
    case ToDlq(w, t) => TaskAt(s, w, t) && s.workers[w].tasks[t].phase.Exhausted?
    case Stop(w) => w < |s.workers| && s.workers[w].loop.Polling?
    case Exit(w) => w < |s.workers| && s.workers[w].loop.Draining? && s.workers[w].tasks == []
    case Crash(w) => w < |s.workers| && !s.workers[w].loop.Exited?
    case Boot(w) => w < |s.workers| && s.workers[w].loop.Exited?
  }

  function SetWorker(s: State, w: nat, k: Worker): State
    requires w < |s.workers|
  {
    s.(workers := s.workers[w := k])
  }

  function SetTasks(s: State, w: nat, tasks: seq<Task>): State
    requires w < |s.workers|
  {
    SetWorker(s, w, s.workers[w].(tasks := tasks))
  }

  /** Insert a row; its timestamp is the database clock. */
  function InsertRow(s: State, env: Envelope, error: Option<string>, priority: int): State {
    s.(rows := s.rows + [Row(env, error, priority, s.now)])
  }

  function ApplyDequeue(c: Config, s: State, w: nat, i: nat): State
    requires w < |s.workers| && i < |s.rows|
  {
    var k := s.workers[w];
    var dispatched := k.dispatched + 1;
    var enough := c.iterations.Some? && dispatched >= c.iterations.value;
    SetWorker(
      s.(rows := Remove(s.rows, i)), w,
      Worker(if enough then Draining else Polling, dispatched, k.tasks + [Task(s.rows[i].env, Spawned)]))
  }

  function ApplyAcquire(s: State, w: nat, t: nat): State
    requires TaskAt(s, w, t)
  {
    var tasks := s.workers[w].tasks;
    SetTasks(s, w, tasks[t := tasks[t].(phase := Running)]).(
      log := s.log.(calls := s.log.calls + multiset{tasks[t].env.origin}))
  }

  /** What a failed job waits for: another attempt, the dead-letter insert, or nothing. */
  function AfterFailure(c: Config, now: real, attempt: pos, error: string): Option<Phase> {
    if attempt < c.maxRetries then Some(BackingOff(error, now + Delay(c, attempt)))
    else if c.hasDlq then Some(Exhausted(error))
    else None
  }

  function ApplyFail(c: Config, s: State, w: nat, t: nat, error: string): State
    requires TaskAt(s, w, t)
  {
    var tasks := s.workers[w].tasks;
    var env := tasks[t].env;
    var log := s.log.(failures := s.log.failures + multiset{env.origin});
    match AfterFailure(c, s.now, env.attempt, error)
    case Some(phase) => SetTasks(s, w, tasks[t := Task(env, phase)]).(log := log)
    case None =>
      SetTasks(s, w, Remove(tasks, t)).(log := log.(dropped := log.dropped + multiset{EnvTicket(env)}))
  }

  function ApplyNack(c: Config, s: State, w: nat, t: nat): State
    requires TaskAt(s, w, t) && s.workers[w].tasks[t].phase.BackingOff?
  {
    var tasks := s.workers[w].tasks;
    var env := tasks[t].env;
    var slept := s.log.slept[env.origin := Slept(s.log, env.origin) + Delay(c, env.attempt)];
    SetTasks(
      InsertRow(s, env.(attempt := env.attempt + 1), Some(tasks[t].phase.error), NORMAL), w,
      Remove(tasks, t)).(log := s.log.(slept := slept))
  }

  function ApplyToDlq(s: State, w: nat, t: nat): State
    requires TaskAt(s, w, t) && s.workers[w].tasks[t].phase.Exhausted?
  {
    var tasks := s.workers[w].tasks;
    SetTasks(
      s.(dlq := s.dlq + [DeadLetter(tasks[t].env, tasks[t].phase.error, s.now)]), w,
      Remove(tasks, t))
  }

  function ApplyCrash(s: State, w: nat): State
    requires w < |s.workers|
  {
    SetWorker(s, w, s.workers[w].(loop := Exited, tasks := [])).(
      log := s.log.(lost := s.log.lost + Bag(s.workers[w].tasks, TaskTicket)))
  }

  ghost function Apply(c: Config, s: State, e: Event): State
    requires Enabled(c, s, e)
  {
    match e
    case Advance(dt) => s.(now := s.now + dt)
    case Enqueue(job, priority) =>
      InsertRow(s, Envelope(|s.log.enqueued|, job, 1), None, priority).(
        log := s.log.(enqueued := s.log.enqueued + [job], born := s.log.born + [s.now]))
    case Dequeue(w, i, _) => ApplyDequeue(c, s, w, i)
    case NoHandler(w, t) =>
      var tasks := s.workers[w].tasks;
      SetTasks(s, w, Remove(tasks, t)).(
        log := s.log.(discarded := s.log.discarded + multiset{TaskTicket(tasks[t])}))
    case Acquire(w, t) => ApplyAcquire(s, w, t)
    case Succeed(w, t) =>
      var tasks := s.workers[w].tasks;
      SetTasks(s, w, Remove(tasks, t)).(
        log := s.log.(handled := s.log.handled + multiset{TaskTicket(tasks[t])}))
    case Fail(w, t, error) => ApplyFail(c, s, w, t, error)
    case Nack(w, t) => ApplyNack(c, s, w, t)
    case ToDlq(w, t) => ApplyToDlq(s, w, t)
    case Stop(w) => SetWorker(s, w, s.workers[w].(loop := Draining))
    case Exit(w) => SetWorker(s, w, s.workers[w].(loop := Exited))
    case Crash(w) => ApplyCrash(s, w)
    case Boot(w) => SetWorker(s, w, Worker(Polling, 0, []))
  }

  /** Run a schedule; None when some step of it is not enabled. */
  ghost function Exec(c: Config, s: State, es: seq<Event>): Option<State>
    decreases |es|
  {
    if es == [] then Some(s)
    else if Enabled(c, s, es[0]) then Exec(c, Apply(c, s, es[0]), es[1..])
    else None
  }

  /** Empty tables and n idle worker processes. */
  ghost predicate Init(s: State) {
    && s.rows == [] && s.dlq == []
    && (forall w :: 0 <= w < |s.workers| ==> s.workers[w] == Worker(Exited, 0, []))
    && s.log == EMPTY_LOG
  }

  ghost predicate CrashFree(es: seq<Event>) {
    forall e :: e in es ==> !e.Crash?
  }
}
