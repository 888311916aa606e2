/**
 Job conservation: in every interleaving each enqueued job is in exactly one place.
 */
module Conservation {
  import opened Wrappers
  import opened Folds
  import opened JobTables
  import opened Dispatch

  /** All job tasks of all workers. */
  function Flat(ws: seq<Worker>): seq<Task> {
    if ws == [] then [] else ws[0].tasks + Flat(ws[1..])
  }

  lemma {:induction false} FlatConcat(us: seq<Worker>, vs: seq<Worker>)
    ensures Flat(us + vs) == Flat(us) + Flat(vs)
  {
    if us == [] {
      assert us + vs == vs;
    } else {
      assert (us + vs)[1..] == us[1..] + vs;
      FlatConcat(us[1..], vs);
    }
  }

  lemma FlatSplit(ws: seq<Worker>, w: nat)
    requires w < |ws|
    ensures Flat(ws) == Flat(ws[..w]) + (ws[w].tasks + Flat(ws[w + 1..]))
  {
    assert ws == ws[..w] + ws[w..];
    FlatConcat(ws[..w], ws[w..]);
    assert ws[w..][1..] == ws[w + 1..];
  }

  lemma FlatBag<U>(ws: seq<Worker>, w: nat, k: Worker, f: Task -> U)
    requires w < |ws|
    ensures Bag(Flat(ws[w := k]), f) + Bag(ws[w].tasks, f) == Bag(Flat(ws), f) + Bag(k.tasks, f)
  {
    FlatSplit(ws, w);
    FlatSplit(ws[w := k], w);
    var front, back := Flat(ws[..w]), Flat(ws[w + 1..]);
    assert ws[w := k][..w] == ws[..w] && ws[w := k][w + 1..] == ws[w + 1..];
    BagConcat(front, ws[w].tasks + back, f);
    BagConcat(ws[w].tasks, back, f);
    BagConcat(front, k.tasks + back, f);
    BagConcat(k.tasks, back, f);
  }

  lemma FlatSum(ws: seq<Worker>, w: nat, k: Worker, f: Task -> nat)
    requires w < |ws|
    ensures Sum(Flat(ws[w := k]), f) + Sum(ws[w].tasks, f) == Sum(Flat(ws), f) + Sum(k.tasks, f)
  {
    FlatSplit(ws, w);
    FlatSplit(ws[w := k], w);
    var front, back := Flat(ws[..w]), Flat(ws[w + 1..]);
    assert ws[w := k][..w] == ws[..w] && ws[w := k][w + 1..] == ws[w + 1..];
    SumConcat(front, ws[w].tasks + back, f);
    SumConcat(ws[w].tasks, back, f);
    SumConcat(front, k.tasks + back, f);
    SumConcat(k.tasks, back, f);
  }

  lemma InFlat(ws: seq<Worker>, w: nat, t: nat)
    requires w < |ws| && t < |ws[w].tasks|
    ensures ws[w].tasks[t] in Flat(ws)
  {
    FlatSplit(ws, w);
  }

  // ---- tickets

  /** One ticket for every enqueue. */
  function Issued(jobs: seq<Job>): multiset<Ticket> {
    if jobs == [] then multiset{}
    else Issued(jobs[..|jobs| - 1]) + multiset{Ticket(|jobs| - 1, jobs[|jobs| - 1])}
  }

  lemma {:induction false} IssuedOnce(jobs: seq<Job>, x: Ticket)
    ensures Issued(jobs)[x] == if x.origin < |jobs| && jobs[x.origin] == x.job then 1 else 0
  {
    if jobs != [] {
      IssuedOnce(jobs[..|jobs| - 1], x);
    }
  }

  function Queued(s: State): multiset<Ticket> {
    Bag(s.rows, RowTicket)
  }

  function InFlight(s: State): multiset<Ticket> {
    Bag(Flat(s.workers), TaskTicket)
  }

  function Dead(s: State): multiset<Ticket> {
    Bag(s.dlq, DeadTicket)
  }

  function Settled(log: Log): multiset<Ticket> {
    log.handled + log.discarded + log.dropped + log.lost
  }

  /** Every place a job can be in. */
  function Places(s: State): multiset<Ticket> {
    Queued(s) + InFlight(s) + Dead(s) + Settled(s.log)
  }

  ghost predicate Conserved(s: State) {
    Places(s) == Issued(s.log.enqueued)
  }

  lemma InFlightReplace(s: State, w: nat, k: Worker)
    requires w < |s.workers|
    ensures InFlight(SetWorker(s, w, k)) + Bag(s.workers[w].tasks, TaskTicket)
         == InFlight(s) + Bag(k.tasks, TaskTicket)
  {
    FlatBag(s.workers, w, k, TaskTicket);
  }

  lemma Cancel<U>(a: multiset<U>, b: multiset<U>, c: multiset<U>)
    requires a + c == b + c
    ensures a == b
  {
    forall x ensures a[x] == b[x] {
      assert (a + c)[x] == (b + c)[x];
    }
  }

  /** Taking task t of worker w out of flight. */
  lemma InFlightRemove(s: State, w: nat, t: nat)
    requires TaskAt(s, w, t)
    ensures InFlight(s)
         == InFlight(SetTasks(s, w, Remove(s.workers[w].tasks, t))) + multiset{TaskTicket(s.workers[w].tasks[t])}
  {
    var tasks := s.workers[w].tasks;
    var rest := Bag(Remove(tasks, t), TaskTicket);
    InFlightReplace(s, w, s.workers[w].(tasks := Remove(tasks, t)));
    BagRemove(tasks, t, TaskTicket);
    var left := InFlight(SetTasks(s, w, Remove(tasks, t)));
    assert left + multiset{TaskTicket(tasks[t])} + rest == left + Bag(tasks, TaskTicket);
    Cancel(InFlight(s), left + multiset{TaskTicket(tasks[t])}, rest);
  }

  /** A task that changes phase keeps its place. */
  lemma InFlightUpdate(s: State, w: nat, t: nat, x: Task)
    requires TaskAt(s, w, t) && x.env == s.workers[w].tasks[t].env
    ensures InFlight(SetTasks(s, w, s.workers[w].tasks[t := x])) == InFlight(s)
  {
    var tasks := s.workers[w].tasks;
    InFlightReplace(s, w, s.workers[w].(tasks := tasks[t := x]));
    BagUpdate(tasks, t, x, TaskTicket);
    Cancel(Bag(tasks[t := x], TaskTicket), Bag(tasks, TaskTicket), multiset{TaskTicket(x)});
    Cancel(InFlight(SetTasks(s, w, tasks[t := x])), InFlight(s), Bag(tasks, TaskTicket));
  }

  /** Per worker: never more handlers than permits, and nothing in flight once it has exited. */
  ghost predicate AllDisciplined(c: Config, ws: seq<Worker>) {
    forall w :: 0 <= w < |ws| ==>
      RunningCount(ws[w].tasks) <= c.maxConcurrency && (ws[w].loop.Exited? ==> ws[w].tasks == [])
  }

  ghost predicate Disciplined(c: Config, s: State) {
    AllDisciplined(c, s.workers)
  }

  lemma EnqueueConserves(c: Config, s: State, job: Job, priority: int)
    requires Conserved(s)
    ensures Conserved(Apply(c, s, Enqueue(job, priority)))
  {
    var s' := Apply(c, s, Enqueue(job, priority));
    BagAppend(s.rows, s'.rows[|s.rows|], RowTicket);
    assert s'.log.enqueued[..|s.log.enqueued|] == s.log.enqueued;
    assert Places(s') == Places(s) + multiset{Ticket(|s.log.enqueued|, job)};
  }

  /** Putting task x in flight at worker w. */
  lemma InFlightAppend(s: State, w: nat, k: Worker, x: Task)
    requires w < |s.workers| && k.tasks == s.workers[w].tasks + [x]
    ensures InFlight(SetWorker(s, w, k)) == InFlight(s) + multiset{TaskTicket(x)}
  {
    var before := Bag(s.workers[w].tasks, TaskTicket);
    InFlightReplace(s, w, k);
    BagAppend(s.workers[w].tasks, x, TaskTicket);
    assert InFlight(s) + multiset{TaskTicket(x)} + before == InFlight(s) + (before + multiset{TaskTicket(x)});
    Cancel(InFlight(SetWorker(s, w, k)), InFlight(s) + multiset{TaskTicket(x)}, before);
  }

  lemma DequeueConserves(c: Config, s: State, w: nat, i: nat)
    requires Conserved(s) && w < |s.workers| && i < |s.rows|
    ensures Conserved(ApplyDequeue(c, s, w, i))
  {
    var s' := ApplyDequeue(c, s, w, i);
    BagRemove(s.rows, i, RowTicket);
    InFlightAppend(s, w, s'.workers[w], Task(s.rows[i].env, Spawned));
    assert Places(s') == Places(s);
  }

  /** A task that ends moves its ticket into one of the settled bags. */
  lemma SettleConserves(s: State, w: nat, t: nat, log: Log)
    requires TaskAt(s, w, t) && Conserved(s) && log.enqueued == s.log.enqueued
    requires Settled(log) == Settled(s.log) + multiset{TaskTicket(s.workers[w].tasks[t])}
    ensures Conserved(SetTasks(s, w, Remove(s.workers[w].tasks, t)).(log := log))
  {
    InFlightRemove(s, w, t);
    assert Places(SetTasks(s, w, Remove(s.workers[w].tasks, t)).(log := log)) == Places(s);
  }

  /** A task that changes phase, with a log that settles nothing. */
  lemma PhaseConserves(s: State, w: nat, t: nat, x: Task, log: Log)
    requires TaskAt(s, w, t) && Conserved(s) && x.env == s.workers[w].tasks[t].env
    requires log.enqueued == s.log.enqueued && Settled(log) == Settled(s.log)
    ensures Conserved(SetTasks(s, w, s.workers[w].tasks[t := x]).(log := log))
  {
    InFlightUpdate(s, w, t, x);
    assert Places(SetTasks(s, w, s.workers[w].tasks[t := x]).(log := log)) == Places(s);
  }

  lemma FailConserves(c: Config, s: State, w: nat, t: nat, error: string)
    requires TaskAt(s, w, t) && Conserved(s)
    ensures Conserved(ApplyFail(c, s, w, t, error))
  {
    var env := s.workers[w].tasks[t].env;
    var log := ApplyFail(c, s, w, t, error).log;
    match AfterFailure(c, s.now, env.attempt, error) {
      case Some(phase) => PhaseConserves(s, w, t, Task(env, phase), log);
      case None => SettleConserves(s, w, t, log);
    }
  }

  lemma NackConserves(c: Config, s: State, w: nat, t: nat)
    requires TaskAt(s, w, t) && s.workers[w].tasks[t].phase.BackingOff? && Conserved(s)
    ensures Conserved(ApplyNack(c, s, w, t))
  {
    var s' := ApplyNack(c, s, w, t);
    InFlightRemove(s, w, t);
    BagAppend(s.rows, s'.rows[|s.rows|], RowTicket);
    assert Places(s') == Places(s);
  }

  lemma ToDlqConserves(s: State, w: nat, t: nat)
    requires TaskAt(s, w, t) && s.workers[w].tasks[t].phase.Exhausted? && Conserved(s)
    ensures Conserved(ApplyToDlq(s, w, t))
  {
    var s' := ApplyToDlq(s, w, t);
    InFlightRemove(s, w, t);
    BagAppend(s.dlq, s'.dlq[|s.dlq|], DeadTicket);
    assert Places(s') == Places(s);
  }

  lemma CrashConserves(s: State, w: nat)
    requires w < |s.workers| && Conserved(s)
    ensures Conserved(ApplyCrash(s, w))
  {
    InFlightReplace(s, w, s.workers[w].(loop := Exited, tasks := []));
    assert InFlight(s) == InFlight(ApplyCrash(s, w)) + Bag(s.workers[w].tasks, TaskTicket);
    assert Places(ApplyCrash(s, w)) == Places(s);
  }

  lemma SameTasksConserves(s: State, w: nat, k: Worker)
    requires w < |s.workers| && Conserved(s) && k.tasks == s.workers[w].tasks
    ensures Conserved(SetWorker(s, w, k))
  {
    InFlightReplace(s, w, k);
    Cancel(InFlight(SetWorker(s, w, k)), InFlight(s), Bag(k.tasks, TaskTicket));
  }

  /** The steps of a job task. */
  lemma TaskStepConserves(c: Config, s: State, e: Event)
    requires Enabled(c, s, e) && Conserved(s)
    requires e.NoHandler? || e.Acquire? || e.Succeed?
    ensures Conserved(Apply(c, s, e))
  {
    var log := Apply(c, s, e).log;
    if e.Acquire? {
      PhaseConserves(s, e.w, e.t, s.workers[e.w].tasks[e.t].(phase := Running), log);
    } else {
      SettleConserves(s, e.w, e.t, log);
    }
  }

  /** The steps of a worker process. */
  lemma WorkerStepConserves(c: Config, s: State, e: Event)
    requires Enabled(c, s, e) && Conserved(s) && Disciplined(c, s)
    requires e.Stop? || e.Exit? || e.Crash? || e.Boot?
    ensures Conserved(Apply(c, s, e))
  {
    match e {
      case Stop(w) => SameTasksConserves(s, w, s.workers[w].(loop := Draining));
      case Exit(w) => SameTasksConserves(s, w, s.workers[w].(loop := Exited));
      case Crash(w) => CrashConserves(s, w);
      case Boot(w) => SameTasksConserves(s, w, Worker(Polling, 0, []));
    }
  }

  lemma StepConserves(c: Config, s: State, e: Event)
    requires Enabled(c, s, e) && Conserved(s) && Disciplined(c, s)
    ensures Conserved(Apply(c, s, e))
  {
    match e {
      case Advance(_) =>
      case Enqueue(job, priority) => EnqueueConserves(c, s, job, priority);
      case Dequeue(w, i, _) => DequeueConserves(c, s, w, i);
      case Fail(w, t, error) => FailConserves(c, s, w, t, error);
      case Nack(w, t) => NackConserves(c, s, w, t);
      case ToDlq(w, t) => ToDlqConserves(s, w, t);
      case NoHandler(_, _) => TaskStepConserves(c, s, e);
      case Acquire(_, _) => TaskStepConserves(c, s, e);
      case Succeed(_, _) => TaskStepConserves(c, s, e);
      case _ => WorkerStepConserves(c, s, e);
    }
  }

  lemma WorkerDisciplined(c: Config, s: State, w: nat, k: Worker)
    requires Disciplined(c, s) && w < |s.workers|
    requires RunningCount(k.tasks) <= c.maxConcurrency && (k.loop.Exited? ==> k.tasks == [])
    ensures AllDisciplined(c, s.workers[w := k])
  {
  }

  lemma RemoveDisciplined(c: Config, s: State, w: nat, t: nat)
    requires Disciplined(c, s) && TaskAt(s, w, t)
    ensures AllDisciplined(c, SetTasks(s, w, Remove(s.workers[w].tasks, t)).workers)
  {
    SumRemove(s.workers[w].tasks, t, IsRunning);
    WorkerDisciplined(c, s, w, s.workers[w].(tasks := Remove(s.workers[w].tasks, t)));
  }

  /** Only a task that takes a permit raises the number of running handlers. */
  lemma PhaseDisciplined(c: Config, s: State, w: nat, t: nat, x: Task)
    requires Disciplined(c, s) && TaskAt(s, w, t)
    requires x.phase.Running? ==> RunningCount(s.workers[w].tasks) < c.maxConcurrency
    ensures AllDisciplined(c, SetTasks(s, w, s.workers[w].tasks[t := x]).workers)
  {
    SumUpdate(s.workers[w].tasks, t, x, IsRunning);
    WorkerDisciplined(c, s, w, s.workers[w].(tasks := s.workers[w].tasks[t := x]));
  }

  lemma FailDisciplined(c: Config, s: State, w: nat, t: nat, error: string)
    requires Disciplined(c, s) && TaskAt(s, w, t)
    ensures Disciplined(c, ApplyFail(c, s, w, t, error))
  {
    var env := s.workers[w].tasks[t].env;
    match AfterFailure(c, s.now, env.attempt, error) {
      case Some(phase) => PhaseDisciplined(c, s, w, t, Task(env, phase));
      case None => RemoveDisciplined(c, s, w, t);
    }
  }

  lemma DequeueDisciplined(c: Config, s: State, w: nat, i: nat)
    requires Disciplined(c, s) && w < |s.workers| && i < |s.rows|
    ensures Disciplined(c, ApplyDequeue(c, s, w, i))
  {
    SumAppend(s.workers[w].tasks, Task(s.rows[i].env, Spawned), IsRunning);
    WorkerDisciplined(c, s, w, ApplyDequeue(c, s, w, i).workers[w]);
  }

  lemma StepDisciplined(c: Config, s: State, e: Event)
    requires Enabled(c, s, e) && Disciplined(c, s)
    ensures Disciplined(c, Apply(c, s, e))
  {
    match e {
      case Advance(_) =>
      case Enqueue(_, _) =>
      case Dequeue(w, i, _) => DequeueDisciplined(c, s, w, i);
      case NoHandler(w, t) => RemoveDisciplined(c, s, w, t);
      case Acquire(w, t) => PhaseDisciplined(c, s, w, t, s.workers[w].tasks[t].(phase := Running));
      case Succeed(w, t) => RemoveDisciplined(c, s, w, t);
      case Fail(w, t, error) => FailDisciplined(c, s, w, t, error);
      case Nack(w, t) => RemoveDisciplined(c, s, w, t);
      case ToDlq(w, t) => RemoveDisciplined(c, s, w, t);
      case Stop(w) => WorkerDisciplined(c, s, w, s.workers[w].(loop := Draining));
      case Exit(w) => WorkerDisciplined(c, s, w, s.workers[w].(loop := Exited));
      case Crash(w) => WorkerDisciplined(c, s, w, s.workers[w].(loop := Exited, tasks := []));
      case Boot(w) => WorkerDisciplined(c, s, w, Worker(Polling, 0, []));
    }
  }

  lemma InitHolds(c: Config, s: State)
    requires Init(s)
    ensures Conserved(s) && Disciplined(c, s)
  {
    NothingInFlight(s.workers);
  }

  lemma {:induction false} NothingInFlight(ws: seq<Worker>)
    requires forall w :: 0 <= w < |ws| ==> ws[w].tasks == []
    ensures Flat(ws) == []
  {
    if ws != [] {
      NothingInFlight(ws[1..]);
    }
  }

  /**
   Conservation over whole runs: at every moment of every schedule the jobs enqueued so
   far are exactly those queued, in flight, handled, discarded for want of a handler,
   dead-lettered, dropped for want of a dead-letter table, or lost in a crash; and every
   worker respects its concurrency limit.
   */
  lemma {:induction false} RunConserves(c: Config, s: State, es: seq<Event>)
    requires Conserved(s) && Disciplined(c, s) && Exec(c, s, es).Some?
    ensures Conserved(Exec(c, s, es).value) && Disciplined(c, Exec(c, s, es).value)
    decreases |es|
  {
    if es != [] {
      StepConserves(c, s, es[0]);
      StepDisciplined(c, s, es[0]);
      RunConserves(c, Apply(c, s, es[0]), es[1..]);
    }
  }

  /** Every crash of the run meets a worker with nothing in flight. */
  ghost predicate IdleCrashes(c: Config, s: State, es: seq<Event>)
    requires Exec(c, s, es).Some?
    decreases |es|
  {
    es == [] ||
    ((es[0].Crash? ==> s.workers[es[0].w].tasks == []) && IdleCrashes(c, Apply(c, s, es[0]), es[1..]))
  }

  /** What one step loses. */
  lemma StepLoses(c: Config, s: State, e: Event)
    requires Enabled(c, s, e)
    ensures s.log.lost <= Apply(c, s, e).log.lost
    ensures Apply(c, s, e).log.lost == s.log.lost <==> (e.Crash? ==> s.workers[e.w].tasks == [])
  {
    if e.Crash? {
      var gone := Bag(s.workers[e.w].tasks, TaskTicket);
      BagSize(s.workers[e.w].tasks, TaskTicket);
      assert |s.log.lost + gone| == |s.log.lost| + |gone|;
    }
  }

  lemma {:induction false} LostGrows(c: Config, s: State, es: seq<Event>)
    requires Exec(c, s, es).Some?
    ensures s.log.lost <= Exec(c, s, es).value.log.lost
    decreases |es|
  {
    if es != [] {
      StepLoses(c, s, es[0]);
      LostGrows(c, Apply(c, s, es[0]), es[1..]);
    }
  }

  /**
   A run loses nothing if and only if each of its crashes meets a worker with nothing in flight.
   A row is in flight from the commit of its DELETE on.
   */
  lemma {:induction false} LossIffBusyCrash(c: Config, s: State, es: seq<Event>)
    requires Exec(c, s, es).Some?
    ensures Exec(c, s, es).value.log.lost == s.log.lost <==> IdleCrashes(c, s, es)
    decreases |es|
  {
    if es != [] {
      StepLoses(c, s, es[0]);
      LossIffBusyCrash(c, Apply(c, s, es[0]), es[1..]);
      LostGrows(c, Apply(c, s, es[0]), es[1..]);
    }
  }

  lemma {:induction false} CrashFreeIdle(c: Config, s: State, es: seq<Event>)
    requires Exec(c, s, es).Some? && CrashFree(es)
    ensures IdleCrashes(c, s, es)
    decreases |es|
  {
    if es != [] {
      assert es[0] in es;
      assert forall e :: e in es[1..] ==> e in es;
      CrashFreeIdle(c, Apply(c, s, es[0]), es[1..]);
    }
  }

  /** In particular a run without a crash loses nothing. */
  lemma NoCrashNoLoss(c: Config, s: State, es: seq<Event>)
    requires Exec(c, s, es).Some? && CrashFree(es)
    ensures Exec(c, s, es).value.log.lost == s.log.lost
  {
    CrashFreeIdle(c, s, es);
    LossIffBusyCrash(c, s, es);
  }

  /** Empty tables, one worker process, not yet started. */
  const FRESH: State := State(0.0, [], [], [Worker(Exited, 0, [])], EMPTY_LOG)

  /** The same with one job queued and the worker polling. */
  function Loaded(job: Job): State {
    State(
      0.0, [Row(Envelope(0, job, 1), None, NORMAL, 0.0)], [], [Worker(Polling, 0, [])],
      EMPTY_LOG.(enqueued := [job], born := [0.0]))
  }

  lemma {:induction false} ExecConcat(c: Config, s: State, a: seq<Event>, b: seq<Event>)
    requires Exec(c, s, a).Some?
    ensures Exec(c, s, a + b) == Exec(c, Exec(c, s, a).value, b)
    decreases |a|
  {
    if a == [] {
      assert a + b == b;
    } else {
      assert (a + b)[1..] == a[1..] + b;
      ExecConcat(c, Apply(c, s, a[0]), a[1..], b);
    }
  }

  lemma ExecTwo(c: Config, s: State, d: Event, e: Event)
    requires Enabled(c, s, d) && Enabled(c, Apply(c, s, d), e)
    ensures Exec(c, s, [d, e]) == Some(Apply(c, Apply(c, s, d), e))
  {
    assert [d, e][1..] == [e] && [e][1..] == [];
    assert Exec(c, Apply(c, s, d), [e]) == Exec(c, Apply(c, Apply(c, s, d), e), []);
  }

  lemma LoadsJob(c: Config, job: Job)
    ensures Exec(c, FRESH, [Enqueue(job, NORMAL), Boot(0)]) == Some(Loaded(job))
  {
    var s := Apply(c, FRESH, Enqueue(job, NORMAL));
    ExecTwo(c, FRESH, Enqueue(job, NORMAL), Boot(0));
    assert s.rows == Loaded(job).rows && s.log.enqueued == [job] && s.log.born == [0.0];
    assert Apply(c, s, Boot(0)).workers == Loaded(job).workers;
  }

  lemma CancelledWorker(c: Config, job: Job)
    ensures var run := Exec(c, Loaded(job), [Dequeue(0, 0, {}), Crash(0)]);
            run.Some? && run.value.rows == [] && run.value.log.lost == multiset{Ticket(0, job)}
  {
    var s := ApplyDequeue(c, Loaded(job), 0, 0);
    var x := Task(Envelope(0, job, 1), Spawned);
    assert s.workers[0].tasks == [x] && !s.workers[0].loop.Exited?;
    BagOne(x, TaskTicket);
    ExecTwo(c, Loaded(job), Dequeue(0, 0, {}), Crash(0));
  }

  /** A run that loses a job: it is enqueued and dequeued, and then the worker is cancelled. */
  lemma CrashLosesJob(c: Config, job: Job)
    ensures var run := Exec(c, FRESH, [Enqueue(job, NORMAL), Boot(0)] + [Dequeue(0, 0, {}), Crash(0)]);
            Init(FRESH) && run.Some? && run.value.rows == [] && run.value.log.lost == multiset{Ticket(0, job)}
  {
    LoadsJob(c, job);
    CancelledWorker(c, job);
    ExecConcat(c, FRESH, [Enqueue(job, NORMAL), Boot(0)], [Dequeue(0, 0, {}), Crash(0)]);
  }

  /** Each enqueued job is in exactly one place, once, whatever happened. */
  lemma OnePlace(c: Config, s: State, es: seq<Event>, o: nat)
    requires Init(s) && Exec(c, s, es).Some?
    requires o < |Exec(c, s, es).value.log.enqueued|
    ensures var s' := Exec(c, s, es).value;
            var x := Ticket(o, s'.log.enqueued[o]);
            && Queued(s')[x] + InFlight(s')[x] + Dead(s')[x] + s'.log.handled[x] + s'.log.discarded[x]
               + s'.log.dropped[x] + s'.log.lost[x] == 1
            && (s'.log.lost == multiset{} <==> IdleCrashes(c, s, es))
  {
    InitHolds(c, s);
    RunConserves(c, s, es);
    var s' := Exec(c, s, es).value;
    IssuedOnce(s'.log.enqueued, Ticket(o, s'.log.enqueued[o]));
    assert Places(s')[Ticket(o, s'.log.enqueued[o])] == 1;
    LossIffBusyCrash(c, s, es);
  }

  /** A worker that has drained and exited leaves no job of its own unfinished. */
  lemma ExitLeavesNothing(c: Config, s: State, es: seq<Event>, w: nat)
    requires Init(s) && Exec(c, s, es).Some? && w < |Exec(c, s, es).value.workers|
    requires Exec(c, s, es).value.workers[w].loop.Exited?
    ensures Exec(c, s, es).value.workers[w].tasks == []
  {
    InitHolds(c, s);
    RunConserves(c, s, es);
  }
}
