/**
 Draining: without new enqueues the system runs out of work after a bounded number of
 steps, and when no step is left every job has settled.
 */
module Drain {
  import opened Wrappers
  import opened Folds
  import opened JobTables
  import opened Dispatch
  import opened Conservation
  import opened Retries

  /** The runs a job can still have, the current attempt included. */
  function RunsLeft(c: Config, attempt: pos): pos {
    if attempt < MaxAttempts(c) then MaxAttempts(c) - attempt + 1 else 1
  }

  /** Steps: dequeue, take a permit, finish, and re-insert for each run that is left. */
  function RowWork(c: Config): Row -> nat {
    (r: Row) => 4 * RunsLeft(c, r.env.attempt)
  }

  function TaskWork(c: Config): Task -> nat {
    (x: Task) =>
      match x.phase
      case Spawned => 4 * RunsLeft(c, x.env.attempt) - 1
      case Running => 4 * RunsLeft(c, x.env.attempt) - 2
      case BackingOff(_, _) => 4 * RunsLeft(c, x.env.attempt) - 3
      case Exhausted(_) => 1
  }

  function Work(c: Config, s: State): nat {
    Sum(s.rows, RowWork(c)) + Sum(Flat(s.workers), TaskWork(c))
  }

  predicate IsWork(e: Event) {
    e.Dequeue? || e.NoHandler? || e.Acquire? || e.Succeed? || e.Fail? || e.Nack? || e.ToDlq?
  }

  function WorkSteps(es: seq<Event>): nat {
    if es == [] then 0 else (if IsWork(es[0]) then 1 else 0) + WorkSteps(es[1..])
  }

  ghost predicate EnqueueFree(es: seq<Event>) {
    forall e :: e in es ==> !e.Enqueue?
  }

  lemma DequeueWorks(c: Config, s: State, w: nat, i: nat)
    requires w < |s.workers| && i < |s.rows|
    ensures Work(c, ApplyDequeue(c, s, w, i)) < Work(c, s)
  {
    var s' := ApplyDequeue(c, s, w, i);
    SumRemove(s.rows, i, RowWork(c));
    FlatSum(s.workers, w, s'.workers[w], TaskWork(c));
    SumAppend(s.workers[w].tasks, Task(s.rows[i].env, Spawned), TaskWork(c));
    assert s'.workers == s.workers[w := s'.workers[w]];
  }

  /** Changing a task's phase changes the work by the difference of the two phases. */
  lemma PhaseWorks(c: Config, s: State, w: nat, t: nat, x: Task, log: Log)
    requires TaskAt(s, w, t) && TaskWork(c)(x) < TaskWork(c)(s.workers[w].tasks[t])
    ensures Work(c, SetTasks(s, w, s.workers[w].tasks[t := x]).(log := log)) < Work(c, s)
  {
    var tasks := s.workers[w].tasks;
    FlatSum(s.workers, w, s.workers[w].(tasks := tasks[t := x]), TaskWork(c));
    SumUpdate(tasks, t, x, TaskWork(c));
  }

  lemma LeaveWorks(c: Config, s: State, w: nat, t: nat, s': State)
    requires TaskAt(s, w, t)
    requires s'.workers == SetTasks(s, w, Remove(s.workers[w].tasks, t)).workers
    requires Sum(s'.rows, RowWork(c)) < Sum(s.rows, RowWork(c)) + TaskWork(c)(s.workers[w].tasks[t])
    ensures Work(c, s') < Work(c, s)
  {
    var tasks := s.workers[w].tasks;
    FlatSum(s.workers, w, s.workers[w].(tasks := Remove(tasks, t)), TaskWork(c));
    SumRemove(tasks, t, TaskWork(c));
  }

  lemma FailWorks(c: Config, s: State, w: nat, t: nat, error: string)
    requires TaskAt(s, w, t) && s.workers[w].tasks[t].phase.Running?
    ensures Work(c, ApplyFail(c, s, w, t, error)) < Work(c, s)
  {
    var x := s.workers[w].tasks[t];
    var s' := ApplyFail(c, s, w, t, error);
    match AfterFailure(c, s.now, x.env.attempt, error) {
      case Some(phase) => PhaseWorks(c, s, w, t, Task(x.env, phase), s'.log);
      case None => LeaveWorks(c, s, w, t, s');
    }
  }

  lemma NackWorks(c: Config, s: State, w: nat, t: nat)
    requires TaskAt(s, w, t) && s.workers[w].tasks[t].phase.BackingOff?
    requires s.workers[w].tasks[t].env.attempt < c.maxRetries
    ensures Work(c, ApplyNack(c, s, w, t)) < Work(c, s)
  {
    var s' := ApplyNack(c, s, w, t);
    SumAppend(s.rows, s'.rows[|s.rows|], RowWork(c));
    LeaveWorks(c, s, w, t, s');
  }

  lemma IdleWorks(c: Config, s: State, w: nat, k: Worker)
    requires w < |s.workers| && (k.tasks == [] || k.tasks == s.workers[w].tasks)
    ensures Work(c, SetWorker(s, w, k)) <= Work(c, s)
  {
    FlatSum(s.workers, w, k, TaskWork(c));
  }

  lemma StepWorks(c: Config, s: State, e: Event)
    requires Enabled(c, s, e) && !e.Enqueue? && Accounts(c, s)
    ensures Work(c, Apply(c, s, e)) + (if IsWork(e) then 1 else 0) <= Work(c, s)
  {
    match e {
      case Advance(_) =>
      case Dequeue(w, i, _) => DequeueWorks(c, s, w, i);
      case NoHandler(w, t) => LeaveWorks(c, s, w, t, Apply(c, s, e));
      case Acquire(w, t) =>
        PhaseWorks(c, s, w, t, s.workers[w].tasks[t].(phase := Running), ApplyAcquire(s, w, t).log);
      case Succeed(w, t) => LeaveWorks(c, s, w, t, Apply(c, s, e));
      case Fail(w, t, error) => FailWorks(c, s, w, t, error);
      case Nack(w, t) =>
        assert TaskOk(c, s.log, s.workers[w].tasks[t]);
        NackWorks(c, s, w, t);
      case ToDlq(w, t) => LeaveWorks(c, s, w, t, ApplyToDlq(s, w, t));
      case Stop(w) => IdleWorks(c, s, w, s.workers[w].(loop := Draining));
      case Exit(w) => IdleWorks(c, s, w, s.workers[w].(loop := Exited));
      case Crash(w) => IdleWorks(c, s, w, s.workers[w].(loop := Exited, tasks := []));
      case Boot(w) => IdleWorks(c, s, w, Worker(Polling, 0, []));
    }
  }

  /** Every schedule without enqueues does at most Work(s) steps of work. */
  lemma {:induction false} DrainBound(c: Config, s: State, es: seq<Event>)
    requires Conserved(s) && Disciplined(c, s) && Accounts(c, s)
    requires Exec(c, s, es).Some? && EnqueueFree(es)
    ensures WorkSteps(es) + Work(c, Exec(c, s, es).value) <= Work(c, s)
    decreases |es|
  {
    if es != [] {
      assert es[0] in es;
      assert forall e :: e in es[1..] ==> e in es;
      StepWorks(c, s, es[0]);
      StepConserves(c, s, es[0]);
      StepDisciplined(c, s, es[0]);
      StepAccounts(c, s, es[0]);
      DrainBound(c, Apply(c, s, es[0]), es[1..]);
    }
  }

  /** Taking all occurrences of o out of a bag. */
  lemma BagWithout(calls: multiset<nat>, o: nat)
    ensures |calls| == |calls[o := 0]| + calls[o]
  {
    assert calls == calls[o := 0] + multiset{}[o := calls[o]];
  }

  lemma {:induction false} BoundedBag(calls: multiset<nat>, n: nat, m: nat)
    requires forall o: nat :: calls[o] <= m && (n <= o ==> calls[o] == 0)
    ensures |calls| <= n * m
    decreases n
  {
    if n == 0 {
      assert calls == multiset{};
    } else {
      BagWithout(calls, n - 1);
      BoundedBag(calls[n - 1 := 0], n - 1, m);
      assert n * m == (n - 1) * m + m;
    }
  }

  /** N enqueued jobs cause at most N * max(1, max_retries) handler calls in all. */
  lemma CallBudget(c: Config, s: State, es: seq<Event>)
    requires Init(s) && Exec(c, s, es).Some?
    ensures |Exec(c, s, es).value.log.calls| <= |Exec(c, s, es).value.log.enqueued| * MaxAttempts(c)
  {
    InitHolds(c, s);
    InitAccounts(c, s);
    RunAccounts(c, s, es);
    var log := Exec(c, s, es).value.log;
    forall o: nat ensures log.calls[o] <= MaxAttempts(c) && (|log.enqueued| <= o ==> log.calls[o] == 0) {
      assert OriginOk(c, log, o);
    }
    BoundedBag(log.calls, |log.enqueued|, MaxAttempts(c));
  }

  // ---- no deadlock

  function Later(s: State, dt: real): State {
    s.(now := s.now + dt)
  }

  /** No step of work is possible, now or after any wait. */
  ghost predicate Quiescent(c: Config, s: State) {
    forall e, dt :: IsWork(e) && dt >= 0.0 ==> !Enabled(c, Later(s, dt), e)
  }

  lemma CanMove(c: Config, s: State, dt: real, e: Event)
    requires dt >= 0.0 && IsWork(e) && Enabled(c, Later(s, dt), e)
    ensures !Quiescent(c, s)
  {
  }

  lemma HeadExists(rows: seq<Row>) returns (i: nat)
    requires rows != []
    ensures IsHead(rows, {}, i)
  {
    i := 0;
    var k := 1;
    while k < |rows|
      invariant 1 <= k <= |rows| && i < k
      invariant forall j :: 0 <= j < k ==> !Before(rows[j], rows[i])
    {
      if Before(rows[k], rows[i]) {
        i := k;
      }
      k := k + 1;
    }
  }

  lemma {:induction false} SomeRunning(tasks: seq<Task>) returns (t: nat)
    requires RunningCount(tasks) > 0
    ensures t < |tasks| && tasks[t].phase.Running?
  {
    if tasks[0].phase.Running? {
      t := 0;
    } else {
      var u := SomeRunning(tasks[1..]);
      t := u + 1;
    }
  }

  lemma TaskCanMove(c: Config, s: State, w: nat, t: nat)
    requires TaskAt(s, w, t) && c.maxConcurrency >= 1
    ensures !Quiescent(c, s)
  {
    match s.workers[w].tasks[t].phase {
      case Spawned =>
        if s.workers[w].tasks[t].env.job.kind !in c.handlers {
          CanMove(c, s, 0.0, NoHandler(w, t));
        } else if RunningCount(s.workers[w].tasks) < c.maxConcurrency {
          CanMove(c, s, 0.0, Acquire(w, t));
        } else {
          var u := SomeRunning(s.workers[w].tasks);
          CanMove(c, s, 0.0, Succeed(w, u));
        }
      case Running => CanMove(c, s, 0.0, Succeed(w, t));
      case BackingOff(_, until) =>
        var dt := if until <= s.now then 0.0 else until - s.now;
        CanMove(c, s, dt, Nack(w, t));
      case Exhausted(_) => CanMove(c, s, 0.0, ToDlq(w, t));
    }
  }

  /** While one worker polls and handlers may run, only a drained system is quiescent. */
  lemma QuiescentIsDrained(c: Config, s: State, w: nat)
    requires c.maxConcurrency >= 1 && w < |s.workers| && s.workers[w].loop.Polling? && Quiescent(c, s)
    ensures s.rows == [] && Flat(s.workers) == []
  {
    if s.rows != [] {
      var i := HeadExists(s.rows);
      CanMove(c, s, 0.0, Dequeue(w, i, {}));
    }
    forall v | 0 <= v < |s.workers| ensures s.workers[v].tasks == [] {
      if s.workers[v].tasks != [] {
        TaskCanMove(c, s, v, 0);
      }
    }
    NothingInFlight(s.workers);
  }

  /** When a crash-free system comes to rest every enqueued job has been settled. */
  lemma DrainSettlesAll(c: Config, s: State, es: seq<Event>, w: nat)
    requires Init(s) && Exec(c, s, es).Some? && CrashFree(es)
    requires c.maxConcurrency >= 1 && w < |Exec(c, s, es).value.workers|
    requires Exec(c, s, es).value.workers[w].loop.Polling? && Quiescent(c, Exec(c, s, es).value)
    ensures var s' := Exec(c, s, es).value;
            Issued(s'.log.enqueued) == s'.log.handled + s'.log.discarded + s'.log.dropped + Dead(s')
  {
    var s' := Exec(c, s, es).value;
    InitHolds(c, s);
    RunConserves(c, s, es);
    NoCrashNoLoss(c, s, es);
    QuiescentIsDrained(c, s', w);
  }

  // ---- no permits

  /** No handler has run, and only jobs without a handler have left their tasks. */
  ghost predicate NeverStarted(c: Config, s: State) {
    && s.log.calls == multiset{} && s.log.handled == multiset{} && s.log.dropped == multiset{} && s.dlq == []
    && (forall x :: x in s.log.discarded ==> x.job.kind !in c.handlers)
    && (forall w: nat, t: nat :: TaskAt(s, w, t) ==> s.workers[w].tasks[t].phase.Spawned?)
  }

  lemma NeverStartedStep(c: Config, s: State, e: Event)
    requires c.maxConcurrency == 0 && NeverStarted(c, s) && Enabled(c, s, e)
    ensures NeverStarted(c, Apply(c, s, e))
  {
    var s' := Apply(c, s, e);
    assert !e.Succeed? && !e.Fail? && !e.Nack? && !e.ToDlq? && !e.Acquire?;
    forall w: nat, t: nat | TaskAt(s', w, t) ensures s'.workers[w].tasks[t].phase.Spawned? {
      if e.NoHandler? && w == e.w && t >= e.t {
        assert TaskAt(s, w, t + 1);
      } else if e.Dequeue? && w == e.w && t == |s.workers[w].tasks| {
      } else {
        assert TaskAt(s, w, t);
      }
    }
  }

  lemma {:induction false} NeverStartedRun(c: Config, s: State, es: seq<Event>)
    requires c.maxConcurrency == 0 && NeverStarted(c, s) && Exec(c, s, es).Some?
    ensures NeverStarted(c, Exec(c, s, es).value)
    decreases |es|
  {
    if es != [] {
      NeverStartedStep(c, s, es[0]);
      NeverStartedRun(c, Apply(c, s, es[0]), es[1..]);
    }
  }

  /**
   With max_concurrency 0, in every run: no handler is ever called, nothing is handled, dropped
   or dead-lettered, and a job that has a handler is queued, waits in a task, or was lost in a
   crash.  So the condition on the permits above is needed.
   */
  lemma NoPermitsNoProgress(c: Config, s: State, es: seq<Event>, o: nat)
    requires c.maxConcurrency == 0 && Init(s) && Exec(c, s, es).Some?
    ensures var s' := Exec(c, s, es).value;
            && s'.log.calls == multiset{} && s'.log.handled == multiset{} && s'.log.dropped == multiset{} && s'.dlq == []
            && (o < |s'.log.enqueued| && s'.log.enqueued[o].kind in c.handlers ==>
                  var x := Ticket(o, s'.log.enqueued[o]); Queued(s')[x] + InFlight(s')[x] + s'.log.lost[x] == 1)
  {
    NeverStartedRun(c, s, es);
    var s' := Exec(c, s, es).value;
    if o < |s'.log.enqueued| {
      OnePlace(c, s, es, o);
    }
  }
}
