/**
 The retry discipline: how often a job's handler is called, when the job reaches the
 dead-letter table, and how long it has waited by then.
 */
module Retries {
  import opened Wrappers
  import opened Folds
  import opened JobTables
  import opened Dispatch
  import opened Conservation

  /** Total pause before attempt k + 1: base_delay * (2 ** k - 1). */
  function Backoff(c: Config, k: nat): real {
    c.baseDelay * (Pow2(k) as real - 1.0)
  }

  lemma BackoffStep(c: Config, k: pos)
    ensures Backoff(c, k) == Backoff(c, k - 1) + Delay(c, k)
  {
  }

  /** The account of one job: handler calls, failed calls, and total pause. */
  ghost predicate Account(log: Log, o: nat, calls: nat, failures: nat, slept: real) {
    log.calls[o] == calls && log.failures[o] == failures && Slept(log, o) == slept
  }

  /** A job waiting for attempt number `attempt` has failed every earlier attempt. */
  ghost predicate Waiting(c: Config, log: Log, env: Envelope) {
    && env.attempt <= MaxAttempts(c)
    && Account(log, env.origin, env.attempt - 1, env.attempt - 1, Backoff(c, env.attempt - 1))
  }

  ghost predicate TaskOk(c: Config, log: Log, x: Task) {
    var a := x.env.attempt;
    match x.phase
    case Spawned => Waiting(c, log, x.env)
    case Running => a <= MaxAttempts(c) && Account(log, x.env.origin, a, a - 1, Backoff(c, a - 1))
    case BackingOff(_, _) => a < c.maxRetries && Account(log, x.env.origin, a, a, Backoff(c, a - 1))
    case Exhausted(_) => a == MaxAttempts(c) && Account(log, x.env.origin, a, a, Backoff(c, a - 1))
  }

  /** A dead letter has failed exactly MaxAttempts times. */
  ghost predicate DeadOk(c: Config, log: Log, d: DeadLetter) {
    var m := MaxAttempts(c);
    d.env.attempt == m && Account(log, d.env.origin, m, m, Backoff(c, m - 1))
  }

  ghost predicate OriginOk(c: Config, log: Log, o: nat) {
    && log.failures[o] <= log.calls[o] <= MaxAttempts(c)
    && (|log.enqueued| <= o ==> Account(log, o, 0, 0, 0.0))
  }

  ghost predicate Accounts(c: Config, s: State) {
    && (forall i :: 0 <= i < |s.rows| ==> Waiting(c, s.log, s.rows[i].env))
    && (forall w: nat, t: nat :: TaskAt(s, w, t) ==> TaskOk(c, s.log, s.workers[w].tasks[t]))
    && (forall i :: 0 <= i < |s.dlq| ==> DeadOk(c, s.log, s.dlq[i]))
    && (forall o: nat :: OriginOk(c, s.log, o))
  }

  // ---- one job, one place

  /** Task t of worker w is the only trace of its job in the tables and task sets. */
  ghost predicate Alone(s: State, w: nat, t: nat)
    requires TaskAt(s, w, t)
  {
    var o := s.workers[w].tasks[t].env.origin;
    && o < |s.log.enqueued|
    && (forall i :: 0 <= i < |s.rows| ==> s.rows[i].env.origin != o)
    && (forall i :: 0 <= i < |s.dlq| ==> s.dlq[i].env.origin != o)
    && (forall w': nat, t': nat :: TaskAt(s, w', t') && (w', t') != (w, t) ==> s.workers[w'].tasks[t'].env.origin != o)
  }

  lemma TaskElsewhere(s: State, w: nat, t: nat, w': nat, t': nat)
    requires TaskAt(s, w, t) && TaskAt(s, w', t') && (w', t') != (w, t)
    ensures TaskTicket(s.workers[w'].tasks[t']) in InFlight(SetTasks(s, w, Remove(s.workers[w].tasks, t)))
  {
    var rest := SetTasks(s, w, Remove(s.workers[w].tasks, t));
    var x := s.workers[w'].tasks[t'];
    var t'' := if w' == w && t < t' then t' - 1 else t';
    assert rest.workers[w'].tasks[t''] == x;
    InFlat(rest.workers, w', t'');
    var i :| 0 <= i < |Flat(rest.workers)| && Flat(rest.workers)[i] == x;
    BagMember(Flat(rest.workers), i, TaskTicket);
  }

  lemma ConservedAlone(s: State, w: nat, t: nat)
    requires Conserved(s) && TaskAt(s, w, t)
    ensures Alone(s, w, t)
  {
    var x := TaskTicket(s.workers[w].tasks[t]);
    var others := SetTasks(s, w, Remove(s.workers[w].tasks, t));
    InFlightRemove(s, w, t);
    assert Places(s) == Places(others) + multiset{x};
    IssuedOnce(s.log.enqueued, x);
    assert Places(s)[x] == 1 && Places(others)[x] == 0;
    forall y: Ticket | y in Places(others) ensures y.origin != x.origin {
      assert y in Places(s);
      IssuedOnce(s.log.enqueued, y);
    }
    forall i | 0 <= i < |s.rows| ensures s.rows[i].env.origin != x.origin {
      BagMember(s.rows, i, RowTicket);
      assert RowTicket(s.rows[i]) in Places(others);
    }
    forall i | 0 <= i < |s.dlq| ensures s.dlq[i].env.origin != x.origin {
      BagMember(s.dlq, i, DeadTicket);
      assert DeadTicket(s.dlq[i]) in Places(others);
    }
    forall w': nat, t': nat | TaskAt(s, w', t') && (w', t') != (w, t)
      ensures s.workers[w'].tasks[t'].env.origin != x.origin
    {
      TaskElsewhere(s, w, t, w', t');
      assert TaskTicket(s.workers[w'].tasks[t']) in Places(others);
    }
  }

  // ---- every step keeps the accounts

  /** The logs agree on every job but o. */
  ghost predicate SameBut(log: Log, log': Log, o: nat) {
    forall p: nat :: p != o ==>
      log'.calls[p] == log.calls[p] && log'.failures[p] == log.failures[p] && Slept(log', p) == Slept(log, p)
  }

  lemma EnqueueAccounts(c: Config, s: State, job: Job, priority: int)
    requires Accounts(c, s)
    ensures Accounts(c, Apply(c, s, Enqueue(job, priority)))
  {
    var s' := Apply(c, s, Enqueue(job, priority));
    assert OriginOk(c, s.log, |s.log.enqueued|);
    BackoffZero(c);
    forall o: nat ensures OriginOk(c, s'.log, o) {
      assert OriginOk(c, s.log, o);
    }
    forall i | 0 <= i < |s'.rows| ensures Waiting(c, s'.log, s'.rows[i].env) {
    }
    forall w: nat, t: nat | TaskAt(s', w, t) ensures TaskOk(c, s'.log, s'.workers[w].tasks[t]) {
      assert TaskAt(s, w, t);
    }
  }

  lemma BackoffZero(c: Config)
    ensures Backoff(c, 0) == 0.0
  {
  }

  lemma DequeueAccounts(c: Config, s: State, w: nat, i: nat)
    requires w < |s.workers| && i < |s.rows| && Accounts(c, s)
    ensures Accounts(c, ApplyDequeue(c, s, w, i))
  {
  }

  /** A finished task leaves the accounts as they are. */
  lemma RemoveAccounts(c: Config, s: State, w: nat, t: nat, s': State)
    requires TaskAt(s, w, t) && Accounts(c, s)
    requires s'.workers == SetTasks(s, w, Remove(s.workers[w].tasks, t)).workers
    requires s'.log.(handled := s.log.handled, discarded := s.log.discarded) == s.log
    requires s'.rows == s.rows && s'.dlq == s.dlq
    ensures Accounts(c, s')
  {
    forall w': nat, t': nat | TaskAt(s', w', t') ensures TaskOk(c, s'.log, s'.workers[w'].tasks[t']) {
      var t'' := if w' == w && t <= t' then t' + 1 else t';
      assert TaskAt(s, w', t'') && s.workers[w'].tasks[t''] == s'.workers[w'].tasks[t'];
    }
    forall o: nat ensures OriginOk(c, s'.log, o) {
      assert OriginOk(c, s.log, o);
    }
  }

  /** The task moves to another phase, and only its own account changes. */
  lemma PhaseAccounts(c: Config, s: State, w: nat, t: nat, phase: Phase, log: Log)
    requires TaskAt(s, w, t) && Accounts(c, s) && Alone(s, w, t)
    requires SameBut(s.log, log, s.workers[w].tasks[t].env.origin) && log.enqueued == s.log.enqueued
    requires TaskOk(c, log, s.workers[w].tasks[t].(phase := phase))
    requires OriginOk(c, log, s.workers[w].tasks[t].env.origin)
    ensures Accounts(c, SetTasks(s, w, s.workers[w].tasks[t := s.workers[w].tasks[t].(phase := phase)]).(log := log))
  {
    var x := s.workers[w].tasks[t].(phase := phase);
    var s' := SetTasks(s, w, s.workers[w].tasks[t := x]).(log := log);
    forall w': nat, t': nat | TaskAt(s', w', t') ensures TaskOk(c, log, s'.workers[w'].tasks[t']) {
      assert TaskAt(s, w', t');
    }
    forall o: nat ensures OriginOk(c, log, o) {
      assert OriginOk(c, s.log, o);
    }
  }

  lemma AcquireAccounts(c: Config, s: State, w: nat, t: nat)
    requires TaskAt(s, w, t) && s.workers[w].tasks[t].phase.Spawned? && Conserved(s) && Accounts(c, s)
    ensures Accounts(c, ApplyAcquire(s, w, t))
  {
    ConservedAlone(s, w, t);
    assert TaskOk(c, s.log, s.workers[w].tasks[t]);
    PhaseAccounts(c, s, w, t, Running, ApplyAcquire(s, w, t).log);
  }

  /** The task goes away; the rows or dead letters gained and the changed account concern its own job. */
  lemma LeaveAccounts(c: Config, s: State, w: nat, t: nat, s': State)
    requires TaskAt(s, w, t) && Accounts(c, s) && Alone(s, w, t)
    requires SameBut(s.log, s'.log, s.workers[w].tasks[t].env.origin) && s'.log.enqueued == s.log.enqueued
    requires s'.workers == SetTasks(s, w, Remove(s.workers[w].tasks, t)).workers
    requires s.rows <= s'.rows && forall i :: |s.rows| <= i < |s'.rows| ==> Waiting(c, s'.log, s'.rows[i].env)
    requires s.dlq <= s'.dlq && forall i :: |s.dlq| <= i < |s'.dlq| ==> DeadOk(c, s'.log, s'.dlq[i])
    requires OriginOk(c, s'.log, s.workers[w].tasks[t].env.origin)
    ensures Accounts(c, s')
  {
    forall w': nat, t': nat | TaskAt(s', w', t') ensures TaskOk(c, s'.log, s'.workers[w'].tasks[t']) {
      var t'' := if w' == w && t <= t' then t' + 1 else t';
      assert TaskAt(s, w', t'') && s.workers[w'].tasks[t''] == s'.workers[w'].tasks[t'];
      assert (w', t'') != (w, t);
    }
    forall o: nat ensures OriginOk(c, s'.log, o) {
      assert OriginOk(c, s.log, o);
    }
    forall i | 0 <= i < |s'.rows| ensures Waiting(c, s'.log, s'.rows[i].env) {
      if i < |s.rows| {
        assert s'.rows[i] == s.rows[i];
      }
    }
    forall i | 0 <= i < |s'.dlq| ensures DeadOk(c, s'.log, s'.dlq[i]) {
      if i < |s.dlq| {
        assert s'.dlq[i] == s.dlq[i];
      }
    }
  }

  lemma RetryAccounts(c: Config, s: State, w: nat, t: nat, error: string, phase: Phase)
    requires TaskAt(s, w, t) && s.workers[w].tasks[t].phase.Running? && Alone(s, w, t) && Accounts(c, s)
    requires AfterFailure(c, s.now, s.workers[w].tasks[t].env.attempt, error) == Some(phase)
    ensures Accounts(c, ApplyFail(c, s, w, t, error))
  {
    var x := s.workers[w].tasks[t];
    assert TaskOk(c, s.log, x) && OriginOk(c, s.log, x.env.origin);
    PhaseAccounts(c, s, w, t, phase, ApplyFail(c, s, w, t, error).log);
  }

  lemma DropAccounts(c: Config, s: State, w: nat, t: nat, error: string)
    requires TaskAt(s, w, t) && s.workers[w].tasks[t].phase.Running? && Alone(s, w, t) && Accounts(c, s)
    requires AfterFailure(c, s.now, s.workers[w].tasks[t].env.attempt, error).None?
    ensures Accounts(c, ApplyFail(c, s, w, t, error))
  {
    var x := s.workers[w].tasks[t];
    assert TaskOk(c, s.log, x) && OriginOk(c, s.log, x.env.origin);
    LeaveAccounts(c, s, w, t, ApplyFail(c, s, w, t, error));
  }

  lemma FailAccounts(c: Config, s: State, w: nat, t: nat, error: string)
    requires TaskAt(s, w, t) && s.workers[w].tasks[t].phase.Running? && Conserved(s) && Accounts(c, s)
    ensures Accounts(c, ApplyFail(c, s, w, t, error))
  {
    ConservedAlone(s, w, t);
    match AfterFailure(c, s.now, s.workers[w].tasks[t].env.attempt, error) {
      case Some(phase) => RetryAccounts(c, s, w, t, error, phase);
      case None => DropAccounts(c, s, w, t, error);
    }
  }

  lemma NackAccounts(c: Config, s: State, w: nat, t: nat)
    requires TaskAt(s, w, t) && s.workers[w].tasks[t].phase.BackingOff? && Conserved(s) && Accounts(c, s)
    ensures Accounts(c, ApplyNack(c, s, w, t))
  {
    ConservedAlone(s, w, t);
    var x := s.workers[w].tasks[t];
    assert TaskOk(c, s.log, x);
    assert OriginOk(c, s.log, x.env.origin);
    BackoffStep(c, x.env.attempt);
    LeaveAccounts(c, s, w, t, ApplyNack(c, s, w, t));
  }

  lemma ToDlqAccounts(c: Config, s: State, w: nat, t: nat)
    requires TaskAt(s, w, t) && s.workers[w].tasks[t].phase.Exhausted? && Conserved(s) && Accounts(c, s)
    ensures Accounts(c, ApplyToDlq(s, w, t))
  {
  }

  /** Control steps: no task changes, though a worker may lose all of its tasks. */
  lemma ControlAccounts(c: Config, s: State, w: nat, k: Worker, lost: multiset<Ticket>)
    requires w < |s.workers| && Accounts(c, s) && (k.tasks == [] || k.tasks == s.workers[w].tasks)
    ensures Accounts(c, SetWorker(s, w, k).(log := s.log.(lost := lost)))
  {
    var s' := SetWorker(s, w, k).(log := s.log.(lost := lost));
    forall w': nat, t': nat | TaskAt(s', w', t') ensures TaskOk(c, s'.log, s'.workers[w'].tasks[t']) {
      assert TaskAt(s, w', t');
    }
    forall o: nat ensures OriginOk(c, s'.log, o) {
      assert OriginOk(c, s.log, o);
    }
  }

  lemma AdvanceAccounts(c: Config, s: State, dt: real)
    requires Accounts(c, s)
    ensures Accounts(c, s.(now := s.now + dt))
  {
  }

  lemma StepAccounts(c: Config, s: State, e: Event)
    requires Enabled(c, s, e) && Conserved(s) && Accounts(c, s)
    ensures Accounts(c, Apply(c, s, e))
  {
    match e {
      case Advance(dt) => AdvanceAccounts(c, s, dt);
      case Enqueue(job, priority) => EnqueueAccounts(c, s, job, priority);
      case Dequeue(w, i, _) => DequeueAccounts(c, s, w, i);
      case NoHandler(w, t) => RemoveAccounts(c, s, w, t, Apply(c, s, e));
      case Acquire(w, t) => AcquireAccounts(c, s, w, t);
      case Succeed(w, t) => RemoveAccounts(c, s, w, t, Apply(c, s, e));
      case Fail(w, t, error) => FailAccounts(c, s, w, t, error);
      case Nack(w, t) => NackAccounts(c, s, w, t);
      case ToDlq(w, t) => ToDlqAccounts(c, s, w, t);
      case Stop(w) => ControlAccounts(c, s, w, s.workers[w].(loop := Draining), s.log.lost);
      case Exit(w) => ControlAccounts(c, s, w, s.workers[w].(loop := Exited), s.log.lost);
      case Crash(w) => ControlAccounts(c, s, w, s.workers[w].(loop := Exited, tasks := []), ApplyCrash(s, w).log.lost);
      case Boot(w) => ControlAccounts(c, s, w, Worker(Polling, 0, []), s.log.lost);
    }
  }

  lemma {:induction false} RunAccounts(c: Config, s: State, es: seq<Event>)
    requires Conserved(s) && Disciplined(c, s) && Accounts(c, s) && Exec(c, s, es).Some?
    ensures Accounts(c, Exec(c, s, es).value)
    decreases |es|
  {
    if es != [] {
      StepConserves(c, s, es[0]);
      StepDisciplined(c, s, es[0]);
      StepAccounts(c, s, es[0]);
      RunAccounts(c, Apply(c, s, es[0]), es[1..]);
    }
  }

  lemma InitAccounts(c: Config, s: State)
    requires Init(s)
    ensures Accounts(c, s)
  {
  }

  /** A dead letter is the job as it was enqueued. */
  lemma DeadIsIssued(s: State, i: nat)
    requires Conserved(s) && i < |s.dlq|
    ensures s.dlq[i].env.origin < |s.log.enqueued|
    ensures s.dlq[i].env.job == s.log.enqueued[s.dlq[i].env.origin]
  {
    BagMember(s.dlq, i, DeadTicket);
    assert DeadTicket(s.dlq[i]) in Places(s);
    IssuedOnce(s.log.enqueued, DeadTicket(s.dlq[i]));
  }

  /**
   The retry bound: whatever the interleaving, crashes included, a job's handler is called
   at most max(1, max_retries) times; and a dead letter is the job as it was enqueued, after
   exactly that many failures and a total pause of base_delay * (2 ** (m - 1) - 1).
   */
  lemma RetryBound(c: Config, s: State, es: seq<Event>)
    requires Init(s) && Exec(c, s, es).Some?
    ensures forall o: nat :: Exec(c, s, es).value.log.calls[o] <= MaxAttempts(c)
    ensures var s' := Exec(c, s, es).value;
            var m := MaxAttempts(c);
            forall i :: 0 <= i < |s'.dlq| ==>
              var env := s'.dlq[i].env;
              && env.origin < |s'.log.enqueued| && env.job == s'.log.enqueued[env.origin]
              && env.attempt == m && Account(s'.log, env.origin, m, m, Backoff(c, m - 1))
  {
    InitHolds(c, s);
    InitAccounts(c, s);
    RunConserves(c, s, es);
    RunAccounts(c, s, es);
    var s' := Exec(c, s, es).value;
    forall o: nat ensures s'.log.calls[o] <= MaxAttempts(c) {
      assert OriginOk(c, s'.log, o);
    }
    forall i | 0 <= i < |s'.dlq|
      ensures var env := s'.dlq[i].env;
              env.origin < |s'.log.enqueued| && env.job == s'.log.enqueued[env.origin]
    {
      DeadIsIssued(s', i);
    }
    assert forall i :: 0 <= i < |s'.dlq| ==> DeadOk(c, s'.log, s'.dlq[i]);
  }
}
