/**
 The back-off on the clock: every attempt after the first, and every dead letter, comes at
 least the total back-off after the job's enqueue.
 */
module Waits {
  import opened Wrappers
  import opened Folds
  import opened JobTables
  import opened Dispatch
  import opened Retries

  /** Time `at` lies at least k back-offs after enqueue o. */
  predicate After(c: Config, log: Log, o: nat, k: nat, at: real) {
    o < |log.born| && log.born[o] + Backoff(c, k) <= at
  }

  predicate RowWaited(c: Config, log: Log, r: Row) {
    After(c, log, r.env.origin, r.env.attempt - 1, r.createdAt)
  }

  predicate TaskWaited(c: Config, log: Log, now: real, x: Task) {
    match x.phase
    case BackingOff(_, until) => After(c, log, x.env.origin, x.env.attempt, until)
    case _ => After(c, log, x.env.origin, x.env.attempt - 1, now)
  }

  predicate DeadWaited(c: Config, log: Log, d: DeadLetter) {
    After(c, log, d.env.origin, d.env.attempt - 1, d.createdAt)
  }

  ghost predicate Waited(c: Config, s: State) {
    && |s.log.born| == |s.log.enqueued|
    && (forall i :: 0 <= i < |s.rows| ==> RowWaited(c, s.log, s.rows[i]) && s.rows[i].createdAt <= s.now)
    && (forall w: nat, t: nat :: TaskAt(s, w, t) ==> TaskWaited(c, s.log, s.now, s.workers[w].tasks[t]))
    && (forall i :: 0 <= i < |s.dlq| ==> DeadWaited(c, s.log, s.dlq[i]))
  }

  /** Steps that leave every task of the other workers alone. */
  lemma OneWorkerWaited(c: Config, s: State, w: nat, s': State)
    requires Waited(c, s) && w < |s.workers| == |s'.workers|
    requires forall v :: 0 <= v < |s.workers| && v != w ==> s'.workers[v] == s.workers[v]
    requires forall x :: x in s'.workers[w].tasks ==> x in s.workers[w].tasks || TaskWaited(c, s.log, s.now, x)
    requires s'.now == s.now && s'.log.born == s.log.born && s'.log.enqueued == s.log.enqueued
    requires forall r :: r in s'.rows ==> r in s.rows || (RowWaited(c, s.log, r) && r.createdAt <= s.now)
    requires forall d :: d in s'.dlq ==> d in s.dlq || DeadWaited(c, s.log, d)
    ensures Waited(c, s')
  {
    forall i | 0 <= i < |s'.rows| ensures RowWaited(c, s'.log, s'.rows[i]) && s'.rows[i].createdAt <= s'.now {
      assert s'.rows[i] in s'.rows;
    }
    forall i | 0 <= i < |s'.dlq| ensures DeadWaited(c, s'.log, s'.dlq[i]) {
      assert s'.dlq[i] in s'.dlq;
    }
    forall v: nat, t: nat | TaskAt(s', v, t) ensures TaskWaited(c, s'.log, s'.now, s'.workers[v].tasks[t]) {
      var x := s'.workers[v].tasks[t];
      if v != w {
        assert TaskAt(s, v, t);
      } else if x in s.workers[w].tasks {
        var u :| 0 <= u < |s.workers[w].tasks| && s.workers[w].tasks[u] == x;
        assert TaskAt(s, w, u);
      } else {
        assert x in s'.workers[w].tasks;
      }
    }
  }

  lemma RemoveMembers<T>(xs: seq<T>, i: nat)
    requires i < |xs|
    ensures forall x :: x in Remove(xs, i) ==> x in xs
  {
  }

  lemma AdvanceWaited(c: Config, s: State, dt: real)
    requires Waited(c, s) && dt >= 0.0
    ensures Waited(c, s.(now := s.now + dt))
  {
    forall w: nat, t: nat | TaskAt(s.(now := s.now + dt), w, t)
      ensures TaskWaited(c, s.log, s.now + dt, s.workers[w].tasks[t])
    {
      assert TaskAt(s, w, t);
    }
  }

  lemma EnqueueWaited(c: Config, s: State, job: Job, priority: int)
    requires Waited(c, s)
    ensures Waited(c, Apply(c, s, Enqueue(job, priority)))
  {
    var s' := Apply(c, s, Enqueue(job, priority));
    BackoffZero(c);
    forall w: nat, t: nat | TaskAt(s', w, t) ensures TaskWaited(c, s'.log, s'.now, s'.workers[w].tasks[t]) {
      assert TaskAt(s, w, t);
    }
  }

  lemma DequeueWaited(c: Config, s: State, w: nat, i: nat)
    requires Waited(c, s) && w < |s.workers| && i < |s.rows|
    ensures Waited(c, ApplyDequeue(c, s, w, i))
  {
    RemoveMembers(s.rows, i);
    assert RowWaited(c, s.log, s.rows[i]);
    OneWorkerWaited(c, s, w, ApplyDequeue(c, s, w, i));
  }

  /** A task leaves or changes phase without a row or dead letter of its own. */
  lemma TaskStepWaited(c: Config, s: State, e: Event)
    requires Waited(c, s) && Enabled(c, s, e) && (e.NoHandler? || e.Acquire? || e.Succeed?)
    ensures Waited(c, Apply(c, s, e))
  {
    assert TaskAt(s, e.w, e.t) && TaskWaited(c, s.log, s.now, s.workers[e.w].tasks[e.t]);
    RemoveMembers(s.workers[e.w].tasks, e.t);
    OneWorkerWaited(c, s, e.w, Apply(c, s, e));
  }

  lemma FailWaited(c: Config, s: State, w: nat, t: nat, error: string)
    requires Waited(c, s) && TaskAt(s, w, t) && s.workers[w].tasks[t].phase.Running?
    ensures Waited(c, ApplyFail(c, s, w, t, error))
  {
    var x := s.workers[w].tasks[t];
    assert TaskWaited(c, s.log, s.now, x);
    BackoffStep(c, x.env.attempt);
    RemoveMembers(s.workers[w].tasks, t);
    OneWorkerWaited(c, s, w, ApplyFail(c, s, w, t, error));
  }

  lemma NackWaited(c: Config, s: State, w: nat, t: nat)
    requires Waited(c, s) && Enabled(c, s, Nack(w, t))
    ensures Waited(c, ApplyNack(c, s, w, t))
  {
    assert TaskWaited(c, s.log, s.now, s.workers[w].tasks[t]);
    RemoveMembers(s.workers[w].tasks, t);
    OneWorkerWaited(c, s, w, ApplyNack(c, s, w, t));
  }

  lemma ToDlqWaited(c: Config, s: State, w: nat, t: nat)
    requires Waited(c, s) && Enabled(c, s, ToDlq(w, t))
    ensures Waited(c, ApplyToDlq(s, w, t))
  {
    assert TaskWaited(c, s.log, s.now, s.workers[w].tasks[t]);
    RemoveMembers(s.workers[w].tasks, t);
    OneWorkerWaited(c, s, w, ApplyToDlq(s, w, t));
  }

  lemma WorkerStepWaited(c: Config, s: State, e: Event)
    requires Waited(c, s) && Enabled(c, s, e) && (e.Stop? || e.Exit? || e.Crash? || e.Boot?)
    ensures Waited(c, Apply(c, s, e))
  {
    OneWorkerWaited(c, s, e.w, Apply(c, s, e));
  }

  lemma StepWaited(c: Config, s: State, e: Event)
    requires Waited(c, s) && Enabled(c, s, e)
    ensures Waited(c, Apply(c, s, e))
  {
    match e {
      case Advance(dt) => AdvanceWaited(c, s, dt);
      case Enqueue(job, priority) => EnqueueWaited(c, s, job, priority);
      case Dequeue(w, i, _) => DequeueWaited(c, s, w, i);
      case Fail(w, t, error) => FailWaited(c, s, w, t, error);
      case Nack(w, t) => NackWaited(c, s, w, t);
      case ToDlq(w, t) => ToDlqWaited(c, s, w, t);
      case NoHandler(_, _) => TaskStepWaited(c, s, e);
      case Acquire(_, _) => TaskStepWaited(c, s, e);
      case Succeed(_, _) => TaskStepWaited(c, s, e);
      case _ => WorkerStepWaited(c, s, e);
    }
  }

  lemma {:induction false} RunWaited(c: Config, s: State, es: seq<Event>)
    requires Waited(c, s) && Exec(c, s, es).Some?
    ensures Waited(c, Exec(c, s, es).value)
    decreases |es|
  {
    if es != [] {
      StepWaited(c, s, es[0]);
      RunWaited(c, Apply(c, s, es[0]), es[1..]);
    }
  }

  /**
   In every run, with m = max(1, max_retries): a dead letter appears at least
   base_delay * (2 ** (m - 1) - 1) after its job was enqueued, and attempt number a of a job
   runs no earlier than base_delay * (2 ** (a - 1) - 1) after it.
   */
  lemma BackoffOnTheClock(c: Config, s: State, es: seq<Event>)
    requires Init(s) && Exec(c, s, es).Some?
    ensures var s' := Exec(c, s, es).value;
            && (forall i :: 0 <= i < |s'.dlq| ==>
                  After(c, s'.log, s'.dlq[i].env.origin, MaxAttempts(c) - 1, s'.dlq[i].createdAt))
            && (forall w: nat, t: nat :: TaskAt(s', w, t) && s'.workers[w].tasks[t].phase.Running? ==>
                  var env := s'.workers[w].tasks[t].env;
                  After(c, s'.log, env.origin, env.attempt - 1, s'.now))
  {
    RunWaited(c, s, es);
    RetryBound(c, s, es);
    var s' := Exec(c, s, es).value;
    forall i | 0 <= i < |s'.dlq|
      ensures After(c, s'.log, s'.dlq[i].env.origin, MaxAttempts(c) - 1, s'.dlq[i].createdAt)
    {
      assert DeadWaited(c, s'.log, s'.dlq[i]);
    }
    forall w: nat, t: nat | TaskAt(s', w, t) && s'.workers[w].tasks[t].phase.Running?
      ensures After(c, s'.log, s'.workers[w].tasks[t].env.origin, s'.workers[w].tasks[t].env.attempt - 1, s'.now)
    {
      assert TaskWaited(c, s'.log, s'.now, s'.workers[w].tasks[t]);
    }
  }
}
