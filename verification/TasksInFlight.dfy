/**
 How many jobs one worker can have in flight.  The semaphore bounds its running handlers; the
 loop goes on dequeuing, so what bounds its tasks is `iterations`, if that is set.
 */
module TasksInFlight {
  import opened Wrappers
  import opened Folds
  import opened JobTables
  import opened Dispatch
  import opened Conservation

  /** The worker may hold n tasks: any number without `iterations`, else no more than that, but one. */
  predicate Allowed(c: Config, n: nat) {
    c.iterations.None? || n <= 1 || n <= c.iterations.value
  }

  // ---- no more than that

  /** Tasks come only from dequeues, and the loop leaves off at the last one. */
  ghost predicate Counted(c: Config, k: Worker) {
    && |k.tasks| <= k.dispatched
    && Allowed(c, k.dispatched)
    && (k.loop.Polling? ==> Allowed(c, k.dispatched + 1))
  }

  ghost predicate AllCounted(c: Config, s: State) {
    forall w :: 0 <= w < |s.workers| ==> Counted(c, s.workers[w])
  }

  /** A step changes at most one worker. */
  lemma OtherWorkersStay(c: Config, s: State, e: Event, w: nat)
    requires Enabled(c, s, e) && w < |s.workers| && !e.Advance? && !e.Enqueue? && w != e.w
    ensures |Apply(c, s, e).workers| == |s.workers| && Apply(c, s, e).workers[w] == s.workers[w]
  {
  }

  lemma WorkerCounted(c: Config, s: State, e: Event)
    requires Enabled(c, s, e) && !e.Advance? && !e.Enqueue? && e.w < |s.workers| && Counted(c, s.workers[e.w])
    ensures Counted(c, Apply(c, s, e).workers[e.w])
  {
  }

  lemma StepCounted(c: Config, s: State, e: Event)
    requires AllCounted(c, s) && Enabled(c, s, e)
    ensures AllCounted(c, Apply(c, s, e))
  {
    if !e.Advance? && !e.Enqueue? {
      WorkerCounted(c, s, e);
      forall w | 0 <= w < |s.workers| ensures Counted(c, Apply(c, s, e).workers[w]) {
        if w != e.w {
          OtherWorkersStay(c, s, e, w);
        }
      }
    }
  }

  lemma {:induction false} RunCounted(c: Config, s: State, es: seq<Event>)
    requires AllCounted(c, s) && Exec(c, s, es).Some?
    ensures AllCounted(c, Exec(c, s, es).value)
    decreases |es|
  {
    if es != [] {
      StepCounted(c, s, es[0]);
      RunCounted(c, Apply(c, s, es[0]), es[1..]);
    }
  }

  /** In every run a worker holds an allowed number of tasks, and that many at most are lost in its crash. */
  lemma TasksAllowed(c: Config, s: State, es: seq<Event>, w: nat)
    requires Init(s) && Exec(c, s, es).Some? && w < |Exec(c, s, es).value.workers|
    ensures var t := Exec(c, s, es).value;
            && Allowed(c, |t.workers[w].tasks|)
            && |ApplyCrash(t, w).log.lost| == |t.log.lost| + |t.workers[w].tasks|
  {
    RunCounted(c, s, es);
    var t := Exec(c, s, es).value;
    assert Counted(c, t.workers[w]);
    BagSize(t.workers[w].tasks, TaskTicket);
  }

  // ---- as many as that

  /** After n jobs: all of them are with worker 0, none has started, nothing is lost. */
  ghost predicate Full(c: Config, s: State, n: nat) {
    && s.rows == [] && |s.workers| == 1 && |s.workers[0].tasks| == n == s.workers[0].dispatched
    && (forall t :: 0 <= t < n ==> s.workers[0].tasks[t].phase.Spawned?)
    && (Allowed(c, n + 1) ==> s.workers[0].loop.Polling?)
    && !s.workers[0].loop.Exited?
    && |s.log.enqueued| == n && s.log.lost == multiset{}
  }

  /** One more job is enqueued and dequeued. */
  function OneMore(job: Job): seq<Event> {
    [Enqueue(job, NORMAL), Dequeue(0, 0, {})]
  }

  lemma FullerByOne(c: Config, s: State, n: nat, job: Job) returns (t: State)
    requires Full(c, s, n) && Allowed(c, n + 1)
    ensures Exec(c, s, OneMore(job)) == Some(t) && Full(c, t, n + 1)
  {
    var s1 := Apply(c, s, Enqueue(job, NORMAL));
    assert s1.rows == [Row(Envelope(n, job, 1), None, NORMAL, s.now)];
    assert Enabled(c, s1, Dequeue(0, 0, {}));
    t := Apply(c, s1, Dequeue(0, 0, {}));
    ExecTwo(c, s, Enqueue(job, NORMAL), Dequeue(0, 0, {}));
  }

  function FillUp(job: Job, n: nat): seq<Event> {
    if n == 0 then [Boot(0)] else FillUp(job, n - 1) + OneMore(job)
  }

  lemma {:induction false} FillsUp(c: Config, job: Job, n: nat)
    requires Allowed(c, n)
    ensures Exec(c, FRESH, FillUp(job, n)).Some? && Full(c, Exec(c, FRESH, FillUp(job, n)).value, n)
  {
    if n == 0 {
      var s := Apply(c, FRESH, Boot(0));
      assert [Boot(0)][1..] == [] && Exec(c, s, []) == Some(s);
    } else {
      FillsUp(c, job, n - 1);
      var s := Exec(c, FRESH, FillUp(job, n - 1)).value;
      var t := FullerByOne(c, s, n - 1, job);
      ExecConcat(c, FRESH, FillUp(job, n - 1), OneMore(job));
    }
  }

  /** No run of the system has a worker with more than n tasks. */
  ghost predicate NeverMore(c: Config, n: nat) {
    forall s, es :: Init(s) && Exec(c, s, es).Some? ==> AtMost(Exec(c, s, es).value, n)
  }

  ghost predicate AtMost(s: State, n: nat) {
    forall w :: 0 <= w < |s.workers| ==> |s.workers[w].tasks| <= n
  }

  /**
   A worker's tasks stay within n in all runs exactly when `iterations` is set, to at most n, and
   n is not 0; so within the semaphore's permits exactly when `iterations` is no more than those.
   */
  lemma NeverMoreIff(c: Config, n: nat)
    ensures NeverMore(c, n) <==> c.iterations.Some? && n >= 1 && c.iterations.value <= n
  {
    if c.iterations.Some? && n >= 1 && c.iterations.value <= n {
      forall s, es | Init(s) && Exec(c, s, es).Some? ensures AtMost(Exec(c, s, es).value, n) {
        RunCounted(c, s, es);
      }
    } else {
      FillsUp(c, Job("", ""), n + 1);
      assert !AtMost(Exec(c, FRESH, FillUp(Job("", ""), n + 1)).value, n);
    }
  }

  /** One crash can lose any allowed number of jobs: without `iterations`, any number at all. */
  lemma OneCrashLosesMany(c: Config, job: Job, n: nat)
    requires Allowed(c, n)
    ensures var run := Exec(c, FRESH, FillUp(job, n) + [Crash(0)]);
            run.Some? && |run.value.log.enqueued| == |run.value.log.lost| == n && CrashFree(FillUp(job, n))
  {
    FillsUp(c, job, n);
    var s := Exec(c, FRESH, FillUp(job, n)).value;
    BagSize(s.workers[0].tasks, TaskTicket);
    ExecConcat(c, FRESH, FillUp(job, n), [Crash(0)]);
    assert [Crash(0)][1..] == [] && Exec(c, ApplyCrash(s, 0), []) == Some(ApplyCrash(s, 0));
    FillUpIsCrashFree(job, n);
  }

  lemma {:induction false} FillUpIsCrashFree(job: Job, n: nat)
    ensures CrashFree(FillUp(job, n))
  {
    if n > 0 {
      FillUpIsCrashFree(job, n - 1);
    }
  }
}
