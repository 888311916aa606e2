/**
 What became of a job, and why: which account each final place goes with, and which error and
 pause a failure leaves behind.
 */
module Verdicts {
  import opened Wrappers
  import opened Folds
  import opened JobTables
  import opened Dispatch
  import opened Conservation
  import opened Retries

  // ---- dead letters or drops

  /** With a dead-letter table nothing is dropped; without one nothing is or will be dead-lettered. */
  ghost predicate RightExit(c: Config, s: State) {
    && (c.hasDlq ==> s.log.dropped == multiset{})
    && (!c.hasDlq ==> s.dlq == [] && forall w: nat, t: nat :: TaskAt(s, w, t) ==> !s.workers[w].tasks[t].phase.Exhausted?)
  }

  /** Steps that drop nothing and add no dead letter and no task about to become one. */
  lemma SameExits(c: Config, s: State, s': State)
    requires RightExit(c, s) && s'.dlq == s.dlq && s'.log.dropped == s.log.dropped
    requires forall w: nat, t: nat :: TaskAt(s', w, t) && s'.workers[w].tasks[t].phase.Exhausted? ==>
      exists t': nat :: TaskAt(s, w, t') && s.workers[w].tasks[t'] == s'.workers[w].tasks[t]
    ensures RightExit(c, s')
  {
  }

  /** Worker w's tasks change, no new one being exhausted. */
  lemma TasksExit(c: Config, s: State, w: nat, k: Worker, s': State)
    requires RightExit(c, s) && w < |s.workers| && s'.workers == s.workers[w := k]
    requires s'.dlq == s.dlq && s'.log.dropped == s.log.dropped
    requires forall x :: x in k.tasks ==> x in s.workers[w].tasks || !x.phase.Exhausted?
    ensures RightExit(c, s')
  {
    forall v: nat, t: nat | TaskAt(s', v, t) && s'.workers[v].tasks[t].phase.Exhausted?
      ensures exists t': nat :: TaskAt(s, v, t') && s.workers[v].tasks[t'] == s'.workers[v].tasks[t]
    {
      if v == w {
        assert k.tasks[t] in k.tasks;
        var t' :| 0 <= t' < |s.workers[w].tasks| && s.workers[w].tasks[t'] == k.tasks[t];
        assert TaskAt(s, v, t');
      } else {
        assert TaskAt(s, v, t);
      }
    }
    SameExits(c, s, s');
  }

  lemma FailExit(c: Config, s: State, w: nat, t: nat, error: string)
    requires RightExit(c, s) && TaskAt(s, w, t)
    ensures RightExit(c, ApplyFail(c, s, w, t, error))
  {
    var s' := ApplyFail(c, s, w, t, error);
    forall v: nat, u: nat | TaskAt(s', v, u) && !c.hasDlq ensures !s'.workers[v].tasks[u].phase.Exhausted? {
      if v != w || |s'.workers[w].tasks| == |s.workers[w].tasks| {
        assert TaskAt(s, v, u);
      } else {
        assert TaskAt(s, v, if u < t then u else u + 1);
      }
    }
  }

  lemma StepExit(c: Config, s: State, e: Event)
    requires RightExit(c, s) && Enabled(c, s, e)
    ensures RightExit(c, Apply(c, s, e))
  {
    match e {
      case Advance(_) =>
        assert forall w: nat, t: nat :: TaskAt(Apply(c, s, e), w, t) ==> TaskAt(s, w, t);
      case Enqueue(_, _) =>
        assert forall w: nat, t: nat :: TaskAt(Apply(c, s, e), w, t) ==> TaskAt(s, w, t);
      case Fail(w, t, error) => FailExit(c, s, w, t, error);
      case ToDlq(w, t) =>
        assert c.hasDlq;
      case _ =>
        TasksExit(c, s, e.w, Apply(c, s, e).workers[e.w], Apply(c, s, e));
    }
  }

  // ---- the account of each final place

  /** A job that was ever called has a handler. */
  predicate CalledOk(c: Config, log: Log, o: nat) {
    log.calls[o] > 0 ==> o < |log.enqueued| && log.enqueued[o].kind in c.handlers
  }

  /** A handled job's last call succeeded, a discarded one has no handler, a dropped one failed every time. */
  ghost predicate PlaceOk(c: Config, log: Log, x: Ticket) {
    && (x in log.handled ==> log.calls[x.origin] == log.failures[x.origin] + 1)
    && (x in log.discarded ==> x.job.kind !in c.handlers)
    && (x in log.dropped ==> log.failures[x.origin] == MaxAttempts(c))
  }

  ghost predicate Judged(c: Config, log: Log) {
    && (forall o: nat :: CalledOk(c, log, o))
    && (forall x: Ticket :: PlaceOk(c, log, x))
  }

  /** A job in flight has settled nowhere. */
  lemma NotSettled(s: State, w: nat, t: nat)
    requires Conserved(s) && TaskAt(s, w, t)
    ensures var x := TaskTicket(s.workers[w].tasks[t]);
            && x.origin < |s.log.enqueued| && s.log.enqueued[x.origin] == x.job
            && forall y: Ticket :: y in Settled(s.log) ==> y.origin != x.origin
  {
    var x := TaskTicket(s.workers[w].tasks[t]);
    InFlightRemove(s, w, t);
    IssuedOnce(s.log.enqueued, x);
    assert Places(s)[x] == 1;
    forall y: Ticket | y in Settled(s.log) ensures y.origin != x.origin {
      assert y in Places(s);
      IssuedOnce(s.log.enqueued, y);
    }
  }

  /** Only the account of job x changes, and only x settles anew. */
  lemma JudgedStep(c: Config, log: Log, log': Log, x: Ticket)
    requires Judged(c, log) && log'.enqueued == log.enqueued
    requires forall o: nat :: o != x.origin ==> log'.calls[o] == log.calls[o] && log'.failures[o] == log.failures[o]
    requires forall y: Ticket :: y.origin != x.origin || y != x ==>
      (y in log'.handled ==> y in log.handled) && (y in log'.discarded ==> y in log.discarded)
      && (y in log'.dropped ==> y in log.dropped)
    requires forall y: Ticket :: y in Settled(log) ==> y.origin != x.origin
    requires CalledOk(c, log', x.origin) && PlaceOk(c, log', x)
    ensures Judged(c, log')
  {
    forall o: nat ensures CalledOk(c, log', o) {
      assert CalledOk(c, log, o);
    }
    forall y: Ticket ensures PlaceOk(c, log', y) {
      assert PlaceOk(c, log, y);
      if y != x && y.origin == x.origin {
        assert y !in Settled(log);
      }
    }
  }

  lemma AcquireJudged(c: Config, s: State, w: nat, t: nat)
    requires Conserved(s) && Accounts(c, s) && Judged(c, s.log) && Enabled(c, s, Acquire(w, t))
    ensures Judged(c, ApplyAcquire(s, w, t).log)
  {
    var x := TaskTicket(s.workers[w].tasks[t]);
    NotSettled(s, w, t);
    assert x !in Settled(s.log);
    JudgedStep(c, s.log, ApplyAcquire(s, w, t).log, x);
  }

  lemma FailJudged(c: Config, s: State, w: nat, t: nat, error: string)
    requires Conserved(s) && Accounts(c, s) && Judged(c, s.log) && Enabled(c, s, Fail(w, t, error))
    ensures Judged(c, ApplyFail(c, s, w, t, error).log)
  {
    var x := s.workers[w].tasks[t];
    NotSettled(s, w, t);
    assert TaskOk(c, s.log, x) && CalledOk(c, s.log, x.env.origin);
    assert TaskTicket(x) !in Settled(s.log);
    JudgedStep(c, s.log, ApplyFail(c, s, w, t, error).log, TaskTicket(x));
  }

  /** The steps that end a task without a failure. */
  lemma EndJudged(c: Config, s: State, e: Event)
    requires Conserved(s) && Accounts(c, s) && Judged(c, s.log) && Enabled(c, s, e) && (e.NoHandler? || e.Succeed?)
    ensures Judged(c, Apply(c, s, e).log)
  {
    var x := s.workers[e.w].tasks[e.t];
    NotSettled(s, e.w, e.t);
    assert TaskOk(c, s.log, x) && CalledOk(c, s.log, x.env.origin);
    assert TaskTicket(x) !in Settled(s.log);
    JudgedStep(c, s.log, Apply(c, s, e).log, TaskTicket(x));
  }

  lemma StepJudged(c: Config, s: State, e: Event)
    requires Conserved(s) && Accounts(c, s) && Judged(c, s.log) && Enabled(c, s, e)
    ensures Judged(c, Apply(c, s, e).log)
  {
    if e.NoHandler? || e.Succeed? {
      EndJudged(c, s, e);
    } else if e.Acquire? {
      AcquireJudged(c, s, e.w, e.t);
    } else if e.Fail? {
      FailJudged(c, s, e.w, e.t, e.error);
    } else {
      var log, log' := s.log, Apply(c, s, e).log;
      assert log.enqueued <= log'.enqueued && log'.calls == log.calls && log'.failures == log.failures;
      assert log'.handled == log.handled && log'.discarded == log.discarded && log'.dropped == log.dropped;
      forall o: nat ensures CalledOk(c, log', o) {
        assert CalledOk(c, log, o);
      }
      forall x: Ticket ensures PlaceOk(c, log', x) {
        assert PlaceOk(c, log, x);
      }
    }
  }

  lemma {:induction false} RunJudged(c: Config, s: State, es: seq<Event>)
    requires Conserved(s) && Disciplined(c, s) && Accounts(c, s) && Judged(c, s.log) && RightExit(c, s)
    requires Exec(c, s, es).Some?
    ensures Judged(c, Exec(c, s, es).value.log) && RightExit(c, Exec(c, s, es).value)
    decreases |es|
  {
    if es != [] {
      StepConserves(c, s, es[0]);
      StepDisciplined(c, s, es[0]);
      StepAccounts(c, s, es[0]);
      StepJudged(c, s, es[0]);
      StepExit(c, s, es[0]);
      RunJudged(c, Apply(c, s, es[0]), es[1..]);
    }
  }

  lemma ReachableJudged(c: Config, s: State, es: seq<Event>)
    requires Init(s) && Exec(c, s, es).Some?
    ensures var t := Exec(c, s, es).value;
            Conserved(t) && Accounts(c, t) && Judged(c, t.log) && RightExit(c, t)
  {
    InitHolds(c, s);
    InitAccounts(c, s);
    RunConserves(c, s, es);
    RunAccounts(c, s, es);
    RunJudged(c, s, es);
  }

  /**
   Which way a job leaves: in every run, with a dead-letter table no job is ever dropped, and
   without one no job is ever dead-lettered or about to be.
   */
  lemma DeadLetterOrDrop(c: Config, s: State, es: seq<Event>)
    requires Init(s) && Exec(c, s, es).Some?
    ensures var t := Exec(c, s, es).value;
            && (c.hasDlq ==> t.log.dropped == multiset{})
            && (!c.hasDlq ==> t.dlq == [])
            && (!c.hasDlq ==> forall w: nat, i: nat :: TaskAt(t, w, i) ==> !t.workers[w].tasks[i].phase.Exhausted?)
  {
    ReachableJudged(c, s, es);
  }

  /** Some task has given up on the job and is about to dead-letter it. */
  ghost predicate GivingUp(s: State, x: Ticket) {
    exists w: nat, t: nat :: TaskAt(s, w, t) && s.workers[w].tasks[t].phase.Exhausted? && TaskTicket(s.workers[w].tasks[t]) == x
  }

  lemma InBag<T, U>(xs: seq<T>, f: T -> U, y: U) returns (i: nat)
    requires y in Bag(xs, f)
    ensures i < |xs| && f(xs[i]) == y
  {
    if f(xs[0]) == y {
      i := 0;
    } else {
      i := InBag(xs[1..], f, y);
      i := i + 1;
    }
  }

  lemma {:induction false} FlatTask(ws: seq<Worker>, x: Task) returns (w: nat, t: nat)
    requires x in Flat(ws)
    ensures w < |ws| && t < |ws[w].tasks| && ws[w].tasks[t] == x
  {
    if x in ws[0].tasks {
      w := 0;
      t :| 0 <= t < |ws[0].tasks| && ws[0].tasks[t] == x;
    } else {
      w, t := FlatTask(ws[1..], x);
      w := w + 1;
    }
  }

  /** A job in the tables, or with a task that has not given up, has an attempt left. */
  lemma AttemptLeft(c: Config, s: State, x: Ticket)
    requires Accounts(c, s) && x in Queued(s) + InFlight(s) && !GivingUp(s, x)
    ensures s.log.failures[x.origin] < MaxAttempts(c)
  {
    if x in Queued(s) {
      var i := InBag(s.rows, RowTicket, x);
      assert Waiting(c, s.log, s.rows[i].env);
    } else {
      var i := InBag(Flat(s.workers), TaskTicket, x);
      var w, t := FlatTask(s.workers, Flat(s.workers)[i]);
      assert TaskAt(s, w, t) && TaskOk(c, s.log, s.workers[w].tasks[t]);
    }
  }

  /**
   The verdict on a job, in every run: handled means that it has a handler and its last call
   succeeded; discarded, that it has no handler and was never called; dead-lettered, about to be, or
   dropped, that all max(1, max_retries) attempts have failed.  Conversely a job all of whose attempts
   have failed is, unless a crash lost it, dead-lettered or about to be if there is a dead-letter
   table, and dropped if there is none.
   */
  lemma Verdict(c: Config, s: State, es: seq<Event>, o: nat)
    requires Init(s) && Exec(c, s, es).Some? && o < |Exec(c, s, es).value.log.enqueued|
    ensures var t := Exec(c, s, es).value;
            var x := Ticket(o, t.log.enqueued[o]);
            && (x in t.log.handled ==> x.job.kind in c.handlers && t.log.calls[o] == t.log.failures[o] + 1)
            && (x in t.log.discarded ==> x.job.kind !in c.handlers && t.log.calls[o] == 0)
            && (x in Dead(t) || GivingUp(t, x) || x in t.log.dropped ==> t.log.failures[o] == MaxAttempts(c))
            && (t.log.failures[o] == MaxAttempts(c) && x !in t.log.lost ==>
                  if c.hasDlq then x in Dead(t) || GivingUp(t, x) else x in t.log.dropped)
  {
    ReachableJudged(c, s, es);
    var t := Exec(c, s, es).value;
    var x := Ticket(o, t.log.enqueued[o]);
    assert CalledOk(c, t.log, o) && PlaceOk(c, t.log, x) && OriginOk(c, t.log, o);
    IssuedOnce(t.log.enqueued, x);
    assert x in Places(t);
    if x in Dead(t) {
      var i := InBag(t.dlq, DeadTicket, x);
      assert DeadOk(c, t.log, t.dlq[i]);
    }
    if GivingUp(t, x) {
      var w: nat, i: nat :| TaskAt(t, w, i) && t.workers[w].tasks[i].phase.Exhausted? && TaskTicket(t.workers[w].tasks[i]) == x;
      assert TaskOk(c, t.log, t.workers[w].tasks[i]);
    }
    if x in Queued(t) + InFlight(t) && !GivingUp(t, x) {
      AttemptLeft(c, t, x);
    }
  }

  // ---- what a failure leaves behind

  datatype Failed = Failed(error: string, at: real)

  /** The latest failure of each job, as the events tell it. */
  ghost function Noted(s: State, e: Event, f: map<nat, Failed>): map<nat, Failed> {
    if e.Fail? && TaskAt(s, e.w, e.t) then f[s.workers[e.w].tasks[e.t].env.origin := Failed(e.error, s.now)] else f
  }

  ghost function LastFailures(c: Config, s: State, es: seq<Event>, f: map<nat, Failed>): map<nat, Failed>
    requires Exec(c, s, es).Some?
    decreases |es|
  {
    if es == [] then f else LastFailures(c, Apply(c, s, es[0]), es[1..], Noted(s, es[0], f))
  }

  /** A row carries the error of its job's last failure, if there was one. */
  predicate RowTells(f: map<nat, Failed>, r: Row) {
    r.lastError == if r.env.origin in f then Some(f[r.env.origin].error) else None
  }

  /** A pausing task wakes base_delay * 2 ** (attempt - 1) after the failure. */
  predicate TaskTells(c: Config, f: map<nat, Failed>, x: Task) {
    match x.phase
    case BackingOff(error, until) =>
      x.env.origin in f
      && f[x.env.origin] == Failed(error, until - c.baseDelay * Pow2(x.env.attempt - 1) as real)
    case Exhausted(error) => x.env.origin in f && f[x.env.origin].error == error
    case _ => true
  }

  predicate DeadTells(f: map<nat, Failed>, d: DeadLetter) {
    d.env.origin in f && d.lastError == f[d.env.origin].error
  }

  ghost predicate Told(c: Config, s: State, f: map<nat, Failed>) {
    && (forall o :: o in f ==> o < |s.log.enqueued|)
    && (forall r :: r in s.rows ==> RowTells(f, r))
    && (forall d :: d in s.dlq ==> DeadTells(f, d))
    && (forall w: nat, t: nat :: TaskAt(s, w, t) ==> TaskTells(c, f, s.workers[w].tasks[t]))
  }

  /** Worker w changes, and what is new in its tasks and in the tables tells the truth. */
  lemma ToldStep(c: Config, s: State, f: map<nat, Failed>, w: nat, s': State)
    requires Told(c, s, f) && w < |s.workers| == |s'.workers| && |s.log.enqueued| <= |s'.log.enqueued|
    requires forall v :: 0 <= v < |s.workers| && v != w ==> s'.workers[v] == s.workers[v]
    requires forall x :: x in s'.workers[w].tasks ==> x in s.workers[w].tasks || TaskTells(c, f, x)
    requires forall r :: r in s'.rows ==> r in s.rows || RowTells(f, r)
    requires forall d :: d in s'.dlq ==> d in s.dlq || DeadTells(f, d)
    ensures Told(c, s', f)
  {
    forall v: nat, t: nat | TaskAt(s', v, t) ensures TaskTells(c, f, s'.workers[v].tasks[t]) {
      var x := s'.workers[v].tasks[t];
      if v != w {
        assert TaskAt(s, v, t);
      } else if x in s.workers[w].tasks {
        var u :| 0 <= u < |s.workers[w].tasks| && s.workers[w].tasks[u] == x;
        assert TaskAt(s, w, u);
      } else {
        assert x in s'.workers[w].tasks;
      }
    }
  }

  /** Other jobs' traces do not mind a failure of this one. */
  lemma NotedElsewhere(c: Config, s: State, f: map<nat, Failed>, w: nat, t: nat, error: string)
    requires Told(c, s, f) && Conserved(s) && TaskAt(s, w, t)
    ensures var f' := Noted(s, Fail(w, t, error), f);
            && (forall r :: r in s.rows ==> RowTells(f', r))
            && (forall d :: d in s.dlq ==> DeadTells(f', d))
            && (forall v: nat, u: nat :: TaskAt(s, v, u) && (v, u) != (w, t) ==> TaskTells(c, f', s.workers[v].tasks[u]))
  {
    ConservedAlone(s, w, t);
    var f' := Noted(s, Fail(w, t, error), f);
    forall v: nat, u: nat | TaskAt(s, v, u) && (v, u) != (w, t) ensures TaskTells(c, f', s.workers[v].tasks[u]) {
      assert TaskTells(c, f, s.workers[v].tasks[u]);
    }
    forall r | r in s.rows ensures RowTells(f', r) {
      var i :| 0 <= i < |s.rows| && s.rows[i] == r;
      assert RowTells(f, r);
    }
    forall d | d in s.dlq ensures DeadTells(f', d) {
      var i :| 0 <= i < |s.dlq| && s.dlq[i] == d;
      assert DeadTells(f, d);
    }
  }

  lemma FailTold(c: Config, s: State, f: map<nat, Failed>, w: nat, t: nat, error: string)
    requires Told(c, s, f) && Conserved(s) && TaskAt(s, w, t)
    ensures Told(c, ApplyFail(c, s, w, t, error), Noted(s, Fail(w, t, error), f))
  {
    var s' := ApplyFail(c, s, w, t, error);
    var f' := Noted(s, Fail(w, t, error), f);
    NotSettled(s, w, t);
    NotedElsewhere(c, s, f, w, t, error);
    var k := |s'.workers[w].tasks| == |s.workers[w].tasks|;
    forall v: nat, u: nat | TaskAt(s', v, u) ensures TaskTells(c, f', s'.workers[v].tasks[u]) {
      if v != w || (k && u != t) {
        assert TaskAt(s, v, u);
      } else if !k {
        assert TaskAt(s, v, if u < t then u else u + 1);
      }
    }
  }

  lemma TableStepTold(c: Config, s: State, f: map<nat, Failed>, e: Event)
    requires Told(c, s, f) && Enabled(c, s, e) && (e.Advance? || e.Enqueue?)
    ensures Told(c, Apply(c, s, e), f)
  {
    var s' := Apply(c, s, e);
    forall v: nat, u: nat | TaskAt(s', v, u) ensures TaskTells(c, f, s'.workers[v].tasks[u]) {
      assert TaskAt(s, v, u);
    }
  }

  lemma WorkerStepTold(c: Config, s: State, f: map<nat, Failed>, e: Event)
    requires Told(c, s, f) && Enabled(c, s, e) && !e.Advance? && !e.Enqueue? && !e.Fail?
    ensures Told(c, Apply(c, s, e), f)
  {
    if e.NoHandler? || e.Acquire? || e.Succeed? || e.Nack? || e.ToDlq? {
      assert TaskAt(s, e.w, e.t) && TaskTells(c, f, s.workers[e.w].tasks[e.t]);
    }
    ToldStep(c, s, f, e.w, Apply(c, s, e));
  }

  lemma {:induction false} RunTold(c: Config, s: State, es: seq<Event>, f: map<nat, Failed>)
    requires Conserved(s) && Disciplined(c, s) && Told(c, s, f) && Exec(c, s, es).Some?
    ensures Told(c, Exec(c, s, es).value, LastFailures(c, s, es, f))
    decreases |es|
  {
    if es != [] {
      var e := es[0];
      StepConserves(c, s, e);
      StepDisciplined(c, s, e);
      if e.Advance? || e.Enqueue? {
        TableStepTold(c, s, f, e);
      } else if e.Fail? {
        FailTold(c, s, f, e.w, e.t, e.error);
      } else {
        WorkerStepTold(c, s, f, e);
      }
      RunTold(c, Apply(c, s, e), es[1..], Noted(s, e, f));
    }
  }

  /**
   In every run: a queued row carries the error of its job's last failure, and none if there was
   none; so does a dead letter; and a task that waits for its retry wakes exactly
   base_delay * 2 ** (attempt - 1) after that failure.
   */
  lemma FailuresAreTold(c: Config, s: State, es: seq<Event>)
    requires Init(s) && Exec(c, s, es).Some?
    ensures var t := Exec(c, s, es).value;
            var f := LastFailures(c, s, es, map[]);
            && (forall r :: r in t.rows ==> RowTells(f, r))
            && (forall d :: d in t.dlq ==> DeadTells(f, d))
            && (forall w: nat, i: nat :: TaskAt(t, w, i) ==> TaskTells(c, f, t.workers[w].tasks[i]))
  {
    InitHolds(c, s);
    RunTold(c, s, es, map[]);
  }
}
