/**
 Overlapping scheduler ticks.  Each tick is one transaction: it locks the rows it picks,
 skipping those of open ticks and those `held` by other transactions, runs their handlers,
 and marks them; its clock is read before it opens.  Commit publishes the marks, and an
 exception or a crash rolls them back but not what the handlers did elsewhere.
 */
module TickProtocol {
  import opened Wrappers
  import opened ScheduledJobs
  import Lease

  datatype Tick = Tick(at: real, picked: seq<nat>, next: nat, marks: set<nat>)

  /** Handler calls, those belonging to rolled-back ticks, and committed marks, by job. */
  datatype Log = Log(calls: multiset<nat>, aborted: multiset<nat>, committed: multiset<nat>)

  datatype State = State(now: real, table: Table, ticks: map<nat, Tick>, log: Log)

  datatype Event =
    | Advance(dt: real)
    | Schedule(id: nat, jobType: string, runAt: real)
    | Cancel(id: nat)
    | Begin(w: nat, at: real, limit: nat, held: set<nat>, picked: seq<nat>)
    | Handle(w: nat)
    | Skip(w: nat)
    | Raise(w: nat)
    | Abort(w: nat)
    | Commit(w: nat)

  ghost function Locked(s: State): set<nat> {
    set w, id | w in s.ticks && id in s.ticks[w].picked :: id
  }

  /** Worker w is about to process a row whose type has a handler, or has none. */
  ghost predicate AtJob(handlers: set<string>, s: State, w: nat, handled: bool) {
    && w in s.ticks && s.ticks[w].next < |s.ticks[w].picked|
    && s.ticks[w].picked[s.ticks[w].next] in s.table
    && (s.table[s.ticks[w].picked[s.ticks[w].next]].jobType in handlers) == handled
  }

  ghost predicate Enabled(handlers: set<string>, s: State, e: Event) {
    match e
    case Advance(dt) => dt >= 0.0
    case Schedule(id, _, _) => id !in s.table
    case Cancel(id) => id in s.table && s.table[id].status.Pending? && id !in Locked(s)
    case Begin(w, at, limit, held, picked) =>
      w !in s.ticks && at <= s.now && IsPick(s.table, at, limit, Locked(s) + held, picked)
    case Handle(w) => AtJob(handlers, s, w, true)
    case Skip(w) => AtJob(handlers, s, w, false)
    case Raise(w) => AtJob(handlers, s, w, true)
    case Abort(w) => w in s.ticks
    case Commit(w) => w in s.ticks && s.ticks[w].next == |s.ticks[w].picked|
  }

  ghost function Apply(handlers: set<string>, s: State, e: Event): State
    requires Enabled(handlers, s, e)
  {
    match e
    case Advance(dt) => s.(now := s.now + dt)
    case Schedule(id, jobType, runAt) => s.(table := s.table[id := ScheduledJob(jobType, runAt, Pending)])
    case Cancel(id) => s.(table := s.table[id := s.table[id].(status := Cancelled)])
    case Begin(w, at, _, _, picked) => s.(ticks := s.ticks[w := Tick(at, picked, 0, {})])
    case Handle(w) =>
      var k := s.ticks[w];
      var id := k.picked[k.next];
      s.(ticks := s.ticks[w := k.(next := k.next + 1, marks := k.marks + {id})],
         log := s.log.(calls := s.log.calls + multiset{id}))
    case Skip(w) =>
      s.(ticks := s.ticks[w := s.ticks[w].(next := s.ticks[w].next + 1)])
    case Raise(w) =>
      var k := s.ticks[w];
      var id := k.picked[k.next];
      s.(ticks := s.ticks - {w},
         log := s.log.(calls := s.log.calls + multiset{id}, aborted := s.log.aborted + multiset(k.marks) + multiset{id}))
    case Abort(w) =>
      s.(ticks := s.ticks - {w}, log := s.log.(aborted := s.log.aborted + multiset(s.ticks[w].marks)))
    case Commit(w) =>
      var k := s.ticks[w];
      s.(table := MarkAll(s.table, k.marks, k.at), ticks := s.ticks - {w},
         log := s.log.(committed := s.log.committed + multiset(k.marks)))
  }

  ghost function Exec(handlers: set<string>, s: State, es: seq<Event>): Option<State>
    decreases |es|
  {
    if es == [] then Some(s)
    else if Enabled(handlers, s, es[0]) then Exec(handlers, Apply(handlers, s, es[0]), es[1..])
    else None
  }

  ghost predicate Init(s: State) {
    s.table == map[] && s.ticks == map[] && s.log == Log(multiset{}, multiset{}, multiset{})
  }

  // ---- invariants

  /** An open tick: its rows are still pending and due, and it has marked only rows it passed. */
  ghost predicate TickOk(s: State, k: Tick) {
    && k.next <= |k.picked| && Distinct(k.picked) && k.at <= s.now
    && (forall id :: id in k.marks ==> id in k.picked[..k.next])
    && (forall id :: id in k.picked ==> Due(s.table, k.at, id))
  }

  ghost predicate LocksDisjoint(s: State) {
    forall v, w, id :: v in s.ticks && w in s.ticks && id in s.ticks[v].picked && id in s.ticks[w].picked ==> v == w
  }

  /** Some open tick has marked the job. */
  ghost predicate OpenMark(s: State, id: nat) {
    exists w :: w in s.ticks && id in s.ticks[w].marks
  }

  /** Calls of a job's handler are its committed mark, rolled-back calls, and an open mark. */
  ghost predicate CallsAccounted(s: State, id: nat) {
    s.log.calls[id] == s.log.committed[id] + s.log.aborted[id] + (if OpenMark(s, id) then 1 else 0)
  }

  ghost predicate MarkedOnce(s: State, id: nat) {
    && s.log.committed[id] == (if id in s.table && s.table[id].status.Executed? then 1 else 0)
    && (id in s.table && s.table[id].status.Executed? ==> s.table[id].runAt <= s.table[id].status.at <= s.now)
  }

  ghost predicate Inv(s: State) {
    && (forall w :: w in s.ticks ==> TickOk(s, s.ticks[w]))
    && LocksDisjoint(s)
    && (forall id: nat :: CallsAccounted(s, id))
    && (forall id: nat :: MarkedOnce(s, id))
  }

  lemma TableStep(handlers: set<string>, s: State, e: Event)
    requires Inv(s) && Enabled(handlers, s, e) && (e.Advance? || e.Schedule? || e.Cancel?)
    ensures Inv(Apply(handlers, s, e))
  {
    var s' := Apply(handlers, s, e);
    forall w | w in s'.ticks ensures TickOk(s', s'.ticks[w]) {
      assert TickOk(s, s.ticks[w]);
      if e.Cancel? {
        assert e.id !in s.ticks[w].picked;
      }
    }
    forall id: nat ensures CallsAccounted(s', id) && MarkedOnce(s', id) {
      assert CallsAccounted(s, id) && MarkedOnce(s, id);
      assert OpenMark(s', id) <==> OpenMark(s, id);
    }
  }

  lemma BeginStep(handlers: set<string>, s: State, w: nat, at: real, limit: nat, held: set<nat>, picked: seq<nat>)
    requires Inv(s) && Enabled(handlers, s, Begin(w, at, limit, held, picked))
    ensures Inv(Apply(handlers, s, Begin(w, at, limit, held, picked)))
  {
    var s' := Apply(handlers, s, Begin(w, at, limit, held, picked));
    forall v | v in s'.ticks ensures TickOk(s', s'.ticks[v]) {
      if v != w {
        assert TickOk(s, s.ticks[v]);
      }
    }
    forall u, v, id | u in s'.ticks && v in s'.ticks && id in s'.ticks[u].picked && id in s'.ticks[v].picked
      ensures u == v
    {
      assert u != w ==> id in Locked(s);
      assert v != w ==> id in Locked(s);
    }
    forall id: nat ensures CallsAccounted(s', id) && MarkedOnce(s', id) {
      assert CallsAccounted(s, id) && MarkedOnce(s, id);
      SameMarks(s, s', w, id);
    }
  }

  /** Only tick w differs, and job id is marked in it before and after, or neither. */
  lemma SameMarks(s: State, s': State, w: nat, id: nat)
    requires forall v :: v != w ==> (v in s.ticks <==> v in s'.ticks)
    requires forall v :: v != w && v in s.ticks ==> s.ticks[v] == s'.ticks[v]
    requires (w in s.ticks && id in s.ticks[w].marks) <==> (w in s'.ticks && id in s'.ticks[w].marks)
    ensures OpenMark(s, id) <==> OpenMark(s', id)
  {
  }

  lemma MarksPicked(s: State, k: Tick)
    requires TickOk(s, k)
    ensures forall id :: id in k.marks ==> id in k.picked
  {
  }

  lemma OnlyHolder(s: State, w: nat, id: nat)
    requires Inv(s) && w in s.ticks && id in s.ticks[w].picked
    ensures OpenMark(s, id) <==> id in s.ticks[w].marks
  {
  }

  lemma PassStep(handlers: set<string>, s: State, e: Event)
    requires Inv(s) && Enabled(handlers, s, e) && (e.Handle? || e.Skip?)
    ensures Inv(Apply(handlers, s, e))
  {
    var s' := Apply(handlers, s, e);
    var k := s.ticks[e.w];
    var job := k.picked[k.next];
    assert TickOk(s, k);
    assert job !in k.picked[..k.next];
    assert k.picked[..k.next + 1] == k.picked[..k.next] + [job];
    forall v | v in s'.ticks ensures TickOk(s', s'.ticks[v]) {
      assert TickOk(s, s.ticks[v]);
    }
    assert LocksDisjoint(s');
    forall id: nat ensures CallsAccounted(s', id) && MarkedOnce(s', id) {
      assert CallsAccounted(s, id) && MarkedOnce(s, id);
      if id == job && e.Handle? {
        OnlyHolder(s, e.w, job);
        assert e.w in s'.ticks && job in s'.ticks[e.w].marks;
      } else {
        SameMarks(s, s', e.w, id);
      }
    }
  }

  lemma RollbackStep(handlers: set<string>, s: State, e: Event)
    requires Inv(s) && Enabled(handlers, s, e) && (e.Raise? || e.Abort?)
    ensures Inv(Apply(handlers, s, e))
  {
    var s' := Apply(handlers, s, e);
    var k := s.ticks[e.w];
    assert TickOk(s, k);
    forall v | v in s'.ticks ensures TickOk(s', s'.ticks[v]) {
      assert TickOk(s, s.ticks[v]);
    }
    forall id: nat ensures CallsAccounted(s', id) && MarkedOnce(s', id) {
      assert CallsAccounted(s, id) && MarkedOnce(s, id);
      EndedTick(s, s', e.w, id);
    }
  }

  /** After tick w has gone, its marks are no longer open. */
  lemma EndedTick(s: State, s': State, w: nat, id: nat)
    requires Inv(s) && w in s.ticks && s'.ticks == s.ticks - {w}
    ensures OpenMark(s', id) <==> OpenMark(s, id) && id !in s.ticks[w].marks
  {
    assert TickOk(s, s.ticks[w]);
    if id in s.ticks[w].marks {
      assert id in s.ticks[w].picked;
      forall v | v in s'.ticks ensures id !in s'.ticks[v].marks {
        assert TickOk(s, s.ticks[v]);
        MarksPicked(s, s.ticks[v]);
      }
    } else {
      SameMarks(s, s', w, id);
    }
  }

  lemma CommitStep(handlers: set<string>, s: State, w: nat)
    requires Inv(s) && Enabled(handlers, s, Commit(w))
    ensures Inv(Apply(handlers, s, Commit(w)))
  {
    var s' := Apply(handlers, s, Commit(w));
    var k := s.ticks[w];
    assert TickOk(s, k);
    forall v | v in s'.ticks ensures TickOk(s', s'.ticks[v]) {
      assert TickOk(s, s.ticks[v]);
      forall id | id in s.ticks[v].picked ensures Due(s'.table, s.ticks[v].at, id) {
        assert id !in k.marks;
      }
    }
    forall id: nat ensures CallsAccounted(s', id) && MarkedOnce(s', id) {
      assert CallsAccounted(s, id) && MarkedOnce(s, id);
      EndedTick(s, s', w, id);
      if id in k.marks {
        assert Due(s.table, k.at, id);
      }
    }
  }

  lemma StepInv(handlers: set<string>, s: State, e: Event)
    requires Inv(s) && Enabled(handlers, s, e)
    ensures Inv(Apply(handlers, s, e))
  {
    match e {
      case Advance(_) => TableStep(handlers, s, e);
      case Schedule(_, _, _) => TableStep(handlers, s, e);
      case Cancel(_) => TableStep(handlers, s, e);
      case Begin(w, at, limit, held, picked) => BeginStep(handlers, s, w, at, limit, held, picked);
      case Handle(_) => PassStep(handlers, s, e);
      case Skip(_) => PassStep(handlers, s, e);
      case Raise(_) => RollbackStep(handlers, s, e);
      case Abort(_) => RollbackStep(handlers, s, e);
      case Commit(w) => CommitStep(handlers, s, w);
    }
  }

  lemma {:induction false} RunInv(handlers: set<string>, s: State, es: seq<Event>)
    requires Inv(s) && Exec(handlers, s, es).Some?
    ensures Inv(Exec(handlers, s, es).value)
    decreases |es|
  {
    if es != [] {
      StepInv(handlers, s, es[0]);
      RunInv(handlers, Apply(handlers, s, es[0]), es[1..]);
    }
  }

  /**
   Safety without the lease: however ticks overlap, open ticks hold disjoint rows, and a job
   gets at most one committed mark, from a tick whose clock reading was at or after its run_at.
   */
  lemma OverlappingTicksAreSafe(handlers: set<string>, s: State, es: seq<Event>)
    requires Init(s) && Exec(handlers, s, es).Some?
    ensures LocksDisjoint(Exec(handlers, s, es).value)
    ensures forall id: nat :: MarkedOnce(Exec(handlers, s, es).value, id)
  {
    InitInv(s);
    RunInv(handlers, s, es);
  }

  lemma InitInv(s: State)
    requires Init(s)
    ensures Inv(s)
  {
  }

  /** What handlers did is kept: calls beyond the committed mark are those of rolled-back or open ticks. */
  lemma CallsLaw(handlers: set<string>, s: State, es: seq<Event>, id: nat)
    requires Init(s) && Exec(handlers, s, es).Some?
    ensures var t := Exec(handlers, s, es).value;
            && t.log.calls[id] == t.log.committed[id] + t.log.aborted[id] + (if OpenMark(t, id) then 1 else 0)
            && (t.log.aborted[id] == 0 ==> t.log.calls[id] <= 1)
  {
    InitInv(s);
    RunInv(handlers, s, es);
    var t := Exec(handlers, s, es).value;
    assert CallsAccounted(t, id) && MarkedOnce(t, id);
    if OpenMark(t, id) {
      var w :| w in t.ticks && id in t.ticks[w].marks;
      assert TickOk(t, t.ticks[w]);
      assert id in t.ticks[w].picked;
    }
  }

  /** Of the rows it has passed, a tick has marked exactly those whose type has a handler. */
  ghost predicate MarksRight(handlers: set<string>, s: State, k: Tick) {
    forall i :: 0 <= i < k.next && i < |k.picked| ==>
      k.picked[i] in s.table && (k.picked[i] in k.marks <==> s.table[k.picked[i]].jobType in handlers)
  }

  ghost predicate AllMarksRight(handlers: set<string>, s: State) {
    forall w :: w in s.ticks ==> MarksRight(handlers, s, s.ticks[w])
  }

  lemma TypesStay(handlers: set<string>, s: State, e: Event)
    requires Enabled(handlers, s, e)
    ensures forall id :: id in s.table ==>
      id in Apply(handlers, s, e).table && Apply(handlers, s, e).table[id].jobType == s.table[id].jobType
  {
  }

  lemma StepMarksRight(handlers: set<string>, s: State, e: Event)
    requires Inv(s) && AllMarksRight(handlers, s) && Enabled(handlers, s, e)
    ensures AllMarksRight(handlers, Apply(handlers, s, e))
  {
    var s' := Apply(handlers, s, e);
    TypesStay(handlers, s, e);
    forall w | w in s'.ticks ensures MarksRight(handlers, s', s'.ticks[w]) {
      if w in s.ticks {
        assert MarksRight(handlers, s, s.ticks[w]) && TickOk(s, s.ticks[w]);
      }
    }
  }

  lemma {:induction false} RunMarksRight(handlers: set<string>, s: State, es: seq<Event>)
    requires Inv(s) && AllMarksRight(handlers, s) && Exec(handlers, s, es).Some?
    ensures AllMarksRight(handlers, Exec(handlers, s, es).value)
    decreases |es|
  {
    if es != [] {
      StepInv(handlers, s, es[0]);
      StepMarksRight(handlers, s, es[0]);
      RunMarksRight(handlers, Apply(handlers, s, es[0]), es[1..]);
    }
  }

  /**
   What a commit publishes, after any run: exactly the picked rows whose type has a handler, which
   were pending and due at the tick's clock reading, are executed at that reading; nothing else
   in the table changes.
   */
  lemma CommitIsExact(handlers: set<string>, s: State, es: seq<Event>, w: nat, id: nat)
    requires Init(s) && Exec(handlers, s, es).Some? && Enabled(handlers, Exec(handlers, s, es).value, Commit(w))
    requires id in Exec(handlers, s, es).value.table
    ensures var t := Exec(handlers, s, es).value;
            var t' := Apply(handlers, t, Commit(w));
            var job := t.table[id];
            && t'.table.Keys == t.table.Keys
            && if id in t.ticks[w].picked && job.jobType in handlers then
                 && job.status.Pending? && job.runAt <= t.ticks[w].at
                 && t'.table[id] == ScheduledJob(job.jobType, job.runAt, Executed(t.ticks[w].at))
               else t'.table[id] == job
  {
    InitInv(s);
    RunInv(handlers, s, es);
    RunMarksRight(handlers, s, es);
    var t := Exec(handlers, s, es).value;
    assert TickOk(t, t.ticks[w]) && MarksRight(handlers, t, t.ticks[w]);
    MarksPicked(t, t.ticks[w]);
    if id in t.ticks[w].picked {
      assert Due(t.table, t.ticks[w].at, id);
    }
  }

  /** The steps of a run that call job id's handler. */
  ghost function CallSteps(handlers: set<string>, s: State, es: seq<Event>, id: nat): nat
    requires Exec(handlers, s, es).Some?
    decreases |es|
  {
    if es == [] then 0
    else
      var e := es[0];
      CallSteps(handlers, Apply(handlers, s, e), es[1..], id)
      + (if (e.Handle? || e.Raise?) && s.ticks[e.w].picked[s.ticks[e.w].next] == id then 1 else 0)
  }

  /** The calls of the law are the calls of the run. */
  lemma {:induction false} CallsAreSteps(handlers: set<string>, s: State, es: seq<Event>, id: nat)
    requires Exec(handlers, s, es).Some?
    ensures Exec(handlers, s, es).value.log.calls[id] == s.log.calls[id] + CallSteps(handlers, s, es, id)
    decreases |es|
  {
    if es != [] {
      CallsAreSteps(handlers, Apply(handlers, s, es[0]), es[1..], id);
    }
  }

  // ---- ticks inside the lease

  /** `gone` are the workers that died in a tick whose transaction the server has not ended yet. */
  datatype Leased = Leased(lease: Lease.State, sched: State, gone: set<nat>)

  datatype LeasedEvent = OnLease(l: Lease.Event) | OnTicks(e: Event)

  /** The worker whose tick a step moves. */
  function Ticker(e: Event): Option<nat> {
    if e.Advance? || e.Schedule? || e.Cancel? then None else Some(e.w)
  }

  /**
   A worker ticks only inside its leased section and leaves the section after its tick.  Of a
   dead worker's tick only the rollback is left to happen; a new process has a new number.
   */
  ghost predicate LeasedEnabled(p: Lease.Params, handlers: set<string>, x: Leased, e: LeasedEvent) {
    match e
    case OnLease(l) =>
      && Lease.Enabled(p, x.lease, l)
      && (l.Leave? ==> l.w !in x.sched.ticks)
      && (l.Enter? || l.Refused? ==> l.w !in x.gone)
    case OnTicks(t) =>
      && Enabled(handlers, x.sched, t)
      && (t.Begin? ==> t.w in x.lease.inside)
      && (Ticker(t).Some? && Ticker(t).value in x.gone ==> t.Abort?)
  }

  ghost function LeasedApply(p: Lease.Params, handlers: set<string>, x: Leased, e: LeasedEvent): Leased
    requires LeasedEnabled(p, handlers, x, e)
  {
    match e
    case OnLease(l) =>
      Leased(Lease.Apply(p, x.lease, l), x.sched, if l.Die? && l.w in x.sched.ticks then x.gone + {l.w} else x.gone)
    case OnTicks(t) =>
      Leased(x.lease, Apply(handlers, x.sched, t), if t.Abort? then x.gone - {t.w} else x.gone)
  }

  ghost function LeasedExec(p: Lease.Params, handlers: set<string>, x: Leased, es: seq<LeasedEvent>): Option<Leased>
    decreases |es|
  {
    if es == [] then Some(x)
    else if LeasedEnabled(p, handlers, x, es[0]) then LeasedExec(p, handlers, LeasedApply(p, handlers, x, es[0]), es[1..])
    else None
  }

  /** An open tick is that of a worker inside its section or of one that died there. */
  ghost predicate LeasedInv(p: Lease.Params, x: Leased) {
    && Lease.Inv(p, x.lease)
    && (forall w :: w in x.sched.ticks ==> w in x.lease.inside || w in x.gone)
    && x.gone !! x.lease.inside.Keys && x.gone <= x.sched.ticks.Keys
  }

  lemma LeasedStepInv(p: Lease.Params, handlers: set<string>, x: Leased, e: LeasedEvent)
    requires LeasedInv(p, x) && LeasedEnabled(p, handlers, x, e)
    ensures LeasedInv(p, LeasedApply(p, handlers, x, e))
  {
    match e {
      case OnLease(l) => Lease.StepInv(p, x.lease, l);
      case OnTicks(_) =>
    }
  }

  lemma {:induction false} LeasedRunInv(p: Lease.Params, handlers: set<string>, x: Leased, es: seq<LeasedEvent>)
    requires LeasedInv(p, x) && LeasedExec(p, handlers, x, es).Some?
    ensures LeasedInv(p, LeasedExec(p, handlers, x, es).value)
    decreases |es|
  {
    if es != [] {
      LeasedStepInv(p, handlers, x, es[0]);
      LeasedRunInv(p, handlers, LeasedApply(p, handlers, x, es[0]), es[1..]);
    }
  }

  /** The worker is still in its section although its lease has expired. */
  predicate Late(s: Lease.State, w: nat) {
    w in s.inside && s.inside[w].expiry <= s.now
  }

  /**
   With the lease, two ticks are open at once only if a worker has outstayed its lease, or has
   died and the server has not rolled its transaction back yet.
   */
  lemma LeasedTicksAlone(p: Lease.Params, handlers: set<string>, x: Leased, es: seq<LeasedEvent>, v: nat, w: nat)
    requires Lease.Init(p, x.lease) && Init(x.sched) && x.gone == {} && LeasedExec(p, handlers, x, es).Some?
    requires v in LeasedExec(p, handlers, x, es).value.sched.ticks && w in LeasedExec(p, handlers, x, es).value.sched.ticks
    ensures var y := LeasedExec(p, handlers, x, es).value;
            v == w || Late(y.lease, v) || Late(y.lease, w) || v in y.gone || w in y.gone
  {
    LeasedRunInv(p, handlers, x, es);
  }
}
