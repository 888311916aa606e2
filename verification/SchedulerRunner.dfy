/**
 One worker's scheduler: a tick is one transaction, and the loop repeats ticks and
 swallows their errors.
 */
module SchedulerRunner {
  import opened Wrappers
  import opened ScheduledJobs

  ghost predicate Handled(t: Table, handlers: set<string>, id: nat) {
    id in t && t[id].jobType in handlers
  }

  /** The picked jobs that have a handler. */
  ghost function HandledOf(t: Table, handlers: set<string>, picked: seq<nat>): set<nat> {
    set id | id in picked && Handled(t, handlers, id)
  }

  function Ids(picked: seq<nat>): set<nat> {
    set id | id in picked
  }

  ghost function DueIds(t: Table, now: real): set<nat> {
    set id | id in t && Due(t, now, id)
  }

  lemma {:induction false} OldestExists(t: Table, ids: set<nat>) returns (id: nat)
    requires ids != {} && ids <= t.Keys
    ensures id in ids && forall j :: j in ids ==> t[id].runAt <= t[j].runAt
  {
    id :| id in ids;
    if ids != {id} {
      var other := OldestExists(t, ids - {id});
      assert forall j :: j in ids ==> j == id || j in ids - {id};
      if t[other].runAt < t[id].runAt {
        id := other;
      }
    }
  }

  /** The free due rows are split into those picked, oldest first, and the rest, none of them older. */
  ghost predicate PickSoFar(t: Table, now: real, limit: nat, locked: set<nat>, rest: set<nat>, picked: seq<nat>) {
    && |picked| <= limit && Distinct(picked)
    && (forall id :: id in t && id !in locked && Due(t, now, id) ==> id in rest || id in picked)
    && (forall id :: id in rest ==> id in t && id !in locked && Due(t, now, id) && id !in picked)
    && (forall i :: 0 <= i < |picked| ==> Due(t, now, picked[i]) && picked[i] !in locked)
    && (forall i, id :: 0 <= i < |picked| && id in rest ==> t[picked[i]].runAt <= t[id].runAt)
    && (forall i, j :: 0 <= i < j < |picked| ==> t[picked[i]].runAt <= t[picked[j]].runAt)
  }

  lemma PickOne(t: Table, now: real, limit: nat, locked: set<nat>, rest: set<nat>, picked: seq<nat>, id: nat)
    requires PickSoFar(t, now, limit, locked, rest, picked) && |picked| < limit
    requires id in rest && forall j :: j in rest ==> t[id].runAt <= t[j].runAt
    ensures PickSoFar(t, now, limit, locked, rest - {id}, picked + [id])
  {
  }

  lemma PickDone(t: Table, now: real, limit: nat, locked: set<nat>, rest: set<nat>, picked: seq<nat>)
    requires PickSoFar(t, now, limit, locked, rest, picked) && (|picked| == limit || rest == {})
    ensures IsPick(t, now, limit, locked, picked)
  {
    forall id | Due(t, now, id) && id !in locked && id !in picked
      ensures |picked| == limit && forall q :: q in picked ==> q in t && t[q].runAt <= t[id].runAt
    {
      assert id in t && id in rest;
    }
  }

  class Runner {
    var table: Table
    const handlers: set<string>

    constructor (table: Table, handlers: set<string>)
      ensures this.table == table && this.handlers == handlers
    {
      this.table, this.handlers := table, handlers;
    }

    method PickDueJobs(now: real, limit: nat, locked: set<nat>) returns (picked: seq<nat>)
      ensures IsPick(table, now, limit, locked, picked)
    {
      picked := [];
      var rest := set id | id in table && id !in locked && Due(table, now, id);
      while |picked| < limit && rest != {}
        invariant PickSoFar(table, now, limit, locked, rest, picked)
      {
        ghost var _ := OldestExists(table, rest);
        var id :| id in rest && forall j :: j in rest ==> table[id].runAt <= table[j].runAt;
        PickOne(table, now, limit, locked, rest, picked, id);
        picked := picked + [id];
        rest := rest - {id};
      }
      PickDone(table, now, limit, locked, rest, picked);
    }

    /**
     One tick.  Handlers run in pick order; `raises` are the jobs whose handler raises.  Any
     raise rolls the whole tick back; otherwise exactly the picked jobs with a handler are marked.
     */
    method Tick(now: real, limit: nat, locked: set<nat>, raises: set<nat>)
      returns (r: Result<nat, nat>, ghost picked: seq<nat>)
      modifies `table
      ensures IsPick(old(table), now, limit, locked, picked)
      ensures r.Ok? <==> HandledOf(old(table), handlers, picked) !! raises
      ensures r.Ok? ==> r.value == |picked| && table == MarkAll(old(table), HandledOf(old(table), handlers, picked), now)
      ensures r.Ok? ==> table.Keys == old(table).Keys && forall id :: id in table ==>
        table[id] ==
          if id in picked && old(table)[id].jobType in handlers then old(table)[id].(status := Executed(now))
          else old(table)[id]
      ensures r.Err? ==> table == old(table) && r.error in raises && r.error in picked
    {
      var due := PickDueJobs(now, limit, locked);
      picked := due;
      var session := table;
      var marks: set<nat> := {};
      var i := 0;
      while i < |due|
        invariant 0 <= i <= |due| && table == old(table)
        invariant marks == HandledOf(table, handlers, due[..i]) && marks !! raises
        invariant session == MarkAll(table, marks, now)
      {
        var id := due[i];
        assert id in due && due[..i + 1] == due[..i] + [id];
        if table[id].jobType in handlers {
          if id in raises {
            assert id in HandledOf(table, handlers, due);
            return Err(id), picked;
          }
          session := session[id := session[id].(status := Executed(now))];
          marks := marks + {id};
        }
        i := i + 1;
      }
      assert due[..i] == due;
      table := session;
      return Ok(|due|), picked;
    }

    /**
     The loop: `iterations` ticks with the surroundings `o`; what a tick raises is swallowed.
     What such runs achieve is stated below.
     */
    method RunForever(iterations: nat, limit: nat, o: Surroundings) returns (failures: nat, ghost run: seq<Outcome>)
      requires iterations >= 1
      modifies `table
      ensures |run| == iterations && IsRun(old(table), handlers, limit, o, run)
      ensures table == TableAt(old(table), run, iterations) && failures == Failures(run)
    {
      failures, run := 0, [];
      var count := 0;
      while true
        invariant count == |run| < iterations && IsRun(old(table), handlers, limit, o, run)
        invariant table == TableAt(old(table), run, count) && failures == Failures(run)
        decreases iterations - count
      {
        table := o.others(count, table);
        var r: Result<nat, nat>;
        ghost var picked: seq<nat>;
        r, picked := Tick(o.clock(count), limit, o.locks(count), o.raises(count));
        if r.Err? {
          failures := failures + 1;
        }
        LongerRun(old(table), handlers, limit, o, run, Outcome(r, picked, table));
        run := run + [Outcome(r, picked, table)];
        count := count + 1;
        if count >= iterations {
          return;
        }
      }
    }
  }

  // ---- runs

  /**
   What goes on around tick k: its clock reading, the rows other transactions hold, the jobs
   whose handler raises, and what others make of the table before it.
   */
  datatype Surroundings = Surroundings(
    clock: nat -> real, locks: nat -> set<nat>, raises: nat -> set<nat>, others: (nat, Table) -> Table)

  datatype Outcome = Outcome(r: Result<nat, nat>, picked: seq<nat>, after: Table)

  /** A tick on table t can end like this. */
  ghost predicate IsOutcome(
    t: Table, handlers: set<string>, now: real, limit: nat, locked: set<nat>, raises: set<nat>, x: Outcome)
  {
    && IsPick(t, now, limit, locked, x.picked)
    && (x.r.Ok? <==> HandledOf(t, handlers, x.picked) !! raises)
    && x.after == (if x.r.Ok? then MarkAll(t, HandledOf(t, handlers, x.picked), now) else t)
  }

  function TableAt(t0: Table, run: seq<Outcome>, k: nat): Table
    requires k <= |run|
  {
    if k == 0 then t0 else run[k - 1].after
  }

  ghost predicate StepAt(t0: Table, handlers: set<string>, limit: nat, o: Surroundings, run: seq<Outcome>, k: nat)
    requires k < |run|
  {
    IsOutcome(o.others(k, TableAt(t0, run, k)), handlers, o.clock(k), limit, o.locks(k), o.raises(k), run[k])
  }

  ghost predicate IsRun(t0: Table, handlers: set<string>, limit: nat, o: Surroundings, run: seq<Outcome>) {
    forall k :: 0 <= k < |run| ==> StepAt(t0, handlers, limit, o, run, k)
  }

  function Failures(run: seq<Outcome>): nat {
    if run == [] then 0 else Failures(run[..|run| - 1]) + (if run[|run| - 1].r.Err? then 1 else 0)
  }

  lemma LongerRun(t0: Table, handlers: set<string>, limit: nat, o: Surroundings, run: seq<Outcome>, x: Outcome)
    requires IsRun(t0, handlers, limit, o, run)
    requires var k := |run|;
             IsOutcome(o.others(k, TableAt(t0, run, k)), handlers, o.clock(k), limit, o.locks(k), o.raises(k), x)
    ensures IsRun(t0, handlers, limit, o, run + [x])
    ensures Failures(run + [x]) == Failures(run) + (if x.r.Err? then 1 else 0)
  {
    assert (run + [x])[..|run|] == run;
    forall k | 0 <= k < |run + [x]| ensures StepAt(t0, handlers, limit, o, run + [x], k) {
      if k < |run| {
        assert StepAt(t0, handlers, limit, o, run, k);
      }
    }
  }

  lemma {:induction false} FewerFailures(run: seq<Outcome>)
    ensures Failures(run) <= |run|
    ensures Failures(run) == |run| <==> forall k :: 0 <= k < |run| ==> run[k].r.Err?
    ensures Failures(run) == 0 <==> forall k :: 0 <= k < |run| ==> run[k].r.Ok?
  {
    if run != [] {
      FewerFailures(run[..|run| - 1]);
    }
  }

  // ---- progress

  ghost predicate AllHandled(t: Table, handlers: set<string>) {
    forall id :: id in t ==> Handled(t, handlers, id)
  }

  /** No handler raises in the first n ticks. */
  ghost predicate Quiet(n: nat, o: Surroundings) {
    forall k: nat :: k < n ==> o.raises(k) == {}
  }

  /** At most m rows are held by other transactions during each of the first n ticks. */
  ghost predicate FewHeld(n: nat, o: Surroundings, m: nat) {
    forall k: nat :: k < n ==> |o.locks(k)| <= m
  }

  /** What others schedule or cancel is due after the horizon, and all of it has a handler. */
  ghost predicate LeftAlone(n: nat, o: Surroundings, handlers: set<string>, horizon: real) {
    forall k: nat, t: Table :: k < n ==>
      && DueIds(o.others(k, t), horizon) == DueIds(t, horizon)
      && (AllHandled(t, handlers) ==> AllHandled(o.others(k, t), handlers))
  }

  /** Clock readings at or after the horizon, every type handled, nothing raises, at most m rows held at a time. */
  ghost predicate Calm(t0: Table, handlers: set<string>, horizon: real, o: Surroundings, m: nat, n: nat) {
    && AllHandled(t0, handlers) && Quiet(n, o) && FewHeld(n, o, m) && LeftAlone(n, o, handlers, horizon)
    && forall k: nat :: k < n ==> horizon <= o.clock(k)
  }

  lemma CalmStep(
    t0: Table, handlers: set<string>, horizon: real, limit: nat, o: Surroundings, m: nat, n: nat, t: Table, x: Outcome)
    requires n > 0 && Calm(t0, handlers, horizon, o, m, n) && AllHandled(t, handlers)
    requires IsOutcome(o.others(n - 1, t), handlers, o.clock(n - 1), limit, o.locks(n - 1), o.raises(n - 1), x)
    ensures x.r.Ok? && AllHandled(x.after, handlers) && |o.locks(n - 1)| <= m
    ensures |DueIds(x.after, horizon)| == |DueIds(t, horizon)| - Min(limit, |DueIds(t, horizon) - o.locks(n - 1)|)
  {
    var k: nat, u := n - 1, o.others(n - 1, t);
    assert o.raises(k) == {} && |o.locks(k)| <= m && horizon <= o.clock(k);
    assert DueIds(u, horizon) == DueIds(t, horizon) && AllHandled(u, handlers);
    QuietTick(u, handlers, horizon, o.clock(k), limit, o.locks(k), x.picked);
  }

  /**
   Then no tick fails, and the jobs due by the horizon shrink by `limit` a tick, down to m at
   worst; with m == 0 exactly `Remaining` are left.
   */
  lemma {:induction false} CalmRun(
    t0: Table, handlers: set<string>, horizon: real, limit: nat, o: Surroundings, m: nat, run: seq<Outcome>, n: nat)
    requires IsRun(t0, handlers, limit, o, run) && n <= |run| && Calm(t0, handlers, horizon, o, m, n)
    ensures forall k :: 0 <= k < n ==> run[k].r.Ok?
    ensures AllHandled(TableAt(t0, run, n), handlers)
    ensures Progress(|DueIds(t0, horizon)|, n, limit, m, |DueIds(TableAt(t0, run, n), horizon)|)
  {
    if n > 0 {
      CalmRun(t0, handlers, horizon, limit, o, m, run, n - 1);
      assert StepAt(t0, handlers, limit, o, run, n - 1);
      CalmStep(t0, handlers, horizon, limit, o, m, n, TableAt(t0, run, n - 1), run[n - 1]);
      ProgressStep(|DueIds(t0, horizon)|, n - 1, limit, m, DueIds(TableAt(t0, run, n - 1), horizon), o.locks(n - 1));
    }
  }

  /** If moreover nothing is held, n due jobs are done after exactly ceil(n / limit) ticks. */
  lemma TicksNeeded(
    t0: Table, handlers: set<string>, horizon: real, limit: nat, o: Surroundings, run: seq<Outcome>, n: nat)
    requires limit >= 1 && IsRun(t0, handlers, limit, o, run) && n <= |run| && Calm(t0, handlers, horizon, o, 0, n)
    ensures DueIds(TableAt(t0, run, n), horizon) == {} <==> (|DueIds(t0, horizon)| + limit - 1) / limit <= n
  {
    CalmRun(t0, handlers, horizon, limit, o, 0, run, n);
    CeilTicks(|DueIds(t0, horizon)|, n, limit);
  }

  /** Of n due jobs, `left` may be left after k ticks when at most m rows are held at a time. */
  predicate Progress(n: nat, k: nat, limit: nat, m: nat, left: nat) {
    Remaining(n, k, limit) <= left <= (if Remaining(n, k, limit) > m then Remaining(n, k, limit) else if n < m then n else m)
  }

  function Min(a: nat, b: nat): nat {
    if a < b then a else b
  }

  lemma QuietTick(
    t: Table, handlers: set<string>, horizon: real, now: real, limit: nat, locked: set<nat>, picked: seq<nat>)
    requires AllHandled(t, handlers) && horizon <= now && IsPick(t, now, limit, locked, picked)
    ensures HandledOf(t, handlers, picked) == Ids(picked)
    ensures AllHandled(MarkAll(t, Ids(picked), now), handlers)
    ensures var due := DueIds(t, horizon);
            |DueIds(MarkAll(t, Ids(picked), now), horizon)| + Min(limit, |due - locked|) == |due|
  {
    forall id | id in Ids(picked) ensures id in HandledOf(t, handlers, picked) {
      assert Due(t, now, id);
      assert Handled(t, handlers, id);
    }
    var t' := MarkAll(t, Ids(picked), now);
    forall id | id in t' ensures Handled(t', handlers, id) {
      assert Handled(t, handlers, id);
    }
    TickProgress(t, horizon, now, limit, locked, picked);
  }

  lemma ProgressStep(n: nat, k: nat, limit: nat, m: nat, due: set<nat>, locked: set<nat>)
    requires Progress(n, k, limit, m, |due|) && |locked| <= m
    ensures Progress(n, k + 1, limit, m, |due| - Min(limit, |due - locked|))
  {
    assert |due - locked| + |due * locked| == |due| by {
      assert due == (due - locked) + due * locked;
    }
    SubsetSize(due * locked, locked);
    assert (k + 1) * limit == k * limit + limit;
  }

  /** n due jobs after k ticks of at most `limit` jobs each. */
  function Remaining(n: nat, k: nat, limit: nat): nat {
    if k * limit < n then n - k * limit else 0
  }

  lemma PickedSize(picked: seq<nat>)
    requires Distinct(picked)
    ensures |Ids(picked)| == |picked|
    decreases |picked|
  {
    var ids := Ids(picked);
    if picked == [] {
      assert ids == {};
    } else {
      var front, last := picked[..|picked| - 1], picked[|picked| - 1];
      PickedSize(front);
      var fronts := Ids(front);
      assert picked == front + [last];
      assert ids == fronts + {last};
      assert last !in fronts;
    }
  }

  lemma SplitSize(a: set<nat>, b: set<nat>)
    requires b <= a
    ensures |a - b| + |b| == |a|
  {
    assert a == (a - b) + b;
  }

  lemma SubsetSize(a: set<nat>, b: set<nat>)
    requires a <= b
    ensures |a| <= |b| && (|a| == |b| ==> a == b)
  {
    assert b == a + (b - a);
    assert |b| == |a| + |b - a|;
  }

  /**
   Jobs due by the horizon are served before younger ones: a tick that marks all it picked takes
   `limit` of those that no other transaction holds, or all of them.
   */
  lemma TickProgress(t: Table, horizon: real, now: real, limit: nat, locked: set<nat>, picked: seq<nat>)
    requires horizon <= now && IsPick(t, now, limit, locked, picked)
    ensures var due := DueIds(t, horizon);
            |DueIds(MarkAll(t, Ids(picked), now), horizon)| + Min(limit, |due - locked|) == |due|
  {
    var ids := Ids(picked);
    var due := DueIds(t, horizon);
    var free, served := due - locked, due * ids;
    ServedLeave(t, ids, horizon, now);
    SplitSize(due, served);
    PickedSize(picked);
    SubsetSize(served, ids);
    assert served <= free;
    if id :| id in free && id !in ids {
      LeftOutLast(t, horizon, now, limit, locked, picked, id);
      SubsetSize(served + {id}, free);
    } else {
      assert served == free;
    }
  }

  /** Marked jobs are no longer due; the others still are. */
  lemma ServedLeave(t: Table, ids: set<nat>, horizon: real, now: real)
    ensures DueIds(MarkAll(t, ids, now), horizon) == DueIds(t, horizon) - DueIds(t, horizon) * ids
  {
  }

  /** If a free job due by the horizon is left out, the pick is a full batch of such jobs. */
  lemma LeftOutLast(t: Table, horizon: real, now: real, limit: nat, locked: set<nat>, picked: seq<nat>, id: nat)
    requires horizon <= now && IsPick(t, now, limit, locked, picked)
    requires id in DueIds(t, horizon) - locked && id !in picked
    ensures |picked| == limit && DueIds(t, horizon) * Ids(picked) == Ids(picked)
  {
  }

  // ---- blocking

  /** The free due rows. */
  ghost function Free(t: Table, now: real, locked: set<nat>): set<nat> {
    DueIds(t, now) - locked
  }

  /** The free due rows outside `bad` that are not younger than any row of it. */
  ghost function Rivals(t: Table, now: real, locked: set<nat>, bad: set<nat>): set<nat>
    requires bad <= Free(t, now, locked)
  {
    set id | id in Free(t, now, locked) - bad && forall b :: b in bad ==> t[id].runAt <= t[b].runAt
  }

  /** If there are fewer rivals than the limit, every pick has a row of `bad`. */
  lemma EveryPickHits(t: Table, now: real, limit: nat, locked: set<nat>, bad: set<nat>, picked: seq<nat>)
    requires bad <= Free(t, now, locked) && bad != {} && |Rivals(t, now, locked, bad)| < limit
    requires IsPick(t, now, limit, locked, picked)
    ensures exists q :: q in bad && q in picked
  {
    if forall q :: q in bad ==> q !in picked {
      var b :| b in bad;
      assert Due(t, now, b) && |picked| == limit;
      forall id | id in Ids(picked) ensures id in Rivals(t, now, locked, bad) {
        assert Due(t, now, id);
        forall q | q in bad ensures t[id].runAt <= t[q].runAt {
          assert Due(t, now, q);
        }
      }
      PickedSize(picked);
      SubsetSize(Ids(picked), Rivals(t, now, locked, bad));
    }
  }

  /** Otherwise there is a pick of rivals alone. */
  lemma PickOfRivals(t: Table, now: real, limit: nat, locked: set<nat>, bad: set<nat>) returns (picked: seq<nat>)
    requires bad <= Free(t, now, locked) && |Rivals(t, now, locked, bad)| >= limit
    ensures IsPick(t, now, limit, locked, picked) && forall q :: q in bad ==> q !in picked
  {
    var rivals := Rivals(t, now, locked, bad);
    picked := [];
    var rest := Free(t, now, locked);
    while |picked| < limit
      invariant PickSoFar(t, now, limit, locked, rest, picked)
      invariant Ids(picked) <= rivals
    {
      PickedSize(picked);
      SubsetSize(Ids(picked), rivals);
      var rivalsLeft := rivals - Ids(picked);
      assert rivalsLeft != {} by {
        assert rivals == rivalsLeft + Ids(picked);
      }
      var id := OldestExists(t, rivalsLeft);
      OldestRival(t, now, limit, locked, bad, rest, picked, id);
      PickOne(t, now, limit, locked, rest, picked, id);
      picked := picked + [id];
      rest := rest - {id};
    }
    PickDone(t, now, limit, locked, rest, picked);
    assert forall q :: q in picked ==> q in Ids(picked);
  }

  /** The oldest rival left is the oldest row left. */
  lemma OldestRival(
    t: Table, now: real, limit: nat, locked: set<nat>, bad: set<nat>, rest: set<nat>, picked: seq<nat>, id: nat)
    requires bad <= Free(t, now, locked) && PickSoFar(t, now, limit, locked, rest, picked)
    requires id in Rivals(t, now, locked, bad) - Ids(picked)
    requires forall j :: j in Rivals(t, now, locked, bad) - Ids(picked) ==> t[id].runAt <= t[j].runAt
    ensures id in rest && forall j :: j in rest ==> t[id].runAt <= t[j].runAt
  {
    assert Due(t, now, id);
    forall j | j in rest ensures t[id].runAt <= t[j].runAt {
      if j !in bad && t[j].runAt < t[id].runAt {
        assert false;
      }
    }
  }

  /** Every pick has a row of `bad` if and only if there is one and fewer than `limit` rivals. */
  lemma HitIff(t: Table, now: real, limit: nat, locked: set<nat>, bad: set<nat>)
    requires bad <= Free(t, now, locked)
    ensures (forall picked :: IsPick(t, now, limit, locked, picked) ==> exists q :: q in bad && q in picked)
      <==> bad != {} && |Rivals(t, now, locked, bad)| < limit
  {
    if bad != {} && |Rivals(t, now, locked, bad)| < limit {
      forall picked | IsPick(t, now, limit, locked, picked) ensures exists q :: q in bad && q in picked {
        EveryPickHits(t, now, limit, locked, bad, picked);
      }
    } else if bad == {} {
      var picked := SomePick(t, now, limit, locked);
    } else {
      var picked := PickOfRivals(t, now, limit, locked, bad);
    }
  }

  lemma SomePick(t: Table, now: real, limit: nat, locked: set<nat>) returns (picked: seq<nat>)
    ensures IsPick(t, now, limit, locked, picked)
  {
    picked := [];
    var rest := Free(t, now, locked);
    while |picked| < limit && rest != {}
      invariant PickSoFar(t, now, limit, locked, rest, picked)
    {
      var id := OldestExists(t, rest);
      PickOne(t, now, limit, locked, rest, picked, id);
      picked := picked + [id];
      rest := rest - {id};
    }
    PickDone(t, now, limit, locked, rest, picked);
  }

  /** A due free job is in every pick exactly when fewer than `limit` other free due jobs are not younger. */
  lemma PickedIff(t: Table, now: real, limit: nat, locked: set<nat>, q: nat)
    requires Due(t, now, q) && q !in locked
    ensures (forall picked :: IsPick(t, now, limit, locked, picked) ==> q in picked)
      <==> |set id | id in t && Due(t, now, id) && id !in locked && id != q && t[id].runAt <= t[q].runAt| < limit
  {
    HitIff(t, now, limit, locked, {q});
    assert Rivals(t, now, locked, {q}) ==
      set id | id in t && Due(t, now, id) && id !in locked && id != q && t[id].runAt <= t[q].runAt;
  }

  /** The free due jobs whose handler raises. */
  ghost function Raising(t: Table, handlers: set<string>, now: real, locked: set<nat>, raises: set<nat>): set<nat> {
    set id | id in Free(t, now, locked) && id in raises && Handled(t, handlers, id)
  }

  /** There are raising jobs, and fewer than `limit` others are as old as all of them. */
  ghost predicate IsBlocked(t: Table, handlers: set<string>, now: real, limit: nat, locked: set<nat>, raises: set<nat>) {
    var bad := Raising(t, handlers, now, locked, raises);
    bad != {} && |Rivals(t, now, locked, bad)| < limit
  }

  /** Every tick fails, whatever it picks, exactly when the raising jobs block it. */
  lemma BlockedIff(t: Table, handlers: set<string>, now: real, limit: nat, locked: set<nat>, raises: set<nat>)
    ensures (forall picked :: IsPick(t, now, limit, locked, picked) ==> !(HandledOf(t, handlers, picked) !! raises))
      <==> IsBlocked(t, handlers, now, limit, locked, raises)
  {
    var bad := Raising(t, handlers, now, locked, raises);
    HitIff(t, now, limit, locked, bad);
    forall picked | IsPick(t, now, limit, locked, picked)
      ensures !(HandledOf(t, handlers, picked) !! raises) <==> exists q :: q in bad && q in picked
    {
      forall q | q in picked && q in raises && Handled(t, handlers, q) ensures q in bad {
        assert Due(t, now, q);
      }
    }
  }

  /** The table before tick k, others' changes included, if no earlier tick marks anything. */
  function Unmarked(t0: Table, o: Surroundings, k: nat): Table {
    o.others(k, if k == 0 then t0 else Unmarked(t0, o, k - 1))
  }

  ghost predicate BlockedAt(t0: Table, handlers: set<string>, limit: nat, o: Surroundings, k: nat) {
    IsBlocked(Unmarked(t0, o, k), handlers, o.clock(k), limit, o.locks(k), o.raises(k))
  }

  /** As long as the raising jobs block every tick, every tick fails and marks nothing. */
  lemma {:induction false} BlockedRun(
    t0: Table, handlers: set<string>, limit: nat, o: Surroundings, run: seq<Outcome>, n: nat)
    requires IsRun(t0, handlers, limit, o, run) && n <= |run|
    requires forall k: nat :: k < n ==> BlockedAt(t0, handlers, limit, o, k)
    ensures forall k :: 0 <= k < n ==> run[k].r.Err? && run[k].after == Unmarked(t0, o, k)
  {
    if n > 0 {
      BlockedRun(t0, handlers, limit, o, run, n - 1);
      assert StepAt(t0, handlers, limit, o, run, n - 1) && BlockedAt(t0, handlers, limit, o, n - 1);
      BlockedIff(
        Unmarked(t0, o, n - 1), handlers, o.clock(n - 1), limit, o.locks(n - 1), o.raises(n - 1));
    }
  }

  lemma SomeOutcome(t: Table, handlers: set<string>, now: real, limit: nat, locked: set<nat>, raises: set<nat>)
    returns (x: Outcome)
    ensures IsOutcome(t, handlers, now, limit, locked, raises, x)
    ensures !IsBlocked(t, handlers, now, limit, locked, raises) ==> x.r.Ok?
  {
    var picked := SomePick(t, now, limit, locked);
    BlockedIff(t, handlers, now, limit, locked, raises);
    if !IsBlocked(t, handlers, now, limit, locked, raises) {
      picked :| IsPick(t, now, limit, locked, picked) && HandledOf(t, handlers, picked) !! raises;
    }
    var ids := HandledOf(t, handlers, picked);
    if ids !! raises {
      x := Outcome(Ok(|picked|), picked, MarkAll(t, ids, now));
    } else {
      x := Outcome(Err(0), picked, t);
    }
  }

  /** There is a run that commits wherever it is not blocked. */
  lemma {:induction false} SomeRun(t0: Table, handlers: set<string>, limit: nat, o: Surroundings, n: nat)
    returns (run: seq<Outcome>)
    ensures |run| == n && IsRun(t0, handlers, limit, o, run)
    ensures forall k :: 0 <= k < n && run[k].r.Err? ==>
      IsBlocked(o.others(k, TableAt(t0, run, k)), handlers, o.clock(k), limit, o.locks(k), o.raises(k))
  {
    if n == 0 {
      run := [];
    } else {
      run := SomeRun(t0, handlers, limit, o, n - 1);
      var k := n - 1;
      var x := SomeOutcome(
        o.others(k, TableAt(t0, run, k)), handlers, o.clock(k), limit, o.locks(k), o.raises(k));
      LongerRun(t0, handlers, limit, o, run, x);
      run := run + [x];
    }
  }

  /** All ticks of every run of n ticks fail if and only if the raising jobs block each of them. */
  lemma StuckIff(t0: Table, handlers: set<string>, limit: nat, o: Surroundings, n: nat)
    ensures (forall run :: IsRun(t0, handlers, limit, o, run) && |run| == n ==> Failures(run) == n)
      <==> (forall k: nat :: k < n ==> BlockedAt(t0, handlers, limit, o, k))
  {
    if forall k: nat :: k < n ==> BlockedAt(t0, handlers, limit, o, k) {
      forall run | IsRun(t0, handlers, limit, o, run) && |run| == n ensures Failures(run) == n {
        BlockedRun(t0, handlers, limit, o, run, n);
        FewerFailures(run);
      }
    } else if forall run :: IsRun(t0, handlers, limit, o, run) && |run| == n ==> Failures(run) == n {
      var run := SomeRun(t0, handlers, limit, o, n);
      FewerFailures(run);
      FailedRunIsBlocked(t0, handlers, limit, o, run, n);
    }
  }

  lemma {:induction false} FailedRunIsBlocked(
    t0: Table, handlers: set<string>, limit: nat, o: Surroundings, run: seq<Outcome>, n: nat)
    requires n <= |run| && IsRun(t0, handlers, limit, o, run) && forall k :: 0 <= k < |run| ==> run[k].r.Err?
    requires forall k :: 0 <= k < |run| ==>
      IsBlocked(o.others(k, TableAt(t0, run, k)), handlers, o.clock(k), limit, o.locks(k), o.raises(k))
    ensures n > 0 ==> run[n - 1].after == Unmarked(t0, o, n - 1)
    ensures forall k: nat :: k < n ==> BlockedAt(t0, handlers, limit, o, k)
  {
    if n > 0 {
      FailedRunIsBlocked(t0, handlers, limit, o, run, n - 1);
      assert StepAt(t0, handlers, limit, o, run, n - 1);
      assert BlockedAt(t0, handlers, limit, o, n - 1);
    }
  }

  lemma CeilTicks(n: nat, k: nat, limit: nat)
    requires limit >= 1
    ensures Remaining(n, k, limit) == 0 <==> (n + limit - 1) / limit <= k
  {
    var c := (n + limit - 1) / limit;
    assert c * limit <= n + limit - 1 < c * limit + limit;
    if c <= k {
      assert c * limit <= k * limit;
    } else {
      assert (k + 1) * limit <= c * limit;
    }
  }

  // ---- starvation

  /** The free due rows strictly older than h. */
  ghost function Older(t: Table, now: real, locked: set<nat>, h: nat): set<nat>
    requires h in t
  {
    set id | id in t && Due(t, now, id) && id !in locked && t[id].runAt < t[h].runAt
  }

  /** Every free due row with a handler has at least `limit` older free due rows. */
  ghost predicate Crowded(t: Table, handlers: set<string>, now: real, limit: nat, locked: set<nat>) {
    forall h :: Due(t, now, h) && h !in locked && Handled(t, handlers, h) ==> |Older(t, now, locked, h)| >= limit
  }

  lemma CrowdedStarves(t: Table, handlers: set<string>, now: real, limit: nat, locked: set<nat>, picked: seq<nat>, h: nat)
    requires Crowded(t, handlers, now, limit, locked) && IsPick(t, now, limit, locked, picked)
    requires Handled(t, handlers, h)
    ensures h !in picked
  {
    if h in picked {
      assert Due(t, now, h);
      var older, ids := Older(t, now, locked, h), Ids(picked);
      forall id | id in older ensures id in ids {
        assert Due(t, now, id);
      }
      PickedSize(picked);
      SubsetSize(older + {h}, ids);
    }
  }

  /** A pick that takes h ahead of rows of the same age. */
  lemma PickWith(t: Table, now: real, limit: nat, locked: set<nat>, h: nat) returns (picked: seq<nat>)
    requires Due(t, now, h) && h !in locked && |Older(t, now, locked, h)| < limit
    ensures IsPick(t, now, limit, locked, picked) && h in picked
  {
    picked := [];
    var rest := set id | id in t && id !in locked && Due(t, now, id);
    while |picked| < limit && rest != {}
      invariant PickSoFar(t, now, limit, locked, rest, picked)
      invariant h in rest || h in picked
      invariant h in rest ==> Ids(picked) <= Older(t, now, locked, h)
    {
      var id := OldestExists(t, rest);
      if h in rest && t[h].runAt == t[id].runAt {
        id := h;
      }
      assert h in rest && id != h ==> id in Older(t, now, locked, h);
      PickOne(t, now, limit, locked, rest, picked, id);
      picked := picked + [id];
      rest := rest - {id};
    }
    PickDone(t, now, limit, locked, rest, picked);
    if h in rest {
      PickedSize(picked);
      SubsetSize(Ids(picked), Older(t, now, locked, h));
    }
  }

  /** No tick can mark anything, whatever it picks, exactly when rows without a handler crowd out the others. */
  lemma StarvedIff(t: Table, handlers: set<string>, now: real, limit: nat, locked: set<nat>)
    ensures (forall picked :: IsPick(t, now, limit, locked, picked) ==> HandledOf(t, handlers, picked) == {})
      <==> Crowded(t, handlers, now, limit, locked)
  {
    if Crowded(t, handlers, now, limit, locked) {
      forall picked | IsPick(t, now, limit, locked, picked) ensures HandledOf(t, handlers, picked) == {} {
        forall h | h in picked && Handled(t, handlers, h) ensures false {
          CrowdedStarves(t, handlers, now, limit, locked, picked, h);
        }
      }
    } else {
      var h :| Due(t, now, h) && h !in locked && Handled(t, handlers, h) && |Older(t, now, locked, h)| < limit;
      var picked := PickWith(t, now, limit, locked, h);
      assert h in HandledOf(t, handlers, picked);
    }
  }

  /** A batch of due rows without a handler, older than all pending rows with one, starves them at every later time. */
  lemma HandlerlessStarve(t: Table, handlers: set<string>, now: real, limit: nat, locked: set<nat>, stuck: set<nat>)
    requires |stuck| >= limit
    requires forall id :: id in stuck ==> Due(t, now, id) && !Handled(t, handlers, id) && id !in locked
    requires forall id, h :: id in stuck && id in t && Handled(t, handlers, h) && t[h].status.Pending? ==>
      t[id].runAt < t[h].runAt
    ensures Crowded(t, handlers, now, limit, locked)
  {
    forall h | Due(t, now, h) && h !in locked && Handled(t, handlers, h)
      ensures |Older(t, now, locked, h)| >= limit
    {
      SubsetSize(stuck, Older(t, now, locked, h));
    }
  }
}
