/**
 Fairness of the queue order.  With one consumer and timestamps that grow with every
 insert, how long a row waits is determined by the rows ahead of it.
 */
module Bypass {
  import opened Wrappers
  import opened Folds
  import opened JobTables
  import opened Dispatch

  function IsAhead(r: Row): Row -> nat {
    (x: Row) => if Before(x, r) then 1 else 0
  }

  /** How many queued rows the dequeue statement prefers to r. */
  function Ahead(rows: seq<Row>, r: Row): nat {
    Sum(rows, IsAhead(r))
  }

  /** No two rows tie on (priority, created_at). */
  ghost predicate Untied(rows: seq<Row>) {
    forall i, j :: 0 <= i < j < |rows| ==> Before(rows[i], rows[j]) || Before(rows[j], rows[i])
  }

  /** The step skips no locked row and inserts only rows newer than those queued. */
  ghost predicate StrictStep(s: State, e: Event) {
    && (e.Dequeue? ==> e.locked == {})
    && (e.Enqueue? || e.Nack? ==> forall i :: 0 <= i < |s.rows| ==> s.rows[i].createdAt < s.now)
  }

  ghost predicate StrictRun(c: Config, s: State, es: seq<Event>)
    decreases |es|
  {
    es != [] ==> Enabled(c, s, es[0]) && StrictStep(s, es[0]) && StrictRun(c, Apply(c, s, es[0]), es[1..])
  }

  predicate TakesRow(s: State, e: Event, r: Row) {
    e.Dequeue? && e.i < |s.rows| && s.rows[e.i] == r
  }

  /** Some dequeue of the run returns r. */
  ghost predicate Taken(c: Config, s: State, es: seq<Event>, r: Row)
    requires StrictRun(c, s, es)
    decreases |es|
  {
    es != [] && (TakesRow(s, es[0], r) || Taken(c, Apply(c, s, es[0]), es[1..], r))
  }

  function Takes(es: seq<Event>): nat {
    if es == [] then 0 else (if es[0].Dequeue? then 1 else 0) + Takes(es[1..])
  }

  /** A retry re-enters as NORMAL, so it jumps the queue only past LOW rows. */
  predicate Jumps(e: Event, r: Row) {
    (e.Enqueue? && e.priority < r.priority) || (e.Nack? && NORMAL < r.priority)
  }

  function Jumpers(es: seq<Event>, r: Row): nat {
    if es == [] then 0 else (if Jumps(es[0], r) then 1 else 0) + Jumpers(es[1..], r)
  }

  lemma UntiedAfterRemove(rows: seq<Row>, i: nat)
    requires i < |rows| && Untied(rows)
    ensures Untied(Remove(rows, i))
  {
  }

  lemma RemoveKeeps(rows: seq<Row>, i: nat, r: Row)
    requires i < |rows| && r in rows && rows[i] != r
    ensures r in Remove(rows, i)
  {
  }

  /** A head other than r was ahead of r. */
  lemma HeadIsAhead(rows: seq<Row>, i: nat, r: Row)
    requires Untied(rows) && IsHead(rows, {}, i) && r in rows && rows[i] != r
    ensures Before(rows[i], r)
  {
  }

  lemma StepAhead(c: Config, s: State, e: Event, r: Row)
    requires Enabled(c, s, e) && StrictStep(s, e) && Untied(s.rows) && r in s.rows && !TakesRow(s, e, r)
    ensures var s' := Apply(c, s, e);
            && Untied(s'.rows) && r in s'.rows
            && Ahead(s'.rows, r) + Takes([e]) == Ahead(s.rows, r) + Jumpers([e], r)
  {
    var s' := Apply(c, s, e);
    if e.Dequeue? {
      HeadIsAhead(s.rows, e.i, r);
      UntiedAfterRemove(s.rows, e.i);
      RemoveKeeps(s.rows, e.i, r);
      SumRemove(s.rows, e.i, IsAhead(r));
    } else if e.Enqueue? || e.Nack? {
      SumAppend(s.rows, s'.rows[|s.rows|], IsAhead(r));
    } else {
      assert s'.rows == s.rows;
    }
  }

  /**
   The waiting law: as long as r has not been taken, it is still queued, and the rows ahead
   of it are those at the start, plus the better-priority arrivals, minus the dequeues.
   */
  lemma {:induction false} WaitingLaw(c: Config, s: State, es: seq<Event>, r: Row)
    requires StrictRun(c, s, es) && Untied(s.rows) && r in s.rows && !Taken(c, s, es, r)
    ensures Exec(c, s, es).Some?
    ensures var s' := Exec(c, s, es).value;
            && r in s'.rows && Untied(s'.rows)
            && Ahead(s'.rows, r) + Takes(es) == Ahead(s.rows, r) + Jumpers(es, r)
    decreases |es|
  {
    if es != [] {
      StepAhead(c, s, es[0], r);
      WaitingLaw(c, Apply(c, s, es[0]), es[1..], r);
    }
  }

  /** A row with k rows ahead is returned within k + 1 dequeues plus one per better-priority arrival. */
  lemma BoundedBypass(c: Config, s: State, es: seq<Event>, r: Row)
    requires StrictRun(c, s, es) && Untied(s.rows) && r in s.rows
    requires Takes(es) > Ahead(s.rows, r) + Jumpers(es, r)
    ensures Taken(c, s, es, r)
  {
    if !Taken(c, s, es, r) {
      WaitingLaw(c, s, es, r);
    }
  }

  /** Of two queued rows the later one is returned only after the earlier one. */
  lemma NoOvertaking(c: Config, s: State, es: seq<Event>, w: nat, i: nat, r: Row, x: Row)
    requires StrictRun(c, s, es) && Exec(c, s, es).Some? && Untied(s.rows)
    requires r in s.rows && Before(r, x)
    requires Enabled(c, Exec(c, s, es).value, Dequeue(w, i, {})) && Exec(c, s, es).value.rows[i] == x
    ensures Taken(c, s, es, r)
  {
    if !Taken(c, s, es, r) {
      WaitingLaw(c, s, es, r);
    }
  }

  /** A retried job joins the queue behind every row of NORMAL or better priority. */
  lemma RetryGoesBehind(c: Config, s: State, w: nat, t: nat, i: nat)
    requires Enabled(c, s, Nack(w, t)) && StrictStep(s, Nack(w, t))
    requires i < |s.rows| && s.rows[i].priority <= NORMAL
    ensures var rows := Apply(c, s, Nack(w, t)).rows;
            && |rows| == |s.rows| + 1
            && rows[i] == s.rows[i] && Before(rows[i], rows[|s.rows|])
  {
  }
}
