/**
 The queue adapter and the dispatcher as the program has them: objects that update their
 fields.  Each dispatcher method is the code between two awaits and is proved to be a step
 of the protocol in `Dispatch`; `s` stands for the whole system before the step, `s'` after.
 */
module WorkerProcess {
  import opened Wrappers
  import opened Folds
  import opened JobTables
  import opened Dispatch
  import opened Timing

  /** Other transactions hold each of the first n rows. */
  ghost predicate AllHeld(n: nat, locked: set<nat>) {
    forall j: nat :: j < n ==> j in locked
  }

  /** The table that poll k of a dequeue meets. */
  function PollTable(first: seq<Row>, later: nat -> seq<Row>, k: nat): seq<Row> {
    if k == 0 then first else later(k)
  }

  class PostgresJobQueue {
    var rows: seq<Row>
    var dlq: seq<DeadLetter>
    var now: real
    var issued: nat
    const pollInterval: real

    ghost predicate Valid()
      reads this
    {
      pollInterval > 0.0
    }

    constructor (pollInterval: real)
      requires pollInterval > 0.0
      ensures Valid() && rows == [] && dlq == [] && issued == 0
    {
      rows, dlq, issued, now := [], [], 0, 0.0;
      this.pollInterval := pollInterval;
    }

    /** Insert a new job; returns the number that identifies its enqueue. */
    method Enqueue(job: Job, priority: int := NORMAL) returns (origin: nat)
      modifies this
      ensures origin == old(issued) && issued == old(issued) + 1
      ensures rows == old(rows) + [Row(Envelope(origin, job, 1), None, priority, now)]
      ensures unchanged(`dlq) && unchanged(`now)
    {
      origin := issued;
      rows := rows + [Row(Envelope(origin, job, 1), None, priority, now)];
      issued := issued + 1;
    }

    /** The DELETE statement: take a best row that no other transaction holds, if there is one. */
    method DequeueOnce(locked: set<nat>) returns (r: Option<Envelope>, ghost i: nat)
      modifies `rows
      ensures r.None? <==> AllHeld(|old(rows)|, locked)
      ensures r.None? ==> unchanged(`rows)
      ensures r.Some? ==> IsHead(old(rows), locked, i) && r.value == old(rows)[i].env && rows == Remove(old(rows), i)
    {
      var best: Option<nat> := None;
      var k := 0;
      while k < |rows|
        invariant 0 <= k <= |rows|
        invariant best.None? <==> AllHeld(k, locked)
        invariant best.Some? ==> best.value < k && best.value !in locked
        invariant best.Some? ==> forall j: nat :: j < k && j !in locked ==> !Before(rows[j], rows[best.value])
      {
        if k !in locked && (best.None? || Before(rows[k], rows[best.value])) {
          best := Some(k);
        }
        k := k + 1;
      }
      match best {
        case None => r, i := None, 0;
        case Some(b) =>
          r, i := Some(rows[b].env), b;
          rows := Remove(rows, b);
      }
    }

    /**
     The polling loop.  `held(k)` are the rows other transactions hold at poll number k, and
     `later(k)` is the table as they have left it before that poll.  Every poll but the last
     finds nothing; the last one takes a best row, or finds nothing at the deadline.  Each pause is
     at most the poll interval and never goes past the deadline.
     */
    method Dequeue(timeout: real, held: nat -> set<nat>, later: nat -> seq<Row>)
      returns (r: Option<Envelope>, polls: nat, ghost i: nat)
      requires Valid()
      modifies this
      ensures Valid() && unchanged(`dlq) && unchanged(`issued) && now >= old(now)
      ensures polls >= 1 && now <= old(now) + (polls - 1) as real * pollInterval
      ensures polls > 1 ==> now <= old(now) + timeout
      ensures forall k: nat :: k < polls - 1 ==> AllHeld(|PollTable(old(rows), later, k)|, held(k))
      ensures var table := PollTable(old(rows), later, polls - 1);
              && (r.None? <==> AllHeld(|table|, held(polls - 1)))
              && (r.None? ==> rows == table && now == old(now) + (if timeout > 0.0 then timeout else 0.0))
              && (r.Some? ==> IsHead(table, held(polls - 1), i) && r.value == table[i].env && rows == Remove(table, i))
    {
      var deadline := now + timeout;
      polls := 0;
      while true
        invariant Valid() && dlq == old(dlq) && issued == old(issued)
        invariant old(now) <= now <= old(now) + polls as real * pollInterval
        invariant polls == 0 ==> now == old(now)
        invariant polls > 0 ==> now <= deadline
        invariant rows == PollTable(old(rows), later, polls)
        invariant forall k: nat :: k < polls ==> AllHeld(|PollTable(old(rows), later, k)|, held(k))
        decreases PollsLeft(now, deadline, pollInterval)
      {
        r, i := DequeueOnce(held(polls));
        polls := polls + 1;
        if r.Some? {
          return;
        }
        var remaining := deadline - now;
        if remaining <= 0.0 {
          return;
        }
        PauseDrops(now, deadline, pollInterval);
        now := now + (if pollInterval < remaining then pollInterval else remaining);
        rows := later(polls);
      }
    }

    /** Put a failed job back with its next attempt number, as NORMAL. */
    method Nack(env: Envelope, error: string)
      modifies `rows
      ensures rows == old(rows) + [Row(env.(attempt := env.attempt + 1), Some(error), NORMAL, now)]
    {
      rows := rows + [Row(env.(attempt := env.attempt + 1), Some(error), NORMAL, now)];
    }

    method ToDlq(env: Envelope, error: string)
      modifies `dlq
      ensures dlq == old(dlq) + [DeadLetter(env, error, now)]
    {
      dlq := dlq + [DeadLetter(env, error, now)];
    }
  }

  class WorkerDispatcher {
    const c: Config
    const id: nat
    const queue: PostgresJobQueue
    var loop: Loop
    var dispatched: nat
    var tasks: seq<Task>
    var permits: nat

    /** The object is worker number `id` of the system s; its semaphore counts the free permits. */
    ghost predicate Shows(s: State)
      reads this, queue
    {
      && id < |s.workers| && s.workers[id] == Worker(loop, dispatched, tasks)
      && s.rows == queue.rows && s.dlq == queue.dlq && s.now == queue.now
      && permits + RunningCount(tasks) == c.maxConcurrency
    }

    constructor (c: Config, id: nat, queue: PostgresJobQueue, ghost s: State)
      requires id < |s.workers| && s.workers[id].loop.Exited?
      requires s.rows == queue.rows && s.dlq == queue.dlq && s.now == queue.now
      ensures this.c == c && this.id == id && this.queue == queue
      ensures Enabled(c, s, Boot(id)) && Shows(Apply(c, s, Boot(id)))
    {
      this.c, this.id, this.queue := c, id, queue;
      loop, dispatched, tasks, permits := Polling, 0, [], c.maxConcurrency;
    }

    /** One round of the worker loop: stop, spawn a task for a dequeued job, or find nothing. */
    method Poll(stop: bool, locked: set<nat>, ghost s: State) returns (ghost s': State)
      requires Shows(s) && loop.Polling?
      modifies this, queue`rows
      ensures Shows(s')
      ensures stop ==> Enabled(c, s, Stop(id)) && s' == Apply(c, s, Stop(id))
      ensures !stop && !AllHeld(|s.rows|, locked) ==>
        exists i: nat :: Enabled(c, s, Dequeue(id, i, locked)) && s' == Apply(c, s, Dequeue(id, i, locked))
      ensures !stop && AllHeld(|s.rows|, locked) ==> s' == s
    {
      if stop {
        loop := Draining;
        s' := Apply(c, s, Stop(id));
        return;
      }
      var r: Option<Envelope>;
      ghost var i: nat;
      r, i := queue.DequeueOnce(locked);
      if r.None? {
        s' := s;
        return;
      }
      SumAppend(tasks, Task(r.value, Spawned), IsRunning);
      tasks := tasks + [Task(r.value, Spawned)];
      dispatched := dispatched + 1;
      if c.iterations.Some? && dispatched >= c.iterations.value {
        loop := Draining;
      }
      assert Enabled(c, s, Dequeue(id, i, locked));
      s' := Apply(c, s, Dequeue(id, i, locked));
    }

    /** A job task begins: give up without a handler, else call it once a permit is free. */
    method Start(t: nat, ghost s: State) returns (moved: bool, ghost s': State)
      requires Shows(s) && t < |tasks| && tasks[t].phase.Spawned?
      modifies this
      ensures Shows(s')
      ensures s.workers[id].tasks[t].env.job.kind !in c.handlers ==>
        moved && Enabled(c, s, NoHandler(id, t)) && s' == Apply(c, s, NoHandler(id, t))
      ensures s.workers[id].tasks[t].env.job.kind in c.handlers && moved ==>
        Enabled(c, s, Acquire(id, t)) && s' == Apply(c, s, Acquire(id, t))
      ensures !moved ==> s' == s && RunningCount(tasks) == c.maxConcurrency
    {
      if tasks[t].env.job.kind !in c.handlers {
        SumRemove(tasks, t, IsRunning);
        s' := Apply(c, s, NoHandler(id, t));
        tasks, moved := Remove(tasks, t), true;
      } else if permits > 0 {
        s' := Apply(c, s, Acquire(id, t));
        SumUpdate(tasks, t, tasks[t].(phase := Running), IsRunning);
        tasks, permits, moved := tasks[t := tasks[t].(phase := Running)], permits - 1, true;
      } else {
        s', moved := s, false;
      }
    }

    /** The handler returns or raises; either way its permit is free again. */
    method Finish(t: nat, error: Option<string>, ghost s: State) returns (ghost s': State)
      requires Shows(s) && t < |tasks| && tasks[t].phase.Running?
      modifies this
      ensures Shows(s')
      ensures error.None? ==> Enabled(c, s, Succeed(id, t)) && s' == Apply(c, s, Succeed(id, t))
      ensures error.Some? ==> Enabled(c, s, Fail(id, t, error.value)) && s' == Apply(c, s, Fail(id, t, error.value))
    {
      var env := tasks[t].env;
      SumRemove(tasks, t, IsRunning);
      permits := permits + 1;
      if error.None? {
        s' := Apply(c, s, Succeed(id, t));
        tasks := Remove(tasks, t);
        return;
      }
      s' := Apply(c, s, Fail(id, t, error.value));
      if env.attempt < c.maxRetries {
        var next := Task(env, BackingOff(error.value, queue.now + Delay(c, env.attempt)));
        SumUpdate(tasks, t, next, IsRunning);
        tasks := tasks[t := next];
      } else if c.hasDlq {
        var next := Task(env, Exhausted(error.value));
        SumUpdate(tasks, t, next, IsRunning);
        tasks := tasks[t := next];
      } else {
        tasks := Remove(tasks, t);
      }
    }

    /** A task wakes from its pause and re-inserts the job. */
    method WakeUp(t: nat, ghost s: State) returns (ghost s': State)
      requires Shows(s) && t < |tasks| && tasks[t].phase.BackingOff? && tasks[t].phase.until <= queue.now
      modifies this, queue`rows
      ensures Shows(s') && Enabled(c, s, Nack(id, t)) && s' == Apply(c, s, Nack(id, t))
    {
      SumRemove(tasks, t, IsRunning);
      s' := Apply(c, s, Nack(id, t));
      queue.Nack(tasks[t].env, tasks[t].phase.error);
      tasks := Remove(tasks, t);
    }

    /** A task gives its job up to the dead-letter table. */
    method GiveUp(t: nat, ghost s: State) returns (ghost s': State)
      requires Shows(s) && t < |tasks| && tasks[t].phase.Exhausted?
      modifies this, queue`dlq
      ensures Shows(s') && Enabled(c, s, ToDlq(id, t)) && s' == Apply(c, s, ToDlq(id, t))
    {
      SumRemove(tasks, t, IsRunning);
      s' := Apply(c, s, ToDlq(id, t));
      queue.ToDlq(tasks[t].env, tasks[t].phase.error);
      tasks := Remove(tasks, t);
    }

    /** The task group is left only when every task has ended. */
    method Leave(ghost s: State) returns (done: bool, ghost s': State)
      requires Shows(s) && loop.Draining?
      modifies `loop
      ensures Shows(s')
      ensures done <==> s.workers[id].tasks == []
      ensures done ==> Enabled(c, s, Exit(id)) && s' == Apply(c, s, Exit(id))
      ensures !done ==> s' == s
    {
      done := tasks == [];
      s' := s;
      if done {
        s' := Apply(c, s, Exit(id));
        loop := Exited;
      }
    }
  }
}
