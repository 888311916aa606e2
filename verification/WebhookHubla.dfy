/**
 The webhook endpoint as the program has it: one delivery awaits the duplicate filter, the event
 table and the queue in turn, and each part is proved to be a step of the admission machine.
 */
module WebhookHubla {
  import opened Wrappers
  import opened RedisStore
  import opened JobTables
  import opened Admission
  import Dispatch
  import WorkerProcess

  /** The id of the event row: by sale, or by event type alone without a sale id. */
  function RowId(q: Request): string {
    "hubla:" + (if SaleId(q) != "" then ExternalId(EventType(q), SaleId(q)) else EventType(q))
  }

  class Router {
    const dedup: RedisDedup
    const queue: WorkerProcess.PostgresJobQueue
    var events: set<string>

    constructor (dedup: RedisDedup, queue: WorkerProcess.PostgresJobQueue)
      ensures this.dedup == dedup && this.queue == queue && events == {}
    {
      this.dedup, this.queue, events := dedup, queue, {};
    }

    ghost predicate Shows(s: State)
      reads this, dedup.redis, queue
    {
      && s.now == dedup.redis.now && s.keys == dedup.redis.keys
      && s.engine.now == queue.now && s.engine.rows == queue.rows && s.engine.dlq == queue.dlq
      && |s.engine.log.enqueued| == queue.issued
    }

    /** The first part: the mark, or the answer to a duplicate. */
    method Mark(q: Request, c: Dispatch.Config, ghost s: State)
      returns (duplicate: bool, rowId: string, ghost s': State)
      requires Shows(s)
      modifies dedup.redis`keys
      ensures Enabled(c, s, Arrive(q)) && s' == Apply(c, s, Arrive(q)) && Shows(s')
      ensures duplicate == IsDuplicate(s, q)
      ensures !duplicate ==> At(s', |s.deliveries|, Arrived) && s'.deliveries[|s.deliveries|].q == q && rowId == RowId(q)
      ensures !duplicate ==> if KeyOf(q).Some? then Key(q) == "dedup:" + rowId else rowId == "hubla:" + EventType(q)
    {
      s' := Apply(c, s, Arrive(q));
      rowId := "hubla:" + EventType(q);
      if SaleId(q) != "" {
        rowId := "hubla:" + ExternalId(EventType(q), SaleId(q));
        var first := dedup.TryMark(rowId, TTL);
        if !first {
          return true, "", s';
        }
      }
      return false, rowId, s';
    }

    /** The insert into the event table, which leaves a row of the same id alone; `raises` ends the delivery. */
    method Store(rowId: string, raises: bool, c: Dispatch.Config, ghost s: State, ghost i: nat)
      returns (ghost s': State)
      requires Shows(s) && At(s, i, Arrived) && rowId == RowId(s.deliveries[i].q)
      modifies `events
      ensures var e := Admission.Event.Store(i, !raises); Enabled(c, s, e) && s' == Apply(c, s, e) && Shows(s')
      ensures events == if raises then old(events) else old(events) + {RowId(s.deliveries[i].q)}
    {
      s' := Apply(c, s, Admission.Event.Store(i, !raises));
      if !raises {
        events := events + {rowId};
      }
    }

    /** The insert into the queue; None if it raises. */
    method Finish(q: Request, raises: bool, c: Dispatch.Config, ghost s: State, ghost i: nat)
      returns (job: Option<nat>, ghost s': State)
      requires Shows(s) && At(s, i, Stored) && s.deliveries[i].q == q
      modifies queue
      ensures var e := Admission.Event.Finish(i, !raises); Enabled(c, s, e) && s' == Apply(c, s, e) && Shows(s')
      ensures job.Some? ==> At(s', i, Enqueued(job.value)) && HasItsJob(s', s'.deliveries[i])
      ensures job.None? <==> raises
      ensures queue.rows == old(queue.rows) +
        (if raises then [] else [Row(Envelope(job.value, Job("hubla_event", q.body), 1), None, NORMAL, queue.now)])
    {
      s' := Apply(c, s, Admission.Event.Finish(i, !raises));
      if raises {
        return None, s';
      }
      var origin := queue.Enqueue(HublaJob(q), NORMAL);
      return Some(origin), s';
    }
  }
}
