/**
 The rows of the job queue and of the dead-letter table, and the queue's order.
 Payloads are opaque texts.  `origin` is a history variable: it numbers the
 original enqueue a row descends from and is copied by every retry, so that the
 laws below can speak about one job although each retry inserts a new row.
 */
module JobTables {
  import opened Wrappers

  const URGENT := 0
  const HIGH := 10
  const NORMAL := 20
  const LOW := 30

  type pos = n: nat | 1 <= n witness 1

  datatype Job = Job(kind: string, payload: string)

  datatype Envelope = Envelope(origin: nat, job: Job, attempt: pos)

  datatype Row = Row(env: Envelope, lastError: Option<string>, priority: int, createdAt: real)

  datatype DeadLetter = DeadLetter(env: Envelope, lastError: string, createdAt: real)

  /** A job together with the enqueue that created it. */
  datatype Ticket = Ticket(origin: nat, job: Job)

  function EnvTicket(e: Envelope): Ticket {
    Ticket(e.origin, e.job)
  }

  function RowTicket(r: Row): Ticket {
    EnvTicket(r.env)
  }

  function DeadTicket(d: DeadLetter): Ticket {
    EnvTicket(d.env)
  }

  /** `ORDER BY priority ASC, created_at ASC`, as a strict order. */
  predicate Before(a: Row, b: Row) {
    a.priority < b.priority || (a.priority == b.priority && a.createdAt < b.createdAt)
  }

  /** Row i is one the dequeue statement may delete while other transactions hold `locked`. */
  ghost predicate IsHead(rows: seq<Row>, locked: set<nat>, i: nat) {
    && i < |rows|
    && i !in locked
    && forall j :: 0 <= j < |rows| && j !in locked ==> !Before(rows[j], rows[i])
  }
}
