/**
 What histories of Hubla jobs leave in the lead and event tables.  A job is seen through its
 effect: what it read, what routing decided, and whether anything raised.
 */
module HublaHistory {
  import opened Wrappers
  import opened HublaPayloads

  datatype EventRow = EventRow(eventType: string, purchaseId: string, productId: string, payload: Payload, processed: nat)

  /** `productId` is that of the event that made the lead; `unmatched` is product_unmatched. */
  datatype Lead = Lead(productId: string, unmatched: bool)

  /** `leads` is keyed by purchase id. */
  datatype Tables = Tables(leads: map<string, Lead>, events: seq<EventRow>)

  /** `decision` is whether a product matched, None when routing had no contact to decide for. */
  datatype Effect = Effect(
    eventType: string, purchaseId: string, productId: string, payload: Payload, decision: Option<bool>, raised: bool)

  /** The row of a job that commits. */
  function RowOf(e: Effect): EventRow {
    EventRow(e.eventType, e.purchaseId, e.productId, e.payload, 1)
  }

  function Flag(t: Tables, purchaseId: string): bool {
    purchaseId in t.leads && t.leads[purchaseId].unmatched
  }

  /** INSERT ... ON CONFLICT: a lead that exists keeps its product. */
  function Upserted(t: Tables, purchaseId: string, productId: string): Lead {
    if purchaseId in t.leads then t.leads[purchaseId] else Lead(productId, false)
  }

  /** The flag after an event: the negated decision if there is one. */
  function NewFlag(flag: bool, decision: Option<bool>): bool {
    match decision case Some(matched) => !matched case None => flag
  }

  /** What one job commits: all of it, or nothing if anything raised. */
  function Commit(t: Tables, e: Effect): Tables {
    if e.raised then t
    else Tables(
      if e.purchaseId == "" then t.leads
      else
        var lead := Upserted(t, e.purchaseId, e.productId);
        t.leads[e.purchaseId := lead.(unmatched := NewFlag(lead.unmatched, e.decision))],
      t.events + [RowOf(e)])
  }

  function History(t: Tables, es: seq<Effect>): Tables
    decreases |es|
  {
    if es == [] then t else History(Commit(t, es[0]), es[1..])
  }

  /** The last decision committed for a purchase. */
  function LastDecision(es: seq<Effect>, purchaseId: string): Option<bool> {
    if es == [] then None
    else
      var later := LastDecision(es[1..], purchaseId);
      if later.Some? || es[0].raised || es[0].purchaseId != purchaseId then later else es[0].decision
  }

  /**
   For every lead and every history product_unmatched is the negation of the last committed
   decision; undecided and raising events leave it as it was.
   */
  lemma {:induction false} FlagIsLastDecision(t: Tables, es: seq<Effect>, id: string)
    requires id != ""
    ensures Flag(History(t, es), id) ==
      match LastDecision(es, id)
      case Some(matched) => !matched
      case None => id in t.leads && t.leads[id].unmatched
    decreases |es|
  {
    if es != [] {
      FlagIsLastDecision(Commit(t, es[0]), es[1..], id);
    }
  }

  /** The jobs of a history that commit. */
  function Committed(es: seq<Effect>): seq<Effect> {
    if es == [] then [] else (if es[0].raised then [] else [es[0]]) + Committed(es[1..])
  }

  /** The rows a history adds. */
  function RowsOf(es: seq<Effect>): seq<EventRow> {
    if es == [] then []
    else (if es[0].raised then [] else [RowOf(es[0])]) + RowsOf(es[1..])
  }

  lemma Associative(a: seq<EventRow>, b: seq<EventRow>, c: seq<EventRow>)
    ensures a + b + c == a + (b + c)
  {
  }

  lemma {:induction false} RowsFold(t: Tables, es: seq<Effect>)
    ensures History(t, es).events == t.events + RowsOf(es)
    decreases |es|
  {
    if es != [] {
      var first := if es[0].raised then [] else [RowOf(es[0])];
      RowsFold(Commit(t, es[0]), es[1..]);
      assert Commit(t, es[0]).events == t.events + first;
      Associative(t.events, first, RowsOf(es[1..]));
    }
  }

  /** One row for each job, in order, as that job commits it. */
  predicate OneRowEach(rows: seq<EventRow>, jobs: seq<Effect>) {
    |rows| == |jobs| && forall i :: 0 <= i < |jobs| ==>
      rows[i] == EventRow(jobs[i].eventType, jobs[i].purchaseId, jobs[i].productId, jobs[i].payload, 1)
  }

  lemma OneRowMore(rows: seq<EventRow>, jobs: seq<Effect>, e: Effect)
    requires OneRowEach(rows, jobs)
    ensures OneRowEach([RowOf(e)] + rows, [e] + jobs)
  {
  }

  lemma {:induction false} RowsOfCommitted(es: seq<Effect>)
    ensures OneRowEach(RowsOf(es), Committed(es))
  {
    if es != [] {
      RowsOfCommitted(es[1..]);
      OneRowMore(RowsOf(es[1..]), Committed(es[1..]), es[0]);
    }
  }

  /**
   Event rows are only ever added, one for each job that does not raise, in order, and each is
   marked processed exactly once.
   */
  lemma RowsProcessedOnce(t: Tables, es: seq<Effect>)
    ensures var rows := History(t, es).events;
            t.events <= rows && OneRowEach(rows[|t.events|..], Committed(es))
  {
    RowsFold(t, es);
    RowsOfCommitted(es);
    assert History(t, es).events[|t.events|..] == RowsOf(es);
  }

  /** A lead is never lost, and a new one comes from a job that committed. */
  lemma {:induction false} LeadsAreBacked(t: Tables, es: seq<Effect>, id: string)
    ensures id in History(t, es).leads <==>
      id in t.leads || (id != "" && exists e :: e in Committed(es) && e.purchaseId == id)
    decreases |es|
  {
    if es != [] {
      LeadsAreBacked(Commit(t, es[0]), es[1..], id);
      if !es[0].raised {
        assert Committed(es) == [es[0]] + Committed(es[1..]);
        assert forall e :: e in Committed(es) <==> e == es[0] || e in Committed(es[1..]);
      }
    }
  }

  /** The product of the first committed job of a purchase. */
  function FirstProduct(es: seq<Effect>, id: string): Option<string> {
    if es == [] then None
    else if !es[0].raised && es[0].purchaseId == id then Some(es[0].productId)
    else FirstProduct(es[1..], id)
  }

  /** A lead keeps its product; a new one has that of its first committed job. */
  lemma {:induction false} LeadKeepsProduct(t: Tables, es: seq<Effect>, id: string)
    requires id in History(t, es).leads
    ensures id in t.leads ==> History(t, es).leads[id].productId == t.leads[id].productId
    ensures id !in t.leads ==> FirstProduct(es, id) == Some(History(t, es).leads[id].productId)
    decreases |es|
  {
    if es != [] {
      LeadKeepsProduct(Commit(t, es[0]), es[1..], id);
      LeadsAreBacked(t, es, id);
    }
  }
}
