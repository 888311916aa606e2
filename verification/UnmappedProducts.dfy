/**
 Products Hubla sells that nobody has mapped yet: their leads are pending, and once the product is
 mapped their stored events are sent through the pipeline again.
 */
module UnmappedProducts {
  import opened HublaPayloads
  import opened HublaEvents
  import opened HublaHistory

  predicate Pending(t: Tables, productId: string, purchaseId: string) {
    purchaseId in t.leads && t.leads[purchaseId] == Lead(productId, true)
  }

  /** An event of the product whose lead is pending. */
  predicate Selected(t: Tables, productId: string, row: EventRow) {
    row.productId == productId && Pending(t, productId, row.purchaseId)
  }

  /** The stored payload with the requested schedule mode, whatever mode it had. */
  function Again(row: EventRow, fromNow: bool): Payload {
    row.payload.(fromNow := fromNow)
  }

  /** What is sent of one row. */
  function Sent(t: Tables, productId: string, fromNow: bool, row: EventRow): seq<Payload> {
    if Selected(t, productId, row) then [Again(row, fromNow)] else []
  }

  function Requests(t: Tables, productId: string, fromNow: bool, rows: seq<EventRow>): seq<Payload> {
    if rows == [] then []
    else Sent(t, productId, fromNow, rows[0]) + Requests(t, productId, fromNow, rows[1..])
  }

  /** What is sent of the rows from number i on. */
  function SentFrom(t: Tables, productId: string, fromNow: bool, i: nat): seq<Payload>
    requires i <= |t.events|
  {
    Requests(t, productId, fromNow, t.events[i..])
  }

  lemma SentNext(t: Tables, productId: string, fromNow: bool, jobs: seq<Payload>, i: nat)
    requires i < |t.events|
    ensures jobs + SentFrom(t, productId, fromNow, i) ==
      (jobs + Sent(t, productId, fromNow, t.events[i])) + SentFrom(t, productId, fromNow, i + 1)
  {
    assert t.events[i..][0] == t.events[i] && t.events[i..][1..] == t.events[i + 1..];
  }

  /** What is sent again: the selected rows' payloads, with the requested mode. */
  method Reprocess(t: Tables, productId: string, fromNow: bool) returns (jobs: seq<Payload>, enqueued: nat)
    ensures jobs == Requests(t, productId, fromNow, t.events) && enqueued == |jobs|
  {
    jobs, enqueued := [], 0;
    var i := 0;
    assert t.events[0..] == t.events;
    while i < |t.events|
      invariant 0 <= i <= |t.events| && enqueued == |jobs|
      invariant jobs + SentFrom(t, productId, fromNow, i) == Requests(t, productId, fromNow, t.events)
    {
      SentNext(t, productId, fromNow, jobs, i);
      if Selected(t, productId, t.events[i]) {
        jobs := jobs + [Again(t.events[i], fromNow)];
        enqueued := enqueued + 1;
      }
      i := i + 1;
    }
  }

  lemma {:induction false} RequestsExact(t: Tables, productId: string, fromNow: bool, rows: seq<EventRow>, p: Payload)
    ensures p in Requests(t, productId, fromNow, rows) <==>
      exists row :: row in rows && Selected(t, productId, row) && p == Again(row, fromNow)
  {
    if rows != [] {
      RequestsExact(t, productId, fromNow, rows[1..], p);
      assert forall row :: row in rows <==> row == rows[0] || row in rows[1..];
    }
  }

  // ---- what histories store

  const EMPTY: Tables := Tables(map[], [])

  function Effects(items: seq<Item>): seq<Effect> {
    if items == [] then [] else [EffectOf(items[0])] + Effects(items[1..])
  }

  /** The tables after a sequence of jobs. */
  function After(t: Tables, items: seq<Item>): Tables {
    History(t, Effects(items))
  }

  lemma AfterOne(t: Tables, items: seq<Item>)
    requires items != []
    ensures After(t, items) == After(Commit(t, EffectOf(items[0])), items[1..])
  {
    assert Effects(items)[1..] == Effects(items[1..]);
  }

  /** The payload is stored as rewritten, and the columns are what the handler reads in it. */
  predicate Faithful(row: EventRow) {
    && NormalizeV1(row.payload) == row.payload
    && DetailsOf(row.payload).eventType == row.eventType
    && DetailsOf(row.payload).productId == row.productId
    && DetailsOf(row.payload).purchaseId == row.purchaseId
  }

  /** Some row is of the lead's purchase and its product. */
  ghost predicate HasEvent(t: Tables, purchaseId: string) {
    purchaseId in t.leads &&
    exists row :: row in t.events && row.purchaseId == purchaseId && row.productId == t.leads[purchaseId].productId
  }

  ghost predicate Inv(t: Tables) {
    && (forall row :: row in t.events ==> Faithful(row))
    && "" !in t.leads
    && (forall id :: id in t.leads ==> HasEvent(t, id))
  }

  lemma RowIsFaithful(x: Item)
    ensures Faithful(RowOf(EffectOf(x)))
  {
    NormalizeV1Idempotent(x.payload);
  }

  lemma CommitKeeps(t: Tables, x: Item)
    requires Inv(t)
    ensures Inv(Commit(t, EffectOf(x)))
  {
    var e := EffectOf(x);
    var t' := Commit(t, e);
    RowIsFaithful(x);
    if !e.raised {
      assert t'.events[|t.events|] == RowOf(e);
      forall id | id in t'.leads ensures HasEvent(t', id) {
        if id in t.leads {
          assert HasEvent(t, id);
          var row :| row in t.events && row.purchaseId == id && row.productId == t.leads[id].productId;
          assert row in t'.events;
        }
      }
    }
  }

  lemma {:induction false} AfterInv(t: Tables, items: seq<Item>)
    requires Inv(t)
    ensures Inv(After(t, items))
    decreases |items|
  {
    if items != [] {
      CommitKeeps(t, items[0]);
      AfterOne(t, items);
      AfterInv(Commit(t, EffectOf(items[0])), items[1..]);
    }
  }

  lemma RewriteLeavesAlone(p: Payload)
    ensures NormalizeV1(p) == p <==> !(IsV1(p) && V1Target(p.eventType).Some?)
  {
    if IsV1(p) && V1Target(p.eventType).Some? {
      V1TargetLeaves(p.eventType);
    }
  }

  lemma AgainReads(p: Payload, fromNow: bool)
    requires NormalizeV1(p) == p
    ensures var again := p.(fromNow := fromNow);
            && NormalizeV1(again) == again
            && DetailsOf(again) == DetailsOf(p).(
                 schedule := if fromNow then Now else Original(p.subscription.activatedAt))
  {
    RewriteLeavesAlone(p);
    RewriteLeavesAlone(p.(fromNow := fromNow));
  }

  /**
   What reprocessing sends of any stored event keeps its request: the rewrite leaves it alone, it
   is scheduled from now exactly when that was asked, and otherwise reads as the stored event.
   */
  lemma ReprocessKeepsRequest(items: seq<Item>, row: EventRow, fromNow: bool)
    requires row in After(EMPTY, items).events
    ensures var again := Again(row, fromNow);
            && NormalizeV1(again) == again && again.fromNow == fromNow
            && DetailsOf(again) == DetailsOf(row.payload).(
                 schedule := if fromNow then Now else Original(row.payload.subscription.activatedAt))
            && DetailsOf(again).purchaseId == row.purchaseId && DetailsOf(again).productId == row.productId
            && DetailsOf(again).eventType == row.eventType
  {
    AfterInv(EMPTY, items);
    assert Faithful(row);
    AgainReads(row.payload, fromNow);
  }

  /** Every pending lead of the product has an event that is sent. */
  lemma PendingLeadsAreSent(items: seq<Item>, productId: string, fromNow: bool, id: string)
    requires Pending(After(EMPTY, items), productId, id)
    ensures var t := After(EMPTY, items);
            exists p :: p in Requests(t, productId, fromNow, t.events) && DetailsOf(p).purchaseId == id
  {
    var t := After(EMPTY, items);
    AfterInv(EMPTY, items);
    assert HasEvent(t, id);
    var row :| row in t.events && row.purchaseId == id && row.productId == t.leads[id].productId;
    RequestsExact(t, productId, fromNow, t.events, Again(row, fromNow));
    ReprocessKeepsRequest(items, row, fromNow);
  }

  // ---- what reprocessing achieves

  /** The job commits with a known contact, and so decides for the lead. */
  predicate Settles(x: Item, id: string) {
    var d := DetailsOf(x.payload);
    d.purchaseId == id && HasContact(d, x.world) && !EffectOf(x).raised
  }

  /** A job for a lead, of a product that is mapped by now. */
  predicate MappedJob(t: Tables, productId: string, x: Item) {
    var d := DetailsOf(x.payload);
    d.productId == productId && productId in x.catalog.byHublaId && d.purchaseId in t.leads
  }

  lemma SettleOne(t: Tables, productId: string, x: Item, id: string)
    requires "" !in t.leads && MappedJob(t, productId, x)
    ensures var t' := Commit(t, EffectOf(x));
            && t'.leads.Keys == t.leads.Keys
            && (id in t.leads ==> t'.leads[id] == if Settles(x, id) then t.leads[id].(unmatched := false) else t.leads[id])
  {
    IsolatedFlows(x.catalog, DetailsOf(x.payload), x.world, 0);
    assert FindProduct(x.catalog, DetailsOf(x.payload)).Some?;
  }

  lemma {:induction false} SettleAll(t: Tables, productId: string, jobs: seq<Item>, id: string)
    requires "" !in t.leads && forall x :: x in jobs ==> MappedJob(t, productId, x)
    ensures var t' := After(t, jobs);
            && t'.leads.Keys == t.leads.Keys
            && (id in t.leads ==>
                  t'.leads[id] ==
                    if exists x :: x in jobs && Settles(x, id) then t.leads[id].(unmatched := false) else t.leads[id])
    decreases |jobs|
  {
    if jobs != [] {
      var next := Commit(t, EffectOf(jobs[0]));
      assert forall x :: x in jobs <==> x == jobs[0] || x in jobs[1..];
      SettleOne(t, productId, jobs[0], id);
      AfterOne(t, jobs);
      forall x | x in jobs[1..] ensures MappedJob(next, productId, x) {
        assert MappedJob(t, productId, x);
      }
      SettleAll(next, productId, jobs[1..], id);
    }
  }

  lemma SentJobsAreMapped(items: seq<Item>, productId: string, fromNow: bool, jobs: seq<Item>)
    requires forall x :: x in jobs ==>
      && x.payload in Requests(After(EMPTY, items), productId, fromNow, After(EMPTY, items).events)
      && productId in x.catalog.byHublaId
    ensures "" !in After(EMPTY, items).leads
    ensures forall x :: x in jobs ==>
      && MappedJob(After(EMPTY, items), productId, x)
      && Pending(After(EMPTY, items), productId, DetailsOf(x.payload).purchaseId)
  {
    var t := After(EMPTY, items);
    AfterInv(EMPTY, items);
    forall x | x in jobs ensures MappedJob(t, productId, x) && Pending(t, productId, DetailsOf(x.payload).purchaseId) {
      RequestsExact(t, productId, fromNow, t.events, x.payload);
      var row :| row in t.events && Selected(t, productId, row) && x.payload == Again(row, fromNow);
      ReprocessKeepsRequest(items, row, fromNow);
    }
  }

  /**
   After any history, and however the jobs that reprocessing sent are ordered, repeated or lost:
   once the product is mapped a pending lead leaves the list if and only if one of its jobs
   commits with a known contact, and no other lead changes.
   */
  lemma LeavesPendingIff(items: seq<Item>, productId: string, fromNow: bool, jobs: seq<Item>, id: string)
    requires forall x :: x in jobs ==>
      && x.payload in Requests(After(EMPTY, items), productId, fromNow, After(EMPTY, items).events)
      && productId in x.catalog.byHublaId
    requires id in After(EMPTY, items).leads
    ensures var t := After(EMPTY, items);
            var t' := After(t, jobs);
            && t'.leads.Keys == t.leads.Keys
            && (Pending(t, productId, id) ==>
                  (!Pending(t', productId, id) <==> exists x :: x in jobs && Settles(x, id)))
            && (!Pending(t, productId, id) ==> t'.leads[id] == t.leads[id])
  {
    var t := After(EMPTY, items);
    SentJobsAreMapped(items, productId, fromNow, jobs);
    SettleAll(t, productId, jobs, id);
  }

  /** If all that was sent commits with known contacts, no lead of the product is pending any more. */
  lemma ReprocessEmptiesList(items: seq<Item>, productId: string, fromNow: bool, jobs: seq<Item>, id: string)
    requires forall x :: x in jobs ==>
      && x.payload in Requests(After(EMPTY, items), productId, fromNow, After(EMPTY, items).events)
      && productId in x.catalog.byHublaId && Settles(x, DetailsOf(x.payload).purchaseId)
    requires forall p :: p in Requests(After(EMPTY, items), productId, fromNow, After(EMPTY, items).events) ==>
      exists x :: x in jobs && x.payload == p
    ensures !Pending(After(After(EMPTY, items), jobs), productId, id)
  {
    var t := After(EMPTY, items);
    if id in t.leads {
      LeavesPendingIff(items, productId, fromNow, jobs, id);
      if Pending(t, productId, id) {
        PendingLeadsAreSent(items, productId, fromNow, id);
        var p :| p in Requests(t, productId, fromNow, t.events) && DetailsOf(p).purchaseId == id;
        var x :| x in jobs && x.payload == p;
        assert Settles(x, id);
      }
    } else {
      SentJobsAreMapped(items, productId, fromNow, jobs);
      SettleAll(t, productId, jobs, id);
    }
  }
}
