/**
 The Hubla event pipeline: version 1 payloads are rewritten, legacy names normalised, the
 product found, its flows enrolled, and the lead's product_unmatched flag kept up to date.
 */
module HublaEvents {
  import opened Wrappers
  import opened Texts
  import opened EventTypes
  import opened HublaPayloads
  import opened HublaHistory

  // ---- what the handler reads

  /** When the steps start: now on request, else at the activation time in the payload. */
  datatype Schedule = Now | Original(activatedAt: string)

  datatype Details = Details(
    eventType: string, productId: string, productName: string, purchaseId: string,
    phone: string, email: string, fullName: string, document: string, schedule: Schedule)

  function ProductOf(p: Payload): Product {
    if p.products != [] then p.products[0] else p.product
  }

  function DetailsOf(payload: Payload): Details {
    var p := NormalizeV1(payload);
    var payer := p.subscription.payer;
    Details(
      Normalize(p.eventType), ProductOf(p).id, ProductOf(p).name, p.subscription.id,
      payer.phone, payer.email, Strip(payer.firstName + " " + payer.lastName), payer.document,
      if p.fromNow then Now else Original(p.subscription.activatedAt))
  }

  /** A version 1 payload is read as its flat fields, with the name stripped. */
  lemma V1Details(p: Payload)
    requires IsV1(p) && V1Target(p.eventType).Some?
    ensures var d := DetailsOf(p);
            && d.eventType == V1Target(p.eventType).value.0
            && d.productId == p.flat.groupId && d.productName == p.flat.groupName
            && d.purchaseId == p.flat.transactionId && d.phone == p.flat.userPhone && d.email == p.flat.userEmail
            && d.fullName == Strip(p.flat.userName) && d.document == p.flat.userDocument
            && d.schedule == Original(p.flat.paidAt)
    ensures var s := NormalizeV1(p).subscription;
            && s.status == V1Target(p.eventType).value.1
            && s.activatedAt == p.flat.paidAt && s.paymentMethod == p.flat.paymentMethod
  {
    NameRoundTrip(p.flat.userName);
    V1TargetStays(p.eventType);
  }

  // ---- routing

  datatype Flow = Flow(id: nat, productId: nat, trigger: string)

  /** Active products by Hubla id or alias, those with an unambiguous name, and active flows. */
  datatype Catalog = Catalog(byHublaId: map<string, nat>, byName: map<string, nat>, flows: seq<Flow>)

  /** The repository calls whose exceptions the handler does not catch. */
  datatype DbCall = InsertEvent | UpsertLead | FindById | FindByName | ListFlows | SetFlag | MarkProcessed | CommitSession

  /** What goes wrong outside: repository calls, the flows whose own calls fail, and the other calls. */
  datatype World = World(
    contactFound: bool, dbFails: set<DbCall>, failing: set<nat>, purchaseFails: bool, publishFails: bool)

  /** Undecided: no telephone or contact.  Unmatched: no product.  Otherwise the flows tried and those enrolled. */
  datatype Routed = Undecided | Unmatched | Matched(attempted: seq<nat>, enrolled: seq<nat>)

  function FindProduct(k: Catalog, d: Details): Option<nat> {
    if d.productId in k.byHublaId then Some(k.byHublaId[d.productId])
    else if d.productName != "" && d.productName in k.byName then Some(k.byName[d.productName])
    else None
  }

  predicate Triggers(flow: Flow, product: nat, eventType: string) {
    flow.productId == product
    && if IsActivation(eventType) then IsActivation(flow.trigger) else flow.trigger == eventType
  }

  /** The active flows an event starts, in table order. */
  function FlowsFor(flows: seq<Flow>, product: nat, eventType: string): seq<nat> {
    if flows == [] then []
    else if Triggers(flows[0], product, eventType) then [flows[0].id] + FlowsFor(flows[1..], product, eventType)
    else FlowsFor(flows[1..], product, eventType)
  }

  function Succeeding(ids: seq<nat>, failing: set<nat>): seq<nat> {
    if ids == [] then []
    else if ids[0] in failing then Succeeding(ids[1..], failing)
    else [ids[0]] + Succeeding(ids[1..], failing)
  }

  predicate RunsPurchase(d: Details) {
    d.eventType == "subscription.activated"
  }

  predicate HasContact(d: Details, w: World) {
    d.phone != "" && w.contactFound
  }

  function Route(k: Catalog, d: Details, w: World): Routed {
    if !HasContact(d, w) then Undecided
    else
      match FindProduct(k, d)
      case None => Unmatched
      case Some(product) =>
        var attempted := FlowsFor(k.flows, product, d.eventType);
        Matched(attempted, Succeeding(attempted, w.failing))
  }

  /** What leaves routing as an exception: a lookup it gets to, or the legacy purchase handler, product or not. */
  predicate RoutingRaises(k: Catalog, d: Details, w: World) {
    HasContact(d, w) && (
      || FindById in w.dbFails
      || (d.productId !in k.byHublaId && d.productName != "" && FindByName in w.dbFails)
      || (FindProduct(k, d).Some? && ListFlows in w.dbFails)
      || (RunsPurchase(d) && w.purchaseFails))
  }

  /** The flow loop: a failing flow is logged and the others go on. */
  method EnrollFlows(attempted: seq<nat>, failing: set<nat>) returns (enrolled: seq<nat>)
    ensures enrolled == Succeeding(attempted, failing)
  {
    enrolled := [];
    var i := 0;
    while i < |attempted|
      invariant 0 <= i <= |attempted|
      invariant enrolled + Succeeding(attempted[i..], failing) == Succeeding(attempted, failing)
    {
      assert attempted[i..][0] == attempted[i] && attempted[i..][1..] == attempted[i + 1..];
      if attempted[i] !in failing {
        enrolled := enrolled + [attempted[i]];
      }
      i := i + 1;
    }
  }

  lemma {:induction false} SucceedingExact(ids: seq<nat>, failing: set<nat>, id: nat)
    ensures id in Succeeding(ids, failing) <==> id in ids && id !in failing
  {
    if ids != [] {
      SucceedingExact(ids[1..], failing, id);
      assert id in ids <==> id == ids[0] || id in ids[1..];
    }
  }

  lemma {:induction false} FlowsForExact(flows: seq<Flow>, product: nat, eventType: string, id: nat)
    ensures id in FlowsFor(flows, product, eventType) <==>
      exists f :: f in flows && f.id == id && Triggers(f, product, eventType)
  {
    if flows != [] {
      FlowsForExact(flows[1..], product, eventType, id);
      assert forall f :: f in flows <==> f == flows[0] || f in flows[1..];
    }
  }

  /** Flows come in table order, and each is tried or enrolled on its own. */
  lemma {:induction false} FlowsForConcat(a: seq<Flow>, b: seq<Flow>, product: nat, eventType: string)
    ensures FlowsFor(a + b, product, eventType) == FlowsFor(a, product, eventType) + FlowsFor(b, product, eventType)
  {
    if a == [] {
      assert a + b == b;
    } else {
      assert (a + b)[1..] == a[1..] + b;
      FlowsForConcat(a[1..], b, product, eventType);
    }
  }

  lemma {:induction false} SucceedingConcat(a: seq<nat>, b: seq<nat>, failing: set<nat>)
    ensures Succeeding(a + b, failing) == Succeeding(a, failing) + Succeeding(b, failing)
  {
    if a == [] {
      assert a + b == b;
    } else {
      assert (a + b)[1..] == a[1..] + b;
      SucceedingConcat(a[1..], b, failing);
    }
  }

  /** The product an event names: by its id whatever its name, and only without that by a name. */
  ghost predicate Names(k: Catalog, d: Details, product: nat) {
    if d.productId in k.byHublaId then product == k.byHublaId[d.productId]
    else d.productName != "" && d.productName in k.byName && product == k.byName[d.productName]
  }

  /** A flow of that very event, or, for access granted, of any name of it. */
  predicate Answers(flow: Flow, eventType: string) {
    flow.trigger == eventType
    || ({eventType, flow.trigger} == {"subscription.activated", "customer.member_added"})
  }

  lemma NamedIff(k: Catalog, d: Details)
    ensures FindProduct(k, d).Some? <==> exists product: nat :: Names(k, d, product)
    ensures forall product: nat :: Names(k, d, product) <==> FindProduct(k, d) == Some(product)
  {
    if FindProduct(k, d).Some? {
      assert Names(k, d, FindProduct(k, d).value);
    }
  }

  lemma TriggersIff(flow: Flow, product: nat, eventType: string)
    ensures Triggers(flow, product, eventType) <==> flow.productId == product && Answers(flow, eventType)
  {
    if IsActivation(eventType) && IsActivation(flow.trigger) && flow.trigger != eventType {
      assert {eventType, flow.trigger} == {"subscription.activated", "customer.member_added"};
    }
    if {eventType, flow.trigger} == {"subscription.activated", "customer.member_added"} {
      assert eventType in {"subscription.activated", "customer.member_added"};
      assert flow.trigger in {"subscription.activated", "customer.member_added"};
    }
  }

  /**
   Routing decides exactly for an event with a telephone and a known contact, and matches exactly
   when it also names a product.  Per-flow isolation: then a flow is attempted exactly when it is
   one of that product's flows for the event, and enrolled exactly when, besides, its own calls
   succeed.
   */
  lemma IsolatedFlows(k: Catalog, d: Details, w: World, id: nat)
    ensures Route(k, d, w).Undecided? <==> d.phone == "" || !w.contactFound
    ensures Route(k, d, w).Matched? <==> d.phone != "" && w.contactFound && exists product: nat :: Names(k, d, product)
    ensures Route(k, d, w).Matched? ==>
      var r := Route(k, d, w);
      && (id in r.attempted <==>
            exists f :: f in k.flows && f.id == id && Names(k, d, f.productId) && Answers(f, d.eventType))
      && (id in r.enrolled <==> id in r.attempted && id !in w.failing)
  {
    var r := Route(k, d, w);
    NamedIff(k, d);
    if r.Matched? {
      FlowsForExact(k.flows, FindProduct(k, d).value, d.eventType, id);
      SucceedingExact(r.attempted, w.failing, id);
      forall f: Flow ensures Triggers(f, FindProduct(k, d).value, d.eventType) <==>
        Names(k, d, f.productId) && Answers(f, d.eventType)
      {
        TriggersIff(f, FindProduct(k, d).value, d.eventType);
      }
    }
  }

  // ---- one meaning, several spellings

  predicate IsSale(x: string) {
    x == "NewSale" || x == "Renewal"
  }

  predicate IsGrant(x: string) {
    x == "subscription.activated" || x == "member.access_granted" || x == "customer.member_added"
  }

  /** Access granted, however Hubla spells it. */
  predicate GrantsAccess(p: Payload) {
    (IsV1(p) && IsSale(p.eventType)) || IsGrant(p.eventType)
  }

  lemma {:induction false} SameFlowsFor(flows: seq<Flow>, product: nat, a: string, b: string)
    requires IsActivation(a) && IsActivation(b)
    ensures FlowsFor(flows, product, a) == FlowsFor(flows, product, b)
  {
    if flows != [] {
      SameFlowsFor(flows[1..], product, a, b);
    }
  }

  lemma GrantIsNotSale(x: string)
    requires IsGrant(x)
    ensures V1Target(x).None?
  {
  }

  lemma SaleTarget(x: string)
    requires IsSale(x)
    ensures V1Target(x) == Some(("subscription.activated", "active"))
  {
  }

  lemma RewrittenName(p: Payload)
    requires GrantsAccess(p)
    ensures IsGrant(p.eventType) ==> NormalizeV1(p).eventType == p.eventType
    ensures !IsGrant(p.eventType) ==> NormalizeV1(p).eventType == "subscription.activated"
  {
    if IsGrant(p.eventType) {
      GrantIsNotSale(p.eventType);
    } else {
      SaleTarget(p.eventType);
    }
  }

  /** The name a payload of access granted has after both normalisations. */
  lemma GrantedName(p: Payload)
    requires GrantsAccess(p)
    ensures Normalize(NormalizeV1(p).eventType) ==
      if p.eventType == "member.access_granted" || p.eventType == "customer.member_added" then "customer.member_added"
      else "subscription.activated"
  {
    RewrittenName(p);
    ActivationName(NormalizeV1(p).eventType);
  }

  lemma GrantIsActivation(p: Payload)
    requires GrantsAccess(p)
    ensures IsActivation(DetailsOf(p).eventType)
    ensures RunsPurchase(DetailsOf(p)) <==> !(p.eventType == "member.access_granted" || p.eventType == "customer.member_added")
  {
    GrantedName(p);
    assert "customer.member_added" != "subscription.activated";
  }

  /**
   Two spellings of access granted for the same person and product attempt and enrol the same
   flows, for every catalogue; they differ only in the legacy purchase handler, which runs
   exactly for those that normalise to subscription.activated.
   */
  lemma SameMeaning(k: Catalog, p: Payload, q: Payload, w: World)
    requires GrantsAccess(p) && GrantsAccess(q)
    requires DetailsOf(p).phone == DetailsOf(q).phone
    requires DetailsOf(p).productId == DetailsOf(q).productId && DetailsOf(p).productName == DetailsOf(q).productName
    ensures Route(k, DetailsOf(p), w) == Route(k, DetailsOf(q), w)
    ensures RunsPurchase(DetailsOf(p)) <==> !(p.eventType == "member.access_granted" || p.eventType == "customer.member_added")
  {
    GrantIsActivation(p);
    GrantIsActivation(q);
    SameRoute(k, DetailsOf(p), DetailsOf(q), w);
  }

  lemma SameRoute(k: Catalog, d: Details, e: Details, w: World)
    requires IsActivation(d.eventType) && IsActivation(e.eventType)
    requires d.phone == e.phone && d.productId == e.productId && d.productName == e.productName
    ensures Route(k, d, w) == Route(k, e, w)
  {
    var product := FindProduct(k, d);
    if product.Some? {
      SameFlowsFor(k.flows, product.value, d.eventType, e.eventType);
    }
  }

  // ---- one job

  datatype Item = Item(payload: Payload, catalog: Catalog, world: World)

  /**
   What a job reads and decides, and whether anything raises.  The lead, its flag and the
   publication are for events with a purchase id; the flag needs a decision.
   */
  function EffectOf(x: Item): Effect {
    var d := DetailsOf(x.payload);
    var w := x.world;
    var r := Route(x.catalog, d, w);
    Effect(
      d.eventType, d.purchaseId, d.productId, NormalizeV1(x.payload), if r.Undecided? then None else Some(r.Matched?),
      || InsertEvent in w.dbFails || RoutingRaises(x.catalog, d, w) || MarkProcessed in w.dbFails || CommitSession in w.dbFails
      || (d.purchaseId != "" && (UpsertLead in w.dbFails || (!r.Undecided? && SetFlag in w.dbFails) || w.publishFails)))
  }

  /** A job decides for its lead exactly with a telephone and a known contact: matched if it names a product. */
  lemma DecisionIff(x: Item)
    ensures var d := DetailsOf(x.payload);
            && (EffectOf(x).decision.None? <==> d.phone == "" || !x.world.contactFound)
            && (EffectOf(x).decision.Some? ==>
                  (EffectOf(x).decision.value <==> exists product: nat :: Names(x.catalog, d, product)))
  {
    NamedIff(x.catalog, DetailsOf(x.payload));
  }

  /** Without failures a job commits; the failure of a flow's own calls never makes it raise. */
  lemma CalmJobCommits(x: Item)
    ensures x.world.dbFails == {} && !x.world.purchaseFails && !x.world.publishFails ==> !EffectOf(x).raised
    ensures EffectOf(x.(world := x.world.(failing := {}))).raised == EffectOf(x).raised
  {
  }

  /** What a job cannot survive: each call it makes, whether or not anything else fails. */
  lemma FailureRaises(x: Item, call: DbCall)
    requires call in x.world.dbFails
    ensures var d := DetailsOf(x.payload);
            var known := d.phone != "" && x.world.contactFound;
            match call
            case InsertEvent => EffectOf(x).raised
            case MarkProcessed => EffectOf(x).raised
            case CommitSession => EffectOf(x).raised
            case UpsertLead => d.purchaseId != "" ==> EffectOf(x).raised
            case SetFlag => d.purchaseId != "" && known ==> EffectOf(x).raised
            case FindById => known ==> EffectOf(x).raised
            case FindByName => known && d.productId !in x.catalog.byHublaId && d.productName != "" ==> EffectOf(x).raised
            case ListFlows => known && (exists product: nat :: Names(x.catalog, d, product)) ==> EffectOf(x).raised
  {
    NamedIff(x.catalog, DetailsOf(x.payload));
  }

  /** The two calls outside the database. */
  lemma OutsideFailureRaises(x: Item)
    ensures var d := DetailsOf(x.payload);
            && (x.world.publishFails && d.purchaseId != "" ==> EffectOf(x).raised)
            && (x.world.purchaseFails && d.phone != "" && x.world.contactFound && d.eventType == "subscription.activated" ==>
                  EffectOf(x).raised)
  {
  }

  /** A payload that is not rewritten: what the handler reads where; the first product of a list goes before a single one. */
  lemma V2Details(p: Payload)
    requires !IsV1(p) || V1Target(p.eventType).None?
    ensures var d := DetailsOf(p);
            && d.eventType == Normalize(p.eventType) && d.purchaseId == p.subscription.id
            && (p.products == [] ==> d.productId == p.product.id && d.productName == p.product.name)
            && (p.products != [] ==> d.productId == p.products[0].id && d.productName == p.products[0].name)
            && d.phone == p.subscription.payer.phone && d.email == p.subscription.payer.email
            && d.fullName == Strip(p.subscription.payer.firstName + " " + p.subscription.payer.lastName)
            && d.document == p.subscription.payer.document
            && (d.schedule == Now <==> p.fromNow) && (!p.fromNow ==> d.schedule == Original(p.subscription.activatedAt))
  {
  }

  class HublaEventHandler {
    var tables: Tables

    constructor ()
      ensures tables == Tables(map[], [])
    {
      tables := Tables(map[], []);
    }

    /**
     One job, in one transaction: the event row, with the payload as rewritten, and the lead are
     written first, then come routing, the flag, the publication, and in every case the processed
     mark; an exception rolls all of it back, the mark included.  After a job that does not raise
     the lead of a known contact is unmatched exactly when no product was named.
     */
    method Handle(x: Item) returns (raised: bool)
      modifies this
      ensures raised == EffectOf(x).raised
      ensures tables == Commit(old(tables), EffectOf(x))
      ensures raised ==> tables == old(tables)
      ensures !raised ==> tables.events == old(tables.events) + [RowOf(EffectOf(x))]
      ensures var d := DetailsOf(x.payload);
              !raised && d.purchaseId != "" ==>
                && d.purchaseId in tables.leads
                && (d.phone != "" && x.world.contactFound ==>
                      (tables.leads[d.purchaseId].unmatched <==> forall product: nat :: !Names(x.catalog, d, product)))
    {
      NamedIff(x.catalog, DetailsOf(x.payload));
      var d, w := DetailsOf(x.payload), x.world;
      var session := tables;
      var row := |session.events|;
      if InsertEvent in w.dbFails {
        return true;
      }
      session := session.(events := session.events + [EventRow(d.eventType, d.purchaseId, d.productId, NormalizeV1(x.payload), 0)]);
      if d.purchaseId != "" {
        if UpsertLead in w.dbFails {
          return true;
        }
        session := session.(leads := session.leads[d.purchaseId := Upserted(session, d.purchaseId, d.productId)]);
      }
      var routed;
      routed, raised := RouteEvent(x.catalog, d, w);
      if !raised && d.purchaseId != "" {
        if !routed.Undecided? {
          if SetFlag in w.dbFails {
            raised := true;
          } else {
            var lead := session.leads[d.purchaseId];
            session := session.(leads := session.leads[d.purchaseId := lead.(unmatched := !routed.Matched?)]);
          }
        }
        raised := raised || w.publishFails;
      }
      if MarkProcessed in w.dbFails {
        return true;
      }
      var stored := session.events[row];
      session := session.(events := session.events[row := stored.(processed := stored.processed + 1)]);
      if raised || CommitSession in w.dbFails {
        return true;
      }
      tables := session;
    }
  }

  method RouteEvent(k: Catalog, d: Details, w: World) returns (r: Routed, raised: bool)
    ensures raised <==> RoutingRaises(k, d, w)
    ensures !raised ==> r == Route(k, d, w)
  {
    raised := false;
    if d.phone == "" || !w.contactFound {
      return Undecided, false;
    }
    if FindById in w.dbFails || (d.productId !in k.byHublaId && d.productName != "" && FindByName in w.dbFails) {
      return Undecided, true;
    }
    var product := FindProduct(k, d);
    if product.None? {
      r := Unmatched;
    } else {
      if ListFlows in w.dbFails {
        return Undecided, true;
      }
      var attempted := FlowsFor(k.flows, product.value, d.eventType);
      var enrolled := EnrollFlows(attempted, w.failing);
      r := Matched(attempted, enrolled);
    }
    if RunsPurchase(d) {
      raised := w.purchaseFails;
    }
  }
}
