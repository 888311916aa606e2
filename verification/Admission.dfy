/**
 Webhook admission: a mark with a time to live stands in front of the job queue.  The
 machine below composes it with the dispatcher protocol.  A delivery takes three steps with
 an await between them: mark the sale, store the event, enqueue the job.
 */
module Admission {
  import opened Wrappers
  import opened RedisStore
  import opened JobTables
  import Dispatch
  import Conservation
  import Retries

  const TTL: real := 86400.0

  /** The parts of a webhook body that admission reads; absent ids are empty. */
  datatype Request = Request(eventType: Option<string>, subscriptionId: string, transactionId: string, body: string)

  function EventType(q: Request): string {
    if q.eventType.Some? then q.eventType.value else "unknown"
  }

  function SaleId(q: Request): string {
    if q.subscriptionId != "" then q.subscriptionId else q.transactionId
  }

  function ExternalId(eventType: string, saleId: string): string {
    eventType + ":" + saleId
  }

  /** The Redis key of a request with a sale id. */
  function Key(q: Request): string {
    "dedup:" + ("hubla:" + ExternalId(EventType(q), SaleId(q)))
  }

  /** Without a sale id nothing is marked. */
  function KeyOf(q: Request): Option<string> {
    if SaleId(q) == "" then None else Some(Key(q))
  }

  function HublaJob(q: Request): Job {
    Job("hubla_event", q.body)
  }

  // ---- keys

  function FirstColon(s: string): nat {
    if s == "" || s[0] == ':' then 0 else 1 + FirstColon(s[1..])
  }

  lemma {:induction false} FirstColonAt(a: string, x: string)
    requires ':' !in a
    ensures FirstColon(a + ":" + x) == |a|
  {
    if a != "" {
      assert (a + ":" + x)[1..] == a[1..] + ":" + x;
      FirstColonAt(a[1..], x);
    }
  }

  /** The parts of a text with a colon in it. */
  lemma ColonSlices(a: string, x: string)
    ensures (a + ":" + x)[..|a|] == a && (a + ":" + x)[|a|] == ':' && (a + ":" + x)[|a| + 1..] == x
  {
  }

  lemma DropInside(a: string, x: string, k: nat)
    requires k <= |a|
    ensures (a + ":" + x)[k..] == a[k..] + ":" + x
  {
  }

  lemma TakeInside(a: string, x: string, k: nat)
    requires k < |a|
    ensures (a + ":" + x)[..k] == a[..k] && (a + ":" + x)[k] == a[k]
  {
  }

  lemma SameExternalId(p: Request, q: Request)
    requires Key(p) == Key(q)
    ensures ExternalId(EventType(p), SaleId(p)) == ExternalId(EventType(q), SaleId(q))
  {
    assert Key(p)[12..] == ExternalId(EventType(p), SaleId(p));
    assert Key(q)[12..] == ExternalId(EventType(q), SaleId(q));
  }

  /** Two texts cut at their first colon. */
  lemma ColonSplit(a: string, b: string, x: string, y: string)
    requires ':' !in a && ':' !in b && a + ":" + x == b + ":" + y
    ensures a == b && x == y
  {
    FirstColonAt(a, x);
    FirstColonAt(b, y);
    ColonSlices(a, x);
    ColonSlices(b, y);
  }

  /** Event types without a colon: equal keys mean the same event type and the same sale. */
  lemma KeyInjective(p: Request, q: Request)
    requires ':' !in EventType(p) && ':' !in EventType(q) && Key(p) == Key(q)
    ensures EventType(p) == EventType(q) && SaleId(p) == SaleId(q)
  {
    SameExternalId(p, q);
    ColonSplit(EventType(p), EventType(q), SaleId(p), SaleId(q));
  }

  /** With a colon in the event type two different sales can share a key. */
  lemma ColonCollides()
    ensures var p := Request(Some("a:b"), "c", "", "");
            var q := Request(Some("a"), "b:c", "", "");
            Key(p) == Key(q) && (EventType(p), SaleId(p)) != (EventType(q), SaleId(q))
  {
  }

  /** p's event type continues q's after a colon, and q's sale id makes up for it. */
  predicate Nested(p: Request, q: Request) {
    var a, b := EventType(p), EventType(q);
    |b| < |a| && a[..|b|] == b && a[|b|] == ':' && SaleId(q) == a[|b| + 1..] + ":" + SaleId(p)
  }

  lemma NestedShares(p: Request, q: Request)
    requires Nested(p, q)
    ensures Key(p) == Key(q)
  {
  }

  lemma LongerIsNested(p: Request, q: Request)
    requires Key(p) == Key(q) && |EventType(q)| < |EventType(p)|
    ensures Nested(p, q)
  {
    var a, b := EventType(p), EventType(q);
    SameExternalId(p, q);
    ColonSlices(b, SaleId(q));
    TakeInside(a, SaleId(p), |b|);
    DropInside(a, SaleId(p), |b| + 1);
  }

  /** Exactly when two requests share a key: the same event type and sale, or one nested in the other. */
  lemma SharedKeyIff(p: Request, q: Request)
    ensures Key(p) == Key(q) <==>
      (EventType(p) == EventType(q) && SaleId(p) == SaleId(q)) || Nested(p, q) || Nested(q, p)
  {
    if Nested(p, q) {
      NestedShares(p, q);
    } else if Nested(q, p) {
      NestedShares(q, p);
    } else if Key(p) == Key(q) {
      if |EventType(q)| < |EventType(p)| {
        LongerIsNested(p, q);
      } else if |EventType(p)| < |EventType(q)| {
        LongerIsNested(q, p);
      } else {
        SameExternalId(p, q);
        ColonSlices(EventType(p), SaleId(p));
        ColonSlices(EventType(q), SaleId(q));
      }
    }
  }

  /**
   What tells sales apart: deliveries of one event type with subscription ids share a key exactly
   when those agree, whatever their transaction ids; and without subscription ids exactly when the
   transaction ids agree.
   */
  lemma SubscriptionFirst(p: Request, q: Request)
    requires EventType(p) == EventType(q)
    ensures p.subscriptionId != "" && q.subscriptionId != "" ==> (Key(p) == Key(q) <==> p.subscriptionId == q.subscriptionId)
    ensures p.subscriptionId == "" && q.subscriptionId == "" ==> (Key(p) == Key(q) <==> p.transactionId == q.transactionId)
    ensures KeyOf(p).None? <==> p.subscriptionId == "" && p.transactionId == ""
  {
    SharedKeyIff(p, q);
  }

  /** A delivery without an event type is keyed as one of type "unknown". */
  lemma UntypedIsUnknown(q: Request)
    requires q.eventType.None?
    ensures Key(q) == Key(q.(eventType := Some("unknown")))
  {
  }

  // ---- the machine

  /** How far an admitted delivery has come.  One whose process dies has failed. */
  datatype Stage = Arrived | Stored | Failed | Enqueued(job: nat)

  /** A delivery that was no duplicate, and when it arrived, which is when it marked its key. */
  datatype Delivery = Delivery(q: Request, at: real, stage: Stage)

  datatype State = State(now: real, keys: Keys, engine: Dispatch.State, deliveries: seq<Delivery>)

  datatype Event =
    | Advance(dt: real)
    | Arrive(q: Request)
    | Store(i: nat, ok: bool)
    | Finish(i: nat, ok: bool)
    | Engine(e: Dispatch.Event)

  predicate At(s: State, i: nat, stage: Stage) {
    i < |s.deliveries| && s.deliveries[i].stage == stage
  }

  ghost predicate Enabled(c: Dispatch.Config, s: State, e: Event) {
    match e
    case Advance(dt) => dt >= 0.0
    case Arrive(_) => true
    case Store(i, _) => At(s, i, Arrived)
    case Finish(i, _) => At(s, i, Stored)
    case Engine(d) => Dispatch.Enabled(c, s.engine, d)
  }

  /** The key is there, so a delivery of it is answered as a duplicate. */
  predicate Taken(s: State, key: string) {
    Get(s.keys, s.now, key).Some?
  }

  predicate IsDuplicate(s: State, q: Request) {
    KeyOf(q).Some? && Taken(s, KeyOf(q).value)
  }

  function SetStage(s: State, i: nat, stage: Stage): State
    requires i < |s.deliveries|
  {
    s.(deliveries := s.deliveries[i := s.deliveries[i].(stage := stage)])
  }

  /** A delivery that is no duplicate marks its key, if it has one, and is in progress. */
  function Admit(s: State, q: Request): State {
    s.(keys := if KeyOf(q).Some? then SetNx(s.keys, s.now, KeyOf(q).value, "1", TTL) else s.keys,
       deliveries := s.deliveries + [Delivery(q, s.now, Arrived)])
  }

  ghost function Apply(c: Dispatch.Config, s: State, e: Event): State
    requires Enabled(c, s, e)
  {
    match e
    case Advance(dt) => s.(now := s.now + dt)
    case Arrive(q) => if IsDuplicate(s, q) then s else Admit(s, q)
    case Store(i, ok) => SetStage(s, i, if ok then Stored else Failed)
    case Finish(i, ok) =>
      if !ok then SetStage(s, i, Failed)
      else
        SetStage(s, i, Enqueued(|s.engine.log.enqueued|)).(
          engine := Dispatch.Apply(c, s.engine, Dispatch.Enqueue(HublaJob(s.deliveries[i].q), NORMAL)))
    case Engine(d) => s.(engine := Dispatch.Apply(c, s.engine, d))
  }

  ghost function Exec(c: Dispatch.Config, s: State, es: seq<Event>): Option<State>
    decreases |es|
  {
    if es == [] then Some(s)
    else if Enabled(c, s, es[0]) then Exec(c, Apply(c, s, es[0]), es[1..])
    else None
  }

  ghost predicate Init(s: State) {
    Dispatch.Init(s.engine) && s.keys == map[] && s.deliveries == []
  }

  // ---- invariants

  /** A delivery with this key marked it. */
  predicate Marks(d: Delivery, key: string) {
    KeyOf(d.q) == Some(key)
  }

  predicate SameKey(d: Delivery, e: Delivery) {
    KeyOf(d.q).Some? && KeyOf(d.q) == KeyOf(e.q)
  }

  /** Marks of one key are at least the time to live apart. */
  ghost predicate Spaced(ds: seq<Delivery>) {
    forall i, j :: 0 <= i < j < |ds| && SameKey(ds[i], ds[j]) ==> ds[i].at + TTL <= ds[j].at
  }

  /** A key stays until every mark of it is TTL old. */
  ghost predicate MarksLive(s: State) {
    forall i :: 0 <= i < |s.deliveries| ==> MarkLive(s, s.deliveries[i])
  }

  ghost predicate MarkLive(s: State, d: Delivery) {
    && d.at <= s.now
    && (KeyOf(d.q).Some? ==> KeyOf(d.q).value in s.keys && d.at + TTL <= s.keys[KeyOf(d.q).value].expiry)
  }

  /** A key is there only because of a mark, and expires with it. */
  ghost predicate KeysBacked(s: State) {
    forall k :: k in s.keys ==> Backed(s.deliveries, k, s.keys[k].expiry)
  }

  ghost predicate Backed(ds: seq<Delivery>, key: string, expiry: real) {
    exists i :: 0 <= i < |ds| && Marks(ds[i], key) && ds[i].at + TTL == expiry
  }

  /** The delivery's enqueue has been made, with its own job. */
  predicate HasItsJob(s: State, d: Delivery) {
    d.stage.Enqueued? && d.stage.job < |s.engine.log.enqueued| && s.engine.log.enqueued[d.stage.job] == Job("hubla_event", d.q.body)
  }

  /** A finished delivery has made one enqueue, its own, and no two deliveries share one. */
  ghost predicate OwnJobs(s: State) {
    && (forall i :: 0 <= i < |s.deliveries| && s.deliveries[i].stage.Enqueued? ==> HasItsJob(s, s.deliveries[i]))
    && (forall i, j :: 0 <= i < j < |s.deliveries| && s.deliveries[i].stage.Enqueued? ==>
          s.deliveries[i].stage != s.deliveries[j].stage)
  }

  ghost predicate MarksOk(s: State) {
    Spaced(s.deliveries) && MarksLive(s) && KeysBacked(s)
  }

  ghost predicate EngineOk(c: Dispatch.Config, s: Dispatch.State) {
    Conservation.Conserved(s) && Conservation.Disciplined(c, s) && Retries.Accounts(c, s)
  }

  ghost predicate Inv(c: Dispatch.Config, s: State) {
    MarksOk(s) && OwnJobs(s) && EngineOk(c, s.engine)
  }

  lemma EngineInv(c: Dispatch.Config, s: Dispatch.State, d: Dispatch.Event)
    requires EngineOk(c, s) && Dispatch.Enabled(c, s, d)
    ensures EngineOk(c, Dispatch.Apply(c, s, d))
  {
    Conservation.StepConserves(c, s, d);
    Conservation.StepDisciplined(c, s, d);
    Retries.StepAccounts(c, s, d);
  }

  lemma EnqueuedGrows(c: Dispatch.Config, s: Dispatch.State, d: Dispatch.Event)
    requires Dispatch.Enabled(c, s, d)
    ensures s.log.enqueued <= Dispatch.Apply(c, s, d).log.enqueued
  {
  }

  /** A mark is made only when the key is free, hence a TTL after every earlier mark of it. */
  lemma AdmitSpaced(s: State, q: Request)
    requires Spaced(s.deliveries) && MarksLive(s) && !IsDuplicate(s, q)
    ensures Spaced(Admit(s, q).deliveries)
  {
    var ds := Admit(s, q).deliveries;
    forall i, j | 0 <= i < j < |ds| && SameKey(ds[i], ds[j]) ensures ds[i].at + TTL <= ds[j].at {
      assert MarkLive(s, s.deliveries[i]);
    }
  }

  lemma AdmitMatches(s: State, q: Request)
    requires MarksLive(s) && KeysBacked(s) && !IsDuplicate(s, q)
    ensures MarksLive(Admit(s, q)) && KeysBacked(Admit(s, q))
  {
    var s' := Admit(s, q);
    forall i | 0 <= i < |s'.deliveries| ensures MarkLive(s', s'.deliveries[i]) {
      if i < |s.deliveries| {
        assert MarkLive(s, s.deliveries[i]);
      }
    }
    forall k | k in s'.keys ensures Backed(s'.deliveries, k, s'.keys[k].expiry) {
      if KeyOf(q) == Some(k) {
        assert Marks(s'.deliveries[|s.deliveries|], k);
      } else {
        BackedLonger(s.deliveries, Delivery(q, s.now, Arrived), k, s.keys[k].expiry);
      }
    }
  }

  lemma BackedLonger(ds: seq<Delivery>, d: Delivery, key: string, expiry: real)
    requires Backed(ds, key, expiry)
    ensures Backed(ds + [d], key, expiry)
  {
    var i :| 0 <= i < |ds| && Marks(ds[i], key) && ds[i].at + TTL == expiry;
    assert (ds + [d])[i] == ds[i];
  }

  lemma ArriveInv(c: Dispatch.Config, s: State, q: Request)
    requires Inv(c, s) && !IsDuplicate(s, q)
    ensures Inv(c, Admit(s, q))
  {
    AdmitSpaced(s, q);
    AdmitMatches(s, q);
    var s' := Admit(s, q);
    forall i | 0 <= i < |s'.deliveries| && s'.deliveries[i].stage.Enqueued? ensures HasItsJob(s', s'.deliveries[i]) {
      assert HasItsJob(s, s.deliveries[i]);
    }
  }

  /** Deliveries differ at most in their stages. */
  ghost predicate SameMarks(ds: seq<Delivery>, es: seq<Delivery>) {
    |ds| == |es| && forall i :: 0 <= i < |ds| ==> ds[i].q == es[i].q && ds[i].at == es[i].at
  }

  /** Stages do not matter to marks and keys. */
  lemma StageFree(s: State, s': State)
    requires MarksOk(s) && SameMarks(s.deliveries, s'.deliveries) && s'.keys == s.keys && s.now <= s'.now
    ensures MarksOk(s')
  {
    forall i, j | 0 <= i < j < |s'.deliveries| && SameKey(s'.deliveries[i], s'.deliveries[j])
      ensures s'.deliveries[i].at + TTL <= s'.deliveries[j].at
    {
      assert SameKey(s.deliveries[i], s.deliveries[j]);
    }
    forall i | 0 <= i < |s'.deliveries| ensures MarkLive(s', s'.deliveries[i]) {
      assert MarkLive(s, s.deliveries[i]);
    }
    forall k | k in s'.keys ensures Backed(s'.deliveries, k, s'.keys[k].expiry) {
      assert Backed(s.deliveries, k, s.keys[k].expiry);
      var i :| 0 <= i < |s.deliveries| && Marks(s.deliveries[i], k) && s.deliveries[i].at + TTL == s.keys[k].expiry;
      assert Marks(s'.deliveries[i], k);
    }
  }

  /** A stage is entered, by an enqueue of its own if it is the last one. */
  lemma StageOwned(s: State, s': State, i: nat, stage: Stage)
    requires OwnJobs(s) && i < |s.deliveries| && s'.deliveries == SetStage(s, i, stage).deliveries
    requires s.engine.log.enqueued <= s'.engine.log.enqueued
    requires stage.Enqueued? ==> stage.job == |s.engine.log.enqueued| && HasItsJob(s', s'.deliveries[i])
    ensures OwnJobs(s')
  {
    forall k | 0 <= k < |s'.deliveries| && s'.deliveries[k].stage.Enqueued? ensures HasItsJob(s', s'.deliveries[k]) {
      if k != i {
        assert HasItsJob(s, s.deliveries[k]);
      }
    }
    forall j, k | 0 <= j < k < |s'.deliveries| && s'.deliveries[j].stage.Enqueued?
      ensures s'.deliveries[j].stage != s'.deliveries[k].stage
    {
      assert j != i ==> HasItsJob(s, s.deliveries[j]);
      assert k != i && s.deliveries[k].stage.Enqueued? ==> HasItsJob(s, s.deliveries[k]);
    }
  }

  lemma StageInv(c: Dispatch.Config, s: State, i: nat, stage: Stage)
    requires Inv(c, s) && i < |s.deliveries| && !stage.Enqueued?
    ensures Inv(c, SetStage(s, i, stage))
  {
    StageFree(s, SetStage(s, i, stage));
    StageOwned(s, SetStage(s, i, stage), i, stage);
  }

  lemma EnqueueLog(c: Dispatch.Config, s: Dispatch.State, job: Job)
    requires EngineOk(c, s)
    ensures var s' := Dispatch.Apply(c, s, Dispatch.Enqueue(job, NORMAL));
            EngineOk(c, s') && s'.log.enqueued == s.log.enqueued + [job]
  {
    EngineInv(c, s, Dispatch.Enqueue(job, NORMAL));
  }

  lemma FinishOwned(s: State, s': State, i: nat)
    requires OwnJobs(s) && i < |s.deliveries|
    requires s'.deliveries == SetStage(s, i, Enqueued(|s.engine.log.enqueued|)).deliveries
    requires s'.engine.log.enqueued == s.engine.log.enqueued + [HublaJob(s.deliveries[i].q)]
    ensures OwnJobs(s')
  {
    StageOwned(s, s', i, Enqueued(|s.engine.log.enqueued|));
  }

  lemma FinishInv(c: Dispatch.Config, s: State, i: nat)
    requires Inv(c, s) && Enabled(c, s, Finish(i, true))
    ensures Inv(c, Apply(c, s, Finish(i, true)))
  {
    var s' := Apply(c, s, Finish(i, true));
    EnqueueLog(c, s.engine, HublaJob(s.deliveries[i].q));
    StageFree(s, s');
    FinishOwned(s, s', i);
  }

  lemma EngineStepInv(c: Dispatch.Config, s: State, d: Dispatch.Event)
    requires Inv(c, s) && Dispatch.Enabled(c, s.engine, d)
    ensures Inv(c, Apply(c, s, Engine(d)))
  {
    var s' := Apply(c, s, Engine(d));
    EngineInv(c, s.engine, d);
    EnqueuedGrows(c, s.engine, d);
    StageFree(s, s');
    forall i | 0 <= i < |s'.deliveries| && s'.deliveries[i].stage.Enqueued? ensures HasItsJob(s', s'.deliveries[i]) {
      assert HasItsJob(s, s.deliveries[i]);
    }
  }

  lemma StepInv(c: Dispatch.Config, s: State, e: Event)
    requires Inv(c, s) && Enabled(c, s, e)
    ensures Inv(c, Apply(c, s, e))
  {
    match e {
      case Advance(_) => StageFree(s, Apply(c, s, e));
      case Arrive(q) =>
        if !IsDuplicate(s, q) {
          ArriveInv(c, s, q);
        }
      case Store(i, ok) => StageInv(c, s, i, if ok then Stored else Failed);
      case Finish(i, ok) =>
        if ok {
          FinishInv(c, s, i);
        } else {
          StageInv(c, s, i, Failed);
        }
      case Engine(d) => EngineStepInv(c, s, d);
    }
  }

  lemma {:induction false} RunInv(c: Dispatch.Config, s: State, es: seq<Event>)
    requires Inv(c, s) && Exec(c, s, es).Some?
    ensures Inv(c, Exec(c, s, es).value)
    decreases |es|
  {
    if es != [] {
      StepInv(c, s, es[0]);
      RunInv(c, Apply(c, s, es[0]), es[1..]);
    }
  }

  lemma InitInv(c: Dispatch.Config, s: State)
    requires Init(s)
    ensures Inv(c, s)
  {
    Conservation.InitHolds(c, s.engine);
    Retries.InitAccounts(c, s.engine);
  }

  /** Every reachable state. */
  lemma ReachableInv(c: Dispatch.Config, s: State, es: seq<Event>)
    requires Init(s) && Exec(c, s, es).Some?
    ensures Inv(c, Exec(c, s, es).value)
  {
    InitInv(c, s);
    RunInv(c, s, es);
  }

  /**
   In every run, however deliveries overlap: marks of one key are TTL apart, a delivery makes at
   most one enqueue, with its own body, and no two deliveries share one.
   */
  lemma MarksSpaced(c: Dispatch.Config, s: State, es: seq<Event>)
    requires Init(s) && Exec(c, s, es).Some?
    ensures Spaced(Exec(c, s, es).value.deliveries) && OwnJobs(Exec(c, s, es).value)
  {
    ReachableInv(c, s, es);
  }

  // ---- end to end

  /** The delivery marked the key within one TTL from time `from`. */
  predicate InWindow(d: Delivery, key: string, from: real) {
    Marks(d, key) && from <= d.at < from + TTL
  }

  /** Handler calls caused by the deliveries of a key that arrived within one TTL from time `from`. */
  function WindowCalls(ds: seq<Delivery>, calls: multiset<nat>, key: string, from: real): nat {
    if ds == [] then 0
    else
      var d := ds[|ds| - 1];
      WindowCalls(ds[..|ds| - 1], calls, key, from)
      + (if InWindow(d, key, from) && d.stage.Enqueued? then calls[d.stage.job] else 0)
  }

  /** No delivery of the window has got as far as its enqueue. */
  ghost predicate NoneEnqueued(ds: seq<Delivery>, key: string, from: real) {
    forall i :: 0 <= i < |ds| && InWindow(ds[i], key, from) ==> !ds[i].stage.Enqueued?
  }

  lemma {:induction false} NoWindowCalls(ds: seq<Delivery>, calls: multiset<nat>, key: string, from: real)
    requires NoneEnqueued(ds, key, from)
    ensures WindowCalls(ds, calls, key, from) == 0
    decreases |ds|
  {
    if ds != [] {
      NoWindowCalls(ds[..|ds| - 1], calls, key, from);
    }
  }

  lemma {:induction false} WindowBound(ds: seq<Delivery>, calls: multiset<nat>, key: string, from: real, bound: nat)
    requires Spaced(ds) && forall o: nat :: calls[o] <= bound
    ensures WindowCalls(ds, calls, key, from) <= bound
    decreases |ds|
  {
    if ds != [] {
      var front, last := ds[..|ds| - 1], ds[|ds| - 1];
      if InWindow(last, key, from) {
        forall i | 0 <= i < |front| ensures !InWindow(front[i], key, from) {
          assert Marks(front[i], key) ==> SameKey(ds[i], ds[|ds| - 1]);
        }
        NoWindowCalls(front, calls, key, from);
      } else {
        WindowBound(front, calls, key, from, bound);
      }
    }
  }

  /**
   End to end: the deliveries for one key that arrive within one time to live cause at most
   max(1, max_retries) handler calls between them.
   */
  lemma WindowEndToEnd(c: Dispatch.Config, s: State, es: seq<Event>, key: string, from: real)
    requires Init(s) && Exec(c, s, es).Some?
    ensures var t := Exec(c, s, es).value;
            WindowCalls(t.deliveries, t.engine.log.calls, key, from) <= Dispatch.MaxAttempts(c)
  {
    ReachableInv(c, s, es);
    var t := Exec(c, s, es).value;
    forall o: nat ensures t.engine.log.calls[o] <= Dispatch.MaxAttempts(c) {
      assert Retries.OriginOk(c, t.engine.log, o);
    }
    WindowBound(t.deliveries, t.engine.log.calls, key, from, Dispatch.MaxAttempts(c));
  }

  // ---- duplicates

  /** Delivery number i marked the key less than a TTL ago. */
  predicate LiveMark(s: State, key: string, i: nat) {
    i < |s.deliveries| && Marks(s.deliveries[i], key) && s.now < s.deliveries[i].at + TTL
  }

  ghost predicate RecentMark(s: State, key: string) {
    exists i: nat :: LiveMark(s, key, i)
  }

  lemma LiveIffRecent(c: Dispatch.Config, s: State, key: string)
    requires Inv(c, s)
    ensures Taken(s, key) <==> RecentMark(s, key)
  {
    if Taken(s, key) {
      assert Backed(s.deliveries, key, s.keys[key].expiry);
      var i :| 0 <= i < |s.deliveries| && Marks(s.deliveries[i], key) && s.deliveries[i].at + TTL == s.keys[key].expiry;
      assert LiveMark(s, key, i);
    }
    if RecentMark(s, key) {
      var i: nat :| LiveMark(s, key, i);
      assert MarkLive(s, s.deliveries[i]);
    }
  }

  /** A delivery is answered as a duplicate exactly when it has a sale id with a recent mark. */
  lemma DuplicateIff(c: Dispatch.Config, s: State, es: seq<Event>, q: Request)
    requires Init(s) && Exec(c, s, es).Some?
    ensures var t := Exec(c, s, es).value;
            IsDuplicate(t, q) <==> (q.subscriptionId != "" || q.transactionId != "") && RecentMark(t, Key(q))
  {
    ReachableInv(c, s, es);
    LiveIffRecent(c, Exec(c, s, es).value, Key(q));
  }

  /** A job for the key has been enqueued by a delivery that arrived within the time to live. */
  ghost predicate BackedByJob(s: State, key: string) {
    exists i: nat :: LiveMark(s, key, i) && HasItsJob(s, s.deliveries[i])
  }

  lemma OneLiveMark(s: State, key: string, i: nat, j: nat)
    requires MarksOk(s) && LiveMark(s, key, i) && LiveMark(s, key, j)
    ensures i == j
  {
    assert MarkLive(s, s.deliveries[i]) && MarkLive(s, s.deliveries[j]);
    assert SameKey(s.deliveries[i], s.deliveries[j]) && SameKey(s.deliveries[j], s.deliveries[i]);
  }

  lemma BackedIff(s: State, key: string, i: nat)
    requires MarksOk(s) && OwnJobs(s) && LiveMark(s, key, i)
    ensures BackedByJob(s, key) <==> s.deliveries[i].stage.Enqueued?
  {
    if BackedByJob(s, key) {
      var j: nat :| LiveMark(s, key, j) && HasItsJob(s, s.deliveries[j]);
      OneLiveMark(s, key, i, j);
    }
    if s.deliveries[i].stage.Enqueued? {
      assert HasItsJob(s, s.deliveries[i]);
    }
  }

  /**
   What a duplicate answer is worth.  In every run exactly one recent delivery has marked the key
   of a duplicate, and there is a job for it if and only if that delivery has finished with its
   enqueue: none if it has failed, and none if it is still on its way.
   */
  lemma DuplicatesAreBacked(c: Dispatch.Config, s: State, es: seq<Event>, q: Request) returns (i: nat)
    requires Init(s) && Exec(c, s, es).Some? && IsDuplicate(Exec(c, s, es).value, q)
    ensures var t := Exec(c, s, es).value;
            && i < |t.deliveries| && (forall j: nat :: LiveMark(t, Key(q), j) <==> j == i)
            && (BackedByJob(t, Key(q)) <==> t.deliveries[i].stage.Enqueued?)
            && (!BackedByJob(t, Key(q)) <==> At(t, i, Failed) || At(t, i, Arrived) || At(t, i, Stored))
  {
    var t := Exec(c, s, es).value;
    ReachableInv(c, s, es);
    LiveIffRecent(c, t, Key(q));
    i :| LiveMark(t, Key(q), i);
    BackedIff(t, Key(q), i);
    forall j: nat | LiveMark(t, Key(q), j) ensures j == i {
      OneLiveMark(t, Key(q), i, j);
    }
  }

  // ---- keys without a job

  /** A recent mark of the key has no job. */
  ghost predicate Unbacked(s: State, key: string) {
    exists i: nat :: LiveMark(s, key, i) && !s.deliveries[i].stage.Enqueued?
  }

  /** A recent mark of the key belongs to a delivery that failed. */
  ghost predicate Silenced(s: State, key: string) {
    exists i: nat :: LiveMark(s, key, i) && s.deliveries[i].stage.Failed?
  }

  /** The delivery that event e moves on marked the key, less than a TTL ago. */
  predicate Moves(s: State, e: Event, key: string) {
    (e.Store? || e.Finish?) && LiveMark(s, key, e.i)
  }

  predicate Enqueues(e: Event) {
    e.Finish? && e.ok
  }

  predicate Fails(e: Event) {
    (e.Store? || e.Finish?) && !e.ok
  }

  /** How one step other than the clock's changes the stage of a live mark. */
  lemma LiveAfter(c: Dispatch.Config, s: State, e: Event, key: string, i: nat)
    requires Enabled(c, s, e) && !e.Advance?
    ensures var t := Apply(c, s, e);
            LiveMark(t, key, i) <==>
              LiveMark(s, key, i) || (e.Arrive? && !IsDuplicate(s, e.q) && KeyOf(e.q) == Some(key) && i == |s.deliveries|)
    ensures var t := Apply(c, s, e);
            LiveMark(t, key, i) ==>
              && (t.deliveries[i].stage.Enqueued? <==>
                    i < |s.deliveries| && (s.deliveries[i].stage.Enqueued? || (Enqueues(e) && e.i == i)))
              && (t.deliveries[i].stage.Failed? <==>
                    i < |s.deliveries| && (s.deliveries[i].stage.Failed? || (Fails(e) && e.i == i)))
  {
  }

  lemma UnbackedStep(c: Dispatch.Config, t: State, e: Event, key: string)
    requires Inv(c, t) && Enabled(c, t, e) && !e.Advance?
    ensures Unbacked(Apply(c, t, e), key) <==>
      || (Unbacked(t, key) && !(Enqueues(e) && Moves(t, e, key)))
      || (e.Arrive? && KeyOf(e.q) == Some(key) && !IsDuplicate(t, e.q))
  {
    var t' := Apply(c, t, e);
    if Unbacked(t, key) && !(Enqueues(e) && Moves(t, e, key)) {
      var i: nat :| LiveMark(t, key, i) && !t.deliveries[i].stage.Enqueued?;
      LiveAfter(c, t, e, key, i);
    }
    if e.Arrive? && KeyOf(e.q) == Some(key) && !IsDuplicate(t, e.q) {
      LiveAfter(c, t, e, key, |t.deliveries|);
    }
    if Unbacked(t', key) {
      var i: nat :| LiveMark(t', key, i) && !t'.deliveries[i].stage.Enqueued?;
      LiveAfter(c, t, e, key, i);
      if Enqueues(e) && Moves(t, e, key) {
        OneLiveMark(t, key, i, e.i);
      }
    }
  }

  lemma SilencedStep(c: Dispatch.Config, t: State, e: Event, key: string)
    requires Enabled(c, t, e) && !e.Advance?
    ensures Silenced(Apply(c, t, e), key) <==> Silenced(t, key) || (Fails(e) && Moves(t, e, key))
  {
    var t' := Apply(c, t, e);
    if Silenced(t, key) {
      var i: nat :| LiveMark(t, key, i) && t.deliveries[i].stage.Failed?;
      LiveAfter(c, t, e, key, i);
    }
    if Fails(e) && Moves(t, e, key) {
      LiveAfter(c, t, e, key, e.i);
    }
    if Silenced(t', key) {
      var i: nat :| LiveMark(t', key, i) && t'.deliveries[i].stage.Failed?;
      LiveAfter(c, t, e, key, i);
    }
  }

  /**
   When a key is without a job: exactly from the moment a delivery marks it until that delivery's
   own enqueue or the end of the time to live.  It is silenced exactly if that delivery fails.
   */
  lemma UnbackedIff(c: Dispatch.Config, s: State, es: seq<Event>, e: Event, key: string)
    requires Init(s) && Exec(c, s, es).Some? && Enabled(c, Exec(c, s, es).value, e) && !e.Advance?
    ensures var t := Exec(c, s, es).value;
            && (Unbacked(Apply(c, t, e), key) <==>
                  || (Unbacked(t, key) && !(Enqueues(e) && Moves(t, e, key)))
                  || (e.Arrive? && KeyOf(e.q) == Some(key) && !IsDuplicate(t, e.q)))
            && (Silenced(Apply(c, t, e), key) <==> Silenced(t, key) || (Fails(e) && Moves(t, e, key)))
  {
    ReachableInv(c, s, es);
    UnbackedStep(c, Exec(c, s, es).value, e, key);
    SilencedStep(c, Exec(c, s, es).value, e, key);
  }

  /** The delivery stays failed, whatever happens next. */
  lemma {:induction false} StaysFailed(c: Dispatch.Config, s: State, es: seq<Event>, i: nat)
    requires At(s, i, Failed) && Exec(c, s, es).Some?
    ensures At(Exec(c, s, es).value, i, Failed)
    ensures Exec(c, s, es).value.deliveries[i] == s.deliveries[i]
    decreases |es|
  {
    if es != [] {
      StaysFailed(c, Apply(c, s, es[0]), es[1..], i);
    }
  }

  /**
   A failed delivery silences its sale: whatever happens next, until the time to live of its mark
   is over every delivery of the key is a duplicate, there is no job for the key, and the
   deliveries of that time have caused no handler call.
   */
  lemma FailedDeliverySilencesSale(
    c: Dispatch.Config, s: State, es: seq<Event>, fs: seq<Event>, key: string, i: nat)
    requires Init(s) && Exec(c, s, es).Some? && Exec(c, Exec(c, s, es).value, fs).Some?
    requires At(Exec(c, s, es).value, i, Failed) && Marks(Exec(c, s, es).value.deliveries[i], key)
    requires Exec(c, Exec(c, s, es).value, fs).value.now < Exec(c, s, es).value.deliveries[i].at + TTL
    ensures var t := Exec(c, s, es).value;
            var u := Exec(c, t, fs).value;
            && (forall q :: KeyOf(q) == Some(key) ==> IsDuplicate(u, q))
            && !BackedByJob(u, key)
            && WindowCalls(u.deliveries, u.engine.log.calls, key, t.deliveries[i].at) == 0
  {
    var t := Exec(c, s, es).value;
    var u := Exec(c, t, fs).value;
    ReachableInv(c, s, es);
    RunInv(c, t, fs);
    StaysFailed(c, t, fs, i);
    assert LiveMark(u, key, i);
    LiveIffRecent(c, u, key);
    BackedIff(u, key, i);
    forall j | 0 <= j < |u.deliveries| && InWindow(u.deliveries[j], key, t.deliveries[i].at)
      ensures !u.deliveries[j].stage.Enqueued?
    {
      assert j < i ==> SameKey(u.deliveries[j], u.deliveries[i]);
      assert i < j ==> SameKey(u.deliveries[i], u.deliveries[j]);
    }
    NoWindowCalls(u.deliveries, u.engine.log.calls, key, t.deliveries[i].at);
  }

  // ---- a sale lost without a failure before the last answer

  function Fresh(now: real): State {
    State(now, map[], Conservation.FRESH, [])
  }

  lemma FirstTwo(c: Dispatch.Config, q: Request, now: real)
    requires SaleId(q) != ""
    ensures var s1 := Admit(Fresh(now), q);
            && Exec(c, Fresh(now), [Arrive(q)]) == Some(s1) && IsDuplicate(s1, q)
            && Exec(c, s1, [Arrive(q)]) == Some(s1)
  {
    var s1 := Admit(Fresh(now), q);
    assert !IsDuplicate(Fresh(now), q) && Apply(c, Fresh(now), Arrive(q)) == s1;
    assert [Arrive(q)][1..] == [];
    assert Exec(c, s1, []) == Some(s1);
  }

  /**
   The store is slow, the sender tries again and is told "duplicate", and only then does the store
   fail: when the duplicate is answered nothing is enqueued and nothing has failed, and in the
   end the sale has no job although both deliveries have been answered.
   */
  lemma SlowStoreLosesSale(c: Dispatch.Config, q: Request, now: real)
    requires SaleId(q) != ""
    ensures Init(Fresh(now)) && Exec(c, Fresh(now), [Arrive(q)]).Some?
    ensures var answered := Exec(c, Fresh(now), [Arrive(q)]).value;
            var run := Exec(c, answered, [Store(0, false)]);
            && IsDuplicate(answered, q) && Exec(c, answered, [Arrive(q)]) == Some(answered)
            && answered.engine.log.enqueued == [] && !Silenced(answered, Key(q)) && Unbacked(answered, Key(q))
            && run.Some? && run.value.engine.log.enqueued == [] && Silenced(run.value, Key(q))
  {
    FirstTwo(c, q, now);
    var s1 := Admit(Fresh(now), q);
    assert LiveMark(s1, Key(q), 0) && s1.deliveries[0].stage.Arrived?;
    var s2 := Apply(c, s1, Store(0, false));
    assert [Store(0, false)][1..] == [] && Exec(c, s2, []) == Some(s2);
    assert LiveMark(s2, Key(q), 0) && s2.deliveries[0].stage.Failed?;
  }
}
