/**
 What a SELECT ordered by parent and position can return for one flow, and what the two
 delay passes do to the rows of that flow.
 */
module FlowOrders {
  import opened StepDelays

  predicate InFlow(rows: seq<Step>, p: int, i: nat) {
    i < |rows| && rows[i].parent == p
  }

  /** Every row of the flow once, by position: one possible listing of the flow. */
  ghost predicate IsListing(rows: seq<Step>, p: int, flow: seq<nat>) {
    && Distinct(flow) && Within(rows, flow)
    && (forall i: nat :: i in flow <==> i < |rows| && rows[i].parent == p)
    && (forall j, k :: 0 <= j < k < |flow| ==> rows[flow[j]].position <= rows[flow[k]].position)
  }

  /** Row i belongs to a smaller parent (side -1), to p (side 0), or to a larger parent (side 1). */
  predicate OnSide(rows: seq<Step>, i: nat, p: int, side: int)
    requires i < |rows|
  {
    if side < 0 then rows[i].parent < p else if side > 0 then rows[i].parent > p else rows[i].parent == p
  }

  function Part(rows: seq<Step>, order: seq<nat>, p: int, side: int): seq<nat>
    requires Within(rows, order)
  {
    if order == [] then []
    else
      var last := order[|order| - 1];
      Part(rows, order[..|order| - 1], p, side) + (if OnSide(rows, last, p, side) then [last] else [])
  }

  /** The rows of flow p in the order of the SELECT. */
  function Flow(rows: seq<Step>, order: seq<nat>, p: int): seq<nat>
    requires Within(rows, order)
  {
    Part(rows, order, p, 0)
  }

  lemma {:induction false} PartMembers(rows: seq<Step>, order: seq<nat>, p: int, side: int)
    requires Within(rows, order)
    ensures forall i: nat :: i in Part(rows, order, p, side) <==> i in order && OnSide(rows, i, p, side)
  {
    if order != [] {
      var front, last := order[..|order| - 1], order[|order| - 1];
      PartMembers(rows, front, p, side);
      assert order == front + [last];
    }
  }

  /** Listed in order, without repetition. */
  ghost predicate Listed(rows: seq<Step>, order: seq<nat>)
    requires Within(rows, order)
  {
    Distinct(order) && forall j, k :: 0 <= j < k < |order| ==> NotAfter(rows[order[j]], rows[order[k]])
  }

  lemma ListedAppend(rows: seq<Step>, order: seq<nat>, i: nat)
    requires Within(rows, order) && Listed(rows, order) && i < |rows| && i !in order
    requires forall j :: j in order ==> NotAfter(rows[j], rows[i])
    ensures Listed(rows, order + [i])
  {
  }

  lemma {:induction false} PartListed(rows: seq<Step>, order: seq<nat>, p: int, side: int)
    requires Within(rows, order) && Listed(rows, order)
    ensures Within(rows, Part(rows, order, p, side)) && Listed(rows, Part(rows, order, p, side))
  {
    if order != [] {
      var front, last := order[..|order| - 1], order[|order| - 1];
      PartListed(rows, front, p, side);
      PartMembers(rows, front, p, side);
      if OnSide(rows, last, p, side) {
        ListedAppend(rows, Part(rows, front, p, side), last);
      }
    }
  }

  lemma FlowIsListing(rows: seq<Step>, order: seq<nat>, p: int)
    requires IsSelect(rows, order)
    ensures IsListing(rows, p, Flow(rows, order, p))
  {
    PartMembers(rows, order, p, 0);
    PartListed(rows, order, p, 0);
    var flow := Flow(rows, order, p);
    forall j, k | 0 <= j < k < |flow| ensures rows[flow[j]].position <= rows[flow[k]].position {
      assert flow[j] in flow && flow[k] in flow;
    }
  }

  lemma {:induction false} PartConcat(rows: seq<Step>, a: seq<nat>, b: seq<nat>, p: int, side: int)
    requires Within(rows, a) && Within(rows, b)
    ensures Part(rows, a + b, p, side) == Part(rows, a, p, side) + Part(rows, b, p, side)
  {
    if b == [] {
      assert a + b == a;
    } else {
      assert (a + b)[..|a + b| - 1] == a + b[..|b| - 1];
      PartConcat(rows, a, b[..|b| - 1], p, side);
    }
  }

  lemma {:induction false} PartAll(rows: seq<Step>, order: seq<nat>, p: int, side: int)
    requires Within(rows, order)
    ensures (forall i :: i in order ==> OnSide(rows, i, p, side)) ==> Part(rows, order, p, side) == order
    ensures (forall i :: i in order ==> !OnSide(rows, i, p, side)) ==> Part(rows, order, p, side) == []
  {
    if order != [] {
      var front, last := order[..|order| - 1], order[|order| - 1];
      assert order == front + [last] && last in order;
      assert forall i :: i in front ==> i in order;
      PartAll(rows, front, p, side);
    }
  }

  // ---- every listing of a flow is one the SELECT may return

  lemma ListedConcat(rows: seq<Step>, a: seq<nat>, b: seq<nat>)
    requires Within(rows, a) && Within(rows, b) && Listed(rows, a) && Listed(rows, b)
    requires forall i, j :: i in a && j in b ==> i != j && NotAfter(rows[i], rows[j])
    ensures Within(rows, a + b) && Listed(rows, a + b)
  {
    var r := a + b;
    forall j, k | 0 <= j < k < |r| ensures r[j] != r[k] && NotAfter(rows[r[j]], rows[r[k]]) {
      if j < |a| <= k {
        assert r[j] in a && r[k] in b;
      }
    }
  }

  lemma ListedInsert(rows: seq<Step>, order: seq<nat>, k: nat, i: nat)
    requires Within(rows, order) && Listed(rows, order) && i < |rows| && i !in order && k <= |order|
    requires forall j :: 0 <= j < k ==> NotAfter(rows[order[j]], rows[i])
    requires forall j :: k <= j < |order| ==> NotAfter(rows[i], rows[order[j]])
    ensures var r := order[..k] + [i] + order[k..];
            Within(rows, r) && Listed(rows, r) && forall x :: x in r <==> x == i || x in order
  {
    ListedConcat(rows, order[..k], [i]);
    ListedConcat(rows, order[..k] + [i], order[k..]);
    assert order == order[..k] + order[k..];
  }

  lemma {:induction false} ListPrefix(rows: seq<Step>, n: nat) returns (order: seq<nat>)
    requires n <= |rows|
    ensures Within(rows, order) && Listed(rows, order) && forall i: nat :: i in order <==> i < n
  {
    if n == 0 {
      order := [];
    } else {
      var front := ListPrefix(rows, n - 1);
      var k := 0;
      while k < |front| && NotAfter(rows[front[k]], rows[n - 1])
        invariant k <= |front|
        invariant forall j :: 0 <= j < k ==> NotAfter(rows[front[j]], rows[n - 1])
      {
        k := k + 1;
      }
      forall j | k <= j < |front| ensures NotAfter(rows[n - 1], rows[front[j]]) {
        assert j > k ==> NotAfter(rows[front[k]], rows[front[j]]);
      }
      ListedInsert(rows, front, k, n - 1);
      order := front[..k] + [n - 1] + front[k..];
    }
  }

  /** The rows of smaller parents, the flow as listed, the rows of larger parents. */
  lemma AroundFlow(rows: seq<Step>, p: int, lower: seq<nat>, flow: seq<nat>, upper: seq<nat>)
    requires IsListing(rows, p, flow) && Within(rows, lower) && Within(rows, upper)
    requires Listed(rows, lower) && Listed(rows, upper)
    requires forall i: nat :: i in lower <==> i < |rows| && rows[i].parent < p
    requires forall i: nat :: i in upper <==> i < |rows| && rows[i].parent > p
    ensures IsSelect(rows, lower + flow + upper)
  {
    forall j, k | 0 <= j < k < |flow| ensures NotAfter(rows[flow[j]], rows[flow[k]]) {
      assert flow[j] in flow && flow[k] in flow;
    }
    ListedConcat(rows, lower, flow);
    ListedConcat(rows, lower + flow, upper);
  }

  lemma FlowAround(rows: seq<Step>, p: int, lower: seq<nat>, flow: seq<nat>, upper: seq<nat>)
    requires Within(rows, lower) && Within(rows, flow) && Within(rows, upper)
    requires forall i :: i in lower || i in upper ==> !OnSide(rows, i, p, 0)
    requires forall i :: i in flow ==> OnSide(rows, i, p, 0)
    ensures Flow(rows, lower + flow + upper, p) == flow
  {
    PartConcat(rows, lower + flow, upper, p, 0);
    PartConcat(rows, lower, flow, p, 0);
    PartAll(rows, lower, p, 0);
    PartAll(rows, flow, p, 0);
    PartAll(rows, upper, p, 0);
  }

  /** For any listing of a flow there is a SELECT result that lists the flow so. */
  lemma Realize(rows: seq<Step>, p: int, flow: seq<nat>) returns (order: seq<nat>)
    requires IsListing(rows, p, flow)
    ensures IsSelect(rows, order) && Flow(rows, order, p) == flow
  {
    var all := ListPrefix(rows, |rows|);
    var lower, upper := Part(rows, all, p, -1), Part(rows, all, p, 1);
    PartMembers(rows, all, p, -1);
    PartMembers(rows, all, p, 1);
    PartListed(rows, all, p, -1);
    PartListed(rows, all, p, 1);
    AroundFlow(rows, p, lower, flow, upper);
    FlowAround(rows, p, lower, flow, upper);
    order := lower + flow + upper;
  }

  /** A listing with rows x and y exchanged. */
  function Exchanged(flow: seq<nat>, x: nat, y: nat): seq<nat>
    requires x < y < |flow|
  {
    flow[x := flow[y]][y := flow[x]]
  }

  lemma ExchangedRows(flow: seq<nat>, x: nat, y: nat)
    requires x < y < |flow| && Distinct(flow)
    ensures Distinct(Exchanged(flow, x, y)) && forall i: nat :: i in Exchanged(flow, x, y) <==> i in flow
  {
    var swapped := Exchanged(flow, x, y);
    forall i: nat | i in flow ensures i in swapped {
      var k :| 0 <= k < |flow| && flow[k] == i;
      assert swapped[if k == x then y else if k == y then x else k] == i;
    }
  }

  /** Two rows of a listing trade places when the rows between them are level with both. */
  lemma SwapListing(rows: seq<Step>, p: int, flow: seq<nat>, x: nat, y: nat)
    requires IsListing(rows, p, flow) && x < y < |flow|
    requires rows[flow[x]].position == rows[flow[y]].position
    ensures IsListing(rows, p, Exchanged(flow, x, y))
  {
    ExchangedRows(flow, x, y);
  }

  /** No two rows of the flow have the same position. */
  ghost predicate DistinctPositions(rows: seq<Step>, p: int) {
    forall i, j :: 0 <= i < j < |rows| && rows[i].parent == p && rows[j].parent == p ==>
      rows[i].position != rows[j].position
  }

  /** With distinct positions there is only one listing. */
  lemma OneListing(rows: seq<Step>, p: int, a: seq<nat>, b: seq<nat>)
    requires IsListing(rows, p, a) && IsListing(rows, p, b) && DistinctPositions(rows, p)
    ensures a == b
  {
    var m := 0;
    while m < |a|
      invariant m <= |a| && m <= |b| && forall k :: 0 <= k < m ==> a[k] == b[k]
    {
      SameNext(rows, p, a, b, m);
      m := m + 1;
    }
    if m < |b| {
      SameNext(rows, p, b, a, m);
    }
  }

  lemma SameNext(rows: seq<Step>, p: int, a: seq<nat>, b: seq<nat>, m: nat)
    requires IsListing(rows, p, a) && IsListing(rows, p, b) && DistinctPositions(rows, p)
    requires m < |a| && m <= |b| && forall k :: 0 <= k < m ==> a[k] == b[k]
    ensures m < |b| && a[m] == b[m]
  {
    assert a[m] in a && a[m] in b;
    var k :| 0 <= k < |b| && b[k] == a[m];
    assert b[m] in b && b[m] in a;
    var l :| 0 <= l < |a| && a[l] == b[m];
  }

  // ---- the passes, one flow at a time

  /** The absolute delay of the row before the m-th, 0 for the first. */
  function Prior(rows: seq<Step>, flow: seq<nat>, m: nat): int
    requires Within(rows, flow) && m < |flow|
  {
    if m == 0 then 0 else rows[flow[m - 1]].absolute
  }

  /** The m-th row's relative delay is the clamped difference to the row before. */
  predicate Differs(rows: seq<Step>, flow: seq<nat>, out: seq<Step>, m: nat)
    requires |out| == |rows| && Within(rows, flow) && m < |flow|
  {
    out[flow[m]].relative == Max0(rows[flow[m]].absolute - Prior(rows, flow, m))
  }

  ghost predicate Differences(rows: seq<Step>, flow: seq<nat>, out: seq<Step>) {
    |out| == |rows| && Within(rows, flow) && forall m: nat :: m < |flow| ==> Differs(rows, flow, out, m)
  }

  /** The m-th row's absolute delay is that of the row before plus its own relative delay. */
  predicate Adds(rows: seq<Step>, flow: seq<nat>, out: seq<Step>, m: nat)
    requires |out| == |rows| && Within(rows, flow) && m < |flow|
  {
    out[flow[m]].absolute == Prior(out, flow, m) + rows[flow[m]].relative
  }

  ghost predicate Increments(rows: seq<Step>, flow: seq<nat>, out: seq<Step>) {
    |out| == |rows| && Within(rows, flow) && forall m: nat :: m < |flow| ==> Adds(rows, flow, out, m)
  }

  lemma {:induction false} PartWithin(rows: seq<Step>, order: seq<nat>, p: int, side: int)
    requires Within(rows, order)
    ensures Within(rows, Part(rows, order, p, side))
  {
    if order != [] {
      PartWithin(rows, order[..|order| - 1], p, side);
    }
  }

  lemma {:induction false} LastAbsoluteOfFlow(rows: seq<Step>, order: seq<nat>, p: int)
    requires Within(rows, order)
    ensures var flow := Flow(rows, order, p);
            Within(rows, flow) &&
            LastAbsolute(rows, order, p) == if flow == [] then 0 else rows[flow[|flow| - 1]].absolute
  {
    PartWithin(rows, order, p, 0);
    if order != [] {
      LastAbsoluteOfFlow(rows, order[..|order| - 1], p);
    }
  }

  /** The passes write only their own column. */
  lemma {:induction false} OneColumn(rows: seq<Step>, order: seq<nat>, i: nat)
    requires Within(rows, order) && i < |rows|
    ensures Relativized(rows, order)[i] == rows[i].(relative := Relativized(rows, order)[i].relative)
    ensures Accumulated(rows, order)[i] == rows[i].(absolute := Accumulated(rows, order)[i].absolute)
  {
    if order != [] {
      OneColumn(rows, order[..|order| - 1], i);
    }
  }

  /** One more row listed, in flow p or not, and what that does to a listing's last row. */
  lemma FlowAppend(rows: seq<Step>, order: seq<nat>, p: int)
    requires Within(rows, order) && Distinct(order) && order != []
    ensures var before, last := Flow(rows, order[..|order| - 1], p), order[|order| - 1];
            && Within(rows, before) && last !in before
            && Flow(rows, order, p) == if rows[last].parent == p then before + [last] else before
  {
    PartWithin(rows, order[..|order| - 1], p, 0);
    PartMembers(rows, order[..|order| - 1], p, 0);
  }

  lemma DifferencesAppend(rows: seq<Step>, flow: seq<nat>, i: nat, was: seq<Step>, v: Step)
    requires Differences(rows, flow, was) && i < |rows| && i !in flow
    requires v.relative == Max0(rows[i].absolute - if flow == [] then 0 else rows[flow[|flow| - 1]].absolute)
    ensures Differences(rows, flow + [i], was[i := v])
  {
    var longer, out := flow + [i], was[i := v];
    forall m: nat | m < |longer| ensures Differs(rows, longer, out, m) {
      if m < |flow| {
        assert flow[m] in flow && Differs(rows, flow, was, m);
      }
    }
  }

  /** However parents interleave, each flow gets the differences of its own listing. */
  lemma {:induction false} UpgradePerFlow(rows: seq<Step>, order: seq<nat>, p: int)
    requires Within(rows, order) && Distinct(order)
    ensures Differences(rows, Flow(rows, order, p), Relativized(rows, order))
  {
    if order != [] {
      var front, last := order[..|order| - 1], order[|order| - 1];
      UpgradePerFlow(rows, front, p);
      FlowAppend(rows, order, p);
      if rows[last].parent == p {
        LastAbsoluteOfFlow(rows, front, p);
        DifferencesAppend(rows, Flow(rows, front, p), last, Relativized(rows, front), Relativized(rows, order)[last]);
      } else {
        ElsewhereStays(rows, front, p, last);
        SameDifferences(rows, Flow(rows, front, p), Relativized(rows, front), Relativized(rows, order));
      }
    }
  }

  lemma SameDifferences(rows: seq<Step>, flow: seq<nat>, was: seq<Step>, out: seq<Step>)
    requires Differences(rows, flow, was) && |out| == |was|
    requires forall m: nat :: m < |flow| ==> out[flow[m]].relative == was[flow[m]].relative
    ensures Differences(rows, flow, out)
  {
    forall m: nat | m < |flow| ensures Differs(rows, flow, out, m) {
      assert Differs(rows, flow, was, m);
    }
  }

  lemma SameIncrements(rows: seq<Step>, flow: seq<nat>, was: seq<Step>, out: seq<Step>)
    requires Increments(rows, flow, was) && |out| == |was|
    requires forall m: nat :: m < |flow| ==> out[flow[m]].absolute == was[flow[m]].absolute
    ensures Increments(rows, flow, out)
  {
    forall m: nat | m < |flow| ensures Adds(rows, flow, out, m) {
      assert Adds(rows, flow, was, m);
    }
  }

  lemma ElsewhereStays(rows: seq<Step>, order: seq<nat>, p: int, i: nat)
    requires Within(rows, order) && i < |rows| && rows[i].parent != p
    ensures Within(rows, Flow(rows, order, p)) && i !in Flow(rows, order, p)
    ensures forall m :: 0 <= m < |Flow(rows, order, p)| ==> Flow(rows, order, p)[m] != i
  {
    PartWithin(rows, order, p, 0);
    PartMembers(rows, order, p, 0);
  }

  lemma {:induction false} TotalOfFlow(rows: seq<Step>, order: seq<nat>, p: int)
    requires Within(rows, order) && Distinct(order)
    ensures var flow := Flow(rows, order, p);
            Within(rows, flow) &&
            Total(rows, order, p) == if flow == [] then 0 else Accumulated(rows, order)[flow[|flow| - 1]].absolute
  {
    PartWithin(rows, order, p, 0);
    if order != [] {
      var front, last := order[..|order| - 1], order[|order| - 1];
      TotalOfFlow(rows, front, p);
      PartMembers(rows, front, p, 0);
      var before := Flow(rows, front, p);
      assert before != [] ==> before[|before| - 1] in before;
    }
  }

  lemma IncrementsAppend(rows: seq<Step>, flow: seq<nat>, i: nat, was: seq<Step>, v: Step)
    requires Increments(rows, flow, was) && i < |rows| && i !in flow
    requires v.absolute == (if flow == [] then 0 else was[flow[|flow| - 1]].absolute) + rows[i].relative
    ensures Increments(rows, flow + [i], was[i := v])
  {
    var longer, out := flow + [i], was[i := v];
    forall m: nat | m < |longer| ensures Adds(rows, longer, out, m) {
      if m < |flow| {
        assert flow[m] in flow && Adds(rows, flow, was, m);
        assert m > 0 ==> flow[m - 1] in flow;
      } else {
        assert flow != [] ==> flow[|flow| - 1] in flow;
      }
    }
  }

  /** However parents interleave, each flow gets the sums of its own listing. */
  lemma {:induction false} DowngradePerFlow(rows: seq<Step>, order: seq<nat>, p: int)
    requires Within(rows, order) && Distinct(order)
    ensures Increments(rows, Flow(rows, order, p), Accumulated(rows, order))
  {
    if order != [] {
      var front, last := order[..|order| - 1], order[|order| - 1];
      DowngradePerFlow(rows, front, p);
      FlowAppend(rows, order, p);
      if rows[last].parent == p {
        TotalOfFlow(rows, front, p);
        IncrementsAppend(rows, Flow(rows, front, p), last, Accumulated(rows, front), Accumulated(rows, order)[last]);
      } else {
        ElsewhereStays(rows, front, p, last);
        SameIncrements(rows, Flow(rows, front, p), Accumulated(rows, front), Accumulated(rows, order));
      }
    }
  }

  // ---- one step of the migration, one flow

  lemma UpgradeFlow(rows: seq<Step>, order: seq<nat>, p: int)
    requires IsSelect(rows, order)
    ensures var up, flow := Upgrade(rows, order), Flow(rows, order, p);
            && IsListing(rows, p, flow) && Differences(rows, flow, up)
            && forall i :: 0 <= i < |rows| ==> up[i].parent == rows[i].parent && up[i].absolute == rows[i].absolute
  {
    FlowIsListing(rows, order, p);
    UpgradePerFlow(rows, order, p);
    SameDifferences(rows, Flow(rows, order, p), Relativized(rows, order), Upgrade(rows, order));
    forall i | 0 <= i < |rows| ensures Upgrade(rows, order)[i].absolute == rows[i].absolute
      && Upgrade(rows, order)[i].parent == rows[i].parent {
      OneColumn(rows, order, i);
    }
  }

  lemma DowngradeFlow(rows: seq<Step>, order: seq<nat>, p: int)
    requires IsSelect(rows, order)
    ensures var down, flow := Downgrade(rows, order), Flow(rows, order, p);
            && IsListing(rows, p, flow) && Increments(rows, flow, down)
            && forall i :: 0 <= i < |rows| ==> down[i].parent == rows[i].parent && down[i].relative == rows[i].relative
  {
    FlowIsListing(rows, order, p);
    DowngradePerFlow(rows, order, p);
    SameIncrements(rows, Flow(rows, order, p), Accumulated(rows, order), Downgrade(rows, order));
    forall i | 0 <= i < |rows| ensures Downgrade(rows, order)[i].relative == rows[i].relative
      && Downgrade(rows, order)[i].parent == rows[i].parent {
      OneColumn(rows, order, i);
    }
  }

  lemma IndexIn(rows: seq<Step>, p: int, a: seq<nat>, b: seq<nat>, m: nat) returns (k: nat)
    requires IsListing(rows, p, a) && IsListing(rows, p, b) && m < |b|
    ensures k < |a| && a[k] == b[m]
  {
    assert b[m] in b && b[m] in a;
    k :| 0 <= k < |a| && a[k] == b[m];
  }

  lemma AnyListing(rows: seq<Step>, p: int) returns (flow: seq<nat>)
    ensures IsListing(rows, p, flow)
  {
    var all := ListPrefix(rows, |rows|);
    FlowIsListing(rows, all, p);
    flow := Flow(rows, all, p);
  }

  /** Row i of the flow before row j, if their positions allow it. */
  lemma ListingWith(rows: seq<Step>, p: int, i: nat, j: nat) returns (flow: seq<nat>, x: nat, y: nat)
    requires InFlow(rows, p, i) && InFlow(rows, p, j) && i != j && rows[i].position <= rows[j].position
    ensures IsListing(rows, p, flow) && x < y < |flow| && flow[x] == i && flow[y] == j
  {
    flow := AnyListing(rows, p);
    assert i in flow && j in flow;
    x :| 0 <= x < |flow| && flow[x] == i;
    y :| 0 <= y < |flow| && flow[y] == j;
    if y < x {
      SwapListing(rows, p, flow, y, x);
      flow, x, y := Exchanged(flow, y, x), y, x;
    }
  }
}
