/**
 Downgrade, then upgrade: when a flow gets its relative delays back, for every order the two
 SELECTs may return.  The downgrade lowers positions, which can merge 0 and 1.
 */
module DowngradeFirst {
  import opened StepDelays
  import opened FlowOrders

  ghost predicate SameRelatives(rows: seq<Step>, out: seq<Step>, p: int) {
    |out| == |rows| && forall i: nat :: InFlow(rows, p, i) ==> out[i].relative == rows[i].relative
  }

  /** Two steps of the flow at one position. */
  predicate Tied(rows: seq<Step>, p: int, i: nat, j: nat) {
    InFlow(rows, p, i) && InFlow(rows, p, j) && i != j && rows[i].position == rows[j].position
  }

  /** Two steps of the flow at positions 0 and 1, which the downgrade makes equal. */
  predicate Merged(rows: seq<Step>, p: int, i: nat, j: nat) {
    InFlow(rows, p, i) && InFlow(rows, p, j) && rows[i].position == 0 && rows[j].position == 1
  }

  predicate ContinuesPastOne(rows: seq<Step>, p: int) {
    exists k: nat :: k < |rows| && InFlow(rows, p, k) && rows[k].position > 1
  }

  /**
   What survives a downgrade and an upgrade whatever the SELECTs return: no relative delay is
   negative; steps at one position have none; and where positions 0 and 1 are both in use,
   neither have those at 0, nor those at 1 if the flow continues.
   */
  ghost predicate SurvivesDownUp(rows: seq<Step>, p: int) {
    && (forall i: nat :: InFlow(rows, p, i) ==> rows[i].relative >= 0)
    && (forall i: nat, j: nat :: Tied(rows, p, i, j) ==> rows[i].relative == 0)
    && (forall i: nat, j: nat :: Merged(rows, p, i, j) ==>
          rows[i].relative == 0 && (ContinuesPastOne(rows, p) ==> rows[j].relative == 0))
  }

  function Lowered(x: int): int {
    if x > 0 then x - 1 else x
  }

  /** Every row of the flow once, by lowered position. */
  ghost predicate IsLowered(rows: seq<Step>, p: int, flow: seq<nat>) {
    && Distinct(flow) && Within(rows, flow)
    && (forall i: nat :: i in flow <==> InFlow(rows, p, i))
    && (forall j, k :: 0 <= j < k < |flow| ==> Lowered(rows[flow[j]].position) <= Lowered(rows[flow[k]].position))
  }

  lemma DownListings(rows: seq<Step>, order: seq<nat>, p: int, flow: seq<nat>)
    requires IsSelect(rows, order)
    ensures IsListing(Downgrade(rows, order), p, flow) <==> IsLowered(rows, p, flow)
  {
    var down := Downgrade(rows, order);
    forall i: nat | i < |rows|
      ensures down[i].parent == rows[i].parent && down[i].position == Lowered(rows[i].position)
    {
      OneColumn(rows, order, i);
    }
  }

  /** Rows x < z < y of the downgrade's listing, where x and y are neighbours in the upgrade's: z adds nothing. */
  lemma BetweenAddsNothing(rows: seq<Step>, p: int, a: seq<nat>, b: seq<nat>, x: nat, z: nat, y: nat, m: nat)
    requires IsListing(rows, p, a) && IsLowered(rows, p, b) && SurvivesDownUp(rows, p)
    requires x < z < y < |a| && 0 < m < |b| && b[m - 1] == a[x] && b[m] == a[y]
    ensures rows[a[z]].relative == 0
  {
    var q, e, i := a[x], a[z], a[y];
    assert q in a && e in a && i in a && e in b;
    var w :| 0 <= w < |b| && b[w] == e;
    if rows[e].position == rows[q].position {
      assert Tied(rows, p, e, q);
    } else if rows[e].position == rows[i].position {
      assert Tied(rows, p, e, i);
    } else if w < m {
      assert Merged(rows, p, q, e) && InFlow(rows, p, i);
    } else {
      assert Merged(rows, p, e, i);
    }
  }

  /** Rows before the one that the upgrade's listing puts first add nothing either. */
  lemma BeforeFirstAddsNothing(rows: seq<Step>, p: int, a: seq<nat>, b: seq<nat>, z: nat, y: nat)
    requires IsListing(rows, p, a) && IsLowered(rows, p, b) && SurvivesDownUp(rows, p)
    requires z < y < |a| && b != [] && b[0] == a[y]
    ensures rows[a[z]].relative == 0
  {
    var e, i := a[z], a[y];
    assert e in a && i in a && e in b;
    var w :| 0 <= w < |b| && b[w] == e;
    if rows[e].position == rows[i].position {
      assert Tied(rows, p, e, i);
    } else {
      assert Merged(rows, p, e, i);
    }
  }

  lemma OneStep(rows: seq<Step>, flow: seq<nat>, down: seq<Step>, m: nat)
    requires Increments(rows, flow, down) && m < |flow|
    ensures down[flow[m]].absolute == (if m == 0 then 0 else down[flow[m - 1]].absolute) + rows[flow[m]].relative
  {
    assert Adds(rows, flow, down, m);
  }

  /** Where the relative delays from x to y are zero, the sums stay the same; they never fall. */
  lemma {:induction false} SumsBetween(rows: seq<Step>, flow: seq<nat>, down: seq<Step>, x: nat, y: nat)
    requires Increments(rows, flow, down) && x <= y < |flow|
    requires forall z :: x < z <= y ==> rows[flow[z]].relative >= 0
    ensures down[flow[x]].absolute <= down[flow[y]].absolute
    ensures (forall z :: x < z <= y ==> rows[flow[z]].relative == 0) ==> down[flow[x]].absolute == down[flow[y]].absolute
  {
    if x < y {
      SumsBetween(rows, flow, down, x, y - 1);
      OneStep(rows, flow, down, y);
    }
  }

  lemma {:induction false} SumsFromZero(rows: seq<Step>, flow: seq<nat>, down: seq<Step>, y: nat)
    requires Increments(rows, flow, down) && y < |flow|
    requires forall z :: 0 <= z <= y ==> rows[flow[z]].relative == 0
    ensures down[flow[y]].absolute == 0
  {
    OneStep(rows, flow, down, y);
    if y > 0 {
      SumsFromZero(rows, flow, down, y - 1);
    }
  }

  /** A row that the upgrade lists after a later row of the downgrade has no delay of its own. */
  lemma BackwardsAddsNothing(rows: seq<Step>, p: int, a: seq<nat>, b: seq<nat>, y: nat, x: nat, m: nat)
    requires IsListing(rows, p, a) && IsLowered(rows, p, b) && SurvivesDownUp(rows, p)
    requires y < x < |a| && 0 < m < |b| && b[m - 1] == a[x] && b[m] == a[y]
    ensures rows[a[y]].relative == 0
  {
    assert a[x] in a && a[y] in a;
    if rows[a[x]].position == rows[a[y]].position {
      assert Tied(rows, p, a[y], a[x]);
    } else {
      assert Merged(rows, p, a[y], a[x]);
    }
  }

  lemma NotNegative(rows: seq<Step>, p: int, a: seq<nat>, z: nat)
    requires IsListing(rows, p, a) && SurvivesDownUp(rows, p) && z < |a|
    ensures rows[a[z]].relative >= 0
  {
    assert a[z] in a && InFlow(rows, p, a[z]);
  }

  lemma FirstReturns(rows: seq<Step>, p: int, a: seq<nat>, b: seq<nat>, down: seq<Step>)
    requires IsListing(rows, p, a) && IsLowered(rows, p, b) && SurvivesDownUp(rows, p)
    requires Increments(rows, a, down) && b != []
    ensures down[b[0]].absolute == rows[b[0]].relative
  {
    assert b[0] in b && b[0] in a;
    var y :| 0 <= y < |a| && a[y] == b[0];
    if y > 0 {
      forall z | 0 <= z <= y - 1 ensures rows[a[z]].relative == 0 {
        BeforeFirstAddsNothing(rows, p, a, b, z, y);
      }
      SumsFromZero(rows, a, down, y - 1);
    }
    OneStep(rows, a, down, y);
  }

  lemma ZerosBetween(rows: seq<Step>, p: int, a: seq<nat>, b: seq<nat>, x: nat, y: nat, m: nat)
    requires IsListing(rows, p, a) && IsLowered(rows, p, b) && SurvivesDownUp(rows, p)
    requires x < y < |a| && 0 < m < |b| && b[m - 1] == a[x] && b[m] == a[y]
    ensures forall z :: x < z < y ==> rows[a[z]].relative == 0
  {
    forall z | x < z < y ensures rows[a[z]].relative == 0 {
      BetweenAddsNothing(rows, p, a, b, x, z, y, m);
    }
  }

  lemma NoneNegative(rows: seq<Step>, p: int, a: seq<nat>)
    requires IsListing(rows, p, a) && SurvivesDownUp(rows, p)
    ensures forall z :: 0 <= z < |a| ==> rows[a[z]].relative >= 0
  {
    forall z | 0 <= z < |a| ensures rows[a[z]].relative >= 0 {
      NotNegative(rows, p, a, z);
    }
  }

  lemma ForwardSums(rows: seq<Step>, a: seq<nat>, down: seq<Step>, x: nat, y: nat)
    requires Increments(rows, a, down) && x < y < |a| && forall z :: x < z < y ==> rows[a[z]].relative == 0
    ensures down[a[y]].absolute == down[a[x]].absolute + rows[a[y]].relative
  {
    SumsBetween(rows, a, down, x, y - 1);
    OneStep(rows, a, down, y);
  }

  lemma NextReturns(rows: seq<Step>, p: int, a: seq<nat>, b: seq<nat>, down: seq<Step>, m: nat)
    requires IsListing(rows, p, a) && IsLowered(rows, p, b) && SurvivesDownUp(rows, p)
    requires Increments(rows, a, down) && 0 < m < |b|
    ensures Max0(down[b[m]].absolute - down[b[m - 1]].absolute) == rows[b[m]].relative
  {
    var y := IndexOfLowered(rows, p, a, b, m);
    var x := IndexOfLowered(rows, p, a, b, m - 1);
    NotNegative(rows, p, a, y);
    if x < y {
      ZerosBetween(rows, p, a, b, x, y, m);
      ForwardSums(rows, a, down, x, y);
    } else {
      BackwardsAddsNothing(rows, p, a, b, y, x, m);
      NoneNegative(rows, p, a);
      SumsBetween(rows, a, down, y, x);
    }
  }

  lemma IndexOfLowered(rows: seq<Step>, p: int, a: seq<nat>, b: seq<nat>, m: nat) returns (k: nat)
    requires IsListing(rows, p, a) && IsLowered(rows, p, b) && m < |b|
    ensures k < |a| && a[k] == b[m]
  {
    assert b[m] in b && b[m] in a;
    k :| 0 <= k < |a| && a[k] == b[m];
  }

  lemma SurvivorsReturn(rows: seq<Step>, p: int, a: seq<nat>, b: seq<nat>, down: seq<Step>, up: seq<Step>)
    requires IsListing(rows, p, a) && IsLowered(rows, p, b) && SurvivesDownUp(rows, p)
    requires Increments(rows, a, down) && Differences(down, b, up)
    ensures SameRelatives(rows, up, p)
  {
    forall i: nat | InFlow(rows, p, i) ensures up[i].relative == rows[i].relative {
      assert i in b && i in a;
      var m :| 0 <= m < |b| && b[m] == i;
      var y :| 0 <= y < |a| && a[y] == i;
      NotNegative(rows, p, a, y);
      assert Differs(down, b, up, m);
      if m == 0 {
        FirstReturns(rows, p, a, b, down);
      } else {
        NextReturns(rows, p, a, b, down, m);
      }
    }
  }

  // ---- every SELECT order

  /** Whatever the two SELECTs return, downgrade and upgrade give flow p its relative delays back. */
  ghost predicate AlwaysBackUp(rows: seq<Step>, p: int) {
    forall o, q :: IsSelect(rows, o) && IsSelect(Downgrade(rows, o), q) ==>
      SameRelatives(rows, Upgrade(Downgrade(rows, o), q), p)
  }

  lemma ChosenListings(rows: seq<Step>, p: int, a: seq<nat>, b: seq<nat>) returns (down: seq<Step>, up: seq<Step>)
    requires AlwaysBackUp(rows, p) && IsListing(rows, p, a) && IsLowered(rows, p, b)
    ensures Increments(rows, a, down) && Differences(down, b, up) && SameRelatives(rows, up, p)
  {
    var o := Realize(rows, p, a);
    DowngradeFlow(rows, o, p);
    down := Downgrade(rows, o);
    DownListings(rows, o, p, b);
    var q := Realize(down, p, b);
    UpgradeFlow(down, q, p);
    up := Upgrade(down, q);
  }

  lemma AlwaysNotNegative(rows: seq<Step>, p: int, i: nat)
    requires AlwaysBackUp(rows, p) && InFlow(rows, p, i)
    ensures rows[i].relative >= 0
  {
    var a := AnyListing(rows, p);
    var down, up := ChosenListings(rows, p, a, a);
    assert i in a;
    var y :| 0 <= y < |a| && a[y] == i;
    assert Differs(down, a, up, y);
  }

  /** Rows whose positions become equal trade places. */
  lemma ExchangeLowered(rows: seq<Step>, p: int, flow: seq<nat>, x: nat, y: nat)
    requires IsListing(rows, p, flow) && x < y < |flow|
    requires Lowered(rows[flow[x]].position) == Lowered(rows[flow[y]].position)
    ensures IsLowered(rows, p, Exchanged(flow, x, y))
  {
    ExchangedRows(flow, x, y);
  }

  /** A later sum exceeds an earlier one by at least the later row's own delay. */
  lemma Gain(rows: seq<Step>, flow: seq<nat>, down: seq<Step>, x: nat, y: nat)
    requires Increments(rows, flow, down) && x < y < |flow|
    requires forall z :: x < z <= y ==> rows[flow[z]].relative >= 0
    ensures down[flow[y]].absolute >= down[flow[x]].absolute + rows[flow[y]].relative
  {
    SumsBetween(rows, flow, down, x, y - 1);
    OneStep(rows, flow, down, y);
  }

  /** The differences that an upgrade computes when rows x and y are exchanged. */
  lemma ExchangedDifferences(down: seq<Step>, flow: seq<nat>, up: seq<Step>, x: nat, y: nat)
    requires Within(down, flow) && x < y < |flow| && Differences(down, Exchanged(flow, x, y), up)
    ensures up[flow[y]].relative == Max0(down[flow[y]].absolute - Prior(down, flow, x))
    ensures y + 1 < |flow| ==> up[flow[y + 1]].relative == Max0(down[flow[y + 1]].absolute - down[flow[x]].absolute)
  {
    var swapped := Exchanged(flow, x, y);
    assert Differs(down, swapped, up, x);
    if y + 1 < |flow| {
      assert Differs(down, swapped, up, y + 1);
    }
  }

  /** A row that can be listed in place of an earlier one shows that the earlier one adds nothing. */
  lemma EarlierAddsNothing(rows: seq<Step>, p: int, flow: seq<nat>, x: nat, y: nat)
    requires AlwaysBackUp(rows, p) && IsListing(rows, p, flow) && x < y < |flow|
    requires Lowered(rows[flow[x]].position) == Lowered(rows[flow[y]].position)
    ensures rows[flow[x]].relative == 0
    ensures y + 1 < |flow| ==> rows[flow[y]].relative == 0
  {
    ExchangeLowered(rows, p, flow, x, y);
    var down, up := ChosenListings(rows, p, flow, Exchanged(flow, x, y));
    forall z | 0 <= z < |flow| ensures rows[flow[z]].relative >= 0 && up[flow[z]].relative == rows[flow[z]].relative {
      assert flow[z] in flow && InFlow(rows, p, flow[z]);
      AlwaysNotNegative(rows, p, flow[z]);
    }
    Gain(rows, flow, down, x, y);
    OneStep(rows, flow, down, x);
    ExchangedDifferences(down, flow, up, x, y);
    if y + 1 < |flow| {
      OneStep(rows, flow, down, y + 1);
    }
  }

  lemma TiesAddNothing(rows: seq<Step>, p: int, i: nat, j: nat)
    requires AlwaysBackUp(rows, p) && (Tied(rows, p, i, j) || Merged(rows, p, i, j))
    ensures rows[i].relative == 0
    ensures Merged(rows, p, i, j) && ContinuesPastOne(rows, p) ==> rows[j].relative == 0
  {
    var flow, x, y := ListingWith(rows, p, i, j);
    EarlierAddsNothing(rows, p, flow, x, y);
    if Merged(rows, p, i, j) && ContinuesPastOne(rows, p) {
      var k: nat :| k < |rows| && InFlow(rows, p, k) && rows[k].position > 1;
      assert k in flow;
      var z :| 0 <= z < |flow| && flow[z] == k;
    }
  }

  lemma AlwaysSurvives(rows: seq<Step>, p: int)
    requires AlwaysBackUp(rows, p)
    ensures SurvivesDownUp(rows, p)
  {
    forall i: nat | InFlow(rows, p, i) ensures rows[i].relative >= 0 {
      AlwaysNotNegative(rows, p, i);
    }
    forall i: nat, j: nat | Tied(rows, p, i, j) ensures rows[i].relative == 0 {
      TiesAddNothing(rows, p, i, j);
    }
    forall i: nat, j: nat | Merged(rows, p, i, j)
      ensures rows[i].relative == 0 && (ContinuesPastOne(rows, p) ==> rows[j].relative == 0)
    {
      TiesAddNothing(rows, p, i, j);
    }
  }

  /**
   Downgrade then upgrade, exactly: a flow gets its relative delays back for all orders the two
   SELECTs may return, if and only if it satisfies SurvivesDownUp.
   */
  lemma DownThenUp(rows: seq<Step>, p: int)
    ensures AlwaysBackUp(rows, p) <==> SurvivesDownUp(rows, p)
  {
    if AlwaysBackUp(rows, p) {
      AlwaysSurvives(rows, p);
    }
    if SurvivesDownUp(rows, p) {
      forall o, q | IsSelect(rows, o) && IsSelect(Downgrade(rows, o), q)
        ensures SameRelatives(rows, Upgrade(Downgrade(rows, o), q), p)
      {
        var down := Downgrade(rows, o);
        DowngradeFlow(rows, o, p);
        UpgradeFlow(down, q, p);
        DownListings(rows, o, p, Flow(down, q, p));
        SurvivorsReturn(rows, p, Flow(rows, o, p), Flow(down, q, p), down, Upgrade(down, q));
      }
    }
  }

  /**
   With distinct positions that do not merge, for each pair of orders: the flow gets its relative
   delays back if and only if none is negative.
   */
  lemma DownThenUpDistinct(rows: seq<Step>, p: int, o: seq<nat>, q: seq<nat>)
    requires DistinctPositions(rows, p) && IsSelect(rows, o) && IsSelect(Downgrade(rows, o), q)
    requires forall i: nat, j: nat :: !Merged(rows, p, i, j)
    ensures SameRelatives(rows, Upgrade(Downgrade(rows, o), q), p) <==>
      forall i: nat :: InFlow(rows, p, i) ==> rows[i].relative >= 0
  {
    var down := Downgrade(rows, o);
    var up, flow := Upgrade(down, q), Flow(down, q, p);
    DowngradeFlow(rows, o, p);
    UpgradeFlow(down, q, p);
    DownListings(rows, o, p, flow);
    if SameRelatives(rows, up, p) {
      forall i: nat | InFlow(rows, p, i) ensures rows[i].relative >= 0 {
        assert i in flow;
        var m :| 0 <= m < |flow| && flow[m] == i;
        assert Differs(down, flow, up, m);
      }
    }
    if forall i: nat :: InFlow(rows, p, i) ==> rows[i].relative >= 0 {
      SurvivorsReturn(rows, p, Flow(rows, o, p), flow, down, up);
    }
  }

  /** Listing two tied rows one way and then the other: delays 5 and 3 come back as 0 and 8. */
  lemma TieLosesRelatives()
    ensures var rows := [Step(7, 1, 0, 5), Step(7, 1, 0, 3)];
            && IsSelect(rows, [0, 1]) && IsSelect(Downgrade(rows, [0, 1]), [1, 0])
            && Upgrade(Downgrade(rows, [0, 1]), [1, 0])[0].relative == 0
            && Upgrade(Downgrade(rows, [0, 1]), [1, 0])[1].relative == 8
  {
    var a, b := Step(7, 1, 0, 5), Step(7, 1, 0, 3);
    TwoRowsDown(a, b);
    assert Downgrade([a, b], [0, 1]) == [Step(7, 0, 5, 5), Step(7, 0, 8, 3)];
    TwoRowsUp(Step(7, 0, 5, 5), Step(7, 0, 8, 3));
  }

  /** The same at positions 0 and 1, which the downgrade makes equal. */
  lemma MergeLosesRelatives()
    ensures var rows := [Step(7, 0, 0, 5), Step(7, 1, 0, 3)];
            && IsSelect(rows, [0, 1]) && IsSelect(Downgrade(rows, [0, 1]), [1, 0])
            && Upgrade(Downgrade(rows, [0, 1]), [1, 0])[0].relative == 0
            && Upgrade(Downgrade(rows, [0, 1]), [1, 0])[1].relative == 8
  {
    var a, b := Step(7, 0, 0, 5), Step(7, 1, 0, 3);
    TwoRowsDown(a, b);
    assert Downgrade([a, b], [0, 1]) == [Step(7, 0, 5, 5), Step(7, 0, 8, 3)];
    TwoRowsUp(Step(7, 0, 5, 5), Step(7, 0, 8, 3));
  }

  /** A downgrade pass over two rows of one flow, in order. */
  lemma TwoRowsDown(a: Step, b: Step)
    requires a.parent == b.parent
    ensures Accumulated([a, b], [0, 1]) == [a.(absolute := a.relative), b.(absolute := a.relative + b.relative)]
  {
    assert [0, 1][..1] == [0] && [0][..0] == [];
    assert Total([a, b], [0], b.parent) == Total([a, b], [], b.parent) + a.relative;
    assert Accumulated([a, b], [0]) == [a.(absolute := a.relative), b];
  }

  /** An upgrade pass over two rows of one flow, in the opposite order. */
  lemma TwoRowsUp(a: Step, b: Step)
    requires a.parent == b.parent
    ensures Relativized([a, b], [1, 0])
         == [a.(relative := Max0(a.absolute - b.absolute)), b.(relative := Max0(b.absolute))]
  {
    assert [1, 0][..1] == [1] && [1][..0] == [];
    assert LastAbsolute([a, b], [1], a.parent) == b.absolute;
    assert Relativized([a, b], [1]) == [a, b.(relative := Max0(b.absolute))];
  }
}
