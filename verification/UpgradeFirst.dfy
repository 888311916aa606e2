/**
 Upgrade, then downgrade: when a flow gets its absolute delays back, for every order the two
 SELECTs may return.  The second SELECT sees the positions the upgrade left.
 */
module UpgradeFirst {
  import opened StepDelays
  import opened FlowOrders

  ghost predicate SameAbsolutes(rows: seq<Step>, out: seq<Step>, p: int) {
    |out| == |rows| && forall i: nat :: InFlow(rows, p, i) ==> out[i].absolute == rows[i].absolute
  }

  /** Non-negative, and never decreasing with the position. */
  ghost predicate Ascending(rows: seq<Step>, p: int) {
    && (forall i: nat :: InFlow(rows, p, i) ==> rows[i].absolute >= 0)
    && (forall i: nat, j: nat ::
          InFlow(rows, p, i) && InFlow(rows, p, j) && rows[i].position < rows[j].position ==>
          rows[i].absolute <= rows[j].absolute)
  }

  /** Absolute delay x is 0 or occurs in the flow before position q. */
  ghost predicate Reached(rows: seq<Step>, p: int, q: int, x: int) {
    x == 0 || exists k: nat :: InFlow(rows, p, k) && rows[k].position < q && rows[k].absolute == x
  }

  /** Steps at one position add no delay to each other or to what came before. */
  ghost predicate TiesAreLevel(rows: seq<Step>, p: int) {
    forall i: nat, j: nat :: InFlow(rows, p, i) && InFlow(rows, p, j) && i != j && rows[i].position == rows[j].position ==>
      rows[i].absolute == rows[j].absolute && Reached(rows, p, rows[i].position, rows[i].absolute)
  }

  /** Both conditions: what survives an upgrade and a downgrade whatever the SELECTs return. */
  ghost predicate SurvivesUpDown(rows: seq<Step>, p: int) {
    Ascending(rows, p) && TiesAreLevel(rows, p)
  }

  // ---- upgrade, then downgrade

  /** The upgrade moves all positions of a flow by the same amount, so its listings stay the same. */
  lemma UpListings(rows: seq<Step>, order: seq<nat>, p: int, flow: seq<nat>)
    requires IsSelect(rows, order)
    ensures IsListing(Upgrade(rows, order), p, flow) <==> IsListing(rows, p, flow)
  {
    var mid := Relativized(rows, order);
    var up := Upgrade(rows, order);
    var shift := if HasPosition(mid, p, 0) then 1 else 0;
    forall i: nat | i < |rows|
      ensures up[i].parent == rows[i].parent
      ensures rows[i].parent == p ==> up[i].position == rows[i].position + shift
    {
      OneColumn(rows, order, i);
    }
  }

  lemma Earlier(rows: seq<Step>, p: int, flow: seq<nat>, x: nat, i: nat) returns (k: nat)
    requires IsListing(rows, p, flow) && x < |flow| && InFlow(rows, p, i)
    requires rows[i].position < rows[flow[x]].position
    ensures k < x && flow[k] == i
  {
    assert i in flow;
    k :| 0 <= k < |flow| && flow[k] == i;
  }

  /** In a flow that survives, a step that shares its position repeats the delay before it. */
  lemma TiedPrior(rows: seq<Step>, p: int, flow: seq<nat>, m: nat, j: nat)
    requires IsListing(rows, p, flow) && m < |flow| && SurvivesUpDown(rows, p)
    requires InFlow(rows, p, j) && j != flow[m] && rows[j].position == rows[flow[m]].position
    ensures Prior(rows, flow, m) == rows[flow[m]].absolute
  {
    var i := flow[m];
    assert i in flow && InFlow(rows, p, i);
    if m > 0 {
      PositionsAscend(rows, p, flow, m - 1, m);
    }
    if rows[i].absolute != 0 {
      var k: nat :| InFlow(rows, p, k) && rows[k].position < rows[i].position && rows[k].absolute == rows[i].absolute;
      var x := Earlier(rows, p, flow, m, k);
      PositionsAscend(rows, p, flow, x, m - 1);
    }
  }

  /** Along a listing of an ascending flow whose ties are level, delays do not decrease. */
  lemma PositionsAscend(rows: seq<Step>, p: int, flow: seq<nat>, x: nat, y: nat)
    requires IsListing(rows, p, flow) && x <= y < |flow| && SurvivesUpDown(rows, p)
    ensures 0 <= rows[flow[x]].absolute <= rows[flow[y]].absolute
  {
    assert flow[x] in flow && flow[y] in flow;
    assert InFlow(rows, p, flow[x]) && InFlow(rows, p, flow[y]);
  }

  lemma PriorBelow(rows: seq<Step>, p: int, flow: seq<nat>, m: nat)
    requires IsListing(rows, p, flow) && m < |flow| && SurvivesUpDown(rows, p)
    ensures 0 <= Prior(rows, flow, m) <= rows[flow[m]].absolute
  {
    if m > 0 {
      PositionsAscend(rows, p, flow, m - 1, m);
    } else {
      PositionsAscend(rows, p, flow, m, m);
    }
  }

  lemma PriorAtMost(rows: seq<Step>, p: int, a: seq<nat>, b: seq<nat>, x: nat, y: nat)
    requires IsListing(rows, p, a) && IsListing(rows, p, b) && SurvivesUpDown(rows, p)
    requires x < |a| && y < |b| && a[x] == b[y]
    requires x > 0 ==> rows[a[x - 1]].position != rows[a[x]].position
    ensures Prior(rows, a, x) <= Prior(rows, b, y)
  {
    if x > 0 {
      assert a[x - 1] in a && InFlow(rows, p, a[x - 1]);
      var k := Earlier(rows, p, b, y, a[x - 1]);
      PositionsAscend(rows, p, b, k, y - 1);
    } else {
      PriorBelow(rows, p, b, y);
    }
  }

  /** The delay before a row of a surviving flow does not depend on the listing. */
  lemma SamePrior(rows: seq<Step>, p: int, a: seq<nat>, b: seq<nat>, x: nat, y: nat)
    requires IsListing(rows, p, a) && IsListing(rows, p, b) && SurvivesUpDown(rows, p)
    requires x < |a| && y < |b| && a[x] == b[y]
    ensures Prior(rows, a, x) == Prior(rows, b, y)
  {
    if j: nat :| InFlow(rows, p, j) && j != a[x] && rows[j].position == rows[a[x]].position {
      TiedPrior(rows, p, a, x, j);
      TiedPrior(rows, p, b, y, j);
    } else {
      assert x > 0 ==> a[x - 1] in a && InFlow(rows, p, a[x - 1]);
      assert y > 0 ==> b[y - 1] in b && InFlow(rows, p, b[y - 1]);
      PriorAtMost(rows, p, a, b, x, y);
      PriorAtMost(rows, p, b, a, y, x);
    }
  }

  /** A survivor's relative delay is its plain difference in every listing. */
  lemma PlainDifference(rows: seq<Step>, p: int, a: seq<nat>, b: seq<nat>, up: seq<Step>, m: nat)
    requires IsListing(rows, p, a) && IsListing(rows, p, b) && SurvivesUpDown(rows, p)
    requires Differences(rows, a, up) && m < |b|
    ensures up[b[m]].relative == rows[b[m]].absolute - Prior(rows, b, m)
  {
    var k := IndexIn(rows, p, a, b, m);
    SamePrior(rows, p, a, b, k, m);
    PriorBelow(rows, p, b, m);
    assert Differs(rows, a, up, k);
  }

  /** Summing plain differences gives the delays back. */
  lemma {:induction false} Telescope(rows: seq<Step>, flow: seq<nat>, up: seq<Step>, down: seq<Step>, m: nat)
    requires Within(rows, flow) && |up| == |rows| && Increments(up, flow, down) && m < |flow|
    requires forall k :: 0 <= k < |flow| ==> up[flow[k]].relative == rows[flow[k]].absolute - Prior(rows, flow, k)
    ensures down[flow[m]].absolute == rows[flow[m]].absolute
  {
    assert Adds(up, flow, down, m);
    if m > 0 {
      Telescope(rows, flow, up, down, m - 1);
    }
  }

  lemma SurvivorsReturn(rows: seq<Step>, p: int, a: seq<nat>, b: seq<nat>, up: seq<Step>, down: seq<Step>)
    requires IsListing(rows, p, a) && IsListing(rows, p, b) && SurvivesUpDown(rows, p)
    requires Differences(rows, a, up) && Increments(up, b, down)
    ensures SameAbsolutes(rows, down, p)
  {
    forall k | 0 <= k < |b| ensures up[b[k]].relative == rows[b[k]].absolute - Prior(rows, b, k) {
      PlainDifference(rows, p, a, b, up, k);
    }
    forall i: nat | InFlow(rows, p, i) ensures down[i].absolute == rows[i].absolute {
      assert i in b;
      var m :| 0 <= m < |b| && b[m] == i;
      Telescope(rows, b, up, down, m);
    }
  }

  /** One listing used twice: each step is at least its predecessor, or it does not come back. */
  lemma StepsAscend(rows: seq<Step>, p: int, flow: seq<nat>, up: seq<Step>, down: seq<Step>)
    requires IsListing(rows, p, flow) && Differences(rows, flow, up) && Increments(up, flow, down)
    requires SameAbsolutes(rows, down, p)
    ensures forall m :: 0 <= m < |flow| ==> Prior(rows, flow, m) <= rows[flow[m]].absolute
  {
    forall m | 0 <= m < |flow| ensures Prior(rows, flow, m) <= rows[flow[m]].absolute {
      assert flow[m] in flow && InFlow(rows, p, flow[m]);
      if m > 0 {
        assert flow[m - 1] in flow && InFlow(rows, p, flow[m - 1]);
      }
      assert Differs(rows, flow, up, m) && Adds(up, flow, down, m);
      assert Prior(down, flow, m) == Prior(rows, flow, m);
    }
  }

  lemma {:induction false} Chained(rows: seq<Step>, flow: seq<nat>, x: nat, y: nat)
    requires Within(rows, flow) && x <= y < |flow|
    requires forall m :: 0 <= m < |flow| ==> Prior(rows, flow, m) <= rows[flow[m]].absolute
    ensures 0 <= rows[flow[x]].absolute <= rows[flow[y]].absolute
    decreases x + y
  {
    if x < y {
      Chained(rows, flow, x, y - 1);
      assert Prior(rows, flow, y) == rows[flow[y - 1]].absolute;
    } else if x > 0 {
      Chained(rows, flow, x - 1, x - 1);
      assert Prior(rows, flow, x) == rows[flow[x - 1]].absolute;
    }
  }

  lemma ListingAscends(rows: seq<Step>, p: int, flow: seq<nat>)
    requires IsListing(rows, p, flow)
    requires forall m :: 0 <= m < |flow| ==> Prior(rows, flow, m) <= rows[flow[m]].absolute
    ensures Ascending(rows, p)
  {
    forall i: nat, j: nat | InFlow(rows, p, i) && InFlow(rows, p, j) && (i == j || rows[i].position < rows[j].position)
      ensures 0 <= rows[i].absolute <= rows[j].absolute
    {
      assert i in flow && j in flow;
      var x :| 0 <= x < |flow| && flow[x] == i;
      var y :| 0 <= y < |flow| && flow[y] == j;
      Chained(rows, flow, x, y);
    }
  }

  // ---- every SELECT order

  /** Whatever the two SELECTs return, upgrade and downgrade give flow p its absolute delays back. */
  ghost predicate AlwaysBackDown(rows: seq<Step>, p: int) {
    forall o, q :: IsSelect(rows, o) && IsSelect(Upgrade(rows, o), q) ==>
      SameAbsolutes(rows, Downgrade(Upgrade(rows, o), q), p)
  }

  /** Any two listings of the flow are those of two SELECT results. */
  lemma RealizeBoth(rows: seq<Step>, p: int, a: seq<nat>, b: seq<nat>) returns (o: seq<nat>, q: seq<nat>)
    requires IsListing(rows, p, a) && IsListing(rows, p, b)
    ensures IsSelect(rows, o) && IsSelect(Upgrade(rows, o), q)
    ensures Differences(rows, a, Upgrade(rows, o))
    ensures Increments(Upgrade(rows, o), b, Downgrade(Upgrade(rows, o), q))
  {
    o := Realize(rows, p, a);
    UpgradeFlow(rows, o, p);
    UpListings(rows, o, p, b);
    q := Realize(Upgrade(rows, o), p, b);
    DowngradeFlow(Upgrade(rows, o), q, p);
  }

  lemma ChosenListings(rows: seq<Step>, p: int, a: seq<nat>, b: seq<nat>) returns (up: seq<Step>, down: seq<Step>)
    requires AlwaysBackDown(rows, p) && IsListing(rows, p, a) && IsListing(rows, p, b)
    ensures Differences(rows, a, up) && Increments(up, b, down) && SameAbsolutes(rows, down, p)
  {
    var o, q := RealizeBoth(rows, p, a, b);
    up := Upgrade(rows, o);
    down := Downgrade(up, q);
  }

  lemma AlwaysAscends(rows: seq<Step>, p: int, flow: seq<nat>)
    requires AlwaysBackDown(rows, p) && IsListing(rows, p, flow)
    ensures forall m :: 0 <= m < |flow| ==> Prior(rows, flow, m) <= rows[flow[m]].absolute
  {
    var up, down := ChosenListings(rows, p, flow, flow);
    StepsAscend(rows, p, flow, up, down);
  }

  /** The first row of a listing that has the position of the x-th. */
  lemma {:induction false} FirstLevel(rows: seq<Step>, p: int, flow: seq<nat>, x: nat) returns (f: nat)
    requires IsListing(rows, p, flow) && x < |flow|
    ensures f <= x && rows[flow[f]].position == rows[flow[x]].position
    ensures f > 0 ==> rows[flow[f - 1]].position < rows[flow[f]].position
  {
    if x > 0 && rows[flow[x - 1]].position == rows[flow[x]].position {
      f := FirstLevel(rows, p, flow, x - 1);
    } else {
      f := x;
    }
  }

  lemma AlwaysOrdered(rows: seq<Step>, p: int, flow: seq<nat>, x: nat, y: nat)
    requires AlwaysBackDown(rows, p) && IsListing(rows, p, flow) && x <= y < |flow|
    ensures 0 <= rows[flow[x]].absolute <= rows[flow[y]].absolute
  {
    AlwaysAscends(rows, p, flow);
    Chained(rows, flow, x, y);
  }

  /** Rows at one position are in ascending order both ways round, so they are equal. */
  lemma EqualLevels(rows: seq<Step>, p: int, flow: seq<nat>, x: nat, y: nat)
    requires AlwaysBackDown(rows, p) && IsListing(rows, p, flow) && x < y < |flow|
    requires rows[flow[x]].position == rows[flow[y]].position
    ensures IsListing(rows, p, Exchanged(flow, x, y))
    ensures rows[flow[x]].absolute == rows[flow[y - 1]].absolute == rows[flow[y]].absolute
  {
    var swapped := Exchanged(flow, x, y);
    SwapListing(rows, p, flow, x, y);
    AlwaysOrdered(rows, p, flow, x, y - 1);
    AlwaysOrdered(rows, p, flow, y - 1, y);
    AlwaysOrdered(rows, p, swapped, x, y);
  }

  lemma AddsUp(rows: seq<Step>, p: int, flow: seq<nat>, up: seq<Step>, down: seq<Step>, x: nat)
    requires IsListing(rows, p, flow) && |up| == |rows| && Increments(up, flow, down) && SameAbsolutes(rows, down, p)
    requires x < |flow|
    ensures rows[flow[x]].absolute == Prior(rows, flow, x) + up[flow[x]].relative
  {
    assert flow[x] in flow && InFlow(rows, p, flow[x]);
    assert x > 0 ==> flow[x - 1] in flow && InFlow(rows, p, flow[x - 1]);
    assert Adds(up, flow, down, x);
  }

  /** Exchanging rows x and y of one position between the passes shows that they repeat what came before. */
  lemma ExchangeLevels(rows: seq<Step>, p: int, flow: seq<nat>, x: nat, y: nat)
    requires AlwaysBackDown(rows, p) && IsListing(rows, p, flow) && x < y < |flow|
    requires rows[flow[x]].position == rows[flow[y]].position
    ensures rows[flow[x]].absolute == rows[flow[y]].absolute == Prior(rows, flow, x)
  {
    EqualLevels(rows, p, flow, x, y);
    var up, down := ChosenListings(rows, p, flow, Exchanged(flow, x, y));
    AddsUp(rows, p, Exchanged(flow, x, y), up, down, x);
    assert Differs(rows, flow, up, y) && up[flow[y]].relative == 0;
  }

  lemma AlwaysLevel(rows: seq<Step>, p: int)
    requires AlwaysBackDown(rows, p)
    ensures TiesAreLevel(rows, p)
  {
    forall i: nat, j: nat | InFlow(rows, p, i) && InFlow(rows, p, j) && i != j && rows[i].position == rows[j].position
      ensures rows[i].absolute == rows[j].absolute && Reached(rows, p, rows[i].position, rows[i].absolute)
    {
      var flow, x, y := ListingWith(rows, p, i, j);
      ExchangeLevels(rows, p, flow, x, y);
      var f := FirstLevel(rows, p, flow, x);
      ExchangeLevels(rows, p, flow, f, y);
      if f > 0 {
        assert flow[f - 1] in flow && InFlow(rows, p, flow[f - 1]);
      }
    }
  }

  /**
   Upgrade then downgrade, exactly: a flow gets its absolute delays back for all orders the two
   SELECTs may return, if and only if its delays are non-negative, never decrease with the
   position, and steps at one position repeat the delay before them.
   */
  lemma UpThenDown(rows: seq<Step>, p: int)
    ensures AlwaysBackDown(rows, p) <==> SurvivesUpDown(rows, p)
  {
    if AlwaysBackDown(rows, p) {
      var flow := AnyListing(rows, p);
      AlwaysAscends(rows, p, flow);
      ListingAscends(rows, p, flow);
      AlwaysLevel(rows, p);
    }
    if SurvivesUpDown(rows, p) {
      forall o, q | IsSelect(rows, o) && IsSelect(Upgrade(rows, o), q)
        ensures SameAbsolutes(rows, Downgrade(Upgrade(rows, o), q), p)
      {
        var up := Upgrade(rows, o);
        UpgradeFlow(rows, o, p);
        DowngradeFlow(up, q, p);
        UpListings(rows, o, p, Flow(up, q, p));
        SurvivorsReturn(rows, p, Flow(rows, o, p), Flow(up, q, p), up, Downgrade(up, q));
      }
    }
  }

  lemma {:induction false} NeverLower(rows: seq<Step>, flow: seq<nat>, up: seq<Step>, down: seq<Step>, m: nat)
    requires Differences(rows, flow, up) && Increments(up, flow, down) && m < |flow|
    ensures rows[flow[m]].absolute <= down[flow[m]].absolute
  {
    assert Differs(rows, flow, up, m) && Adds(up, flow, down, m);
    if m > 0 {
      NeverLower(rows, flow, up, down, m - 1);
    }
  }

  /**
   With distinct positions, for each pair of orders: no absolute delay is lowered, and the flow
   gets its delays back if and only if they are non-negative and never decrease.
   */
  lemma UpThenDownDistinct(rows: seq<Step>, p: int, o: seq<nat>, q: seq<nat>)
    requires DistinctPositions(rows, p) && IsSelect(rows, o) && IsSelect(Upgrade(rows, o), q)
    ensures var back := Downgrade(Upgrade(rows, o), q);
            && (forall i: nat :: InFlow(rows, p, i) ==> rows[i].absolute <= back[i].absolute)
            && (SameAbsolutes(rows, back, p) <==> Ascending(rows, p))
  {
    var up := Upgrade(rows, o);
    var back := Downgrade(up, q);
    var flow := Flow(rows, o, p);
    UpgradeFlow(rows, o, p);
    DowngradeFlow(up, q, p);
    UpListings(rows, o, p, Flow(up, q, p));
    OneListing(rows, p, flow, Flow(up, q, p));
    forall i: nat | InFlow(rows, p, i) ensures rows[i].absolute <= back[i].absolute {
      assert i in flow;
      var m :| 0 <= m < |flow| && flow[m] == i;
      NeverLower(rows, flow, up, back, m);
    }
    if SameAbsolutes(rows, back, p) {
      StepsAscend(rows, p, flow, up, back);
      ListingAscends(rows, p, flow);
    }
    if Ascending(rows, p) {
      SurvivorsReturn(rows, p, flow, flow, up, back);
    }
  }

  // ---- when no delay can be lowered

  ghost predicate NeverLowered(rows: seq<Step>, p: int) {
    forall o, q :: IsSelect(rows, o) && IsSelect(Upgrade(rows, o), q) ==>
      forall i: nat :: InFlow(rows, p, i) ==> rows[i].absolute <= Downgrade(Upgrade(rows, o), q)[i].absolute
  }

  /** The same steps at the same positions, with any delays. */
  ghost predicate SamePlaces(a: seq<Step>, b: seq<Step>) {
    |a| == |b| && forall i :: 0 <= i < |a| ==> a[i].parent == b[i].parent && a[i].position == b[i].position
  }

  /** Delay 5 at step j, 1 at the steps tied with it, 0 elsewhere. */
  function TieTable(rows: seq<Step>, j: nat): (r: seq<Step>)
    requires j < |rows|
    ensures |r| == |rows|
  {
    seq(|rows|, k requires 0 <= k < |rows| =>
      rows[k].(absolute := if k == j then 5 else if rows[k].position == rows[j].position then 1 else 0))
  }

  lemma {:induction false} ZeroSums(up: seq<Step>, flow: seq<nat>, down: seq<Step>, z: nat)
    requires Increments(up, flow, down) && z < |flow|
    requires forall k :: 0 <= k <= z ==> up[flow[k]].relative == 0
    ensures down[flow[z]].absolute == 0
  {
    assert Adds(up, flow, down, z);
    if z > 0 {
      ZeroSums(up, flow, down, z - 1);
    }
  }

  /** Steps before the tied position keep relative delay 0, and the tied step j gets 4. */
  lemma TieDifferences(rows: seq<Step>, p: int, flow: seq<nat>, up: seq<Step>, f: nat, y: nat)
    requires f < y < |flow| && Within(rows, flow) && flow[y] < |rows|
    requires IsListing(TieTable(rows, flow[y]), p, flow) && Differences(TieTable(rows, flow[y]), flow, up)
    requires rows[flow[f]].position == rows[flow[y]].position
    requires f > 0 ==> rows[flow[f - 1]].position < rows[flow[f]].position
    ensures forall z :: 0 <= z < f ==> up[flow[z]].relative == 0
    ensures up[flow[y]].relative == 4
  {
    var table := TieTable(rows, flow[y]);
    forall z | 0 <= z < f ensures up[flow[z]].relative == 0 {
      assert Differs(table, flow, up, z);
      assert table[flow[z]].position <= table[flow[f - 1]].position;
    }
    assert Differs(table, flow, up, y);
    assert table[flow[f]].position <= table[flow[y - 1]].position <= table[flow[y]].position;
  }

  lemma TieLowers(rows: seq<Step>, p: int, i: nat, j: nat)
    requires InFlow(rows, p, i) && InFlow(rows, p, j) && i != j && rows[i].position == rows[j].position
    ensures SamePlaces(rows, TieTable(rows, j)) && !NeverLowered(TieTable(rows, j), p)
  {
    var table := TieTable(rows, j);
    var flow, x, y := ListingWith(table, p, i, j);
    var f := FirstLevel(table, p, flow, x);
    var swapped := Exchanged(flow, f, y);
    SwapListing(table, p, flow, f, y);
    var o, q := RealizeBoth(table, p, flow, swapped);
    var up := Upgrade(table, o);
    var down := Downgrade(up, q);
    TieDifferences(rows, p, flow, up, f, y);
    assert Adds(up, swapped, down, f);
    if f > 0 {
      ZeroSums(up, swapped, down, f - 1);
    }
    assert down[j].absolute == 4 && table[j].absolute == 5 && InFlow(table, p, j);
  }

  /** Distinct positions are exactly what keeps upgrade and downgrade from ever lowering a delay. */
  lemma NeverLoweredIff(rows: seq<Step>, p: int)
    ensures (forall table: seq<Step> :: SamePlaces(rows, table) ==> NeverLowered(table, p)) <==> DistinctPositions(rows, p)
  {
    if DistinctPositions(rows, p) {
      forall table: seq<Step>, o, q | SamePlaces(rows, table) && IsSelect(table, o) && IsSelect(Upgrade(table, o), q)
        ensures forall i: nat :: InFlow(table, p, i) ==> table[i].absolute <= Downgrade(Upgrade(table, o), q)[i].absolute
      {
        UpThenDownDistinct(table, p, o, q);
      }
    } else {
      var i, j :| 0 <= i < j < |rows| && rows[i].parent == p && rows[j].parent == p && rows[i].position == rows[j].position;
      TieLowers(rows, p, i, j);
    }
  }

  /** Listing two tied rows one way and then the other: delay 5 comes back as 4, and delay 1 as 5. */
  lemma TieLosesDelays()
    ensures var rows := [Step(7, 1, 1, 0), Step(7, 1, 5, 0)];
            && Ascending(rows, 7)
            && IsSelect(rows, [0, 1]) && IsSelect(Upgrade(rows, [0, 1]), [1, 0])
            && Downgrade(Upgrade(rows, [0, 1]), [1, 0])[0].absolute == 5
            && Downgrade(Upgrade(rows, [0, 1]), [1, 0])[1].absolute == 4
  {
    TieUpgraded();
    TwoRowsDown(Step(7, 1, 1, 1), Step(7, 1, 5, 4));
  }

  lemma TieUpgraded()
    ensures Upgrade([Step(7, 1, 1, 0), Step(7, 1, 5, 0)], [0, 1]) == [Step(7, 1, 1, 1), Step(7, 1, 5, 4)]
  {
    TwoRowsUp(Step(7, 1, 1, 0), Step(7, 1, 5, 0));
  }

  /** An upgrade pass over two rows of one flow, in order. */
  lemma TwoRowsUp(a: Step, b: Step)
    requires a.parent == b.parent
    ensures Relativized([a, b], [0, 1])
         == [a.(relative := Max0(a.absolute)), b.(relative := Max0(b.absolute - a.absolute))]
  {
    assert [0, 1][..1] == [0] && [0][..0] == [];
    assert LastAbsolute([a, b], [0], b.parent) == a.absolute;
    assert Relativized([a, b], [0]) == [a.(relative := Max0(a.absolute)), b];
  }

  /** A downgrade pass over two rows of one flow, in the opposite order. */
  lemma TwoRowsDown(a: Step, b: Step)
    requires a.parent == b.parent
    ensures Accumulated([a, b], [1, 0]) == [a.(absolute := b.relative + a.relative), b.(absolute := b.relative)]
  {
    assert [1, 0][..1] == [1] && [1][..0] == [];
    assert Total([a, b], [1], a.parent) == Total([a, b], [], a.parent) + b.relative;
    assert Accumulated([a, b], [1]) == [a, b.(absolute := b.relative)];
  }
}
