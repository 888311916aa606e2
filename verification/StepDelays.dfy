/**
 The delay migration: absolute delays become differences to the previous step of the same
 flow, clamped at zero, and back; positions become one-indexed, and back.  Each pass visits
 the rows in the order of its own SELECT ... ORDER BY parent, position, which leaves rows
 of one parent with equal positions in any order.
 */
module StepDelays {

  datatype Step = Step(parent: int, position: int, absolute: int, relative: int)

  // ---- SELECT ... ORDER BY parent, position

  predicate NotAfter(a: Step, b: Step) {
    a.parent < b.parent || (a.parent == b.parent && a.position <= b.position)
  }

  ghost predicate Distinct(order: seq<nat>) {
    forall j, k :: 0 <= j < k < |order| ==> order[j] != order[k]
  }

  predicate Within(rows: seq<Step>, order: seq<nat>) {
    forall k :: 0 <= k < |order| ==> order[k] < |rows|
  }

  /** The rows are listed by their index: every row once, by parent and then by position. */
  ghost predicate IsSelect(rows: seq<Step>, order: seq<nat>) {
    && Distinct(order) && Within(rows, order)
    && (forall i: nat :: i < |rows| ==> i in order)
    && (forall j, k :: 0 <= j < k < |order| ==> NotAfter(rows[order[j]], rows[order[k]]))
  }

  // ---- the two passes

  function Max0(x: int): nat {
    if x > 0 then x else 0
  }

  /** The absolute delay of the flow's latest listed row, 0 if there is none. */
  function LastAbsolute(rows: seq<Step>, order: seq<nat>, parent: int): int
    requires Within(rows, order)
  {
    if order == [] then 0
    else if rows[order[|order| - 1]].parent == parent then rows[order[|order| - 1]].absolute
    else LastAbsolute(rows, order[..|order| - 1], parent)
  }

  /** The sum of the relative delays of the flow's listed rows. */
  function Total(rows: seq<Step>, order: seq<nat>, parent: int): int
    requires Within(rows, order)
  {
    if order == [] then 0
    else
      var last := rows[order[|order| - 1]];
      Total(rows, order[..|order| - 1], parent) + (if last.parent == parent then last.relative else 0)
  }

  /** The table after the upgrade pass over the listed rows. */
  function Relativized(rows: seq<Step>, order: seq<nat>): (r: seq<Step>)
    requires Within(rows, order)
    ensures |r| == |rows|
  {
    if order == [] then rows
    else
      var front, i := order[..|order| - 1], order[|order| - 1];
      var prev := LastAbsolute(rows, front, rows[i].parent);
      Relativized(rows, front)[i := rows[i].(relative := Max0(rows[i].absolute - prev))]
  }

  /** The table after the downgrade pass over the listed rows. */
  function Accumulated(rows: seq<Step>, order: seq<nat>): (r: seq<Step>)
    requires Within(rows, order)
    ensures |r| == |rows|
  {
    if order == [] then rows
    else
      var front, i := order[..|order| - 1], order[|order| - 1];
      Accumulated(rows, front)[i := rows[i].(absolute := Total(rows, front, rows[i].parent) + rows[i].relative)]
  }

  lemma {:induction false} UnlistedStay(rows: seq<Step>, order: seq<nat>, i: nat)
    requires Within(rows, order) && i < |rows| && i !in order
    ensures Relativized(rows, order)[i] == rows[i] && Accumulated(rows, order)[i] == rows[i]
  {
    if order != [] {
      assert i != order[|order| - 1] && i !in order[..|order| - 1];
      UnlistedStay(rows, order[..|order| - 1], i);
    }
  }

  /** The upgrade loop: one pass, with the previous absolute delay of each flow in a dictionary. */
  method UpgradeDelays(rows: array<Step>, order: seq<nat>)
    requires IsSelect(rows[..], order)
    modifies rows
    ensures rows[..] == Relativized(old(rows[..]), order)
  {
    ghost var was := rows[..];
    var prevByParent: map<int, int> := map[];
    var k := 0;
    while k < |order|
      invariant 0 <= k <= |order|
      invariant rows[..] == Relativized(was, order[..k])
      invariant forall p :: (if p in prevByParent then prevByParent[p] else 0) == LastAbsolute(was, order[..k], p)
    {
      var i := order[k];
      assert i !in order[..k];
      UnlistedStay(was, order[..k], i);
      assert order[..k + 1][..k] == order[..k];
      var prev := if rows[i].parent in prevByParent then prevByParent[rows[i].parent] else 0;
      prevByParent := prevByParent[rows[i].parent := rows[i].absolute];
      rows[i] := rows[i].(relative := Max0(rows[i].absolute - prev));
      k := k + 1;
    }
    assert order[..k] == order;
  }

  /** The downgrade loop: running sums per flow. */
  method DowngradeDelays(rows: array<Step>, order: seq<nat>)
    requires IsSelect(rows[..], order)
    modifies rows
    ensures rows[..] == Accumulated(old(rows[..]), order)
  {
    ghost var was := rows[..];
    var cumulativeByParent: map<int, int> := map[];
    var k := 0;
    while k < |order|
      invariant 0 <= k <= |order|
      invariant rows[..] == Accumulated(was, order[..k])
      invariant forall p :: (if p in cumulativeByParent then cumulativeByParent[p] else 0) == Total(was, order[..k], p)
    {
      var i := order[k];
      assert i !in order[..k];
      UnlistedStay(was, order[..k], i);
      assert order[..k + 1][..k] == order[..k];
      var parent := rows[i].parent;
      var cum := (if parent in cumulativeByParent then cumulativeByParent[parent] else 0) + rows[i].relative;
      rows[i] := rows[i].(absolute := cum);
      cumulativeByParent := cumulativeByParent[parent := cum];
      k := k + 1;
    }
    assert order[..k] == order;
  }

  // ---- positions

  /** The flow has a step with position x. */
  predicate HasPosition(rows: seq<Step>, parent: int, x: int) {
    exists i :: 0 <= i < |rows| && rows[i].parent == parent && rows[i].position == x
  }

  function ShiftedUp(rows: seq<Step>, r: Step): Step {
    if HasPosition(rows, r.parent, 0) then r.(position := r.position + 1) else r
  }

  function ShiftedDown(r: Step): Step {
    if r.position > 0 then r.(position := r.position - 1) else r
  }

  /** UPDATE ... SET position = position + 1 for the flows that have a step at position 0. */
  method ShiftUp(rows: array<Step>)
    modifies rows
    ensures forall i :: 0 <= i < rows.Length ==> rows[i] == ShiftedUp(old(rows[..]), old(rows[i]))
  {
    ghost var was := rows[..];
    var zeroIndexed: set<int> := {};
    var i := 0;
    while i < rows.Length
      invariant 0 <= i <= rows.Length && rows[..] == was
      invariant forall p :: p in zeroIndexed <==> HasPosition(was[..i], p, 0)
    {
      assert was[..i + 1] == was[..i] + [was[i]];
      HasPositionAppend(was[..i], was[i], 0);
      if rows[i].position == 0 {
        zeroIndexed := zeroIndexed + {rows[i].parent};
      }
      i := i + 1;
    }
    assert was[..i] == was;
    i := 0;
    while i < rows.Length
      invariant 0 <= i <= rows.Length
      invariant forall k :: 0 <= k < i ==> rows[k] == ShiftedUp(was, was[k])
      invariant forall k :: i <= k < rows.Length ==> rows[k] == was[k]
    {
      if rows[i].parent in zeroIndexed {
        rows[i] := rows[i].(position := rows[i].position + 1);
      }
      i := i + 1;
    }
  }

  lemma HasPositionAppend(rows: seq<Step>, r: Step, x: int)
    ensures forall p :: HasPosition(rows + [r], p, x) <==> HasPosition(rows, p, x) || (r.parent == p && r.position == x)
  {
    forall p | HasPosition(rows, p, x) || (r.parent == p && r.position == x)
      ensures HasPosition(rows + [r], p, x)
    {
      if HasPosition(rows, p, x) {
        var i :| 0 <= i < |rows| && rows[i].parent == p && rows[i].position == x;
        assert (rows + [r])[i] == rows[i];
      } else {
        assert (rows + [r])[|rows|] == r;
      }
    }
  }

  method ShiftDown(rows: array<Step>)
    modifies rows
    ensures forall i :: 0 <= i < rows.Length ==> rows[i] == ShiftedDown(old(rows[i]))
  {
    var i := 0;
    while i < rows.Length
      invariant 0 <= i <= rows.Length
      invariant forall k :: 0 <= k < i ==> rows[k] == ShiftedDown(old(rows[k]))
      invariant forall k :: i <= k < rows.Length ==> rows[k] == old(rows[k])
    {
      if rows[i].position > 0 {
        rows[i] := rows[i].(position := rows[i].position - 1);
      }
      i := i + 1;
    }
  }

  function AllUp(rows: seq<Step>): (r: seq<Step>)
    ensures |r| == |rows| && forall i :: 0 <= i < |rows| ==> r[i] == ShiftedUp(rows, rows[i])
  {
    seq(|rows|, i requires 0 <= i < |rows| => ShiftedUp(rows, rows[i]))
  }

  function AllDown(rows: seq<Step>): (r: seq<Step>)
    ensures |r| == |rows| && forall i :: 0 <= i < |rows| ==> r[i] == ShiftedDown(rows[i])
  {
    seq(|rows|, i requires 0 <= i < |rows| => ShiftedDown(rows[i]))
  }

  /** Positions after upgrade and downgrade: restored only in flows the upgrade shifted, or below position 1. */
  lemma PositionsUpThenDown(rows: seq<Step>, i: nat)
    requires i < |rows|
    ensures AllDown(AllUp(rows))[i] == rows[i] <==>
            if HasPosition(rows, rows[i].parent, 0) then rows[i].position >= 0 else rows[i].position <= 0
  {
  }

  /** Positions after downgrade and upgrade: restored where the flow starts at 0 or 1, for rows above 0. */
  lemma PositionsDownThenUp(rows: seq<Step>, i: nat)
    requires i < |rows|
    ensures AllUp(AllDown(rows))[i] == rows[i] <==>
            if HasPosition(rows, rows[i].parent, 0) || HasPosition(rows, rows[i].parent, 1) then rows[i].position > 0
            else rows[i].position <= 0
  {
  }

  // ---- the migration

  function Upgrade(rows: seq<Step>, order: seq<nat>): (r: seq<Step>)
    requires Within(rows, order)
    ensures |r| == |rows|
  {
    AllUp(Relativized(rows, order))
  }

  function Downgrade(rows: seq<Step>, order: seq<nat>): (r: seq<Step>)
    requires Within(rows, order)
    ensures |r| == |rows|
  {
    AllDown(Accumulated(rows, order))
  }
}
