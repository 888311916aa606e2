/**
 Renaming the values of a column one UPDATE at a time: what a list of (old name, new name)
 pairs does to one value, and when renaming back restores it.
 */
module Renames {

  type Table<T> = seq<(T, T)>

  /** dict.get(x, x) */
  function Lookup<T(==)>(pairs: Table<T>, x: T): T {
    if pairs == [] then x else if pairs[0].0 == x then pairs[0].1 else Lookup(pairs[1..], x)
  }

  /** One value after the updates have run one after another. */
  function RunUpdates<T(==)>(pairs: Table<T>, x: T): T {
    if pairs == [] then x else RunUpdates(pairs[1..], if x == pairs[0].0 then pairs[0].1 else x)
  }

  /** Each UPDATE rewrites the whole table in place. */
  method RenameAll<T(==)>(rows: array<T>, pairs: Table<T>)
    modifies rows
    ensures forall i :: 0 <= i < rows.Length ==> rows[i] == RunUpdates(pairs, old(rows[i]))
  {
    var k := 0;
    while k < |pairs|
      invariant 0 <= k <= |pairs|
      invariant forall i :: 0 <= i < rows.Length ==> RunUpdates(pairs[k..], rows[i]) == RunUpdates(pairs, old(rows[i]))
    {
      ghost var before := rows[..];
      var i := 0;
      while i < rows.Length
        invariant 0 <= i <= rows.Length
        invariant forall j :: 0 <= j < i ==> rows[j] == if before[j] == pairs[k].0 then pairs[k].1 else before[j]
        invariant forall j :: i <= j < rows.Length ==> rows[j] == before[j]
      {
        if rows[i] == pairs[k].0 {
          rows[i] := pairs[k].1;
        }
        i := i + 1;
      }
      assert pairs[k..][1..] == pairs[k + 1..];
      k := k + 1;
    }
    assert pairs[k..] == [];
  }

  function Swap<T>(pairs: Table<T>): (r: Table<T>)
    ensures |r| == |pairs| && forall i :: 0 <= i < |pairs| ==> r[i] == (pairs[i].1, pairs[i].0)
  {
    if pairs == [] then [] else [(pairs[0].1, pairs[0].0)] + Swap(pairs[1..])
  }

  // ---- renaming one after another is renaming at once

  predicate IsOld<T(==)>(pairs: Table<T>, x: T) {
    exists i :: 0 <= i < |pairs| && pairs[i].0 == x
  }

  predicate IsNew<T(==)>(pairs: Table<T>, x: T) {
    exists i :: 0 <= i < |pairs| && pairs[i].1 == x
  }

  /** Old names are distinct, new names are distinct, and none is both. */
  ghost predicate Clean<T>(pairs: Table<T>) {
    && (forall i, j :: 0 <= i < j < |pairs| ==> pairs[i].0 != pairs[j].0 && pairs[i].1 != pairs[j].1)
    && (forall i, j :: 0 <= i < |pairs| && 0 <= j < |pairs| ==> pairs[i].0 != pairs[j].1)
  }

  lemma {:induction false} NotOldStays<T>(pairs: Table<T>, x: T)
    requires !IsOld(pairs, x)
    ensures RunUpdates(pairs, x) == x && Lookup(pairs, x) == x
  {
    if pairs != [] {
      assert pairs[0].0 != x;
      assert forall i :: 0 <= i < |pairs[1..]| ==> pairs[1..][i] == pairs[i + 1];
      NotOldStays(pairs[1..], x);
    }
  }

  lemma {:induction false} OldGoesToNew<T>(pairs: Table<T>, k: nat)
    requires Clean(pairs) && k < |pairs|
    ensures RunUpdates(pairs, pairs[k].0) == pairs[k].1 && Lookup(pairs, pairs[k].0) == pairs[k].1
  {
    if k == 0 {
      NotOldStays(pairs[1..], pairs[0].1);
    } else {
      OldGoesToNew(pairs[1..], k - 1);
    }
  }

  /** Sequential updates equal one lookup, so a second run changes nothing. */
  lemma SequentialIsLookup<T>(pairs: Table<T>, x: T)
    requires Clean(pairs)
    ensures RunUpdates(pairs, x) == Lookup(pairs, x)
    ensures RunUpdates(pairs, RunUpdates(pairs, x)) == RunUpdates(pairs, x)
  {
    if IsOld(pairs, x) {
      var k :| 0 <= k < |pairs| && pairs[k].0 == x;
      OldGoesToNew(pairs, k);
      NotOldStays(pairs, pairs[k].1);
    } else {
      NotOldStays(pairs, x);
    }
  }

  /** The order of the updates does not matter. */
  lemma OrderIrrelevant<T>(pairs: Table<T>, other: Table<T>, x: T)
    requires Clean(pairs) && Clean(other)
    requires forall p :: p in pairs <==> p in other
    ensures RunUpdates(pairs, x) == RunUpdates(other, x)
  {
    if IsOld(pairs, x) {
      var k :| 0 <= k < |pairs| && pairs[k].0 == x;
      assert pairs[k] in other;
      var j :| 0 <= j < |other| && other[j] == pairs[k];
      OldGoesToNew(pairs, k);
      OldGoesToNew(other, j);
    } else {
      assert !IsOld(other, x) by {
        forall j | 0 <= j < |other| ensures other[j].0 != x {
          assert other[j] in pairs;
        }
      }
      NotOldStays(pairs, x);
      NotOldStays(other, x);
    }
  }

  lemma SwapClean<T>(pairs: Table<T>)
    requires Clean(pairs)
    ensures Clean(Swap(pairs)) && (forall x :: IsOld(Swap(pairs), x) <==> IsNew(pairs, x))
  {
  }

  /** Downgrade undoes upgrade exactly on rows that did not already hold a new name. */
  lemma UpThenDown<T>(pairs: Table<T>, x: T)
    requires Clean(pairs)
    ensures RunUpdates(Swap(pairs), RunUpdates(pairs, x)) == x <==> !IsNew(pairs, x)
  {
    SwapClean(pairs);
    if IsOld(pairs, x) {
      var k :| 0 <= k < |pairs| && pairs[k].0 == x;
      OldGoesToNew(pairs, k);
      OldGoesToNew(Swap(pairs), k);
    } else {
      NotOldStays(pairs, x);
      if IsNew(pairs, x) {
        var k :| 0 <= k < |pairs| && pairs[k].1 == x;
        OldGoesToNew(Swap(pairs), k);
      } else {
        NotOldStays(Swap(pairs), x);
      }
    }
  }

  /** Upgrade undoes downgrade exactly on rows that did not hold a legacy name. */
  lemma DownThenUp<T>(pairs: Table<T>, x: T)
    requires Clean(pairs)
    ensures RunUpdates(pairs, RunUpdates(Swap(pairs), x)) == x <==> !IsOld(pairs, x)
  {
    SwapClean(pairs);
    if IsNew(pairs, x) {
      var k :| 0 <= k < |pairs| && pairs[k].1 == x;
      OldGoesToNew(Swap(pairs), k);
      OldGoesToNew(pairs, k);
      assert pairs[k].1 == x;
    } else {
      NotOldStays(Swap(pairs), x);
      if IsOld(pairs, x) {
        var k :| 0 <= k < |pairs| && pairs[k].0 == x;
        OldGoesToNew(pairs, k);
      } else {
        NotOldStays(pairs, x);
      }
    }
  }

  /** Renames into a catalogue that holds no old name: what the lookup does to one value. */
  lemma LookupFacts<T>(pairs: Table<T>, catalogue: seq<T>, x: T)
    requires Clean(pairs)
    requires forall i :: 0 <= i < |pairs| ==> pairs[i].1 in catalogue && pairs[i].0 !in catalogue
    ensures RunUpdates(pairs, x) == Lookup(pairs, x)
    ensures Lookup(pairs, Lookup(pairs, x)) == Lookup(pairs, x)
    ensures IsOld(pairs, x) <==> Lookup(pairs, x) != x
    ensures IsOld(pairs, x) ==> Lookup(pairs, x) in catalogue && x !in catalogue
  {
    if IsOld(pairs, x) {
      var k :| 0 <= k < |pairs| && pairs[k].0 == x;
      OldGoesToNew(pairs, k);
      NotOldStays(pairs, pairs[k].1);
    } else {
      NotOldStays(pairs, x);
    }
  }
}
