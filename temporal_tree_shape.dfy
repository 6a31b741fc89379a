/** What `construct_temporal_tree` promises about the shape of the tree it builds
    and about how many nodes it holds. */
module TemporalTreeShape {
  import opened Seqs
  import opened Quadruples
  import opened TemporalTree

  // ---------------------------------------------------------------------------
  // The levels the construction loops over.

  /** The windows are the distinct `time_window` values of the rows, ascending. */
  lemma TimeWindowsProps(rows: seq<Windowed>)
    ensures var tws := TimeWindows(rows);
      StrictlyIncreasing(tws) &&
      (forall i :: 0 <= i < |tws| ==> 0 <= tws[i]) &&
      (forall k :: 0 <= k < |rows| ==> rows[k].timeWindow in tws) &&
      (forall i :: 0 <= i < |tws| ==> exists k :: 0 <= k < |rows| && rows[k].timeWindow == tws[i])
  {
    var keys := seq(|rows|, k requires 0 <= k < |rows| => WindowKey(rows[k]));
    SortedDistinctProps(keys);
    assert forall k :: 0 <= k < |rows| ==> keys[k] == rows[k].timeWindow;
  }

  /** A window's rows are exactly the rows with that `time_window`. */
  lemma WindowRowsProps(rows: seq<Windowed>, tw: int)
    ensures var wrows := WindowRows(rows, tw);
      (forall k :: 0 <= k < |wrows| ==> wrows[k].timeWindow == tw && wrows[k] in rows) &&
      (forall k :: 0 <= k < |rows| && rows[k].timeWindow == tw ==> rows[k] in wrows)
  {
    GroupMembers(rows, WindowKey, tw);
  }

  /** A window's type nodes are for the distinct event types of its rows. */
  lemma EventTypesProps(wrows: seq<Windowed>)
    ensures var ets := EventTypes(wrows);
      Distinct(ets) &&
      (forall j :: 0 <= j < |ets| ==> exists k :: 0 <= k < |wrows| && wrows[k].quad.eventType == ets[j]) &&
      (forall k :: 0 <= k < |wrows| ==> wrows[k].quad.eventType in ets)
  {
    var keys := seq(|wrows|, k requires 0 <= k < |wrows| => TypeKey(wrows[k]));
    DedupMembers(keys);
    assert forall k :: 0 <= k < |wrows| ==> keys[k] == wrows[k].quad.eventType;
  }

  /** A bucket holds exactly the window's rows of that event type. */
  lemma BucketProps(wrows: seq<Windowed>, ty: string)
    ensures var b := Bucket(wrows, ty);
      (forall k :: 0 <= k < |b| ==> b[k].quad.eventType == ty && b[k] in wrows) &&
      (forall k :: 0 <= k < |wrows| && wrows[k].quad.eventType == ty ==> wrows[k] in b)
  {
    GroupMembers(wrows, TypeKey, ty);
  }

  // ---------------------------------------------------------------------------
  // Shape.

  /** The (event, value) pairs a list of leaves carries, in order. */
  function LeafData(ls: seq<Leaf>): seq<(string, string)> {
    seq(|ls|, k requires 0 <= k < |ls| => (ls[k].event, ls[k].value))
  }

  /** The (event, value) pairs of a list of rows, in order. */
  function RowData(rows: seq<Windowed>): seq<(string, string)> {
    seq(|rows|, k requires 0 <= k < |rows| => (rows[k].quad.event, rows[k].quad.value))
  }

  lemma {:induction false} TypesForShape(ps: seq<TypePlan>, n: nat, start: nat)
    requires n <= |ps|
    ensures var ts := TypesFor(ps, n, start).0;
      |ts| == n && forall j :: 0 <= j < n ==> ts[j] == TypeFor(ps[j], ts[j].id).0
  {
    if n > 0 {
      TypesForShape(ps, n - 1, start);
    }
  }

  lemma {:induction false} WindowsForShape(ps: seq<WindowPlan>, n: nat, start: nat)
    requires n <= |ps|
    ensures var ws := WindowsFor(ps, n, start).0;
      |ws| == n && forall i :: 0 <= i < n ==> ws[i] == WindowFor(ps[i], ws[i].id).0
  {
    if n > 0 {
      WindowsForShape(ps, n - 1, start);
    }
  }

  /** A type node carries its plan's event type and one leaf per bucket row. */
  lemma TypeForData(p: TypePlan, id: nat)
    ensures var t := TypeFor(p, id).0;
      t.eventType == p.eventType && LeafData(t.leaves) == RowData(p.bucket)
  {
  }

  /** The root is `PID`; under it sit the distinct time windows in ascending order;
      under window `tw` sit the distinct event types of its rows in order of first
      appearance; under each type node sit exactly the (event, value) pairs of that
      bucket's rows, in row order. */
  lemma BuildTreeShape(rows: seq<Windowed>)
    ensures var t, tws := BuildTree(rows), TimeWindows(rows);
      t.root == "PID" && |t.windows| == |tws| &&
      forall i :: 0 <= i < |tws| ==>
        var w, wrows := t.windows[i], WindowRows(rows, tws[i]);
        var ets := EventTypes(wrows);
        w.timeWindow == tws[i] && |w.types| == |ets| &&
        forall j :: 0 <= j < |ets| ==>
          w.types[j].eventType == ets[j] && LeafData(w.types[j].leaves) == RowData(Bucket(wrows, ets[j]))
  {
    var tws := TimeWindows(rows);
    var ps := Plan(rows);
    PlanLength(rows);
    var ws := BuildTree(rows).windows;
    WindowsForShape(ps, |ps|, 1);
    forall i | 0 <= i < |tws|
      ensures var w, wrows := ws[i], WindowRows(rows, tws[i]);
        var ets := EventTypes(wrows);
        w.timeWindow == tws[i] && |w.types| == |ets| &&
        forall j :: 0 <= j < |ets| ==>
          w.types[j].eventType == ets[j] && LeafData(w.types[j].leaves) == RowData(Bucket(wrows, ets[j]))
    {
      var wrows := WindowRows(rows, tws[i]);
      var ets := EventTypes(wrows);
      PlanAt(rows, i);
      var tps := ps[i].types;
      TypePlanLength(wrows);
      TypesForShape(tps, |tps|, ws[i].id + 1);
      var types := ws[i].types;
      forall j | 0 <= j < |ets|
        ensures types[j].eventType == ets[j] && LeafData(types[j].leaves) == RowData(Bucket(wrows, ets[j]))
      {
        TypePlanAt(wrows, j);
        TypeForData(tps[j], types[j].id);
      }
    }
  }

  // ---------------------------------------------------------------------------
  // Node count: 1 + windows + (window, type) buckets + rows.

  /** The number of (window, type) buckets over the first `n` windows. */
  function BucketCount(rows: seq<Windowed>, n: nat): nat
    requires n <= |TimeWindows(rows)|
  {
    if n == 0 then 0
    else BucketCount(rows, n - 1) + |EventTypes(WindowRows(rows, TimeWindows(rows)[n - 1]))|
  }

  /** Rows below the first `n` type plans. */
  function TypePlanRows(ps: seq<TypePlan>, n: nat): nat
    requires n <= |ps|
  {
    if n == 0 then 0 else TypePlanRows(ps, n - 1) + |ps[n - 1].bucket|
  }

  /** Type plans below the first `n` window plans. */
  function PlanTypes(ps: seq<WindowPlan>, n: nat): nat
    requires n <= |ps|
  {
    if n == 0 then 0 else PlanTypes(ps, n - 1) + |ps[n - 1].types|
  }

  /** Rows below the first `n` window plans. */
  function PlanRows(ps: seq<WindowPlan>, n: nat): nat
    requires n <= |ps|
  {
    if n == 0 then 0 else PlanRows(ps, n - 1) + TypePlanRows(ps[n - 1].types, |ps[n - 1].types|)
  }

  /** The number after the first `n` type nodes: one per plan plus one per bucket row. */
  lemma {:induction false} TypesForNext(ps: seq<TypePlan>, n: nat, start: nat)
    requires n <= |ps|
    ensures TypesFor(ps, n, start).1 == start + n + TypePlanRows(ps, n)
  {
    if n > 0 {
      TypesForNext(ps, n - 1, start);
    }
  }

  lemma {:induction false} WindowsForNext(ps: seq<WindowPlan>, n: nat, start: nat)
    requires n <= |ps|
    ensures WindowsFor(ps, n, start).1 == start + n + PlanTypes(ps, n) + PlanRows(ps, n)
  {
    if n > 0 {
      var next := WindowsFor(ps, n - 1, start).1;
      WindowsForNext(ps, n - 1, start);
      TypesForNext(ps[n - 1].types, |ps[n - 1].types|, next + 1);
    }
  }

  /** The rows of the first `n` buckets of a window are the rows of those event types. */
  lemma {:induction false} TypePlanRowsGroups(wrows: seq<Windowed>, n: nat)
    requires n <= |EventTypes(wrows)|
    ensures |TypePlans(wrows)| == |EventTypes(wrows)|
    ensures TypePlanRows(TypePlans(wrows), n) == GroupSizes(wrows, TypeKey, EventTypes(wrows)[..n])
  {
    TypePlanLength(wrows);
    var ets := EventTypes(wrows);
    if n > 0 {
      TypePlanRowsGroups(wrows, n - 1);
      TypePlanAt(wrows, n - 1);
      assert ets[..n][..n - 1] == ets[..n - 1];
    }
  }

  /** Every row of a window lands in exactly one of its buckets. */
  lemma BucketsPartitionWindow(wrows: seq<Windowed>)
    ensures var ps := TypePlans(wrows); TypePlanRows(ps, |ps|) == |wrows|
  {
    var ets := EventTypes(wrows);
    TypePlanRowsGroups(wrows, |ets|);
    EventTypesProps(wrows);
    assert ets[..|ets|] == ets;
    GroupsPartition(wrows, TypeKey, ets);
  }

  lemma {:induction false} PlanCounts(rows: seq<Windowed>, n: nat)
    requires n <= |TimeWindows(rows)|
    ensures |Plan(rows)| == |TimeWindows(rows)|
    ensures PlanTypes(Plan(rows), n) == BucketCount(rows, n)
    ensures PlanRows(Plan(rows), n) == GroupSizes(rows, WindowKey, TimeWindows(rows)[..n])
  {
    PlanLength(rows);
    var tws := TimeWindows(rows);
    if n > 0 {
      PlanCounts(rows, n - 1);
      PlanAt(rows, n - 1);
      var wrows := WindowRows(rows, tws[n - 1]);
      TypePlanLength(wrows);
      BucketsPartitionWindow(wrows);
      assert tws[..n][..n - 1] == tws[..n - 1];
    }
  }

  /** Every row becomes exactly one leaf: after the construction the tree holds one
      root, one node per distinct time window, one per (window, type) bucket and
      one per row. */
  lemma NodeCount(rows: seq<Windowed>)
    ensures var p, tws := Plan(rows), TimeWindows(rows);
      WindowsFor(p, |p|, 1).1 == 1 + |tws| + BucketCount(rows, |tws|) + |rows|
  {
    var tws := TimeWindows(rows);
    var ps := Plan(rows);
    PlanCounts(rows, |tws|);
    WindowsForNext(ps, |ps|, 1);
    TimeWindowsProps(rows);
    StrictlyIncreasingDistinct(tws);
    assert tws[..|tws|] == tws;
    forall k | 0 <= k < |rows|
      ensures WindowKey(rows[k]) in tws
    {
    }
    GroupsPartition(rows, WindowKey, tws);
  }
}
