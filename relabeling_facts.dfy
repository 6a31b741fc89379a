/** What the relabeling promises, on any tree and on the tree the construction builds. */
module RelabelingFacts {
  import opened Seqs
  import opened Quadruples
  import opened TemporalTree
  import opened TemporalTreeShape
  import opened Relabeling

  // ---------------------------------------------------------------------------
  // Labels on any tree.

  /** A type node's label is empty exactly when it has no leaves; otherwise it
      starts with `_`. */
  lemma TypeLabelEmpty(ls: seq<Leaf>)
    ensures TypeLabel(ls) == "" <==> ls == []
    ensures ls != [] ==> TypeLabel(ls)[0] == '_'
  {
    if ls != [] {
      TypeLabelStart(ls);
    }
  }

  lemma {:induction false} TypeLabelStart(ls: seq<Leaf>)
    requires ls != []
    ensures |TypeLabel(ls)| > 0 && TypeLabel(ls)[0] == '_'
  {
    var init := ls[..|ls| - 1];
    if init != [] {
      TypeLabelStart(init);
    }
  }

  /** A concatenation of `_<name>` pieces is empty exactly when there are no pieces;
      otherwise it starts with `_`. */
  lemma UnderscoredEmpty(names: seq<string>)
    ensures Underscored(names) == "" <==> names == []
    ensures names != [] ==> Underscored(names)[0] == '_'
  {
    if names != [] {
      UnderscoredStart(names);
    }
  }

  lemma {:induction false} UnderscoredStart(names: seq<string>)
    requires names != []
    ensures |Underscored(names)| > 0 && Underscored(names)[0] == '_'
  {
    var init := names[..|names| - 1];
    if init != [] {
      UnderscoredStart(init);
    }
  }

  /** The temporal event type and the node id never reach a label: a type node with
      leaves is renamed to its leaves' label, whatever its type and id. */
  lemma TypeNameIgnoresEventType(t: TypeNode, eventType: string, id: nat)
    requires t.leaves != []
    ensures NewTypeName(t) == TypeLabel(t.leaves)
    ensures NewTypeName(t.(eventType := eventType, id := id)) == NewTypeName(t)
  {
    TypeLabelEmpty(t.leaves);
  }

  /** Pruning keeps every window, in order, and removes exactly its type nodes without
      leaves (keeping the others in order). */
  lemma PrunedProps(t: Tree)
    ensures var p := Pruned(t);
      p.root == t.root && |p.windows| == |t.windows| &&
      forall i :: 0 <= i < |t.windows| ==>
        var w, pw := t.windows[i], p.windows[i];
        pw.id == w.id && pw.timeWindow == w.timeWindow && pw.types == Filter(w.types, HasLeaves) &&
        (forall j :: 0 <= j < |pw.types| ==> pw.types[j].leaves != [] && pw.types[j] in w.types) &&
        (forall j :: 0 <= j < |w.types| && w.types[j].leaves != [] ==> w.types[j] in pw.types)
  {
    forall i | 0 <= i < |t.windows|
      ensures var w := t.windows[i]; var ts := Filter(w.types, HasLeaves);
        (forall j :: 0 <= j < |ts| ==> ts[j].leaves != [] && ts[j] in w.types) &&
        (forall j :: 0 <= j < |w.types| && w.types[j].leaves != [] ==> w.types[j] in ts)
    {
      FilterMembers(t.windows[i].types, HasLeaves);
    }
  }

  /** Relabeled children merge: the root's successors are the windows' new names,
      each once, in order of first appearance. */
  lemma SuccessorsMerged(t: Tree)
    ensures var r, names := Relabel(t), WindowNames(Pruned(t));
      r.successors == Dedup(names) && Distinct(r.successors) &&
      (forall i :: 0 <= i < |names| ==> names[i] in r.successors) &&
      (forall k :: 0 <= k < |r.successors| ==> r.successors[k] in names)
  {
    DedupMembers(WindowNames(Pruned(t)));
  }

  // ---------------------------------------------------------------------------
  // Relabeling the constructed tree.

  /** Every event type of a window has a non-empty bucket. */
  lemma BucketNonEmpty(wrows: seq<Windowed>, j: nat)
    requires j < |EventTypes(wrows)|
    ensures |Bucket(wrows, EventTypes(wrows)[j])| > 0
  {
    var ets := EventTypes(wrows);
    EventTypesProps(wrows);
    var k :| 0 <= k < |wrows| && wrows[k].quad.eventType == ets[j];
    BucketProps(wrows, ets[j]);
    assert wrows[k] in Bucket(wrows, ets[j]);
  }

  /** Every type node the construction adds has at least one leaf, so pruning
      removes nothing from it. */
  lemma PruneBuiltTree(rows: seq<Windowed>)
    ensures Pruned(BuildTree(rows)) == BuildTree(rows)
  {
    var t := BuildTree(rows);
    var tws := TimeWindows(rows);
    BuildTreeShape(rows);
    forall i | 0 <= i < |t.windows|
      ensures PruneWindow(t.windows[i]) == t.windows[i]
    {
      var w := t.windows[i];
      var wrows := WindowRows(rows, tws[i]);
      var ets := EventTypes(wrows);
      EventTypesProps(wrows);
      forall j | 0 <= j < |w.types|
        ensures HasLeaves(w.types[j])
      {
        BucketNonEmpty(wrows, j);
        assert |LeafData(w.types[j].leaves)| > 0;
      }
      FilterAll(w.types, HasLeaves);
    }
  }

  /** `_<event>_<value>` of one row. */
  function RowLabel(r: Windowed): string { "_" + r.quad.event + "_" + r.quad.value }

  /** The label of one (window, type) bucket, straight from its rows. */
  function BucketLabel(b: seq<Windowed>): string {
    if b == [] then "" else BucketLabel(b[..|b| - 1]) + RowLabel(b[|b| - 1])
  }

  /** The label of window `tw`, straight from the rows: the bucket labels of its
      event types in order of first appearance, repeats dropped. */
  function WindowLabelOf(rows: seq<Windowed>, tw: int): string {
    Underscored(Dedup(BucketLabels(rows, tw)))
  }

  /** The root label, straight from the rows: the window labels in ascending window
      order, repeats dropped; `PID` when there are no rows. */
  function RootLabelOf(rows: seq<Windowed>): string {
    var tws := TimeWindows(rows);
    var l := Underscored(Dedup(seq(|tws|, i requires 0 <= i < |tws| => WindowLabelOf(rows, tws[i]))));
    if l == "" then RootName else l
  }

  lemma {:induction false} LeavesLabel(b: seq<Windowed>, n: nat, start: nat)
    requires n <= |b|
    ensures TypeLabel(LeavesFor(b, n, start)) == BucketLabel(b[..n])
  {
    if n > 0 {
      var ls := LeavesFor(b, n, start);
      assert ls[..n - 1] == LeavesFor(b, n - 1, start);
      assert b[..n][..n - 1] == b[..n - 1];
      LeavesLabel(b, n - 1, start);
    }
  }

  /** Type node `j` of window `i` of the constructed tree holds one leaf per row of
      its bucket. */
  lemma BuiltTypeAt(rows: seq<Windowed>, i: nat, j: nat)
    requires i < |TimeWindows(rows)|
    requires j < |EventTypes(WindowRows(rows, TimeWindows(rows)[i]))|
    ensures |BuildTree(rows).windows| == |TimeWindows(rows)|
    ensures var w := BuildTree(rows).windows[i]; var wrows := WindowRows(rows, TimeWindows(rows)[i]);
        var b := Bucket(wrows, EventTypes(wrows)[j]);
      |w.types| == |EventTypes(wrows)| && w.types[j].leaves == LeavesFor(b, |b|, w.types[j].id + 1)
  {
    var tws := TimeWindows(rows);
    var ps := Plan(rows);
    PlanLength(rows);
    WindowsForShape(ps, |ps|, 1);
    var w := BuildTree(rows).windows[i];
    var wrows := WindowRows(rows, tws[i]);
    PlanAt(rows, i);
    TypePlanLength(wrows);
    TypesForShape(ps[i].types, |ps[i].types|, w.id + 1);
    TypePlanAt(wrows, j);
  }

  /** The labels of a window's buckets, straight from its rows. */
  function BucketLabels(rows: seq<Windowed>, tw: int): seq<string> {
    var wrows := WindowRows(rows, tw);
    var ets := EventTypes(wrows);
    seq(|ets|, j requires 0 <= j < |ets| => BucketLabel(Bucket(wrows, ets[j])))
  }

  lemma BuiltTypeNames(rows: seq<Windowed>, i: nat)
    requires i < |TimeWindows(rows)|
    ensures |BuildTree(rows).windows| == |TimeWindows(rows)|
    ensures TypeNames(BuildTree(rows).windows[i]) == BucketLabels(rows, TimeWindows(rows)[i])
  {
    var tws := TimeWindows(rows);
    BuildTreeShape(rows);
    var w := BuildTree(rows).windows[i];
    var wrows := WindowRows(rows, tws[i]);
    var ets := EventTypes(wrows);
    var labels := BucketLabels(rows, tws[i]);
    forall j | 0 <= j < |ets|
      ensures TypeNames(w)[j] == labels[j]
    {
      BuiltTypeAt(rows, i, j);
      var b := Bucket(wrows, ets[j]);
      LeavesLabel(b, |b|, w.types[j].id + 1);
      assert b[..|b|] == b;
      BucketNonEmpty(wrows, j);
      TypeLabelEmpty(w.types[j].leaves);
    }
  }

  /** Every window the construction adds holds at least one bucket. */
  lemma BuiltWindowNonEmpty(rows: seq<Windowed>, i: nat)
    requires i < |TimeWindows(rows)|
    ensures |BucketLabels(rows, TimeWindows(rows)[i])| > 0
  {
    var tws := TimeWindows(rows);
    var wrows := WindowRows(rows, tws[i]);
    TimeWindowsProps(rows);
    var k :| 0 <= k < |rows| && rows[k].timeWindow == tws[i];
    WindowRowsProps(rows, tws[i]);
    assert rows[k] in wrows;
    EventTypesProps(wrows);
  }

  /** The label of window `i` of the constructed tree is `WindowLabelOf` its rows. */
  lemma WindowLabelOfBuilt(rows: seq<Windowed>, i: nat)
    requires i < |TimeWindows(rows)|
    ensures |BuildTree(rows).windows| == |TimeWindows(rows)|
    ensures NewWindowName(BuildTree(rows).windows[i]) == WindowLabelOf(rows, TimeWindows(rows)[i])
  {
    var labels := BucketLabels(rows, TimeWindows(rows)[i]);
    BuiltTypeNames(rows, i);
    BuiltWindowNonEmpty(rows, i);
    DedupMembers(labels);
    assert labels[0] in Dedup(labels);
    UnderscoredEmpty(Dedup(labels));
  }

  /** End to end: the root label of the relabeled constructed tree is computed from
      the rows alone, grouped by window and then by event type; the event type itself
      never appears in it, and identical buckets, or identical windows, count once. */
  lemma RelabelBuiltTree(rows: seq<Windowed>)
    ensures Relabel(BuildTree(rows)).root == RootLabelOf(rows)
  {
    var t := BuildTree(rows);
    var tws := TimeWindows(rows);
    PruneBuiltTree(rows);
    BuildTreeShape(rows);
    var labels := seq(|tws|, i requires 0 <= i < |tws| => WindowLabelOf(rows, tws[i]));
    forall i | 0 <= i < |tws|
      ensures WindowNames(t)[i] == labels[i]
    {
      WindowLabelOfBuilt(rows, i);
    }
    assert WindowNames(t) == labels;
  }

  /** A row-less admission keeps the root name `PID`; any other admission gets a
      root label starting with `_`. */
  lemma RootIsPidIffNoRows(rows: seq<Windowed>)
    ensures Relabel(BuildTree(rows)).root == RootName <==> rows == []
    ensures rows != [] ==> Relabel(BuildTree(rows)).root[0] == '_'
  {
    var tws := TimeWindows(rows);
    var l := Underscored(Dedup(seq(|tws|, i requires 0 <= i < |tws| => WindowLabelOf(rows, tws[i]))));
    RelabelBuiltTree(rows);
    var keys := seq(|rows|, k requires 0 <= k < |rows| => WindowKey(rows[k]));
    SortedDistinctProps(keys);
    var labels := seq(|tws|, i requires 0 <= i < |tws| => WindowLabelOf(rows, tws[i]));
    DedupMembers(labels);
    UnderscoredEmpty(Dedup(labels));
    if rows != [] {
      assert labels[0] in Dedup(labels);
    }
  }
}
