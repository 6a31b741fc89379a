/** `construct_temporal_tree`: the four-level temporal tree of one admission.
    The networkx graph built there only ever receives a root, window nodes under
    the root, type nodes under windows and leaves under type nodes, so it is
    represented by nested values; every node records `id`, the value of
    `tree.number_of_nodes()` just before it was added, which is its position in
    insertion order. */
module TemporalTree {
  import opened Text
  import opened Seqs
  import opened Quadruples

  const RootName: string := "PID"

  datatype Leaf = Leaf(id: nat, event: string, value: string)
  datatype TypeNode = TypeNode(id: nat, eventType: string, leaves: seq<Leaf>)
  datatype WindowNode = WindowNode(id: nat, timeWindow: int, types: seq<TypeNode>)
  datatype Tree = Tree(root: string, windows: seq<WindowNode>)

  /** `f"{row['event']}-{tree.number_of_nodes()}"` */
  function LeafName(l: Leaf): string { l.event + "-" + NatToString(l.id) }

  /** `f"{event_type}-{tree.number_of_nodes()}"` */
  function TypeName(t: TypeNode): string { t.eventType + "-" + NatToString(t.id) }

  /** `str(time_window)` */
  function WindowName(w: WindowNode): string { IntToString(w.timeWindow) }

  /** One entry of `tree.nodes()`; `suffixed` marks the names that end in `-<id>`. */
  datatype NodeRec = NodeRec(id: nat, name: string, suffixed: bool)

  function LeafRecs(ls: seq<Leaf>): seq<NodeRec> {
    seq(|ls|, k requires 0 <= k < |ls| => NodeRec(ls[k].id, LeafName(ls[k]), true))
  }

  function TypeRecs(ts: seq<TypeNode>): seq<NodeRec> {
    if ts == [] then []
    else
      var t := ts[|ts| - 1];
      TypeRecs(ts[..|ts| - 1]) + [NodeRec(t.id, TypeName(t), true)] + LeafRecs(t.leaves)
  }

  function WindowRecs(ws: seq<WindowNode>): seq<NodeRec> {
    if ws == [] then []
    else
      var w := ws[|ws| - 1];
      WindowRecs(ws[..|ws| - 1]) + [NodeRec(w.id, WindowName(w), false)] + TypeRecs(w.types)
  }

  /** `tree.nodes()`, in insertion order (a pre-order walk). */
  function Nodes(t: Tree): seq<NodeRec> {
    [NodeRec(0, t.root, false)] + WindowRecs(t.windows)
  }

  // ---------------------------------------------------------------------------
  // The tree the construction is meant to build, stated level by level.

  function WindowKey(r: Windowed): int { r.timeWindow }

  function TypeKey(r: Windowed): string { r.quad.eventType }

  /** `sorted(admission_data['time_window'].unique())` */
  function TimeWindows(rows: seq<Windowed>): seq<int> {
    SortedDistinct(seq(|rows|, i requires 0 <= i < |rows| => WindowKey(rows[i])))
  }

  /** `admission_data[admission_data['time_window'] == time_window]` */
  function WindowRows(rows: seq<Windowed>, tw: int): seq<Windowed> {
    Group(rows, WindowKey, tw)
  }

  /** `window_data['temporal_event_type'].unique()` */
  function EventTypes(wrows: seq<Windowed>): seq<string> {
    Dedup(seq(|wrows|, i requires 0 <= i < |wrows| => TypeKey(wrows[i])))
  }

  /** `window_data[window_data['temporal_event_type'] == event_type]` */
  function Bucket(wrows: seq<Windowed>, ty: string): seq<Windowed> {
    Group(wrows, TypeKey, ty)
  }

  /** What the loops of `construct_temporal_tree` iterate over: the time windows,
      the event types of each window and the rows of each (window, type) bucket. */
  datatype TypePlan = TypePlan(eventType: string, bucket: seq<Windowed>)
  datatype WindowPlan = WindowPlan(timeWindow: int, types: seq<TypePlan>)

  function TypePlans(wrows: seq<Windowed>): seq<TypePlan> {
    var ets := EventTypes(wrows);
    seq(|ets|, j requires 0 <= j < |ets| => TypePlan(ets[j], Bucket(wrows, ets[j])))
  }

  function Plan(rows: seq<Windowed>): seq<WindowPlan> {
    var tws := TimeWindows(rows);
    seq(|tws|, i requires 0 <= i < |tws| => WindowPlan(tws[i], TypePlans(WindowRows(rows, tws[i]))))
  }

  /** The first `n` leaves of a bucket, the first numbered `start`. */
  function LeavesFor(bucket: seq<Windowed>, n: nat, start: nat): seq<Leaf>
    requires n <= |bucket|
  {
    seq(n, k requires 0 <= k < n => Leaf(start + k, bucket[k].quad.event, bucket[k].quad.value))
  }

  // Each of the following returns the nodes it builds together with the number
  // the next node added after them gets (`tree.number_of_nodes()` at that point).

  /** The type node of plan `p`, numbered `id`, with its leaves after it. */
  function TypeFor(p: TypePlan, id: nat): (TypeNode, nat) {
    (TypeNode(id, p.eventType, LeavesFor(p.bucket, |p.bucket|, id + 1)), id + 1 + |p.bucket|)
  }

  /** The type nodes of the first `n` plans, the first numbered `start`. */
  function TypesFor(ps: seq<TypePlan>, n: nat, start: nat): (seq<TypeNode>, nat)
    requires n <= |ps|
  {
    if n == 0 then ([], start)
    else
      var (pre, next) := TypesFor(ps, n - 1, start);
      var (t, after) := TypeFor(ps[n - 1], next);
      (pre + [t], after)
  }

  /** The window node of plan `p`, numbered `id`, with its type nodes and leaves after it. */
  function WindowFor(p: WindowPlan, id: nat): (WindowNode, nat) {
    var (ts, next) := TypesFor(p.types, |p.types|, id + 1);
    (WindowNode(id, p.timeWindow, ts), next)
  }

  /** The window nodes of the first `n` plans, the first numbered `start`. */
  function WindowsFor(ps: seq<WindowPlan>, n: nat, start: nat): (seq<WindowNode>, nat)
    requires n <= |ps|
  {
    if n == 0 then ([], start)
    else
      var (pre, next) := WindowsFor(ps, n - 1, start);
      var (w, after) := WindowFor(ps[n - 1], next);
      (pre + [w], after)
  }

  /** The tree `construct_temporal_tree` is meant to build. */
  function BuildTree(rows: seq<Windowed>): Tree {
    var p := Plan(rows);
    Tree(RootName, WindowsFor(p, |p|, 1).0)
  }

  // ---------------------------------------------------------------------------
  // The construction loops.

  lemma PlanLength(rows: seq<Windowed>)
    ensures |Plan(rows)| == |TimeWindows(rows)|
  {
  }

  lemma PlanAt(rows: seq<Windowed>, i: nat)
    requires i < |TimeWindows(rows)|
    ensures |Plan(rows)| == |TimeWindows(rows)|
    ensures var tw := TimeWindows(rows)[i]; Plan(rows)[i] == WindowPlan(tw, TypePlans(WindowRows(rows, tw)))
  {
  }

  lemma TypePlanLength(wrows: seq<Windowed>)
    ensures |TypePlans(wrows)| == |EventTypes(wrows)|
  {
  }

  lemma TypePlanAt(wrows: seq<Windowed>, j: nat)
    requires j < |EventTypes(wrows)|
    ensures |TypePlans(wrows)| == |EventTypes(wrows)|
    ensures var ty := EventTypes(wrows)[j]; TypePlans(wrows)[j] == TypePlan(ty, Bucket(wrows, ty))
  {
  }

  /** The leaves of one type node, numbered from `start`. */
  method AddLeaves(bucket: seq<Windowed>, start: nat) returns (leaves: seq<Leaf>, count: nat)
    ensures leaves == LeavesFor(bucket, |bucket|, start)
    ensures count == start + |bucket|
  {
    leaves, count := [], start;
    for k := 0 to |bucket|
      invariant leaves == LeavesFor(bucket, k, start)
      invariant count == start + k
    {
      leaves := leaves + [Leaf(count, bucket[k].quad.event, bucket[k].quad.value)];
      count := count + 1;
    }
  }

  /** One type node numbered `id` (`f"{event_type}-{id}"`), then its leaves. */
  method AddTypeNode(wrows: seq<Windowed>, ty: string, id: nat) returns (node: TypeNode, count: nat)
    ensures (node, count) == TypeFor(TypePlan(ty, Bucket(wrows, ty)), id)
  {
    var bucket := Bucket(wrows, ty);
    var leaves, c := AddLeaves(bucket, id + 1);
    node, count := TypeNode(id, ty, leaves), c;
  }

  /** One turn of the middle loop of `construct_temporal_tree`. */
  lemma TypeStep(wrows: seq<Windowed>, j: nat, start: nat, types: seq<TypeNode>, count: nat, node: TypeNode, after: nat)
    requires j < |EventTypes(wrows)| && (types, count) == TypesFor(TypePlans(wrows), j, start)
    requires var ty := EventTypes(wrows)[j]; (node, after) == TypeFor(TypePlan(ty, Bucket(wrows, ty)), count)
    ensures |TypePlans(wrows)| == |EventTypes(wrows)|
    ensures (types + [node], after) == TypesFor(TypePlans(wrows), j + 1, start)
  {
    TypePlanAt(wrows, j);
  }

  /** The type nodes of one window, numbered from `start`. */
  method AddTypeNodes(wrows: seq<Windowed>, start: nat) returns (types: seq<TypeNode>, count: nat)
    ensures var ps := TypePlans(wrows); (types, count) == TypesFor(ps, |ps|, start)
  {
    var ets := EventTypes(wrows);
    TypePlanLength(wrows);
    types, count := [], start;
    for j := 0 to |ets|
      invariant (types, count) == TypesFor(TypePlans(wrows), j, start)
    {
      var node, c := AddTypeNode(wrows, ets[j], count);
      TypeStep(wrows, j, start, types, count, node, c);
      types, count := types + [node], c;
    }
  }

  /** One window node numbered `id` (`str(time_window)` under the root), then its
      type nodes and leaves. */
  method AddWindowNode(rows: seq<Windowed>, tw: int, id: nat) returns (node: WindowNode, count: nat)
    ensures (node, count) == WindowFor(WindowPlan(tw, TypePlans(WindowRows(rows, tw))), id)
  {
    var wrows := WindowRows(rows, tw);
    var types, c := AddTypeNodes(wrows, id + 1);
    node, count := WindowNode(id, tw, types), c;
  }

  /** One turn of the outer loop of `construct_temporal_tree`. */
  lemma WindowStep(rows: seq<Windowed>, i: nat, windows: seq<WindowNode>, count: nat, node: WindowNode, after: nat)
    requires i < |TimeWindows(rows)| && (windows, count) == WindowsFor(Plan(rows), i, 1)
    requires var tw := TimeWindows(rows)[i];
      (node, after) == WindowFor(WindowPlan(tw, TypePlans(WindowRows(rows, tw))), count)
    ensures |Plan(rows)| == |TimeWindows(rows)|
    ensures (windows + [node], after) == WindowsFor(Plan(rows), i + 1, 1)
  {
    PlanAt(rows, i);
  }

  /** `construct_temporal_tree`; `count` plays `tree.number_of_nodes()`. */
  method ConstructTemporalTree(rows: seq<Windowed>) returns (t: Tree)
    ensures t == BuildTree(rows)
  {
    var count: nat := 1;
    var tws := TimeWindows(rows);
    PlanLength(rows);
    var windows: seq<WindowNode> := [];
    for i := 0 to |tws|
      invariant (windows, count) == WindowsFor(Plan(rows), i, 1)
    {
      var node, c := AddWindowNode(rows, tws[i], count);
      WindowStep(rows, i, windows, count, node, c);
      windows, count := windows + [node], c;
    }
    t := Tree(RootName, windows);
  }
}
