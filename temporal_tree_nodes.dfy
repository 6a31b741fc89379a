/** What `construct_temporal_tree` promises about the nodes of the graph it builds:
    each `-N` suffix is the node's position in insertion order, so no two nodes get
    the same name and `add_node` never merges two of them. */
module TemporalTreeNodes {
  import opened Text
  import opened Seqs
  import opened Quadruples
  import opened TemporalTree
  import opened TemporalTreeShape

  // ---------------------------------------------------------------------------
  // Node ids.

  /** The records of `recs` are numbered `start`, `start + 1`, … */
  predicate Consecutive(recs: seq<NodeRec>, start: nat) {
    forall k :: 0 <= k < |recs| ==> recs[k].id == start + k
  }

  lemma TypeRecsSnoc(ts: seq<TypeNode>, t: TypeNode)
    ensures TypeRecs(ts + [t]) == TypeRecs(ts) + [NodeRec(t.id, TypeName(t), true)] + LeafRecs(t.leaves)
  {
    assert (ts + [t])[..|ts|] == ts;
  }

  lemma WindowRecsSnoc(ws: seq<WindowNode>, w: WindowNode)
    ensures WindowRecs(ws + [w]) == WindowRecs(ws) + [NodeRec(w.id, WindowName(w), false)] + TypeRecs(w.types)
  {
    assert (ws + [w])[..|ws|] == ws;
  }

  lemma LeafRecsIds(bucket: seq<Windowed>, start: nat)
    ensures var recs := LeafRecs(LeavesFor(bucket, |bucket|, start));
      |recs| == |bucket| && Consecutive(recs, start)
  {
  }

  /** Numbering `a`, then `x` right after it, then `b` right after `x` numbers
      `a + [x] + b` consecutively. */
  lemma ConsecutiveIds(a: seq<NodeRec>, x: NodeRec, b: seq<NodeRec>, start: nat)
    requires Consecutive(a, start) && x.id == start + |a| && Consecutive(b, x.id + 1)
    ensures Consecutive(a + [x] + b, start)
  {
    var recs := a + [x] + b;
    forall k | 0 <= k < |recs|
      ensures recs[k].id == start + k
    {
      if k < |a| {
        assert recs[k] == a[k];
      } else if k > |a| {
        assert recs[k] == b[k - |a| - 1];
      }
    }
  }

  lemma {:induction false} TypesForIds(ps: seq<TypePlan>, n: nat, start: nat)
    requires n <= |ps|
    ensures var (ts, next) := TypesFor(ps, n, start); var recs := TypeRecs(ts);
      Consecutive(recs, start) && start + |recs| == next
  {
    if n > 0 {
      var (pre, m) := TypesFor(ps, n - 1, start);
      TypesForIds(ps, n - 1, start);
      var t := TypeFor(ps[n - 1], m).0;
      TypeRecsSnoc(pre, t);
      LeafRecsIds(ps[n - 1].bucket, m + 1);
      ConsecutiveIds(TypeRecs(pre), NodeRec(t.id, TypeName(t), true), LeafRecs(t.leaves), start);
    }
  }

  lemma {:induction false} WindowsForIds(ps: seq<WindowPlan>, n: nat, start: nat)
    requires n <= |ps|
    ensures var (ws, next) := WindowsFor(ps, n, start); var recs := WindowRecs(ws);
      Consecutive(recs, start) && start + |recs| == next
  {
    if n > 0 {
      var (pre, m) := WindowsFor(ps, n - 1, start);
      WindowsForIds(ps, n - 1, start);
      var w := WindowFor(ps[n - 1], m).0;
      WindowRecsSnoc(pre, w);
      TypesForIds(ps[n - 1].types, |ps[n - 1].types|, m + 1);
      ConsecutiveIds(WindowRecs(pre), NodeRec(w.id, WindowName(w), false), TypeRecs(w.types), start);
    }
  }

  /** The `N` of every node is the number of nodes added before it, and the graph
      ends with as many nodes as the construction counted. */
  lemma NodeIdsArePositions(rows: seq<Windowed>)
    ensures var ns, p := Nodes(BuildTree(rows)), Plan(rows);
      |ns| == WindowsFor(p, |p|, 1).1 && forall k :: 0 <= k < |ns| ==> ns[k].id == k
  {
    var p := Plan(rows);
    WindowsForIds(p, |p|, 1);
    ConsecutiveIds([], NodeRec(0, RootName, false), WindowRecs(WindowsFor(p, |p|, 1).0), 0);
  }

  /** `tree.number_of_nodes()` after the construction is 1 + windows + buckets + rows. */
  lemma NodesCount(rows: seq<Windowed>)
    ensures var tws := TimeWindows(rows);
      |Nodes(BuildTree(rows))| == 1 + |tws| + BucketCount(rows, |tws|) + |rows|
  {
    NodeIdsArePositions(rows);
    NodeCount(rows);
  }

  // ---------------------------------------------------------------------------
  // Names.

  /** `r.name` ends in `-` followed by the decimal digits of `r.id`. */
  predicate SuffixOk(r: NodeRec) {
    var d := NatToString(r.id);
    |d| < |r.name| && r.name[|r.name| - |d|..] == d && r.name[|r.name| - |d| - 1] == '-'
  }

  lemma SuffixedName(p: string, n: nat)
    ensures SuffixOk(NodeRec(n, p + "-" + NatToString(n), true))
  {
    var d := NatToString(n);
    var s := p + "-" + d;
    assert s[|s| - |d|..] == d;
    assert s[|s| - |d| - 1] == '-';
  }

  /** Two names that end in `-<id>` are equal only if the ids are. */
  lemma SuffixIdsEqual(a: NodeRec, b: NodeRec)
    requires SuffixOk(a) && SuffixOk(b) && a.name == b.name
    ensures a.id == b.id
  {
    NatToStringInjective(a.id, b.id);
  }

  lemma LeafRecsOk(ls: seq<Leaf>)
    ensures var recs := LeafRecs(ls);
      forall k :: 0 <= k < |recs| ==> recs[k].suffixed && SuffixOk(recs[k])
  {
    forall k | 0 <= k < |ls|
      ensures SuffixOk(LeafRecs(ls)[k])
    {
      SuffixedName(ls[k].event, ls[k].id);
    }
  }

  lemma {:induction false} TypeRecsOk(ts: seq<TypeNode>)
    ensures var recs := TypeRecs(ts);
      forall k :: 0 <= k < |recs| ==> recs[k].suffixed && SuffixOk(recs[k])
  {
    if ts != [] {
      var init, t := ts[..|ts| - 1], ts[|ts| - 1];
      assert ts == init + [t];
      TypeRecsOk(init);
      TypeRecsSnoc(init, t);
      SuffixedName(t.eventType, t.id);
      LeafRecsOk(t.leaves);
    }
  }

  /** Every record below the root is either a suffixed name or a window's name. */
  lemma {:induction false} WindowRecsOrigin(ws: seq<WindowNode>)
    ensures forall k :: 0 <= k < |WindowRecs(ws)| ==>
      (WindowRecs(ws)[k].suffixed ==> SuffixOk(WindowRecs(ws)[k])) &&
      (!WindowRecs(ws)[k].suffixed ==>
        exists i :: 0 <= i < |ws| && WindowRecs(ws)[k] == NodeRec(ws[i].id, WindowName(ws[i]), false))
  {
    if ws != [] {
      var init, w := ws[..|ws| - 1], ws[|ws| - 1];
      assert ws == init + [w];
      WindowRecsOrigin(init);
      WindowRecsSnoc(init, w);
      TypeRecsOk(w.types);
      var a, x, b := WindowRecs(init), NodeRec(w.id, WindowName(w), false), TypeRecs(w.types);
      var recs := WindowRecs(ws);
      forall k | 0 <= k < |recs|
        ensures recs[k].suffixed ==> SuffixOk(recs[k])
        ensures !recs[k].suffixed ==> exists i :: 0 <= i < |ws| && recs[k] == NodeRec(ws[i].id, WindowName(ws[i]), false)
      {
        if k < |a| {
          assert recs[k] == a[k];
          if !a[k].suffixed {
            var i :| 0 <= i < |init| && a[k] == NodeRec(init[i].id, WindowName(init[i]), false);
            assert ws[i] == init[i];
          }
        } else if k == |a| {
          assert recs[k] == x && ws[|ws| - 1] == w;
        } else {
          assert recs[k] == b[k - |a| - 1];
        }
      }
    }
  }

  predicate AllDigits(s: string) { forall i :: 0 <= i < |s| ==> IsDigit(s[i]) }

  /** The names of a record sequence are distinct when its ids are its positions,
      every suffixed name ends in `-<id>`, no other name contains `-`, and the
      other names are distinct among themselves. */
  lemma NamesDistinctByKind(ns: seq<NodeRec>)
    requires forall k :: 0 <= k < |ns| ==> ns[k].id == k
    requires forall k :: 0 <= k < |ns| && ns[k].suffixed ==> SuffixOk(ns[k])
    requires forall k :: 0 <= k < |ns| && !ns[k].suffixed ==> '-' !in ns[k].name
    requires forall k, l :: 0 <= k < l < |ns| && !ns[k].suffixed && !ns[l].suffixed ==> ns[k].name != ns[l].name
    ensures forall k, l :: 0 <= k < l < |ns| ==> ns[k].name != ns[l].name
  {
    forall k, l | 0 <= k < l < |ns| && (ns[k].suffixed || ns[l].suffixed)
      ensures ns[k].name != ns[l].name
    {
      if ns[k].suffixed && ns[l].suffixed {
        if ns[k].name == ns[l].name {
          SuffixIdsEqual(ns[k], ns[l]);
        }
      } else {
        var r := if ns[k].suffixed then ns[k] else ns[l];
        var s := r.name;
        assert s[|s| - |NatToString(r.id)| - 1] == '-';
      }
    }
  }

  /** Below the root, a name without suffix is a window's name. */
  lemma NodesOrigin(t: Tree)
    ensures var ns := Nodes(t);
      |ns| > 0 && ns[0] == NodeRec(0, t.root, false) &&
      forall k :: 1 <= k < |ns| ==>
        (ns[k].suffixed ==> SuffixOk(ns[k])) &&
        (!ns[k].suffixed ==> exists i :: 0 <= i < |t.windows| && ns[k] == NodeRec(t.windows[i].id, WindowName(t.windows[i]), false))
  {
    var ns, recs := Nodes(t), WindowRecs(t.windows);
    WindowRecsOrigin(t.windows);
    forall k | 1 <= k < |ns|
      ensures ns[k].suffixed ==> SuffixOk(ns[k])
      ensures !ns[k].suffixed ==> exists i :: 0 <= i < |t.windows| && ns[k] == NodeRec(t.windows[i].id, WindowName(t.windows[i]), false)
    {
      assert ns[k] == recs[k - 1];
    }
  }

  /** The names of a tree's nodes are distinct when its ids are the positions, its
      root is `PID` and its time windows are distinct and not negative. */
  lemma TreeNamesDistinct(t: Tree)
    requires t.root == RootName
    requires Consecutive(Nodes(t), 0)
    requires forall i :: 0 <= i < |t.windows| ==> 0 <= t.windows[i].timeWindow
    requires forall i, j :: 0 <= i < j < |t.windows| ==> t.windows[i].timeWindow != t.windows[j].timeWindow
    ensures var ns := Nodes(t);
      forall k, l :: 0 <= k < l < |ns| ==> ns[k].name != ns[l].name
  {
    var ws := t.windows;
    var ns := Nodes(t);
    NodesOrigin(t);
    forall k | 0 <= k < |ns| && !ns[k].suffixed
      ensures '-' !in ns[k].name && (k > 0 ==> AllDigits(ns[k].name))
    {
      if k > 0 {
        var i :| 0 <= i < |ws| && ns[k] == NodeRec(ws[i].id, WindowName(ws[i]), false);
        assert ns[k].name == NatToString(ws[i].timeWindow);
      }
    }
    forall k, l | 0 <= k < l < |ns| && !ns[k].suffixed && !ns[l].suffixed
      ensures ns[k].name != ns[l].name
    {
      if k == 0 {
        assert !IsDigit(ns[0].name[0]);
      } else {
        var i :| 0 <= i < |ws| && ns[k] == NodeRec(ws[i].id, WindowName(ws[i]), false);
        var j :| 0 <= j < |ws| && ns[l] == NodeRec(ws[j].id, WindowName(ws[j]), false);
        if i != j {
          NatToStringInjective(ws[i].timeWindow, ws[j].timeWindow);
          if j < i {
            assert ws[j].timeWindow != ws[i].timeWindow;
          }
        }
      }
    }
    NamesDistinctByKind(ns);
  }

  /** The windows of the constructed tree carry distinct, non-negative time windows. */
  lemma WindowTimesDistinct(rows: seq<Windowed>)
    ensures var ws := BuildTree(rows).windows;
      (forall i :: 0 <= i < |ws| ==> 0 <= ws[i].timeWindow) &&
      (forall i, j :: 0 <= i < j < |ws| ==> ws[i].timeWindow != ws[j].timeWindow)
  {
    BuildTreeShape(rows);
    TimeWindowsProps(rows);
  }

  /** No two nodes of the constructed graph share a name. */
  lemma NodeNamesDistinct(rows: seq<Windowed>)
    ensures var ns := Nodes(BuildTree(rows));
      forall k, l :: 0 <= k < l < |ns| ==> ns[k].name != ns[l].name
  {
    NodeIdsArePositions(rows);
    WindowTimesDistinct(rows);
    TreeNamesDistinct(BuildTree(rows));
  }
}
