/** `apply_weisfeiler_lehman_relabeling`: childless type nodes are pruned, then
    labels are folded bottom-up. A type node takes the concatenation of
    `_<event>_<value>` over its leaves; a window takes the concatenation of
    `_<name>` over its (relabeled) type nodes; the root takes the concatenation of
    `_<name>` over its (relabeled) windows. A node whose label comes out empty keeps
    its old name. `nx.relabel_nodes` merges a node into an existing node of the same
    name, so a parent's successors are its children's new names with repeats
    dropped, first occurrence kept. */
module Relabeling {
  import opened Seqs
  import opened TemporalTree

  // ---------------------------------------------------------------------------
  // Pruning (the `nodes_to_remove` pass).

  predicate HasLeaves(t: TypeNode) { t.leaves != [] }

  function PruneWindow(w: WindowNode): WindowNode {
    w.(types := Filter(w.types, HasLeaves))
  }

  /** The tree without its depth-2 nodes of out-degree 0. */
  function Pruned(t: Tree): Tree {
    Tree(t.root, seq(|t.windows|, i requires 0 <= i < |t.windows| => PruneWindow(t.windows[i])))
  }

  // ---------------------------------------------------------------------------
  // Labels.

  function LeafLabel(l: Leaf): string { "_" + l.event + "_" + l.value }

  /** The label of a type node: `_<event>_<value>` for each leaf, in order. */
  function TypeLabel(ls: seq<Leaf>): string {
    if ls == [] then "" else TypeLabel(ls[..|ls| - 1]) + LeafLabel(ls[|ls| - 1])
  }

  /** `_<name>` for each name, in order. */
  function Underscored(names: seq<string>): string {
    if names == [] then "" else Underscored(names[..|names| - 1]) + "_" + names[|names| - 1]
  }

  function NewTypeName(t: TypeNode): string {
    var l := TypeLabel(t.leaves);
    if l != "" then l else TypeName(t)
  }

  function TypeNames(w: WindowNode): seq<string> {
    seq(|w.types|, j requires 0 <= j < |w.types| => NewTypeName(w.types[j]))
  }

  /** The successors of a window once its type nodes are relabeled. */
  function WindowSuccessors(w: WindowNode): seq<string> {
    Dedup(TypeNames(w))
  }

  function NewWindowName(w: WindowNode): string {
    var l := Underscored(WindowSuccessors(w));
    if l != "" then l else WindowName(w)
  }

  function WindowNames(t: Tree): seq<string> {
    seq(|t.windows|, i requires 0 <= i < |t.windows| => NewWindowName(t.windows[i]))
  }

  /** The tree as far as the rest of the pipeline sees it: the root's new name and
      its successors. */
  datatype Relabeled = Relabeled(root: string, successors: seq<string>)

  /** What `apply_weisfeiler_lehman_relabeling` is meant to return. */
  function Relabel(t: Tree): Relabeled {
    var p := Pruned(t);
    var succ := Dedup(WindowNames(p));
    var l := Underscored(succ);
    Relabeled(if l != "" then l else t.root, succ)
  }

  // ---------------------------------------------------------------------------
  // The relabeling loops.

  /** The `new_label` loop over the children of one type node. */
  method LabelOfLeaves(ls: seq<Leaf>) returns (newLabel: string)
    ensures newLabel == TypeLabel(ls)
  {
    newLabel := "";
    for k := 0 to |ls|
      invariant newLabel == TypeLabel(ls[..k])
    {
      assert ls[..k + 1][..k] == ls[..k];
      newLabel := newLabel + "_" + ls[k].event + "_" + ls[k].value;
    }
    assert ls[..|ls|] == ls;
  }

  /** The `new_label` loop over the successors of a window or of the root. */
  method JoinUnderscored(names: seq<string>) returns (newLabel: string)
    ensures newLabel == Underscored(names)
  {
    newLabel := "";
    for k := 0 to |names|
      invariant newLabel == Underscored(names[..k])
    {
      assert names[..k + 1][..k] == names[..k];
      newLabel := newLabel + "_" + names[k];
    }
    assert names[..|names|] == names;
  }

  /** Successive `relabel_nodes` calls: a node renamed to an existing name merges
      into it, so the renamed children of one parent keep their first occurrences. */
  method MergeRenamed(names: seq<string>) returns (succ: seq<string>)
    ensures succ == Dedup(names)
  {
    succ := [];
    for k := 0 to |names|
      invariant succ == Dedup(names[..k])
    {
      assert names[..k + 1][..k] == names[..k];
      if names[k] !in succ {
        succ := succ + [names[k]];
      }
    }
    assert names[..|names|] == names;
  }

  /** The `nodes_to_remove` pass over the type nodes of one window. */
  method PruneTypes(ts: seq<TypeNode>) returns (kept: seq<TypeNode>)
    ensures kept == Filter(ts, HasLeaves)
  {
    kept := [];
    for j := 0 to |ts|
      invariant kept == Filter(ts[..j], HasLeaves)
    {
      assert ts[..j + 1][..j] == ts[..j];
      if ts[j].leaves != [] {
        kept := kept + [ts[j]];
      }
    }
    assert ts[..|ts|] == ts;
  }

  /** Levels 4 → 3 and 3 → 2 for one (pruned) window. */
  method RelabelWindow(w: WindowNode) returns (name: string)
    ensures name == NewWindowName(w)
  {
    var names: seq<string> := [];
    for j := 0 to |w.types|
      invariant names == TypeNames(w)[..j]
    {
      var t := w.types[j];
      var newLabel := LabelOfLeaves(t.leaves);
      var newName := if newLabel != "" then newLabel else TypeName(t);
      names := names + [newName];
    }
    assert names == TypeNames(w);
    var succ := MergeRenamed(names);
    var newLabel := JoinUnderscored(succ);
    name := if newLabel != "" then newLabel else WindowName(w);
  }

  /** `apply_weisfeiler_lehman_relabeling(tree, root)`. */
  method ApplyWeisfeilerLehmanRelabeling(t: Tree) returns (r: Relabeled)
    ensures r == Relabel(t)
  {
    var windows: seq<WindowNode> := [];
    for i := 0 to |t.windows|
      invariant windows == Pruned(t).windows[..i]
    {
      var kept := PruneTypes(t.windows[i].types);
      windows := windows + [t.windows[i].(types := kept)];
    }
    assert windows == Pruned(t).windows;
    var names: seq<string> := [];
    for i := 0 to |windows|
      invariant names == WindowNames(Pruned(t))[..i]
    {
      var name := RelabelWindow(windows[i]);
      names := names + [name];
    }
    assert names == WindowNames(Pruned(t));
    var succ := MergeRenamed(names);
    var newLabel := JoinUnderscored(succ);
    r := Relabeled(if newLabel != "" then newLabel else t.root, succ);
  }
}
