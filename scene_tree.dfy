/**
 * The scene tree built from a parsed Godot scene (node8/services/scene_tree.py):
 * conversion from the scene parser's nodes, structural equality, and the
 * locator that extracts the ancestor chain of a node.
 */
module SceneTrees {
  import opened Wrappers

  const SceneNodeKind: string := "scene_node"

  datatype SceneMeta = SceneMeta(name: string, nodeType: string, depth: int)

  /** A scene node; `data` is the rule name the visitor dispatches on. */
  datatype SceneTree = SceneTree(data: string, children: seq<SceneTree>, nodeMeta: SceneMeta)

  /** A node as the Godot scene parser delivers it: a name, an optional type, children. */
  datatype GodotNode = GodotNode(name: string, nodeType: Option<string>, children: seq<GodotNode>)

  /** `SceneTree.__eq__`, written out: same rule name, same metadata, and
      pairwise equal children. */
  predicate SameTree(a: SceneTree, b: SceneTree)
    decreases a
  {
    && a.data == b.data
    && a.nodeMeta == b.nodeMeta
    && |a.children| == |b.children|
    && forall i :: 0 <= i < |a.children| ==> SameTree(a.children[i], b.children[i])
  }

  /** The explicit equality is exactly structural equality of values. */
  lemma {:induction false} SameTreeIsEquality(a: SceneTree, b: SceneTree)
    ensures SameTree(a, b) <==> a == b
    decreases a
  {
    forall i | 0 <= i < |a.children| && i < |b.children| {
      SameTreeIsEquality(a.children[i], b.children[i]);
    }
    if SameTree(a, b) {
      assert a.children == b.children;
    }
  }

  /** `SceneTree.from_godot_parser_node(node, depth)`. */
  function FromGodot(node: GodotNode, depth: int): (t: SceneTree)
    decreases node
  {
    SceneTree(
      SceneNodeKind,
      seq(|node.children|, i requires 0 <= i < |node.children| => FromGodot(node.children[i], depth + 1)),
      SceneMeta(node.name, node.nodeType.GetOr(""), depth))
  }

  /** `from_godot_parser_node`, which appends the converted children one by one. */
  method FromGodotParserNode(node: GodotNode, depth: int) returns (t: SceneTree)
    ensures t == FromGodot(node, depth)
    decreases node
  {
    var childrenTrees: seq<SceneTree> := [];
    var i := 0;
    while i < |node.children|
      invariant 0 <= i <= |node.children|
      invariant |childrenTrees| == i
      invariant forall j :: 0 <= j < i ==> childrenTrees[j] == FromGodot(node.children[j], depth + 1)
    {
      var child := FromGodotParserNode(node.children[i], depth + 1);
      childrenTrees := childrenTrees + [child];
      i := i + 1;
    }
    var nodeType := if node.nodeType.Some? then node.nodeType.value else "";
    var meta := SceneMeta(node.name, nodeType, depth);
    t := SceneTree(SceneNodeKind, childrenTrees, meta);
  }

  /** Depths grow by exactly one per parent-to-child edge, starting at `depth`. */
  predicate DepthsFrom(t: SceneTree, depth: int)
    decreases t
  {
    t.nodeMeta.depth == depth
    && forall i :: 0 <= i < |t.children| ==> DepthsFrom(t.children[i], depth + 1)
  }

  /** Every node of the tree has rule name `scene_node`. */
  predicate AllSceneNodes(t: SceneTree)
    decreases t
  {
    t.data == SceneNodeKind && forall i :: 0 <= i < |t.children| ==> AllSceneNodes(t.children[i])
  }

  /** The converted tree carries the passed depth at its root and one more per level. */
  lemma {:induction false} FromGodotDepths(node: GodotNode, depth: int)
    ensures DepthsFrom(FromGodot(node, depth), depth)
    decreases node
  {
    forall i | 0 <= i < |node.children| {
      FromGodotDepths(node.children[i], depth + 1);
    }
  }

  /** Every converted node is a `scene_node`, and a missing type becomes `""`. */
  lemma {:induction false} FromGodotShape(node: GodotNode, depth: int)
    ensures AllSceneNodes(FromGodot(node, depth))
    ensures FromGodot(node, depth).nodeMeta.nodeType == if node.nodeType.None? then "" else node.nodeType.value
    ensures |FromGodot(node, depth).children| == |node.children|
    decreases node
  {
    forall i | 0 <= i < |node.children| {
      FromGodotShape(node.children[i], depth + 1);
    }
  }

  /** `s` occurs somewhere in `t` (as `t` itself or inside a child). */
  predicate Contains(t: SceneTree, s: SceneTree)
    decreases t
  {
    t == s || exists i :: 0 <= i < |t.children| && Contains(t.children[i], s)
  }

  /** `get_subtree_path(tree, subtree)`. */
  function SubtreePath(tree: SceneTree, subtree: SceneTree): Option<SceneTree>
    decreases tree, 1
  {
    if SameTree(tree, subtree) then Some(SceneTree(tree.data, [], tree.nodeMeta))
    else ChildPath(tree, subtree, 0)
  }

  /** The loop over `tree.children` from index `i` on: the first child whose
      search succeeds gives the path. */
  function ChildPath(tree: SceneTree, subtree: SceneTree, i: nat): Option<SceneTree>
    requires i <= |tree.children|
    decreases tree, 0, |tree.children| - i
  {
    if i == |tree.children| then None
    else match SubtreePath(tree.children[i], subtree) {
      case Some(childPath) => Some(SceneTree(tree.data, [childPath], tree.nodeMeta))
      case None => ChildPath(tree, subtree, i + 1)
    }
  }

  /** A path: every node has at most one child. */
  predicate IsChain(p: SceneTree)
    decreases p
  {
    |p.children| <= 1 && forall i :: 0 <= i < |p.children| ==> IsChain(p.children[i])
  }

  /** The last node of a chain. */
  function ChainLeaf(p: SceneTree): SceneTree
    decreases p
  {
    if p.children == [] then p else ChainLeaf(p.children[0])
  }

  /** The number of nodes of a chain. */
  function ChainLength(p: SceneTree): nat
    decreases p
  {
    if p.children == [] then 1 else 1 + ChainLength(p.children[0])
  }

  /** The locator fails exactly when no node of `tree` equals `subtree`. */
  lemma {:induction false} SubtreePathNoneIff(tree: SceneTree, subtree: SceneTree)
    ensures SubtreePath(tree, subtree).None? <==> !Contains(tree, subtree)
    decreases tree, 1
  {
    SameTreeIsEquality(tree, subtree);
    if tree != subtree {
      ChildPathNoneIff(tree, subtree, 0);
    }
  }

  lemma {:induction false} ChildPathNoneIff(tree: SceneTree, subtree: SceneTree, i: nat)
    requires i <= |tree.children|
    ensures ChildPath(tree, subtree, i).None?
        <==> forall k :: i <= k < |tree.children| ==> !Contains(tree.children[k], subtree)
    decreases tree, 0, |tree.children| - i
  {
    if i < |tree.children| {
      SubtreePathNoneIff(tree.children[i], subtree);
      ChildPathNoneIff(tree, subtree, i + 1);
    }
  }

  /** A found path is a chain that starts with `tree`'s rule name and
      metadata and ends in a childless copy of `subtree`'s root. */
  lemma {:induction false} SubtreePathShape(tree: SceneTree, subtree: SceneTree)
    requires SubtreePath(tree, subtree).Some?
    ensures var p := SubtreePath(tree, subtree).value;
      && IsChain(p)
      && p.data == tree.data && p.nodeMeta == tree.nodeMeta
      && ChainLeaf(p) == SceneTree(subtree.data, [], subtree.nodeMeta)
    decreases tree, 1
  {
    if SameTree(tree, subtree) {
      SameTreeIsEquality(tree, subtree);
    } else {
      ChildPathShape(tree, subtree, 0);
    }
  }

  lemma {:induction false} ChildPathShape(tree: SceneTree, subtree: SceneTree, i: nat)
    requires i <= |tree.children|
    requires ChildPath(tree, subtree, i).Some?
    ensures var p := ChildPath(tree, subtree, i).value;
      && IsChain(p)
      && p.data == tree.data && p.nodeMeta == tree.nodeMeta
      && ChainLeaf(p) == SceneTree(subtree.data, [], subtree.nodeMeta)
    decreases tree, 0, |tree.children| - i
  {
    match SubtreePath(tree.children[i], subtree)
    case Some(c) =>
      SubtreePathShape(tree.children[i], subtree);
    case None =>
      ChildPathShape(tree, subtree, i + 1);
  }

  /** When `tree` itself equals `subtree`, the path is `tree`'s root alone. */
  lemma SubtreePathAtRoot(tree: SceneTree)
    ensures SubtreePath(tree, tree) == Some(SceneTree(tree.data, [], tree.nodeMeta))
  {
    SameTreeIsEquality(tree, tree);
  }

  /** First match wins: the leftmost child containing `subtree` decides
      the path, even when a later child contains an equal node too. */
  lemma {:induction false} SubtreePathFirstMatch(tree: SceneTree, subtree: SceneTree, j: nat)
    requires tree != subtree
    requires j < |tree.children| && Contains(tree.children[j], subtree)
    requires forall k :: 0 <= k < j ==> !Contains(tree.children[k], subtree)
    ensures SubtreePath(tree.children[j], subtree).Some?
    ensures SubtreePath(tree, subtree)
        == Some(SceneTree(tree.data, [SubtreePath(tree.children[j], subtree).value], tree.nodeMeta))
  {
    SameTreeIsEquality(tree, subtree);
    SubtreePathNoneIff(tree.children[j], subtree);
    var i := 0;
    while i < j
      invariant 0 <= i <= j
      invariant ChildPath(tree, subtree, 0) == ChildPath(tree, subtree, i)
    {
      SubtreePathNoneIff(tree.children[i], subtree);
      i := i + 1;
    }
  }

  /** In a tree whose depths start at `depth`, the path to a node it contains
      has one node per level from the root down to that node's depth. */
  lemma {:induction false} SubtreePathLength(tree: SceneTree, subtree: SceneTree, depth: int)
    requires DepthsFrom(tree, depth) && Contains(tree, subtree)
    ensures SubtreePath(tree, subtree).Some?
    ensures ChainLength(SubtreePath(tree, subtree).value) == subtree.nodeMeta.depth - depth + 1
    decreases tree, 1
  {
    SameTreeIsEquality(tree, subtree);
    if tree != subtree {
      ChildPathLength(tree, subtree, depth, 0);
    }
  }

  lemma {:induction false} ChildPathLength(tree: SceneTree, subtree: SceneTree, depth: int, i: nat)
    requires DepthsFrom(tree, depth) && i <= |tree.children|
    requires exists k :: i <= k < |tree.children| && Contains(tree.children[k], subtree)
    ensures ChildPath(tree, subtree, i).Some?
    ensures ChainLength(ChildPath(tree, subtree, i).value) == subtree.nodeMeta.depth - depth + 1
    decreases tree, 0, |tree.children| - i
  {
    SubtreePathNoneIff(tree.children[i], subtree);
    if Contains(tree.children[i], subtree) {
      SubtreePathLength(tree.children[i], subtree, depth + 1);
    } else {
      ChildPathLength(tree, subtree, depth, i + 1);
    }
  }

  /** For a tree converted from depth 0 and a node drawn from it, the path has
      `depth + 1` nodes; equal nodes share their depth, so duplicates do not matter. */
  lemma ConvertedSubtreePathLength(node: GodotNode, target: SceneTree)
    requires Contains(FromGodot(node, 0), target)
    ensures SubtreePath(FromGodot(node, 0), target).Some?
    ensures ChainLength(SubtreePath(FromGodot(node, 0), target).value) == target.nodeMeta.depth + 1
  {
    FromGodotDepths(node, 0);
    SubtreePathLength(FromGodot(node, 0), target, 0);
  }

  /** The nodes `visit(t)` hands to the scene handlers: the walks of the
      children, left to right, then `t` itself. */
  function ScenePostOrder(t: SceneTree): (r: seq<SceneTree>)
    ensures |r| > 0 && r[|r| - 1] == t
    decreases t, |t.children| + 1
  {
    SceneChildrenPostOrder(t, |t.children|) + [t]
  }

  function SceneChildrenPostOrder(t: SceneTree, n: nat): seq<SceneTree>
    requires n <= |t.children|
    decreases t, n
  {
    if n == 0 then [] else SceneChildrenPostOrder(t, n - 1) + ScenePostOrder(t.children[n - 1])
  }
}
