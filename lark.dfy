/**
 * The parse trees handed over by the GDScript parser: lark's `Tree` and
 * `Token`, reduced to what the rules read, and the order in which lark's
 * `Visitor_Recursive.visit` walks them.
 */
module Lark {
  import opened Wrappers

  /** A lexer token; lark leaves the position fields unset when it has none. */
  datatype Token = Token(text: string, line: Option<int>, column: Option<int>, endColumn: Option<int>)

  /** The position metadata gathered for a rule node. */
  datatype Meta = Meta(line: int, column: int, endColumn: int)

  /** A rule node: its rule name (`data`), its children and its position. */
  datatype Tree = Tree(data: string, children: seq<Child>, meta: Meta)

  datatype Child = TreeChild(tree: Tree) | TokenChild(token: Token)

  /** The nodes `visit(t)` hands to the handlers, in order: for each child
      that is a tree, its own walk, left to right; then `t` itself.
      Token children are not visited. */
  function PostOrder(t: Tree): (r: seq<Tree>)
    ensures |r| > 0 && r[|r| - 1] == t
    decreases t, |t.children| + 1
  {
    ChildrenPostOrder(t, |t.children|) + [t]
  }

  /** The walks of the first `n` children of `t`, concatenated. */
  function ChildrenPostOrder(t: Tree, n: nat): seq<Tree>
    requires n <= |t.children|
    decreases t, n
  {
    if n == 0 then []
    else ChildrenPostOrder(t, n - 1) + match t.children[n - 1] {
      case TreeChild(c) => PostOrder(c)
      case TokenChild(_) => []
    }
  }

  /** Document order: a node, then the nodes of its tree children, left to right. */
  function PreOrder(t: Tree): (r: seq<Tree>)
    ensures |r| > 0 && r[0] == t
    decreases t, |t.children| + 1
  {
    [t] + ChildrenPreOrder(t, |t.children|)
  }

  function ChildrenPreOrder(t: Tree, n: nat): seq<Tree>
    requires n <= |t.children|
    decreases t, n
  {
    if n == 0 then []
    else ChildrenPreOrder(t, n - 1) + match t.children[n - 1] {
      case TreeChild(c) => PreOrder(c)
      case TokenChild(_) => []
    }
  }

  /** The bottom-up walk hands every node occurrence to the handlers exactly
      as often as document order lists it (once per occurrence); only the
      order differs. */
  lemma {:induction false} PostOrderVisitsEachNodeOnce(t: Tree)
    ensures multiset(PostOrder(t)) == multiset(PreOrder(t))
    decreases t, |t.children| + 1
  {
    ChildrenSameNodes(t, |t.children|);
  }

  lemma {:induction false} ChildrenSameNodes(t: Tree, n: nat)
    requires n <= |t.children|
    ensures multiset(ChildrenPostOrder(t, n)) == multiset(ChildrenPreOrder(t, n))
    decreases t, n
  {
    if n > 0 {
      ChildrenSameNodes(t, n - 1);
      match t.children[n - 1]
      case TreeChild(c) => PostOrderVisitsEachNodeOnce(c);
      case TokenChild(_) =>
    }
  }
}
