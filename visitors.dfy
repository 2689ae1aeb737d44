/**
 * The rule visitors (node8/services/visitors.py): a visitor walks a tree
 * bottom-up (lark's `Visitor_Recursive.visit`) and, for every node whose
 * rule name matches one of its handlers, runs that handler, which may
 * append errors.
 *
 * The script rules subclass `Visitor` and add one handler each; here the
 * subclass is a `ScriptRule` value held by the visitor and the handlers
 * are its methods. The scene visitor has the one scene rule, SC001.
 */
module Visitors {
  import opened Wrappers
  import opened Text
  import opened Seqs
  import opened CoreConfig
  import opened Lark
  import opened SceneTrees
  import opened Models
  import opened AntiPatterns
  import opened StyleViolations
  import opened Complexity

  /** The script rule a visitor enforces: `GetNodeFound` (N001) handles
      `standalone_call` nodes, `FunctionMissingDocstring` (D001) handles
      `func_header` nodes. */
  datatype ScriptRule = GetNodeFound | FunctionMissingDocstring

  /** The rule name of the nodes a rule's handler receives. */
  function HandledKind(rule: ScriptRule): string {
    match rule
    case GetNodeFound => StandaloneCallKind
    case FunctionMissingDocstring => FuncHeaderKind
  }

  /** Every node the rule handles has a first child: the handlers read
      `tree.children[0]`, which raises on an empty node. */
  predicate Applicable(rule: ScriptRule, t: Tree)
    decreases t
  {
    && (t.data == HandledKind(rule) ==> |t.children| > 0)
    && forall i :: 0 <= i < |t.children| && t.children[i].TreeChild? ==> Applicable(rule, t.children[i].tree)
  }

  /** What the rule's handler appends for one visited node; a node of any
      other rule name has no handler and adds nothing. */
  function HandleScript(rule: ScriptRule, path: string, commentTree: Tree, t: Tree): seq<ScriptError> {
    if t.data != HandledKind(rule) then []
    else match rule
      case GetNodeFound => StandaloneCallErrors(path, t)
      case FunctionMissingDocstring => FuncHeaderErrors(path, commentTree, t)
  }

  /** The errors the handlers append while visiting `nodes` in order. */
  function Handled(rule: ScriptRule, path: string, commentTree: Tree, nodes: seq<Tree>): (r: seq<ScriptError>)
    ensures |r| <= |nodes|
  {
    if nodes == [] then []
    else HandleScript(rule, path, commentTree, nodes[0]) + Handled(rule, path, commentTree, nodes[1..])
  }

  lemma {:induction false} HandledAppend(rule: ScriptRule, path: string, commentTree: Tree, a: seq<Tree>, b: seq<Tree>)
    ensures Handled(rule, path, commentTree, a + b)
         == Handled(rule, path, commentTree, a) + Handled(rule, path, commentTree, b)
    decreases |a|
  {
    if a != [] {
      assert (a + b)[0] == a[0] && (a + b)[1..] == a[1..] + b;
      HandledAppend(rule, path, commentTree, a[1..], b);
      var head := HandleScript(rule, path, commentTree, a[0]);
      var x := Handled(rule, path, commentTree, a[1..]);
      var y := Handled(rule, path, commentTree, b);
      assert head + (x + y) == (head + x) + y;
    } else {
      assert a + b == b;
    }
  }

  /** The errors `visit(t)` appends, following the recursion of `visit`:
      the children's, left to right, then the node's own. */
  function VisitErrors(rule: ScriptRule, path: string, commentTree: Tree, t: Tree): seq<ScriptError>
    decreases t, |t.children| + 1
  {
    ChildrenVisitErrors(rule, path, commentTree, t, |t.children|) + HandleScript(rule, path, commentTree, t)
  }

  /** The errors visiting the first `n` children of `t` appends. */
  function ChildrenVisitErrors(rule: ScriptRule, path: string, commentTree: Tree, t: Tree, n: nat): seq<ScriptError>
    requires n <= |t.children|
    decreases t, n
  {
    if n == 0 then []
    else ChildrenVisitErrors(rule, path, commentTree, t, n - 1) + match t.children[n - 1] {
      case TreeChild(c) => VisitErrors(rule, path, commentTree, c)
      case TokenChild(_) => []
    }
  }

  /** What the recursive visit appends is the handler applied to every node
      of the bottom-up walk, in walk order. */
  lemma {:induction false} VisitErrorsFollowWalk(rule: ScriptRule, path: string, commentTree: Tree, t: Tree)
    ensures VisitErrors(rule, path, commentTree, t) == Handled(rule, path, commentTree, PostOrder(t))
    decreases t, |t.children| + 1
  {
    ChildrenVisitErrorsFollowWalk(rule, path, commentTree, t, |t.children|);
    HandledAppend(rule, path, commentTree, ChildrenPostOrder(t, |t.children|), [t]);
    assert Handled(rule, path, commentTree, [t]) == HandleScript(rule, path, commentTree, t) + [];
  }

  lemma {:induction false} ChildrenVisitErrorsFollowWalk(rule: ScriptRule, path: string, commentTree: Tree, t: Tree, n: nat)
    requires n <= |t.children|
    ensures ChildrenVisitErrors(rule, path, commentTree, t, n) == Handled(rule, path, commentTree, ChildrenPostOrder(t, n))
    decreases t, n
  {
    if n > 0 {
      ChildrenVisitErrorsFollowWalk(rule, path, commentTree, t, n - 1);
      var before := ChildrenPostOrder(t, n - 1);
      match t.children[n - 1]
      case TreeChild(c) =>
        assert ChildrenPostOrder(t, n) == before + PostOrder(c);
        assert ChildrenVisitErrors(rule, path, commentTree, t, n)
            == ChildrenVisitErrors(rule, path, commentTree, t, n - 1) + VisitErrors(rule, path, commentTree, c);
        VisitErrorsFollowWalk(rule, path, commentTree, c);
        HandledAppend(rule, path, commentTree, before, PostOrder(c));
      case TokenChild(_) =>
        assert ChildrenPostOrder(t, n) == before + [] == before;
        assert ChildrenVisitErrors(rule, path, commentTree, t, n)
            == ChildrenVisitErrors(rule, path, commentTree, t, n - 1) + [];
    }
  }

  /** The errors `rule.check(path, tree, comment_tree)` returns. */
  function RuleErrors(rule: ScriptRule, path: string, commentTree: Tree, tree: Tree): seq<ScriptError> {
    Handled(rule, path, commentTree, PostOrder(tree))
  }

  /** `Visitor`: the script visitor, with its rule's handlers. */
  class Visitor {
    const rule: ScriptRule
    const path: string
    const commentTree: Tree
    const config: Config
    var errors: seq<ScriptError>

    constructor (rule: ScriptRule, path: string, commentTree: Tree, config: Option<Config>)
      ensures this.rule == rule && this.path == path && this.commentTree == commentTree
      ensures this.config == ResolveConfig(config) && errors == []
    {
      this.rule := rule;
      this.path := path;
      this.commentTree := commentTree;
      this.config := config.GetOr(DefaultConfig());
      this.errors := [];
    }

    /** `visit`: the tree children first, left to right, then the node itself. */
    method Visit(t: Tree)
      requires Applicable(rule, t)
      modifies this`errors
      ensures errors == old(errors) + VisitErrors(rule, path, commentTree, t)
      decreases t, 1
    {
      VisitChildren(t);
      CallHandler(t);
    }

    /** The loop of `visit` over the children, skipping tokens. */
    method VisitChildren(t: Tree)
      requires Applicable(rule, t)
      modifies this`errors
      ensures errors == old(errors) + ChildrenVisitErrors(rule, path, commentTree, t, |t.children|)
      decreases t, 0
    {
      var i := 0;
      while i < |t.children|
        invariant 0 <= i <= |t.children|
        invariant errors == old(errors) + ChildrenVisitErrors(rule, path, commentTree, t, i)
      {
        var done := ChildrenVisitErrors(rule, path, commentTree, t, i);
        match t.children[i] {
          case TreeChild(c) =>
            assert Applicable(rule, c);
            var next := VisitErrors(rule, path, commentTree, c);
            Visit(c);
            assert errors == old(errors) + done + next == old(errors) + (done + next);
          case TokenChild(_) =>
            assert done + [] == done;
        }
        i := i + 1;
      }
    }

    /** `_call_userfunc`: the handler named after the node's rule name, if the visitor has one. */
    method CallHandler(t: Tree)
      requires t.data == HandledKind(rule) ==> |t.children| > 0
      modifies this`errors
      ensures errors == old(errors) + HandleScript(rule, path, commentTree, t)
    {
      if t.data == HandledKind(rule) {
        match rule {
          case GetNodeFound => StandaloneCall(t);
          case FunctionMissingDocstring => FuncHeader(t);
        }
      }
    }

    /** `GetNodeFound.standalone_call`. */
    method StandaloneCall(t: Tree)
      requires |t.children| > 0
      modifies this`errors
      ensures errors == old(errors) + StandaloneCallErrors(path, t)
    {
      if !(t.children[0].TokenChild? && t.children[0].token.text == "get_node") {
        return;
      }
      errors := errors + [ScriptError(
        Error(GetNodeFoundCodename, GetNodeFoundMessage, Some(GetNodeFoundHelp)),
        path, t.meta.line, t.meta.column, t.meta.endColumn)];
    }

    /** `FunctionMissingDocstring.func_header`: gathers the `##` comments,
        then reports the header unless one of them is on the line above. */
    method FuncHeader(t: Tree)
      requires |t.children| > 0
      modifies this`errors
      ensures errors == old(errors) + FuncHeaderErrors(path, commentTree, t)
    {
      var name := t.children[0];
      if !name.TokenChild? {
        return;
      }
      if StartsWith(name.token.text, "_") {
        return;
      }
      var comments := commentTree.children;
      var docstrings: seq<Token> := [];
      var i := 0;
      while i < |comments|
        invariant 0 <= i <= |comments|
        invariant docstrings == Docstrings(comments[..i])
      {
        assert comments[..i + 1][..i] == comments[..i];
        var comment := comments[i];
        if comment.TokenChild? && StartsWith(comment.token.text, "##") {
          docstrings := docstrings + [comment.token];
        }
        i := i + 1;
      }
      assert comments[..i] == comments;
      var k := 0;
      while k < |docstrings|
        invariant 0 <= k <= |docstrings|
        invariant AnyOnLine(docstrings, t.meta.line - 1) == AnyOnLine(docstrings[k..], t.meta.line - 1)
      {
        assert docstrings[k..][1..] == docstrings[k + 1..];
        if docstrings[k].line == Some(t.meta.line - 1) {
          return;
        }
        k := k + 1;
      }
      var column := name.token.column.GetOr(t.meta.column);
      var endColumn := name.token.endColumn.GetOr(t.meta.endColumn);
      errors := errors + [ScriptError(
        Error(FunctionMissingDocsCodename, FunctionMissingDocsMessage, None),
        path, t.meta.line, column, endColumn)];
    }

    /** `check`: a fresh visitor walks the tree and returns what it collected. */
    static method Check(rule: ScriptRule, path: string, tree: Tree, commentTree: Tree, config: Option<Config>)
      returns (r: seq<ScriptError>)
      requires Applicable(rule, tree)
      ensures r == RuleErrors(rule, path, commentTree, tree)
    {
      var visitor := new Visitor(rule, path, commentTree, config);
      visitor.Visit(tree);
      r := visitor.errors;
      VisitErrorsFollowWalk(rule, path, commentTree, tree);
    }
  }

  // ------------------------------------------------- what each rule reports

  /** A `standalone_call` node whose callee is `get_node`. */
  predicate IsGetNodeCall(t: Tree) {
    t.data == StandaloneCallKind && CallsGetNode(t)
  }

  /** A `func_header` node that D001 reports. */
  predicate IsUndocumentedHeader(commentTree: Tree, t: Tree) {
    t.data == FuncHeaderKind && MissingDocstring(commentTree.children, t)
  }

  /** N001 reports exactly the `get_node` calls among the visited nodes, one
      error each at the call's span, in visiting order. */
  lemma {:induction false} GetNodeFoundReportsCalls(path: string, commentTree: Tree, nodes: seq<Tree>)
    ensures Handled(GetNodeFound, path, commentTree, nodes)
         == Map(Filter(nodes, IsGetNodeCall), (n: Tree) => GetNodeError(path, n))
    decreases |nodes|
  {
    if nodes != [] {
      var head, rest := nodes[0], nodes[1..];
      GetNodeFoundReportsCalls(path, commentTree, rest);
      var f := (n: Tree) => GetNodeError(path, n);
      var kept := if IsGetNodeCall(head) then [head] else [];
      assert Filter(nodes, IsGetNodeCall) == kept + Filter(rest, IsGetNodeCall);
      MapAppend(kept, Filter(rest, IsGetNodeCall), f);
      assert Handled(GetNodeFound, path, commentTree, nodes)
          == HandleScript(GetNodeFound, path, commentTree, head) + Handled(GetNodeFound, path, commentTree, rest);
      if IsGetNodeCall(head) {
        assert HandleScript(GetNodeFound, path, commentTree, head) == [GetNodeError(path, head)];
        assert Map(kept, f) == [GetNodeError(path, head)];
      } else {
        assert HandleScript(GetNodeFound, path, commentTree, head) == [];
        assert Map(kept, f) == [];
      }
    }
  }

  /** D001 reports exactly the undocumented public function headers among
      the visited nodes, in visiting order. */
  lemma {:induction false} MissingDocstringReportsHeaders(path: string, commentTree: Tree, nodes: seq<Tree>)
    ensures var headers := Filter(nodes, (n: Tree) => IsUndocumentedHeader(commentTree, n));
      Handled(FunctionMissingDocstring, path, commentTree, nodes)
        == Map(headers, (n: Tree) requires HasNameToken(n) => MissingDocstringError(path, n))
    decreases |nodes|
  {
    if nodes != [] {
      var head, rest := nodes[0], nodes[1..];
      MissingDocstringReportsHeaders(path, commentTree, rest);
      var p := (n: Tree) => IsUndocumentedHeader(commentTree, n);
      var f := (n: Tree) requires HasNameToken(n) => MissingDocstringError(path, n);
      var kept := if p(head) then [head] else [];
      assert Filter(nodes, p) == kept + Filter(rest, p);
      MapAppend(kept, Filter(rest, p), f);
      assert Handled(FunctionMissingDocstring, path, commentTree, nodes)
          == HandleScript(FunctionMissingDocstring, path, commentTree, head) + Handled(FunctionMissingDocstring, path, commentTree, rest);
      if p(head) {
        assert HandleScript(FunctionMissingDocstring, path, commentTree, head) == [MissingDocstringError(path, head)];
        assert Map(kept, f) == [MissingDocstringError(path, head)];
      } else {
        assert HandleScript(FunctionMissingDocstring, path, commentTree, head) == [];
        assert Map(kept, f) == [];
      }
    }
  }

  // ------------------------------------------------------------ scenes

  /** What `SceneTooNested.scene_node` appends for one visited node of the
      scene `root`; a node of any other rule name has no handler. */
  function HandleScene(path: string, root: SceneTree, config: Config, t: SceneTree): seq<SceneError> {
    if t.data == SceneNodeKind then SceneNodeErrors(path, root, config, t) else []
  }

  /** The errors the scene handler appends while visiting `nodes` in order. */
  function SceneHandled(path: string, root: SceneTree, config: Config, nodes: seq<SceneTree>): (r: seq<SceneError>)
    ensures |r| <= |nodes|
  {
    if nodes == [] then []
    else HandleScene(path, root, config, nodes[0]) + SceneHandled(path, root, config, nodes[1..])
  }

  lemma {:induction false} SceneHandledAppend(path: string, root: SceneTree, config: Config, a: seq<SceneTree>, b: seq<SceneTree>)
    ensures SceneHandled(path, root, config, a + b)
         == SceneHandled(path, root, config, a) + SceneHandled(path, root, config, b)
    decreases |a|
  {
    if a != [] {
      assert (a + b)[0] == a[0] && (a + b)[1..] == a[1..] + b;
      SceneHandledAppend(path, root, config, a[1..], b);
      var head := HandleScene(path, root, config, a[0]);
      var x := SceneHandled(path, root, config, a[1..]);
      var y := SceneHandled(path, root, config, b);
      assert head + (x + y) == (head + x) + y;
    } else {
      assert a + b == b;
    }
  }

  /** The errors `visit(t)` appends in a scene: the children's, left to
      right, then the node's own. */
  function SceneVisitErrors(path: string, root: SceneTree, config: Config, t: SceneTree): seq<SceneError>
    decreases t, |t.children| + 1
  {
    SceneChildrenVisitErrors(path, root, config, t, |t.children|) + HandleScene(path, root, config, t)
  }

  function SceneChildrenVisitErrors(path: string, root: SceneTree, config: Config, t: SceneTree, n: nat): seq<SceneError>
    requires n <= |t.children|
    decreases t, n
  {
    if n == 0 then []
    else SceneChildrenVisitErrors(path, root, config, t, n - 1) + SceneVisitErrors(path, root, config, t.children[n - 1])
  }

  /** What the recursive scene visit appends is the handler applied to
      every node of the bottom-up walk, in walk order. */
  lemma {:induction false} SceneVisitErrorsFollowWalk(path: string, root: SceneTree, config: Config, t: SceneTree)
    ensures SceneVisitErrors(path, root, config, t) == SceneHandled(path, root, config, ScenePostOrder(t))
    decreases t, |t.children| + 1
  {
    SceneChildrenVisitErrorsFollowWalk(path, root, config, t, |t.children|);
    SceneHandledAppend(path, root, config, SceneChildrenPostOrder(t, |t.children|), [t]);
    assert SceneHandled(path, root, config, [t]) == HandleScene(path, root, config, t) + [];
  }

  lemma {:induction false} SceneChildrenVisitErrorsFollowWalk(path: string, root: SceneTree, config: Config, t: SceneTree, n: nat)
    requires n <= |t.children|
    ensures SceneChildrenVisitErrors(path, root, config, t, n)
         == SceneHandled(path, root, config, SceneChildrenPostOrder(t, n))
    decreases t, n
  {
    if n > 0 {
      var before := SceneChildrenPostOrder(t, n - 1);
      var c := t.children[n - 1];
      assert SceneChildrenPostOrder(t, n) == before + ScenePostOrder(c);
      assert SceneChildrenVisitErrors(path, root, config, t, n)
          == SceneChildrenVisitErrors(path, root, config, t, n - 1) + SceneVisitErrors(path, root, config, c);
      SceneChildrenVisitErrorsFollowWalk(path, root, config, t, n - 1);
      SceneVisitErrorsFollowWalk(path, root, config, c);
      SceneHandledAppend(path, root, config, before, ScenePostOrder(c));
    }
  }

  /** The errors `SceneTooNested.check(path, tree, config)` returns. */
  function SceneErrors(path: string, tree: SceneTree, config: Config): seq<SceneError> {
    SceneHandled(path, tree, config, ScenePostOrder(tree))
  }

  /** `SceneVisitor` with the SC001 handler of `SceneTooNested`. */
  class SceneVisitor {
    const path: string
    const sceneTree: SceneTree
    const config: Config
    var errors: seq<SceneError>

    constructor (path: string, sceneTree: SceneTree, config: Option<Config>)
      ensures this.path == path && this.sceneTree == sceneTree
      ensures this.config == ResolveConfig(config) && errors == []
    {
      this.path := path;
      this.sceneTree := sceneTree;
      this.config := config.GetOr(DefaultConfig());
      this.errors := [];
    }

    /** `visit`: the children first, left to right, then the node itself. */
    method Visit(t: SceneTree)
      modifies this`errors
      ensures errors == old(errors) + SceneVisitErrors(path, sceneTree, config, t)
      decreases t, 1
    {
      VisitChildren(t);
      if t.data == SceneNodeKind {
        SceneNode(t);
      }
    }

    /** The loop of `visit` over the children. */
    method VisitChildren(t: SceneTree)
      modifies this`errors
      ensures errors == old(errors) + SceneChildrenVisitErrors(path, sceneTree, config, t, |t.children|)
      decreases t, 0
    {
      var i := 0;
      while i < |t.children|
        invariant 0 <= i <= |t.children|
        invariant errors == old(errors) + SceneChildrenVisitErrors(path, sceneTree, config, t, i)
      {
        var done := SceneChildrenVisitErrors(path, sceneTree, config, t, i);
        var next := SceneVisitErrors(path, sceneTree, config, t.children[i]);
        Visit(t.children[i]);
        assert errors == old(errors) + done + next == old(errors) + (done + next);
        i := i + 1;
      }
    }

    /** `SceneTooNested.scene_node`. */
    method SceneNode(t: SceneTree)
      modifies this`errors
      ensures errors == old(errors) + SceneNodeErrors(path, sceneTree, config, t)
    {
      if t.nodeMeta.depth > config.maxSceneIndent {
        errors := errors + [SceneError(
          Error(SceneTooNestedCodename,
                TooNestedMessage(t.nodeMeta.name, t.nodeMeta.depth, config.maxSceneIndent),
                Some(SceneTooNestedHelp)),
          path, t, sceneTree)];
      }
    }

    /** `check`: a fresh visitor over the scene, which is also the scene its errors name. */
    static method Check(path: string, tree: SceneTree, config: Option<Config>) returns (r: seq<SceneError>)
      ensures r == SceneErrors(path, tree, ResolveConfig(config))
    {
      var visitor := new SceneVisitor(path, tree, config);
      visitor.Visit(tree);
      r := visitor.errors;
      SceneVisitErrorsFollowWalk(path, tree, ResolveConfig(config), tree);
    }
  }

  /** A deeper node than the limit. */
  function TooDeep(config: Config): SceneTree -> bool {
    (n: SceneTree) => n.nodeMeta.depth > config.maxSceneIndent
  }

  /** When every visited node is a `scene_node`, SC001 reports exactly the
      nodes deeper than the limit, in visiting order. */
  lemma {:induction false} SceneTooNestedReportsDeepNodes(path: string, root: SceneTree, config: Config, nodes: seq<SceneTree>)
    requires forall i :: 0 <= i < |nodes| ==> nodes[i].data == SceneNodeKind
    ensures SceneHandled(path, root, config, nodes)
         == Map(Filter(nodes, TooDeep(config)), (n: SceneTree) => TooNestedError(path, root, config, n))
    decreases |nodes|
  {
    if nodes != [] {
      var head, rest := nodes[0], nodes[1..];
      SceneTooNestedReportsDeepNodes(path, root, config, rest);
      var f := (n: SceneTree) => TooNestedError(path, root, config, n);
      var kept := if TooDeep(config)(head) then [head] else [];
      assert Filter(nodes, TooDeep(config)) == kept + Filter(rest, TooDeep(config));
      MapAppend(kept, Filter(rest, TooDeep(config)), f);
      assert SceneHandled(path, root, config, nodes)
          == HandleScene(path, root, config, head) + SceneHandled(path, root, config, rest);
      if TooDeep(config)(head) {
        assert HandleScene(path, root, config, head) == [TooNestedError(path, root, config, head)];
        assert Map(kept, f) == [TooNestedError(path, root, config, head)];
      } else {
        assert HandleScene(path, root, config, head) == [];
        assert Map(kept, f) == [];
      }
    }
  }

  /** The walk of a tree whose nodes are all `scene_node`s visits only `scene_node`s. */
  lemma {:induction false} ScenePostOrderOfSceneNodes(t: SceneTree)
    requires AllSceneNodes(t)
    ensures forall n :: n in ScenePostOrder(t) ==> n.data == SceneNodeKind
    decreases t, |t.children| + 1
  {
    SceneChildrenOfSceneNodes(t, |t.children|);
  }

  lemma {:induction false} SceneChildrenOfSceneNodes(t: SceneTree, k: nat)
    requires AllSceneNodes(t) && k <= |t.children|
    ensures forall n :: n in SceneChildrenPostOrder(t, k) ==> n.data == SceneNodeKind
    decreases t, k
  {
    if k > 0 {
      SceneChildrenOfSceneNodes(t, k - 1);
      ScenePostOrderOfSceneNodes(t.children[k - 1]);
    }
  }

  /** For a scene converted from the parser's nodes, SC001 under the default
      configuration reports exactly the nodes at depth 4 or more. */
  lemma ConvertedSceneReportsDepthFourAndBelow(path: string, node: GodotNode)
    ensures var tree := FromGodot(node, 0);
      var deep := Filter(ScenePostOrder(tree), (n: SceneTree) => n.nodeMeta.depth >= 4);
      SceneErrors(path, tree, DefaultConfig())
        == Map(deep, (n: SceneTree) => TooNestedError(path, tree, DefaultConfig(), n))
  {
    var tree := FromGodot(node, 0);
    var nodes := ScenePostOrder(tree);
    FromGodotShape(node, 0);
    ScenePostOrderOfSceneNodes(tree);
    SceneTooNestedReportsDeepNodes(path, tree, DefaultConfig(), nodes);
    FilterCongruent(nodes, TooDeep(DefaultConfig()), (n: SceneTree) => n.nodeMeta.depth >= 4);
  }
}
