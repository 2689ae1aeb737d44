/** The SC001 rule (node8/services/rules/complexity.py): scenes nested too deeply. */
module Complexity {
  import opened Wrappers
  import opened Text
  import opened CoreConfig
  import opened SceneTrees
  import opened Models

  const SceneTooNestedCodename: string := "SC001"
  const SceneTooNestedMessage: string := "is too nested"
  const SceneTooNestedHelp: string := "Move nested nodes into a separate scene"

  /** "`name` is too nested (depth > limit)". */
  function TooNestedMessage(name: string, depth: int, limit: int): string {
    Interpolate([Literal("`"), Literal(name), Literal("` " + SceneTooNestedMessage + " ("),
                 Number(depth), Literal(" > "), Number(limit), Literal(")")])
  }

  /** The SC001 error for a node: the node itself and the root it belongs to. */
  function TooNestedError(path: string, root: SceneTree, config: Config, t: SceneTree): SceneError {
    SceneError(
      Error(SceneTooNestedCodename, TooNestedMessage(t.nodeMeta.name, t.nodeMeta.depth, config.maxSceneIndent),
            Some(SceneTooNestedHelp)),
      path, t, root)
  }

  /** What `SceneTooNested.scene_node` appends for one scene node of the scene rooted at `root`. */
  function SceneNodeErrors(path: string, root: SceneTree, config: Config, t: SceneTree): seq<SceneError>
  {
    if t.nodeMeta.depth > config.maxSceneIndent then [TooNestedError(path, root, config, t)] else []
  }

  /** A node exactly at the limit is never flagged; one level deeper always is. */
  lemma NestingBoundary(path: string, root: SceneTree, config: Config, t: SceneTree)
    ensures t.nodeMeta.depth == config.maxSceneIndent ==> SceneNodeErrors(path, root, config, t) == []
    ensures t.nodeMeta.depth == config.maxSceneIndent + 1 ==> |SceneNodeErrors(path, root, config, t)| == 1
  {
  }

  /** The message names the node and carries its depth and the limit, both readable back as numbers. */
  lemma TooNestedMessageReadsBack(name: string, depth: nat, limit: nat)
    ensures var m := TooNestedMessage(name, depth, limit);
      var d := NatToString(depth);
      var l := NatToString(limit);
      && m == "`" + name + "` is too nested (" + d + " > " + l + ")"
      && IsDecimal(d) && DecimalValue(d) == depth
      && IsDecimal(l) && DecimalValue(l) == limit
  {
    TooNestedMessageSpelled(name, depth, limit);
    DecimalRoundTrip(depth);
    DecimalRoundTrip(limit);
  }

  lemma TooNestedMessageSpelled(name: string, depth: nat, limit: nat)
    ensures TooNestedMessage(name, depth, limit)
         == "`" + name + "` is too nested (" + NatToString(depth) + " > " + NatToString(limit) + ")"
  {
    var d := NatToString(depth);
    var l := NatToString(limit);
    var fs := [Literal("`"), Literal(name), Literal("` is too nested ("),
               Number(depth), Literal(" > "), Number(limit), Literal(")")];
    assert "` " + SceneTooNestedMessage + " (" == "` is too nested (";
    assert TooNestedMessage(name, depth, limit) == Interpolate(fs);
    NumbersTail(fs[3..], depth, limit);
    assert fs[2..][1..] == fs[3..];
    assert Interpolate(fs[2..]) == "` is too nested (" + (d + (" > " + (l + ")")));
    assert fs[1..][1..] == fs[2..];
    assert Interpolate(fs[1..]) == name + ("` is too nested (" + (d + (" > " + (l + ")"))));
    assert Interpolate(fs) == "`" + (name + ("` is too nested (" + (d + (" > " + (l + ")")))));
    RightToLeft("`", name, "` is too nested (", d, " > ", l, ")");
  }

  /** Regrouping seven concatenated strings from right-nested to left-nested;
      kept apart so that the solver does not attempt it in the larger context above. */
  lemma RightToLeft(a: string, b: string, c: string, d: string, e: string, f: string, g: string)
    ensures a + (b + (c + (d + (e + (f + g))))) == a + b + c + d + e + f + g
  {
  }

  lemma NumbersTail(fs: seq<Field>, depth: nat, limit: nat)
    requires fs == [Number(depth), Literal(" > "), Number(limit), Literal(")")]
    ensures Interpolate(fs) == NatToString(depth) + (" > " + (NatToString(limit) + ")"))
  {
    var l := NatToString(limit);
    assert fs[3..][1..] == [];
    assert Interpolate(fs[3..]) == ")";
    assert fs[2..][1..] == fs[3..];
    assert Interpolate(fs[2..]) == l + ")";
    assert fs[1..][1..] == fs[2..];
    assert Interpolate(fs[1..]) == " > " + (l + ")");
    assert fs[0..][1..] == fs[1..];
  }
}
