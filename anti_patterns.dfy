/** The N001 rule (node8/services/rules/anti_patterns.py): `get_node` calls are discouraged. */
module AntiPatterns {
  import opened Wrappers
  import opened Lark
  import opened Models

  const GetNodeFoundCodename: string := "N001"
  const GetNodeFoundMessage: string := "`get_node` found"
  const GetNodeFoundHelp: string := "Replace with `@export` or unique names: `%Node2D`"

  /** The rule name of the nodes the N001 handler receives. */
  const StandaloneCallKind: string := "standalone_call"

  /** `tree.children[0] == "get_node"`: a token compares equal to a string with
      the same text, a subtree never does. */
  predicate CallsGetNode(t: Tree) {
    |t.children| > 0 && t.children[0].TokenChild? && t.children[0].token.text == "get_node"
  }

  /** The N001 error for a call node, located at the node's own span. */
  function GetNodeError(path: string, t: Tree): ScriptError {
    ScriptError(
      Error(GetNodeFoundCodename, GetNodeFoundMessage, Some(GetNodeFoundHelp)),
      path, t.meta.line, t.meta.column, t.meta.endColumn)
  }

  /** What `GetNodeFound.standalone_call` appends for one `standalone_call` node. */
  function StandaloneCallErrors(path: string, t: Tree): seq<ScriptError>
  {
    if CallsGetNode(t) then [GetNodeError(path, t)] else []
  }
}
