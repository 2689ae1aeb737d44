/** The value records of the linter: lint errors (node8/models/errors.py)
    and `noqa` directives (node8/models/noqa.py). */
module Models {
  import opened Wrappers
  import opened SceneTrees

  /** A rule violation: its codename, message and optional help text. */
  datatype Error = Error(codename: string, message: string, helpMessage: Option<string>)

  /** A violation located in a GDScript file. */
  datatype ScriptError = ScriptError(error: Error, path: string, line: int, column: int, endColumn: int)

  /** A violation located in a scene: the offending node and the root it was found in. */
  datatype SceneError = SceneError(error: Error, path: string, errorTree: SceneTree, sceneTree: SceneTree)

  /** A `# noqa` directive: the line it sits on, the codenames it names,
      and whether it silences every rule on that line. */
  datatype NoqaIgnore = NoqaIgnore(line: int, ignores: seq<string>, ignoreAll: bool)
}
