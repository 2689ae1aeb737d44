/** The linter configuration and its documented defaults (node8/core/config.py). */
module CoreConfig {
  import opened Wrappers

  const MaxLineLength: int := 80
  const LinesShowBefore: int := 2
  const LinesShowAfter: int := 2
  const MaxSceneIndent: int := 3
  const MainColor: string := "blue"
  const AccentColor: string := "red"

  /** Every field of the configuration; `ignores` lists codenames that are never reported. */
  datatype Config = Config(
    lineLength: int,
    linesShowBefore: int,
    linesShowAfter: int,
    maxSceneIndent: int,
    mainColor: string,
    accentColor: string,
    ignores: seq<string>)

  /** `Config()`: every field at its default. */
  function DefaultConfig(): (c: Config)
    ensures c.lineLength == 80 && c.maxSceneIndent == 3 && c.ignores == []
  {
    Config(MaxLineLength, LinesShowBefore, LinesShowAfter, MaxSceneIndent, MainColor, AccentColor, [])
  }

  /** `config or Config()`: a configuration object is always truthy, so only a missing one is replaced. */
  function ResolveConfig(config: Option<Config>): (c: Config)
    ensures config.Some? ==> c == config.value
    ensures config.None? ==> c == DefaultConfig() && c.ignores == []
  {
    config.GetOr(DefaultConfig())
  }
}
