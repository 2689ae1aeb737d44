# node8 linter core, modelled in Dafny

node8 is a linter for Godot projects. It checks GDScript files and Godot scene (`.tscn`) files. This project models the linter's core and proves properties of that model:

- **`noqa` directives.** Comments of the form `# noqa` or `# noqa: E001, D001` are parsed into directives. An error on the directive's line is silenced, together with any error whose code the configuration ignores.
- **Tree walk.** A bottom-up walk visits the GDScript syntax tree, or a tree built from a scene. It calls a rule's handler for every node whose rule name the handler matches.
- **Script rules.** There are three:
  - N001 reports standalone `get_node` calls.
  - D001 reports public functions with no `##` comment on the line above.
  - E001 reports lines longer than 80 characters.
- **Scene rule.** SC001 reports scene nodes nested deeper than the configuration allows.
- **Scene trees.** Scene trees are built from a parsed Godot scene. The subtree-path locator runs on them.
- **The two checkers.**
  - The script checker runs N001, then D001, then E001, and keeps only the errors that survive the filter.
  - The scene checker runs SC001 on every scene that loads.

Modules follow the source files:

- `CoreConfig`: `core/config.py`.
- `Models`: `models/errors.py` and `models/noqa.py`.
- `Lark`: the parser library's tokens, trees and recursive visitor.
- `SceneTrees`: `services/scene_tree.py`.
- `Noqa`: `services/noqa.py`.
- `Visitors`: `services/visitors.py`.
- `AntiPatterns`, `StyleViolations` and `Complexity`: the rule files.
- `GdScript` and `Scenes`: the two checkers.
- `Text` holds the Python string built-ins the source relies on: `lstrip` with a character set, `rstrip`, `split()`, `startswith`, `endswith`, `removesuffix` and `str(int)`.
- `Seqs` holds list comprehensions as `Filter` and `Map`.

Classes whose fields the source updates in place are Dafny classes:

- `Visitor`;
- `SceneVisitor`;
- `LineTooLong`.

Python subclassing does not carry over: a rule visitor is one `Visitor` class with a `ScriptRule` discriminant. Each method that loops or appends is proved against a specification function. Lemmas then state what that function means.

Some behaviours of the code that a reader might not expect, which the model keeps:

- **Walk order.** `Visitor.visit` (lark's `Visitor_Recursive`) visits children before their parent. It is a post-order walk, not document order. Errors come out in that order (`Visitors.VisitErrorsFollowWalk`). Both walks visit the same nodes (`Lark.PostOrderVisitsEachNodeOnce`).
- **`noqa: A,B`.** It yields the single code `"A,B"`, not the two codes A and B, because codes are split on whitespace only (`Noqa.CommaJoinedCodesStayTogether`).
- **E001 limit.** `LineTooLong` keeps `Config()` and ignores the configuration passed to it, although its docstrings describe the `config` parameter as the linter configuration (`node8/services/rules/style_violations.py:39` and `:81`); here the model follows the code. E001 always uses 80 columns (`StyleViolations.LineTooLong.Check`).
- **Scene error fields.** `SceneError` declares no fields. The model gives it the fields `complexity.py` passes to it: error, path, error tree and scene tree.

Messages are f-strings. The model builds them with `Text.Interpolate` over literal and number fields, and `str(int)` is modelled digit by digit.

## Model

| member | source | states |
|---|---|---|
| CoreConfig.DefaultConfig | node8/core/config.py:23-35 | `Config()` has line length 80, a scene indent limit of 3 and no ignored codes |
| CoreConfig.ResolveConfig | node8/services/gdscript.py:46 | `config or Config()`: a given configuration is used as is; a missing one becomes the default, which ignores nothing |
| Text.RemoveSuffix | node8/services/noqa.py:34 | `removesuffix(",")` drops the suffix exactly when the word ends with it, and otherwise returns the word unchanged |
| Text.LStripRemovesLongestPrefix | node8/services/noqa.py:21 | `lstrip("# ")` removes the longest prefix made of `#` and space: the rest is a suffix of the input that does not start with either |
| Text.RStripRemovesTrailingSpace | node8/services/rules/style_violations.py:54 | `str.rstrip` removes exactly the trailing run of whitespace |
| Text.WordsEmptyIffAllSpace | node8/services/noqa.py:21-23 | `split()` gives no words exactly when the text is all whitespace |
| Text.WordsOfJoin | node8/services/noqa.py:21 | `split()` of words joined by single spaces gives the words back (round trip) |
| Text.DecimalRoundTrip | node8/services/rules/style_violations.py:59-63 | `str(n)` of a natural number is a decimal numeral whose value is `n` |
| Seqs.FilterIsSubsequence | node8/services/gdscript.py:94-97 | a comprehension with a condition only drops elements and keeps the order of the rest |
| Seqs.FilterIdempotent | node8/services/gdscript.py:94-97 | applying the same comprehension condition twice is applying it once |
| Lark.PostOrderVisitsEachNodeOnce | node8/services/visitors.py:55 | the bottom-up walk of `visit` visits exactly the nodes of the document-order walk, each as often |
| SceneTrees.SameTreeIsEquality | node8/services/scene_tree.py:30-38 | `SceneTree.__eq__` (same rule name, same metadata, equal children) is structural equality |
| SceneTrees.FromGodotParserNode | node8/services/scene_tree.py:40-64 | the loop-and-recurse conversion computes the converted tree `FromGodot(node, depth)` |
| SceneTrees.FromGodotDepths | node8/services/scene_tree.py:47-58 | in a converted tree every child's depth is its parent's depth plus one, starting from the given depth |
| SceneTrees.FromGodotShape | node8/services/scene_tree.py:54-64 | every converted node is a `scene_node`, a missing node type becomes `""`, and children are converted one for one |
| SceneTrees.SubtreePathNoneIff | node8/services/scene_tree.py:79-100 | `get_subtree_path` returns None exactly when the subtree does not occur in the tree |
| SceneTrees.SubtreePathShape | node8/services/scene_tree.py:84-99 | a found path is a single-child chain from the tree's root to a childless copy of the subtree's node |
| SceneTrees.SubtreePathAtRoot | node8/services/scene_tree.py:84-89 | a tree's path to itself is a childless copy of its root |
| SceneTrees.SubtreePathFirstMatch | node8/services/scene_tree.py:90-99 | the path goes through the first child, in child order, that contains the subtree |
| SceneTrees.SubtreePathLength | node8/services/scene_tree.py:79-100 | in a tree with consistent depths, the path to a contained node has one entry per level from the root down to that node |
| SceneTrees.ConvertedSubtreePathLength | node8/services/scene_tree.py:79-100 | in a converted scene, the path to a node of depth d has d + 1 entries |
| Noqa.CollectCodesStopsAfterFirstBareWord | node8/services/noqa.py:32-36 | each collected code is its word without a trailing comma; all but the last word end with a comma; collection stops right after the first word with no trailing comma |
| Noqa.ParseIgnore | node8/services/noqa.py:12-37 | a parsed directive carries the comment's line, and a bare `noqa` names no codes |
| Noqa.GetIgnoreToken | node8/services/noqa.py:12-37 | `_get_ignore_token`, with its early returns and its code loop, computes `ParseIgnore` |
| Noqa.CollectIgnores | node8/services/noqa.py:32-36 | the code-collecting loop with its `break` computes `CollectCodes` |
| Noqa.GetIgnoresTree | node8/services/noqa.py:40-55 | `get_ignores_tree` skips subtrees and non-directive comments and keeps the directives in comment order |
| Noqa.IgnoresOfAppend | node8/services/noqa.py:48-53 | the directives of two runs of comments are those of each run, in order |
| Noqa.IgnoresOfSources | node8/services/noqa.py:48-53 | every collected directive comes from a comment token of the tree, and carries that token's line |
| Noqa.IgnoresOfComplete | node8/services/noqa.py:48-53 | every comment token that parses to a directive contributes it |
| Noqa.BareNoqaOnRawText | node8/services/noqa.py:21-28 | a comment whose text, after its leading `#` and spaces, opens with the word `noqa` (then nothing or any whitespace: tabs, runs of spaces) silences every rule on its line |
| Noqa.NoqaColonOnRawText | node8/services/noqa.py:21-37 | a comment whose stripped text opens with the word `noqa:` gives a directive for its line naming the codes collected from the whitespace-separated words after it |
| Noqa.NoqaSilencesAll | node8/services/noqa.py:27-28 | a comment whose first word after the `#` marks is `noqa` gives a silence-all directive on its line, whatever follows |
| Noqa.NoqaColonCollects | node8/services/noqa.py:29-37 | a comment starting with `noqa:` gives a directive with the codes collected from the words after it |
| Noqa.TrailingWordsIgnored | node8/services/noqa.py:33-36 | `# noqa: A001, A002 trailing` names A001 and A002 only |
| Noqa.CommaJoinedCodesStayTogether | node8/services/noqa.py:33-34 | `# noqa: A,B` names the single code `A,B` |
| Noqa.GluedCodeIsNoDirective | node8/services/noqa.py:29-30 | `# noqa:E001` (no space after the colon) is no directive |
| Noqa.BareColonNamesNothing | node8/services/noqa.py:32-37 | `# noqa:` with no codes is a directive that names nothing |
| Noqa.BlankCommentIsNoDirective | node8/services/noqa.py:21-23 | a comment that is only marks and whitespace is no directive |
| Complexity.NestingBoundary | node8/services/rules/complexity.py:19 | SC001 is strict: depth equal to the limit passes, and one more than the limit gives one error |
| Complexity.TooNestedMessageReadsBack | node8/services/rules/complexity.py:23-26 | the SC001 message is `` `name` is too nested (depth > limit) ``, and both numbers read back to their values |
| StyleViolations.LongLinesSound | node8/services/rules/style_violations.py:54-55 | every long line found has its 1-based index, its right-stripped text, and a length above the limit |
| StyleViolations.LongLinesComplete | node8/services/rules/style_violations.py:54-55 | every line longer than the limit after right-stripping is found |
| StyleViolations.LongLineErrorsSound | node8/services/rules/style_violations.py:54-69 | each E001 error names an existing line whose stripped length exceeds the limit, at column `limit` and end column `length + 1` |
| StyleViolations.LongLineErrorsOrdered | node8/services/rules/style_violations.py:54-69 | E001 errors come in strictly increasing line order |
| StyleViolations.LongLineErrorsComplete | node8/services/rules/style_violations.py:54-69 | every line over the limit has its E001 error |
| StyleViolations.LineAtLimitPasses | node8/services/rules/style_violations.py:55 | a line of exactly 80 characters after stripping is not reported |
| StyleViolations.LineOverLimitFails | node8/services/rules/style_violations.py:54-69 | a line of 81 characters gives exactly `E001 line too long (81 > 80)` at line 1, column 80, end column 82 |
| StyleViolations.OverLimitMessage | node8/services/rules/style_violations.py:59-63 | the E001 message for 81 over 80 is `line too long (81 > 80)` |
| StyleViolations.LineTooLong.constructor | node8/services/rules/style_violations.py:31-45 | the checker keeps the default configuration whatever it is given, and starts with no errors |
| StyleViolations.LineTooLong.ValidateLines | node8/services/rules/style_violations.py:47-70 | the loop appends the E001 error of each long line, in line order, and returns the whole error list |
| StyleViolations.LineTooLong.Check | node8/services/rules/style_violations.py:72-88 | `LineTooLong.check` reports the long lines at 80 columns, whatever the configuration |
| StyleViolations.DocstringsAreDocComments | node8/services/rules/style_violations.py:123-128 | the collected docstrings are exactly the comment tokens starting with `##` |
| StyleViolations.AnyOnLineIff | node8/services/rules/style_violations.py:130-133 | `any(...)` holds exactly when some docstring is on the given line |
| StyleViolations.DocCommentAboveSilences | node8/services/rules/style_violations.py:114-153 | for a public header named by a token, D001 is silent exactly when a `##` comment is on the line above |
| StyleViolations.PrivateOrUnnamedNeverReported | node8/services/rules/style_violations.py:116-121 | a header whose name is not a token, or starts with `_`, is never reported |
| Visitors.HandledAppend | node8/services/visitors.py:55 | handling two runs of visited nodes appends the errors of each run in turn |
| Visitors.VisitErrorsFollowWalk | node8/services/visitors.py:55 | what the recursive visit appends is the handler applied to every node of the bottom-up walk, in walk order |
| Visitors.Visitor.constructor | node8/services/visitors.py:20-37 | a visitor starts with no errors and with the given configuration, or the default |
| Visitors.Visitor.Visit | node8/services/visitors.py:55 | `visit` appends the errors of the children's walks, left to right, then the node's own |
| Visitors.Visitor.VisitChildren | node8/services/visitors.py:55 | visiting the children appends their walks' errors in child order |
| Visitors.Visitor.CallHandler | node8/services/visitors.py:55 | a node is dispatched to the rule's handler only when its rule name matches, and otherwise adds nothing |
| Visitors.Visitor.StandaloneCall | node8/services/rules/anti_patterns.py:28-45 | `standalone_call` appends the N001 error when the first child is the token `get_node`, and nothing otherwise |
| Visitors.Visitor.FuncHeader | node8/services/rules/style_violations.py:114-153 | `func_header`, with its docstring loop and `any`, appends the D001 error exactly as `FuncHeaderErrors` says |
| Visitors.Visitor.Check | node8/services/visitors.py:39-56 | `check` returns the handler's errors over the whole bottom-up walk of the tree |
| Visitors.GetNodeFoundReportsCalls | node8/services/rules/anti_patterns.py:28-45 | N001 gives one error per `get_node` standalone call of the walk, in walk order, at the call's own span |
| Visitors.MissingDocstringReportsHeaders | node8/services/rules/style_violations.py:114-153 | D001 gives one error per undocumented public function header of the walk, in walk order |
| Visitors.SceneHandledAppend | node8/services/visitors.py:95 | handling two runs of scene nodes appends the errors of each run in turn |
| Visitors.SceneVisitErrorsFollowWalk | node8/services/visitors.py:95 | what the recursive scene visit appends is the handler applied to every node of the bottom-up walk |
| Visitors.SceneVisitor.constructor | node8/services/visitors.py:62-78 | a scene visitor keeps the scene's root and the given or default configuration, and starts with no errors |
| Visitors.SceneVisitor.Visit | node8/services/visitors.py:95 | `visit` on a scene tree appends the children's errors, then the node's own |
| Visitors.SceneVisitor.VisitChildren | node8/services/visitors.py:95 | visiting a scene node's children appends their errors in child order |
| Visitors.SceneVisitor.SceneNode | node8/services/rules/complexity.py:17-32 | `scene_node` appends the SC001 error exactly when the node's depth exceeds the limit |
| Visitors.SceneVisitor.Check | node8/services/visitors.py:80-96 | `SceneTooNested.check` returns the SC001 errors over the scene's bottom-up walk, under the given or default configuration |
| Visitors.SceneTooNestedReportsDeepNodes | node8/services/rules/complexity.py:17-32 | SC001 gives one error per scene node deeper than the limit, in walk order |
| Visitors.ScenePostOrderOfSceneNodes | node8/services/scene_tree.py:60-64 | every node the walk of a converted scene visits is a `scene_node`, so the handler sees all of them |
| Visitors.ConvertedSceneReportsDepthFourAndBelow | node8/services/rules/complexity.py:19 | with the default configuration, a converted scene is reported at exactly its nodes of depth 4 or more |
| GdScript.IsValidError | node8/services/gdscript.py:34-56 | `_is_valid_error`, with its early returns, answers whether the error's code is not ignored by the configuration and no directive silences it |
| GdScript.ConfigIgnoresAlwaysWin | node8/services/gdscript.py:47-49 | a code in the configuration's `ignores` is invalid whatever the directives say |
| GdScript.DirectiveDecides | node8/services/gdscript.py:50-56 | otherwise an error is invalid exactly when some directive has its line and either silences all or names its code |
| GdScript.DirectiveOrderIrrelevant | node8/services/gdscript.py:50-55 | two directive lists with the same members, in any order and with any repetition, decide validity alike |
| GdScript.OtherLinesNeverSuppress | node8/services/gdscript.py:52 | directives on other lines never silence an error |
| GdScript.MissingConfigIgnoresNothing | node8/services/gdscript.py:46 | without a configuration only the directives can silence an error |
| GdScript.EmptyCodeListSilencesNothing | node8/services/gdscript.py:50-55 | a `noqa:` directive naming no code changes no error's validity |
| GdScript.FilterKeepsExactlyValid | node8/services/gdscript.py:94-97 | the filter keeps exactly the valid errors, each as often as in its input, in the input's order |
| GdScript.FilterErrorsIdempotent | node8/services/gdscript.py:94-97 | filtering the filtered errors again changes nothing |
| GdScript.KeepValid | node8/services/gdscript.py:94-97 | the comprehension calling `_is_valid_error` computes the filter |
| GdScript.RunRules | node8/services/gdscript.py:80-92 | the rules extend one list: all N001 errors, then D001, then E001 |
| GdScript.CheckScript | node8/services/gdscript.py:59-97 | `_check_script` on a parsed script returns the valid errors of N001, D001 and E001, in that order |
| GdScript.HandledAttributed | node8/services/gdscript.py:80-91 | every N001 or D001 error names the checked script and its rule's code |
| GdScript.LongLineErrorsAttributed | node8/services/rules/style_violations.py:56-66 | every E001 error names the checked script and the code E001 |
| GdScript.ScriptErrorsSplit | node8/services/gdscript.py:80-97 | the script's errors are the valid N001 errors, then the valid D001 errors, then the valid E001 errors |
| GdScript.ScriptErrorsGroupedByRule | node8/services/gdscript.py:80-97 | whatever the filter drops, every N001 error comes before every D001 error, which comes before every E001 error |
| GdScript.ScriptErrorsAttributed | node8/services/gdscript.py:59-97 | every error of a script names that script |
| GdScript.BareNoqaSilencesItsLine | node8/services/gdscript.py:78-97 | a bare `noqa` comment silences every error on its line |
| GdScript.ConfigIgnoredCodeNeverReported | node8/services/gdscript.py:94-97 | a code the configuration ignores is never reported |
| GdScript.DirectoryCheck | node8/services/gdscript.py:100-116 | `directory_check` gives the errors of each script, script after script |
| GdScript.DirectoryErrorsAttributed | node8/services/gdscript.py:110-116 | every error of a directory names one of its scripts |
| Scenes.CheckScene | node8/services/scenes.py:11-31 | a scene that does not load has no errors; one that loads has exactly its SC001 errors |
| Scenes.DirectoryCheck | node8/services/scenes.py:34-52 | `check` gives the errors of each scene, scene after scene |
| Scenes.DirectorySceneErrorsAppend | node8/services/scenes.py:48-52 | checking two runs of scenes gives the errors of each run in turn |
| Scenes.UnloadedScenesContributeNothing | node8/services/scenes.py:25-27 | the errors of a directory are those of its scenes that load |

## Left out

- Reading files is not modelled. This covers `path.open`/`readlines`, `rglob` and `godot_parser.load`. What they produce becomes a parameter:
  - the script's lines;
  - the list of scripts or scenes a directory walk found;
  - the scene's root (`Option<SceneTree>`).
- The gdtoolkit parser is a foreign library, so `parser.parse` and `parser.parse_comments` are not modelled. Their trees are parameters of `GdScript.CheckScript`.
- `get_ignores_path` in `noqa.py` reads and parses a file. Its remaining logic is `Noqa.GetIgnoresTree`.
- `SceneTree.from_scene_path` reads a scene file. Its remaining logic is `SceneTrees.FromGodotParserNode` plus the `Option` root input of `Scenes.CheckScene`.
- `Config.from_toml` and the color validator are left out. They read TOML files and call the `rich` colour parser. The configuration is a parameter.
- Printing is left out. That is `gdscript.check`, `format.py` and `cli.py`. The broken `print_script_errors` import is also out.
- The `Lark` module covers only what the rules use of lark's `Visitor_Recursive`: a walk that dispatches by rule name. A handler for a rule name other than the rule's own is not modelled, and neither is attribute lookup on Python objects.
- Visitors.Visitor.Visit: requires every node the rule handles to have a first child. The source reads `tree.children[0]` and raises `IndexError` on an empty node, which the model does not represent.
- Visitors.Visitor.VisitChildren: requires the same first-child condition as `Visit`.
- Visitors.Visitor.CallHandler: requires the handled node to have a first child, as above.
- Visitors.Visitor.StandaloneCall: requires a first child, as above.
- Visitors.Visitor.FuncHeader: requires a first child, as above.
- Visitors.Visitor.Check: requires the first-child condition on the whole tree, as above.
- GdScript.RunRules: requires the first-child condition for both script rules, as above.
- GdScript.CheckScript: requires the first-child condition for both script rules, as above.
- GdScript.DirectoryCheck: requires every script to meet the first-child condition, as above.
- The children of a scene tree are always scene trees, so the model has no counterpart of the `isinstance(child, SceneTree)` check in `get_subtree_path`.
- Paths are strings. `Path` objects and their normalisation are not modelled.
- Characters are Unicode code points as Dafny `char`. `split()` and `rstrip()` use Python's whitespace set.
- The per-node rule functions have no message contract of their own:
  - `AntiPatterns.StandaloneCallErrors`;
  - `StyleViolations.FuncHeaderErrors`;
  - `Complexity.SceneNodeErrors`.
  What their errors contain is stated by:
  - `Visitors.GetNodeFoundReportsCalls`, `Visitors.MissingDocstringReportsHeaders` and `Visitors.SceneTooNestedReportsDeepNodes`;
  - the message lemmas `Complexity.TooNestedMessageReadsBack` and `StyleViolations.OverLimitMessage`.
