/** The script checker (node8/services/gdscript.py): the three script rules
    are run one after the other and their errors are filtered through the
    configuration's ignore list and the script's `noqa` directives. */
module GdScript {
  import opened Wrappers
  import opened Seqs
  import opened CoreConfig
  import opened Lark
  import opened Models
  import opened Noqa
  import opened AntiPatterns
  import opened StyleViolations
  import opened Visitors

  // ---------------------------------------------------------------- the error filter

  /** A directive silences an error on its own line: every code for a bare
      `noqa`, only the codes it names otherwise. */
  predicate Suppresses(noqa: NoqaIgnore, error: ScriptError) {
    noqa.line == error.line && (noqa.ignoreAll || error.error.codename in noqa.ignores)
  }

  /** `_is_valid_error` under an already resolved configuration: the code is
      not ignored by the configuration and no directive silences the error. */
  predicate IsValid(error: ScriptError, noqaIgnores: seq<NoqaIgnore>, config: Config) {
    && error.error.codename !in config.ignores
    && forall noqa :: noqa in noqaIgnores ==> !Suppresses(noqa, error)
  }

  /** `_is_valid_error`: the configuration check first, then the directives
      in order, answering False at the first one that silences the error. */
  method IsValidError(error: ScriptError, noqaIgnores: seq<NoqaIgnore>, config: Option<Config>)
    returns (valid: bool)
    ensures valid <==> IsValid(error, noqaIgnores, ResolveConfig(config))
  {
    var cfg := ResolveConfig(config);
    var codename := error.error.codename;
    if codename in cfg.ignores {
      return false;
    }
    for i := 0 to |noqaIgnores|
      invariant forall j :: 0 <= j < i ==> !Suppresses(noqaIgnores[j], error)
    {
      var noqa := noqaIgnores[i];
      if noqa.line == error.line && (noqa.ignoreAll || codename in noqa.ignores) {
        assert noqa in noqaIgnores && Suppresses(noqa, error);
        return false;
      }
    }
    return true;
  }

  /** A code listed in the configuration's `ignores` is never valid, whatever
      the directives say. */
  lemma ConfigIgnoresAlwaysWin(error: ScriptError, noqaIgnores: seq<NoqaIgnore>, config: Config)
    requires error.error.codename in config.ignores
    ensures !IsValid(error, noqaIgnores, config)
  {
  }

  /** Otherwise an error is invalid exactly when some directive has its line
      and either silences everything or names its code. */
  lemma DirectiveDecides(error: ScriptError, noqaIgnores: seq<NoqaIgnore>, config: Config)
    requires error.error.codename !in config.ignores
    ensures !IsValid(error, noqaIgnores, config) <==>
      exists i :: 0 <= i < |noqaIgnores| && noqaIgnores[i].line == error.line
        && (noqaIgnores[i].ignoreAll || error.error.codename in noqaIgnores[i].ignores)
  {
    if !IsValid(error, noqaIgnores, config) {
      var noqa :| noqa in noqaIgnores && Suppresses(noqa, error);
      var i :| 0 <= i < |noqaIgnores| && noqaIgnores[i] == noqa;
      assert noqaIgnores[i].line == error.line;
    } else {
      forall i | 0 <= i < |noqaIgnores|
        ensures !Suppresses(noqaIgnores[i], error)
      {
        assert noqaIgnores[i] in noqaIgnores;
      }
    }
  }

  /** Validity depends only on which directives there are, not on their order
      or repetition. */
  lemma DirectiveOrderIrrelevant(error: ScriptError, a: seq<NoqaIgnore>, b: seq<NoqaIgnore>, config: Config)
    requires forall noqa :: noqa in a <==> noqa in b
    ensures IsValid(error, a, config) == IsValid(error, b, config)
  {
  }

  /** Directives on other lines never silence an error: only the
      configuration's `ignores` can then reject it. */
  lemma OtherLinesNeverSuppress(error: ScriptError, noqaIgnores: seq<NoqaIgnore>, config: Config)
    requires forall i :: 0 <= i < |noqaIgnores| ==> noqaIgnores[i].line != error.line
    ensures IsValid(error, noqaIgnores, config) <==> error.error.codename !in config.ignores
  {
    forall noqa | noqa in noqaIgnores
      ensures !Suppresses(noqa, error)
    {
      var i :| 0 <= i < |noqaIgnores| && noqaIgnores[i] == noqa;
    }
  }

  /** Without a configuration only the directives count, since the default
      configuration ignores nothing. */
  lemma MissingConfigIgnoresNothing(error: ScriptError, noqaIgnores: seq<NoqaIgnore>)
    ensures IsValid(error, noqaIgnores, ResolveConfig(None)) <==>
      forall i :: 0 <= i < |noqaIgnores| ==> !Suppresses(noqaIgnores[i], error)
  {
    if forall i :: 0 <= i < |noqaIgnores| ==> !Suppresses(noqaIgnores[i], error) {
      forall noqa | noqa in noqaIgnores
        ensures !Suppresses(noqa, error)
      {
        var i :| 0 <= i < |noqaIgnores| && noqaIgnores[i] == noqa;
      }
    }
  }

  /** A `noqa:` directive that names no code silences nothing: adding it
      never changes an error's validity. */
  lemma EmptyCodeListSilencesNothing(error: ScriptError, noqaIgnores: seq<NoqaIgnore>, config: Config, line: int)
    ensures IsValid(error, noqaIgnores + [NoqaIgnore(line, [], false)], config) == IsValid(error, noqaIgnores, config)
  {
    var extra := NoqaIgnore(line, [], false);
    assert !Suppresses(extra, error);
    forall noqa
      ensures noqa in noqaIgnores + [extra] <==> noqa in noqaIgnores || noqa == extra
    {
    }
  }

  /** The predicate the final comprehension keeps errors by. */
  function ValidUnder(noqaIgnores: seq<NoqaIgnore>, config: Config): ScriptError -> bool {
    error => IsValid(error, noqaIgnores, config)
  }

  /** `[error for error in errors if _is_valid_error(error, noqa_ignores, config=config)]`. */
  function FilterErrors(errors: seq<ScriptError>, noqaIgnores: seq<NoqaIgnore>, config: Config): seq<ScriptError> {
    Filter(errors, ValidUnder(noqaIgnores, config))
  }

  /** The filter only drops errors: what it keeps is valid, comes from the
      input in the input's order, and each valid error keeps its multiplicity
      while each invalid one disappears. */
  lemma FilterKeepsExactlyValid(errors: seq<ScriptError>, noqaIgnores: seq<NoqaIgnore>, config: Config, e: ScriptError)
    ensures Subsequence(FilterErrors(errors, noqaIgnores, config), errors)
    ensures forall k :: 0 <= k < |FilterErrors(errors, noqaIgnores, config)| ==>
      IsValid(FilterErrors(errors, noqaIgnores, config)[k], noqaIgnores, config)
    ensures multiset(FilterErrors(errors, noqaIgnores, config))[e]
         == if IsValid(e, noqaIgnores, config) then multiset(errors)[e] else 0
  {
    FilterIsSubsequence(errors, ValidUnder(noqaIgnores, config));
    FilterCounts(errors, ValidUnder(noqaIgnores, config), e);
  }

  /** Filtering twice with the same directives and configuration is
      filtering once. */
  lemma FilterErrorsIdempotent(errors: seq<ScriptError>, noqaIgnores: seq<NoqaIgnore>, config: Config)
    ensures FilterErrors(FilterErrors(errors, noqaIgnores, config), noqaIgnores, config)
         == FilterErrors(errors, noqaIgnores, config)
  {
    FilterIdempotent(errors, ValidUnder(noqaIgnores, config));
  }

  // ---------------------------------------------------------------- one script

  /** The errors of the three rules before filtering: all N001, then all
      D001, then all E001 (the latter always at the default 80 columns). */
  function RawScriptErrors(path: string, syntaxTree: Tree, commentTree: Tree, lines: seq<string>): seq<ScriptError> {
    RuleErrors(GetNodeFound, path, commentTree, syntaxTree)
    + RuleErrors(FunctionMissingDocstring, path, commentTree, syntaxTree)
    + LongLineErrors(path, lines, MaxLineLength)
  }

  /** What `_check_script` returns for a script whose parsed syntax tree,
      comment tree and lines are given. */
  function ScriptErrors(path: string, syntaxTree: Tree, commentTree: Tree, lines: seq<string>, config: Config): seq<ScriptError> {
    FilterErrors(RawScriptErrors(path, syntaxTree, commentTree, lines), IgnoresOf(commentTree.children), config)
  }

  /** `_check_script` after the script is read and parsed: the rules extend
      one list in order, and the comprehension keeps the valid errors. */
  method CheckScript(path: string, syntaxTree: Tree, commentTree: Tree, lines: seq<string>, config: Option<Config>)
    returns (r: seq<ScriptError>)
    requires Applicable(GetNodeFound, syntaxTree) && Applicable(FunctionMissingDocstring, syntaxTree)
    ensures r == ScriptErrors(path, syntaxTree, commentTree, lines, ResolveConfig(config))
  {
    var cfg := ResolveConfig(config);
    var noqaIgnores := GetIgnoresTree(commentTree);
    var errors := RunRules(path, syntaxTree, commentTree, lines, cfg);
    r := KeepValid(errors, noqaIgnores, cfg);
  }

  /** The rules of `_check_script`, each extending one list in turn. */
  method RunRules(path: string, syntaxTree: Tree, commentTree: Tree, lines: seq<string>, config: Config)
    returns (errors: seq<ScriptError>)
    requires Applicable(GetNodeFound, syntaxTree) && Applicable(FunctionMissingDocstring, syntaxTree)
    ensures errors == RawScriptErrors(path, syntaxTree, commentTree, lines)
  {
    errors := [];
    var found := Visitor.Check(GetNodeFound, path, syntaxTree, commentTree, Some(config));
    errors := errors + found;
    var undocumented := Visitor.Check(FunctionMissingDocstring, path, syntaxTree, commentTree, Some(config));
    errors := errors + undocumented;
    var tooLong := LineTooLong.Check(path, lines, Some(config));
    errors := errors + tooLong;
  }

  /** The final comprehension of `_check_script`: each error is kept when
      `_is_valid_error` accepts it. */
  method KeepValid(errors: seq<ScriptError>, noqaIgnores: seq<NoqaIgnore>, config: Config) returns (r: seq<ScriptError>)
    ensures r == FilterErrors(errors, noqaIgnores, config)
  {
    r := [];
    for i := 0 to |errors|
      invariant r == FilterErrors(errors[..i], noqaIgnores, config)
    {
      var valid := IsValidError(errors[i], noqaIgnores, Some(config));
      FilterErrorsSnoc(errors[..i], errors[i], noqaIgnores, config);
      assert errors[..i + 1] == errors[..i] + [errors[i]];
      if valid {
        r := r + [errors[i]];
      }
    }
    assert errors[..|errors|] == errors;
  }

  lemma FilterErrorsSnoc(errors: seq<ScriptError>, e: ScriptError, noqaIgnores: seq<NoqaIgnore>, config: Config)
    ensures FilterErrors(errors + [e], noqaIgnores, config)
         == FilterErrors(errors, noqaIgnores, config) + if IsValid(e, noqaIgnores, config) then [e] else []
  {
    var p := ValidUnder(noqaIgnores, config);
    FilterAppend(errors, [e], p);
    assert Filter([e], p) == (if p(e) then [e] else []) + Filter([], p);
  }

  /** The codename each script rule reports. */
  function RuleCodename(rule: ScriptRule): string {
    match rule
    case GetNodeFound => GetNodeFoundCodename
    case FunctionMissingDocstring => FunctionMissingDocsCodename
  }

  /** Every error a rule's handlers append carries the checked path and the
      rule's codename. */
  lemma {:induction false} HandledAttributed(rule: ScriptRule, path: string, commentTree: Tree, nodes: seq<Tree>)
    ensures forall e :: e in Handled(rule, path, commentTree, nodes) ==>
      e.path == path && e.error.codename == RuleCodename(rule)
    decreases |nodes|
  {
    if nodes != [] {
      HandledAttributed(rule, path, commentTree, nodes[1..]);
      var head := HandleScript(rule, path, commentTree, nodes[0]);
      assert forall e :: e in head ==> e.path == path && e.error.codename == RuleCodename(rule);
    }
  }

  /** Every E001 error carries the checked path and the E001 codename. */
  lemma LongLineErrorsAttributed(path: string, lines: seq<string>)
    ensures forall e :: e in LongLineErrors(path, lines, MaxLineLength) ==>
      e.path == path && e.error.codename == LineTooLongCodename
  {
    LongLineErrorsSound(path, lines, MaxLineLength);
  }

  /** Position of a codename in the order the rules run. */
  function RuleRank(codename: string): int {
    if codename == GetNodeFoundCodename then 0
    else if codename == FunctionMissingDocsCodename then 1
    else 2
  }

  /** Filtering keeps every error's codename among those of the input. */
  lemma FilterKeepsCodename(errors: seq<ScriptError>, noqaIgnores: seq<NoqaIgnore>, config: Config, codename: string)
    requires forall e :: e in errors ==> e.error.codename == codename
    ensures forall k :: 0 <= k < |FilterErrors(errors, noqaIgnores, config)| ==>
      FilterErrors(errors, noqaIgnores, config)[k].error.codename == codename
  {
  }

  /** Three runs of one rank each, concatenated lowest rank first, are in
      rank order. */
  lemma RanksInOrder(a: seq<ScriptError>, b: seq<ScriptError>, c: seq<ScriptError>)
    requires forall k :: 0 <= k < |a| ==> RuleRank(a[k].error.codename) == 0
    requires forall k :: 0 <= k < |b| ==> RuleRank(b[k].error.codename) == 1
    requires forall k :: 0 <= k < |c| ==> RuleRank(c[k].error.codename) == 2
    ensures forall j, k :: 0 <= j < k < |a + b + c| ==>
      RuleRank((a + b + c)[j].error.codename) <= RuleRank((a + b + c)[k].error.codename)
  {
    var r := a + b + c;
    forall j | 0 <= j < |r|
      ensures RuleRank(r[j].error.codename) == if j < |a| then 0 else if j < |a| + |b| then 1 else 2
    {
      if j < |a| {
        assert r[j] == a[j];
      } else if j < |a| + |b| {
        assert r[j] == b[j - |a|];
      } else {
        assert r[j] == c[j - |a| - |b|];
      }
    }
  }

  /** The script's errors are the valid N001 errors, then the valid D001
      errors, then the valid E001 errors. */
  lemma ScriptErrorsSplit(path: string, syntaxTree: Tree, commentTree: Tree, lines: seq<string>, config: Config)
    ensures ScriptErrors(path, syntaxTree, commentTree, lines, config)
         == FilterErrors(RuleErrors(GetNodeFound, path, commentTree, syntaxTree), IgnoresOf(commentTree.children), config)
          + FilterErrors(RuleErrors(FunctionMissingDocstring, path, commentTree, syntaxTree), IgnoresOf(commentTree.children), config)
          + FilterErrors(LongLineErrors(path, lines, MaxLineLength), IgnoresOf(commentTree.children), config)
  {
    var p := ValidUnder(IgnoresOf(commentTree.children), config);
    var a := RuleErrors(GetNodeFound, path, commentTree, syntaxTree);
    var b := RuleErrors(FunctionMissingDocstring, path, commentTree, syntaxTree);
    FilterAppend(a + b, LongLineErrors(path, lines, MaxLineLength), p);
    FilterAppend(a, b, p);
  }

  /** The errors are grouped by rule: all N001 before all D001 before all
      E001, whatever the filter drops. */
  lemma ScriptErrorsGroupedByRule(path: string, syntaxTree: Tree, commentTree: Tree, lines: seq<string>, config: Config)
    ensures forall j, k :: 0 <= j < k < |ScriptErrors(path, syntaxTree, commentTree, lines, config)| ==>
      RuleRank(ScriptErrors(path, syntaxTree, commentTree, lines, config)[j].error.codename)
      <= RuleRank(ScriptErrors(path, syntaxTree, commentTree, lines, config)[k].error.codename)
  {
    var ns := IgnoresOf(commentTree.children);
    var a := RuleErrors(GetNodeFound, path, commentTree, syntaxTree);
    var b := RuleErrors(FunctionMissingDocstring, path, commentTree, syntaxTree);
    var c := LongLineErrors(path, lines, MaxLineLength);
    ScriptErrorsSplit(path, syntaxTree, commentTree, lines, config);
    HandledAttributed(GetNodeFound, path, commentTree, PostOrder(syntaxTree));
    HandledAttributed(FunctionMissingDocstring, path, commentTree, PostOrder(syntaxTree));
    LongLineErrorsAttributed(path, lines);
    FilterKeepsCodename(a, ns, config, GetNodeFoundCodename);
    FilterKeepsCodename(b, ns, config, FunctionMissingDocsCodename);
    FilterKeepsCodename(c, ns, config, LineTooLongCodename);
    RanksInOrder(FilterErrors(a, ns, config), FilterErrors(b, ns, config), FilterErrors(c, ns, config));
  }

  /** Every reported error names the checked script. */
  lemma ScriptErrorsAttributed(path: string, syntaxTree: Tree, commentTree: Tree, lines: seq<string>, config: Config)
    ensures forall e :: e in ScriptErrors(path, syntaxTree, commentTree, lines, config) ==> e.path == path
  {
    HandledAttributed(GetNodeFound, path, commentTree, PostOrder(syntaxTree));
    HandledAttributed(FunctionMissingDocstring, path, commentTree, PostOrder(syntaxTree));
    LongLineErrorsAttributed(path, lines);
  }

  /** A comment of the script whose directive is a bare `noqa` silences
      every error on its line. */
  lemma BareNoqaSilencesItsLine(path: string, syntaxTree: Tree, commentTree: Tree, lines: seq<string>, config: Config, i: int)
    requires 0 <= i < |commentTree.children| && commentTree.children[i].TokenChild?
    requires ParseIgnore(commentTree.children[i].token).Some?
    requires ParseIgnore(commentTree.children[i].token).value.ignoreAll
    ensures forall e :: e in ScriptErrors(path, syntaxTree, commentTree, lines, config) ==>
      e.line != ParseIgnore(commentTree.children[i].token).value.line
  {
    IgnoresOfComplete(commentTree.children, i);
  }

  /** A code in the configuration's `ignores` is never reported. */
  lemma ConfigIgnoredCodeNeverReported(path: string, syntaxTree: Tree, commentTree: Tree, lines: seq<string>, config: Config, codename: string)
    requires codename in config.ignores
    ensures forall e :: e in ScriptErrors(path, syntaxTree, commentTree, lines, config) ==> e.error.codename != codename
  {
  }

  // ---------------------------------------------------------------- a directory

  /** A script of the directory, as read and parsed: its path, syntax tree,
      comment tree and lines. */
  datatype Script = Script(path: string, syntaxTree: Tree, commentTree: Tree, lines: seq<string>)

  /** The parser never yields a handled node without children. */
  predicate Parsed(script: Script) {
    Applicable(GetNodeFound, script.syntaxTree) && Applicable(FunctionMissingDocstring, script.syntaxTree)
  }

  /** What `_check_script` returns, as a function of the script. */
  function ScriptErrorsUnder(config: Config): Script -> seq<ScriptError> {
    (s: Script) => ScriptErrors(s.path, s.syntaxTree, s.commentTree, s.lines, config)
  }

  /** The errors of the scripts, script after script. */
  function DirectoryErrors(scripts: seq<Script>, config: Config): seq<ScriptError> {
    FlatMap(scripts, ScriptErrorsUnder(config))
  }

  /** `directory_check` over the scripts the directory walk found. */
  method DirectoryCheck(scripts: seq<Script>, config: Option<Config>) returns (errors: seq<ScriptError>)
    requires forall i :: 0 <= i < |scripts| ==> Parsed(scripts[i])
    ensures errors == DirectoryErrors(scripts, ResolveConfig(config))
  {
    var cfg := ResolveConfig(config);
    errors := [];
    for i := 0 to |scripts|
      invariant errors == DirectoryErrors(scripts[..i], cfg)
    {
      var s := scripts[i];
      var scriptErrors := CheckScript(s.path, s.syntaxTree, s.commentTree, s.lines, Some(cfg));
      assert scripts[..i + 1][..i] == scripts[..i];
      errors := errors + scriptErrors;
    }
    assert scripts[..|scripts|] == scripts;
  }

  /** Every error of a directory names one of its scripts. */
  lemma DirectoryErrorsAttributed(scripts: seq<Script>, config: Config)
    ensures forall e :: e in DirectoryErrors(scripts, config) ==>
      exists i :: 0 <= i < |scripts| && scripts[i].path == e.path
  {
    forall e | e in DirectoryErrors(scripts, config)
      ensures exists i :: 0 <= i < |scripts| && scripts[i].path == e.path
    {
      FlatMapMembers(scripts, ScriptErrorsUnder(config), e);
      var i :| 0 <= i < |scripts| && e in ScriptErrorsUnder(config)(scripts[i]);
      var s := scripts[i];
      ScriptErrorsAttributed(s.path, s.syntaxTree, s.commentTree, s.lines, config);
    }
  }
}
