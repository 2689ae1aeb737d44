/**
 * The code-style rules (node8/services/rules/style_violations.py): E001 for
 * lines longer than the limit and D001 for public functions without a `##`
 * documentation comment on the line above.
 */
module StyleViolations {
  import opened Wrappers
  import opened Text
  import opened CoreConfig
  import opened Lark
  import opened Models
  import opened Seqs

  const LineTooLongCodename: string := "E001"
  const LineTooLongMessage: string := "line too long"
  const FunctionMissingDocsCodename: string := "D001"
  const FunctionMissingDocsMessage: string := "Missing docstring in public function"

  /** The rule name of the nodes the D001 handler receives. */
  const FuncHeaderKind: string := "func_header"

  // ---------------------------------------------------------------- E001

  /** "line too long (length > limit)". */
  function LongLineMessage(length: int, limit: int): string {
    Interpolate([Literal(LineTooLongMessage + " ("), Number(length), Literal(" > "), Number(limit), Literal(")")])
  }

  /** The E001 error for 1-based line `index`, whose right-stripped text is `stripped`. */
  function LongLineError(path: string, index: int, stripped: string, limit: int): ScriptError {
    ScriptError(Error(LineTooLongCodename, LongLineMessage(|stripped|, limit), None),
                path, index, limit, |stripped| + 1)
  }

  /** The lines `validate_lines` reports, as (1-based index, right-stripped
      text) pairs in line order. */
  function LongLines(lines: seq<string>, limit: int): (r: seq<(int, string)>)
    ensures |r| <= |lines|
    decreases |lines|
  {
    if lines == [] then []
    else
      var line := RStrip(lines[|lines| - 1]);
      LongLines(lines[..|lines| - 1], limit) + (if |line| > limit then [(|lines|, line)] else [])
  }

  /** The E001 error for one reported line. */
  function LongLineErrorOf(path: string, limit: int): ((int, string)) -> ScriptError {
    (l: (int, string)) => LongLineError(path, l.0, l.1, limit)
  }

  /** The errors `validate_lines` appends for these lines, in line order. */
  function LongLineErrors(path: string, lines: seq<string>, limit: int): (r: seq<ScriptError>)
    ensures |r| <= |lines|
  {
    Map(LongLines(lines, limit), LongLineErrorOf(path, limit))
  }

  /** Every reported line exceeds the limit once right-stripped. */
  lemma {:induction false} LongLinesSound(lines: seq<string>, limit: int)
    ensures forall l :: l in LongLines(lines, limit) ==>
      1 <= l.0 <= |lines| && l.1 == RStrip(lines[l.0 - 1]) && |l.1| > limit
    decreases |lines|
  {
    if lines != [] {
      var init := lines[..|lines| - 1];
      LongLinesSound(init, limit);
      forall l | l in LongLines(init, limit)
        ensures l.1 == RStrip(lines[l.0 - 1])
      {
        assert lines[l.0 - 1] == init[l.0 - 1];
      }
    }
  }

  /** Reported lines come in strictly increasing order, so none twice. */
  lemma {:induction false} LongLinesOrdered(lines: seq<string>, limit: int)
    ensures forall j, k :: 0 <= j < k < |LongLines(lines, limit)| ==>
      LongLines(lines, limit)[j].0 < LongLines(lines, limit)[k].0
    decreases |lines|
  {
    if lines != [] {
      var init := lines[..|lines| - 1];
      LongLinesOrdered(init, limit);
      LongLinesSound(init, limit);
      var r0 := LongLines(init, limit);
      var r := LongLines(lines, limit);
      forall j, k | 0 <= j < k < |r|
        ensures r[j].0 < r[k].0
      {
        assert r[j] == r0[j] && r0[j] in r0;
        if k < |r0| {
          assert r[k] == r0[k];
          assert r0[j].0 < r0[k].0;
        }
      }
    }
  }

  /** Every line longer than the limit once right-stripped is reported. */
  lemma {:induction false} LongLinesComplete(lines: seq<string>, limit: int, i: int)
    requires 0 <= i < |lines| && |RStrip(lines[i])| > limit
    ensures (i + 1, RStrip(lines[i])) in LongLines(lines, limit)
    decreases |lines|
  {
    var init := lines[..|lines| - 1];
    if i < |init| {
      assert lines[i] == init[i];
      LongLinesComplete(init, limit, i);
    }
  }

  /** Each E001 error reports a line whose right-stripped length exceeds the
      limit, at 1-based line `index`, column `limit`, end column `length + 1`. */
  lemma LongLineErrorsSound(path: string, lines: seq<string>, limit: int)
    ensures forall e :: e in LongLineErrors(path, lines, limit) ==>
      && 1 <= e.line <= |lines|
      && |RStrip(lines[e.line - 1])| > limit
      && e == LongLineError(path, e.line, RStrip(lines[e.line - 1]), limit)
  {
    LongLinesSound(lines, limit);
    var ls := LongLines(lines, limit);
    var r := LongLineErrors(path, lines, limit);
    forall e | e in r
      ensures 1 <= e.line <= |lines| && e == LongLineError(path, e.line, RStrip(lines[e.line - 1]), limit)
    {
      var k :| 0 <= k < |r| && r[k] == e;
      var l := ls[k];
      assert l in ls;
      assert e == LongLineError(path, l.0, l.1, limit);
      assert e.line == l.0;
    }
  }

  /** E001 errors come out in strictly increasing line order. */
  lemma LongLineErrorsOrdered(path: string, lines: seq<string>, limit: int)
    ensures forall j, k :: 0 <= j < k < |LongLineErrors(path, lines, limit)| ==>
      LongLineErrors(path, lines, limit)[j].line < LongLineErrors(path, lines, limit)[k].line
  {
    LongLinesOrdered(lines, limit);
  }

  /** Every line whose right-stripped length exceeds the limit gets its E001 error. */
  lemma LongLineErrorsComplete(path: string, lines: seq<string>, limit: int, i: int)
    requires 0 <= i < |lines| && |RStrip(lines[i])| > limit
    ensures LongLineError(path, i + 1, RStrip(lines[i]), limit) in LongLineErrors(path, lines, limit)
  {
    var ls := LongLines(lines, limit);
    LongLinesComplete(lines, limit, i);
    var k :| 0 <= k < |ls| && ls[k] == (i + 1, RStrip(lines[i]));
    assert LongLineErrors(path, lines, limit)[k] == LongLineError(path, i + 1, RStrip(lines[i]), limit);
  }

  /** A line of exactly the limit (after right-stripping) gives no E001. */
  lemma LineAtLimitPasses(path: string, line: string)
    requires |RStrip(line)| == MaxLineLength
    ensures LongLineErrors(path, [line], MaxLineLength) == []
  {
    assert [line][..0] == [];
  }

  /** One character more gives exactly one E001 on line 1, reporting 81 > 80. */
  lemma LineOverLimitFails(path: string, line: string)
    requires |RStrip(line)| == MaxLineLength + 1
    ensures LongLineErrors(path, [line], MaxLineLength)
         == [ScriptError(Error("E001", "line too long (81 > 80)", None), path, 1, 80, 82)]
  {
    assert [line][..0] == [];
    assert LongLines([line], MaxLineLength) == [(1, RStrip(line))];
    OverLimitMessage();
  }

  lemma OverLimitMessage()
    ensures LongLineMessage(81, 80) == "line too long (81 > 80)"
  {
    assert NatToString(8) == "8";
    assert NatToString(81) == "81" && NatToString(80) == "80";
    var fs := [Literal("line too long ("), Number(81), Literal(" > "), Number(80), Literal(")")];
    assert fs[4..][1..] == [];
    assert Interpolate(fs[4..]) == ")";
    assert fs[3..][1..] == fs[4..];
    assert Interpolate(fs[3..]) == "80)";
    assert fs[2..][1..] == fs[3..];
    assert Interpolate(fs[2..]) == " > 80)";
    assert fs[1..][1..] == fs[2..];
    assert Interpolate(fs[1..]) == "81 > 80)";
  }

  /** `LineTooLong`: the E001 checker, which reads the script's lines. */
  class LineTooLong {
    const config: Config
    var errors: seq<ScriptError>
    const path: string

    /** The passed configuration is resolved and then not used: the checker
        always keeps a default configuration. */
    constructor (path: string, config: Option<Config>)
      ensures this.config == DefaultConfig() && this.path == path && errors == []
    {
      var resolved := ResolveConfig(config);
      this.config := DefaultConfig();
      this.errors := [];
      this.path := path;
    }

    /** `validate_lines`, over the lines `readlines()` returned. */
    method ValidateLines(lines: seq<string>) returns (r: seq<ScriptError>)
      modifies this`errors
      ensures errors == old(errors) + LongLineErrors(path, lines, config.lineLength)
      ensures r == errors
    {
      var index := 0;
      while index < |lines|
        invariant 0 <= index <= |lines|
        invariant errors == old(errors) + LongLineErrors(path, lines[..index], config.lineLength)
      {
        assert lines[..index + 1][..index] == lines[..index];
        var line := RStrip(lines[index]);
        if |line| > config.lineLength {
          errors := errors + [LongLineError(path, index + 1, line, config.lineLength)];
        }
        MapAppend(LongLines(lines[..index], config.lineLength),
                  if |line| > config.lineLength then [(index + 1, line)] else [],
                  LongLineErrorOf(path, config.lineLength));
        index := index + 1;
      }
      assert lines[..index] == lines;
      r := errors;
    }

    /** `LineTooLong.check`: a fresh checker, so errors never carry over;
        the limit is the default 80 whatever configuration is passed. */
    static method Check(path: string, lines: seq<string>, config: Option<Config>) returns (r: seq<ScriptError>)
      ensures r == LongLineErrors(path, lines, MaxLineLength)
    {
      var checker := new LineTooLong(path, config);
      r := checker.ValidateLines(lines);
    }
  }

  // ---------------------------------------------------------------- D001

  /** The comment tokens whose text starts with `##`, in comment order
      (the `docstrings` list `func_header` builds). */
  function Docstrings(comments: seq<Child>): (r: seq<Token>)
    ensures |r| <= |comments|
    decreases |comments|
  {
    if comments == [] then []
    else
      var c := comments[|comments| - 1];
      Docstrings(comments[..|comments| - 1])
        + (if c.TokenChild? && StartsWith(c.token.text, "##") then [c.token] else [])
  }

  /** A token is a docstring exactly when it is a `##` comment of the tree. */
  lemma {:induction false} DocstringsAreDocComments(comments: seq<Child>, x: Token)
    ensures x in Docstrings(comments) <==>
      exists i :: 0 <= i < |comments| && comments[i] == TokenChild(x) && StartsWith(x.text, "##")
    decreases |comments|
  {
    if comments != [] {
      var init := comments[..|comments| - 1];
      var c := comments[|comments| - 1];
      DocstringsAreDocComments(init, x);
      var last := if c.TokenChild? && StartsWith(c.token.text, "##") then [c.token] else [];
      assert Docstrings(comments) == Docstrings(init) + last;
      if x in Docstrings(init) {
        var i :| 0 <= i < |init| && init[i] == TokenChild(x) && StartsWith(x.text, "##");
        assert comments[i] == init[i];
      } else if x in last {
        assert comments[|init|] == TokenChild(x);
      } else {
        forall i | 0 <= i < |comments| && comments[i] == TokenChild(x)
          ensures !StartsWith(x.text, "##")
        {
          if i < |init| {
            assert init[i] == comments[i];
          }
        }
      }
    }
  }

  /** `any(docstring.line == line for docstring in docstrings)`; a token
      without a line never matches. */
  predicate AnyOnLine(docstrings: seq<Token>, line: int) {
    docstrings != [] && (docstrings[0].line == Some(line) || AnyOnLine(docstrings[1..], line))
  }

  lemma {:induction false} AnyOnLineIff(docstrings: seq<Token>, line: int)
    ensures AnyOnLine(docstrings, line) <==> exists k :: 0 <= k < |docstrings| && docstrings[k].line == Some(line)
  {
    if docstrings != [] {
      AnyOnLineIff(docstrings[1..], line);
      if exists k :: 0 <= k < |docstrings| && docstrings[k].line == Some(line) {
        var k :| 0 <= k < |docstrings| && docstrings[k].line == Some(line);
        if k > 0 {
          assert docstrings[1..][k - 1] == docstrings[k];
        }
      }
    }
  }

  /** Some docstring sits on the line right above `line`. */
  predicate DocumentedAt(comments: seq<Child>, line: int) {
    AnyOnLine(Docstrings(comments), line - 1)
  }

  /** The function name token, when the header's first child is a token. */
  predicate HasNameToken(t: Tree) {
    |t.children| > 0 && t.children[0].TokenChild?
  }

  /** The condition under which `func_header` reports D001: a public name
      (not starting with `_`) and no `##` comment on the line above. */
  predicate MissingDocstring(comments: seq<Child>, t: Tree) {
    HasNameToken(t) && !StartsWith(t.children[0].token.text, "_") && !DocumentedAt(comments, t.meta.line)
  }

  /** The D001 error: the header's line, the name token's columns, or the
      header's when the token has none. */
  function MissingDocstringError(path: string, t: Tree): ScriptError
    requires HasNameToken(t)
  {
    var name := t.children[0].token;
    ScriptError(Error(FunctionMissingDocsCodename, FunctionMissingDocsMessage, None),
                path, t.meta.line, name.column.GetOr(t.meta.column), name.endColumn.GetOr(t.meta.endColumn))
  }

  /** What `FunctionMissingDocstring.func_header` appends for one `func_header` node. */
  function FuncHeaderErrors(path: string, comments: Tree, t: Tree): seq<ScriptError>
  {
    if MissingDocstring(comments.children, t) then [MissingDocstringError(path, t)] else []
  }

  /** D001 is reported exactly when no `##` comment token of the comment tree
      has the line right above the header (for a public, token-named header). */
  lemma DocCommentAboveSilences(path: string, comments: Tree, t: Tree)
    requires HasNameToken(t) && !StartsWith(t.children[0].token.text, "_")
    ensures FuncHeaderErrors(path, comments, t) == [] <==>
      exists i :: 0 <= i < |comments.children| && comments.children[i].TokenChild?
        && StartsWith(comments.children[i].token.text, "##")
        && comments.children[i].token.line == Some(t.meta.line - 1)
  {
    var cs := comments.children;
    var ds := Docstrings(cs);
    AnyOnLineIff(ds, t.meta.line - 1);
    if DocumentedAt(cs, t.meta.line) {
      var k :| 0 <= k < |ds| && ds[k].line == Some(t.meta.line - 1);
      DocstringsAreDocComments(cs, ds[k]);
    }
    if exists i :: 0 <= i < |cs| && cs[i].TokenChild? && StartsWith(cs[i].token.text, "##")
        && cs[i].token.line == Some(t.meta.line - 1) {
      var i :| 0 <= i < |cs| && cs[i].TokenChild? && StartsWith(cs[i].token.text, "##")
        && cs[i].token.line == Some(t.meta.line - 1);
      DocstringsAreDocComments(cs, cs[i].token);
      var k :| 0 <= k < |ds| && ds[k] == cs[i].token;
    }
  }

  /** Headers whose name starts with `_`, or whose first child is not a token, are never reported. */
  lemma PrivateOrUnnamedNeverReported(path: string, comments: Tree, t: Tree)
    requires !HasNameToken(t) || StartsWith(t.children[0].token.text, "_")
    ensures FuncHeaderErrors(path, comments, t) == []
  {
  }
}
