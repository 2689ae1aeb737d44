/**
 * `# noqa` directives (node8/services/noqa.py): parsing one comment token
 * into a directive, and collecting the directives of a comment tree.
 */
module Noqa {
  import opened Wrappers
  import opened Text
  import opened Lark
  import opened Models

  /** The characters `lstrip("# ")` removes: a set, so any mix of `#` and spaces. */
  const CommentMarkers: set<char> := {'#', ' '}

  /** The words of a comment after its leading markers: `str(comment).lstrip("# ").split()`. */
  function CommentWords(text: string): seq<string> {
    Words(LStrip(text, CommentMarkers))
  }

  /** The codes after `noqa:`: each word with one trailing comma removed,
      up to and including the first word that does not end in a comma. */
  function CollectCodes(words: seq<string>): (codes: seq<string>)
    ensures |codes| <= |words|
  {
    if words == [] then []
    else [RemoveSuffix(words[0], ",")] + (if EndsWith(words[0], ",") then CollectCodes(words[1..]) else [])
  }

  /** The collected codes are the words up to and including the first one
      without a trailing comma (or all words, if every one has it), each with
      that comma removed. */
  lemma {:induction false} CollectCodesStopsAfterFirstBareWord(words: seq<string>)
    ensures var codes := CollectCodes(words);
      && (forall i :: 0 <= i < |codes| ==> codes[i] == RemoveSuffix(words[i], ","))
      && (forall i :: 0 <= i < |codes| - 1 ==> EndsWith(words[i], ","))
      && (|codes| < |words| ==> |codes| > 0 && !EndsWith(words[|codes| - 1], ","))
  {
    if words != [] && EndsWith(words[0], ",") {
      CollectCodesStopsAfterFirstBareWord(words[1..]);
    }
  }

  /** What `_get_ignore_token` returns for a comment token. */
  function ParseIgnore(comment: Token): (r: Option<NoqaIgnore>)
    ensures r.Some? ==> comment.line == Some(r.value.line)
    ensures r.Some? && r.value.ignoreAll ==> r.value.ignores == []
  {
    if comment.line.None? then None
    else
      var words := CommentWords(comment.text);
      if |words| == 0 then None
      else if words[0] == "noqa" then Some(NoqaIgnore(comment.line.value, [], true))
      else if words[0] != "noqa:" then None
      else Some(NoqaIgnore(comment.line.value, CollectCodes(words[1..]), false))
  }

  /** `_get_ignore_token`: pops the first word, then collects codes in a loop that stops
      after the first word without a trailing comma. */
  method GetIgnoreToken(comment: Token) returns (r: Option<NoqaIgnore>)
    ensures r == ParseIgnore(comment)
  {
    if comment.line.None? {
      return None;
    }
    var commentText := Words(LStrip(comment.text, CommentMarkers));
    if |commentText| <= 0 {
      return None;
    }
    var first := commentText[0];
    commentText := commentText[1..];
    if first == "noqa" {
      return Some(NoqaIgnore(comment.line.value, [], true));
    }
    if first != "noqa:" {
      return None;
    }
    var ignores := CollectIgnores(commentText);
    return Some(NoqaIgnore(comment.line.value, ignores, false));
  }

  /** The code-collecting loop of `_get_ignore_token`, over the words after `noqa:`. */
  method CollectIgnores(words: seq<string>) returns (ignores: seq<string>)
    ensures ignores == CollectCodes(words)
  {
    ignores := [];
    var i := 0;
    while i < |words|
      invariant 0 <= i <= |words|
      invariant ignores + CollectCodes(words[i..]) == CollectCodes(words)
    {
      var word := words[i];
      CollectCodesStep(words, i, ignores);
      ignores := ignores + [RemoveSuffix(word, ",")];
      if !EndsWith(word, ",") {
        return;
      }
      i := i + 1;
    }
    assert words[i..] == [];
  }

  /** One turn of the code-collecting loop keeps what is collected plus what
      is still to collect equal to all the codes. */
  lemma CollectCodesStep(words: seq<string>, i: int, ignores: seq<string>)
    requires 0 <= i < |words|
    requires ignores + CollectCodes(words[i..]) == CollectCodes(words)
    ensures var collected := ignores + [RemoveSuffix(words[i], ",")];
      && (EndsWith(words[i], ",") ==> collected + CollectCodes(words[i + 1..]) == CollectCodes(words))
      && (!EndsWith(words[i], ",") ==> collected == CollectCodes(words))
  {
    var code := RemoveSuffix(words[i], ",");
    var later := if EndsWith(words[i], ",") then CollectCodes(words[i + 1..]) else [];
    assert words[i..][1..] == words[i + 1..];
    assert CollectCodes(words[i..]) == [code] + later;
    assert ignores + [code] + later == ignores + ([code] + later);
  }

  /** The directive a comment-tree child contributes: none for a subtree,
      and none for a token that is not a directive. */
  function DirectiveOf(c: Child): seq<NoqaIgnore> {
    if c.TokenChild? && ParseIgnore(c.token).Some? then [ParseIgnore(c.token).value] else []
  }

  /** What `get_ignores_tree` returns for these comment-tree children. */
  function IgnoresOf(children: seq<Child>): (r: seq<NoqaIgnore>)
    ensures |r| <= |children|
    decreases |children|
  {
    if children == [] then []
    else IgnoresOf(children[..|children| - 1]) + DirectiveOf(children[|children| - 1])
  }

  /** `get_ignores_tree`: skips non-token children and appends each parsed directive. */
  method GetIgnoresTree(commentTree: Tree) returns (noqaIgnores: seq<NoqaIgnore>)
    ensures noqaIgnores == IgnoresOf(commentTree.children)
  {
    noqaIgnores := [];
    var i := 0;
    while i < |commentTree.children|
      invariant 0 <= i <= |commentTree.children|
      invariant noqaIgnores == IgnoresOf(commentTree.children[..i])
    {
      var comment := commentTree.children[i];
      assert commentTree.children[..i + 1][..i] == commentTree.children[..i];
      if comment.TokenChild? {
        var noqaIgnore := GetIgnoreToken(comment.token);
        if noqaIgnore.Some? {
          noqaIgnores := noqaIgnores + [noqaIgnore.value];
        }
      }
      i := i + 1;
    }
    assert commentTree.children[..i] == commentTree.children;
  }

  /** Directives keep the order of their comments: collecting over two runs of
      children is collecting over each run in turn. */
  lemma {:induction false} IgnoresOfAppend(a: seq<Child>, b: seq<Child>)
    ensures IgnoresOf(a + b) == IgnoresOf(a) + IgnoresOf(b)
    decreases |b|
  {
    if b == [] {
      assert a + b == a;
    } else {
      assert (a + b)[..|a + b| - 1] == a + b[..|b| - 1];
      IgnoresOfAppend(a, b[..|b| - 1]);
    }
  }

  /** Every collected directive comes from a comment token of the tree, and
      carries that comment's line. */
  lemma {:induction false} IgnoresOfSources(children: seq<Child>)
    ensures forall d :: d in IgnoresOf(children) ==>
      exists i :: 0 <= i < |children| && children[i].TokenChild?
        && ParseIgnore(children[i].token) == Some(d) && children[i].token.line == Some(d.line)
    decreases |children|
  {
    if children != [] {
      var init := children[..|children| - 1];
      IgnoresOfSources(init);
      forall d | d in IgnoresOf(children)
        ensures exists i :: (0 <= i < |children| && children[i].TokenChild?
          && ParseIgnore(children[i].token) == Some(d) && children[i].token.line == Some(d.line))
      {
        if d in IgnoresOf(init) {
          var i :| 0 <= i < |init| && init[i].TokenChild?
            && ParseIgnore(init[i].token) == Some(d) && init[i].token.line == Some(d.line);
          assert children[i] == init[i];
        } else {
          assert d in DirectiveOf(children[|children| - 1]);
        }
      }
    }
  }

  /** Conversely, every comment token that parses to a directive contributes
      that directive. */
  lemma {:induction false} IgnoresOfComplete(children: seq<Child>, i: int)
    requires 0 <= i < |children| && children[i].TokenChild? && ParseIgnore(children[i].token).Some?
    ensures ParseIgnore(children[i].token).value in IgnoresOf(children)
    decreases |children|
  {
    var last := |children| - 1;
    var init := children[..last];
    assert IgnoresOf(children) == IgnoresOf(init) + DirectiveOf(children[last]);
    if i == last {
      assert DirectiveOf(children[last]) == [ParseIgnore(children[i].token).value];
    } else {
      assert init[i] == children[i];
      IgnoresOfComplete(init, i);
    }
  }

  /** Stripping a run of marker characters in front of a text that does not
      start with one leaves exactly that text. */
  lemma {:induction false} LStripMarkers(markers: string, s: string)
    requires forall i :: 0 <= i < |markers| ==> markers[i] in CommentMarkers
    requires s == [] || s[0] !in CommentMarkers
    ensures LStrip(markers + s, CommentMarkers) == s
    decreases |markers|
  {
    if markers != [] {
      assert (markers + s)[1..] == markers[1..] + s;
      LStripMarkers(markers[1..], s);
    } else {
      assert markers + s == s;
    }
  }

  /** A comment whose text, once its leading `#` and spaces are stripped,
      opens with the word `noqa` silences every rule on its line, whatever
      whitespace (tabs, runs of spaces) and words follow. */
  lemma BareNoqaOnRawText(text: string, rest: string, line: int, column: Option<int>, endColumn: Option<int>)
    requires LStrip(text, CommentMarkers) == "noqa" + rest
    requires rest == [] || IsSpace(rest[0])
    ensures ParseIgnore(Token(text, Some(line), column, endColumn)) == Some(NoqaIgnore(line, [], true))
  {
    WordsOfLeadingWord("noqa", rest);
    assert CommentWords(text)[0] == "noqa";
  }

  /** A comment whose stripped text opens with the word `noqa:` gives a
      directive for its line naming the codes collected from the words after it. */
  lemma NoqaColonOnRawText(text: string, rest: string, line: int, column: Option<int>, endColumn: Option<int>)
    requires LStrip(text, CommentMarkers) == "noqa:" + rest
    requires rest == [] || IsSpace(rest[0])
    ensures ParseIgnore(Token(text, Some(line), column, endColumn))
         == Some(NoqaIgnore(line, CollectCodes(Words(rest)), false))
  {
    WordsOfLeadingWord("noqa:", rest);
    var words := CommentWords(text);
    assert words[0] == "noqa:" && words[1..] == Words(rest);
  }

  /** The parse seen through the words of the comment. */
  lemma ParseIgnoreOfWords(comment: Token, words: seq<string>)
    requires comment.line.Some? && CommentWords(comment.text) == words
    ensures words != [] && words[0] == "noqa" ==> ParseIgnore(comment) == Some(NoqaIgnore(comment.line.value, [], true))
    ensures words != [] && words[0] == "noqa:" ==> ParseIgnore(comment) == Some(NoqaIgnore(comment.line.value, CollectCodes(words[1..]), false))
    ensures words != [] && words[0] != "noqa" && words[0] != "noqa:" ==> ParseIgnore(comment) == None
  {
  }

  /** A comment written as marker characters followed by space-separated words
      is read back as exactly those words. */
  lemma CommentWordsOf(markers: string, words: seq<string>)
    requires forall i :: 0 <= i < |markers| ==> markers[i] in CommentMarkers
    requires WellFormedWords(words)
    requires words != [] ==> words[0][0] !in CommentMarkers
    ensures CommentWords(markers + JoinSpaces(words)) == words
  {
    if words != [] && |words| > 1 {
      assert JoinSpaces(words)[0] == words[0][0];
    }
    LStripMarkers(markers, JoinSpaces(words));
    WordsOfJoin(words);
  }

  /** A first word exactly `noqa` silences every rule on the comment's line,
      whatever words follow it. */
  lemma NoqaSilencesAll(markers: string, rest: seq<string>, line: int, column: Option<int>, endColumn: Option<int>)
    requires forall i :: 0 <= i < |markers| ==> markers[i] in CommentMarkers
    requires WellFormedWords(rest)
    ensures ParseIgnore(Token(markers + JoinSpaces(["noqa"] + rest), Some(line), column, endColumn))
         == Some(NoqaIgnore(line, [], true))
  {
    var words := ["noqa"] + rest;
    assert words[0] == "noqa";
    WellFormedCons("noqa", rest);
    CommentWordsOf(markers, words);
    ParseIgnoreOfWords(Token(markers + JoinSpaces(words), Some(line), column, endColumn), words);
  }

  /** A first word exactly `noqa:` gives a directive that silences the collected codes. */
  lemma NoqaColonCollects(markers: string, rest: seq<string>, line: int, column: Option<int>, endColumn: Option<int>)
    requires forall i :: 0 <= i < |markers| ==> markers[i] in CommentMarkers
    requires WellFormedWords(rest)
    ensures ParseIgnore(Token(markers + JoinSpaces(["noqa:"] + rest), Some(line), column, endColumn))
         == Some(NoqaIgnore(line, CollectCodes(rest), false))
  {
    var words := ["noqa:"] + rest;
    assert words[0] == "noqa:" && words[1..] == rest;
    WellFormedCons("noqa:", rest);
    CommentWordsOf(markers, words);
    ParseIgnoreOfWords(Token(markers + JoinSpaces(words), Some(line), column, endColumn), words);
  }

  /** `# noqa: A001, A002 trailing` names A001 and A002; collection stops after `A002`. */
  lemma TrailingWordsIgnored(text: string, line: int)
    requires text == "# noqa: A001, A002 trailing"
    ensures ParseIgnore(Token(text, Some(line), None, None)) == Some(NoqaIgnore(line, ["A001", "A002"], false))
  {
    var rest := ["A001,", "A002", "trailing"];
    assert text == "# " + "noqa: A001, A002 trailing";
    TrailingExampleWords(rest);
    NoqaColonCollects("# ", rest, line, None, None);
  }

  /** The words of the example comment, read both ways. */
  lemma TrailingExampleWords(rest: seq<string>)
    requires rest == ["A001,", "A002", "trailing"]
    ensures JoinSpaces(["noqa:"] + rest) == "noqa: A001, A002 trailing"
    ensures CollectCodes(rest) == ["A001", "A002"]
    ensures WellFormedWords(rest)
  {
    TrailingExampleJoin(rest);
    TrailingExampleCodes(rest);
  }

  lemma TrailingExampleJoin(rest: seq<string>)
    requires rest == ["A001,", "A002", "trailing"]
    ensures JoinSpaces(["noqa:"] + rest) == "noqa: A001, A002 trailing"
  {
    var words := ["noqa:"] + rest;
    assert words[1..] == rest && |words| == 4;
    TrailingExampleJoinRest(rest);
  }

  lemma TrailingExampleJoinRest(rest: seq<string>)
    requires rest == ["A001,", "A002", "trailing"]
    ensures JoinSpaces(rest) == "A001, A002 trailing"
  {
    assert rest[1..] == ["A002", "trailing"] && rest[1..][1..] == ["trailing"];
    assert JoinSpaces(rest[1..]) == "A002 trailing";
  }

  lemma TrailingExampleCodes(rest: seq<string>)
    requires rest == ["A001,", "A002", "trailing"]
    ensures CollectCodes(rest) == ["A001", "A002"]
  {
    assert rest[1..] == ["A002", "trailing"];
    assert EndsWith("A001,", ",") && RemoveSuffix("A001,", ",") == "A001";
    assert !EndsWith("A002", ",") && RemoveSuffix("A002", ",") == "A002";
    assert CollectCodes(rest[1..]) == ["A002"];
  }

  /** Words are split on whitespace only: `# noqa: A,B` names the single code `A,B`. */
  lemma CommaJoinedCodesStayTogether(text: string, line: int)
    requires text == "# noqa: A,B"
    ensures ParseIgnore(Token(text, Some(line), None, None)) == Some(NoqaIgnore(line, ["A,B"], false))
  {
    assert ["noqa:"] + ["A,B"] == ["noqa:", "A,B"];
    assert text == "# " + JoinSpaces(["noqa:", "A,B"]);
    assert WellFormedWords(["A,B"]);
    NoqaColonCollects("# ", ["A,B"], line, None, None);
    assert !EndsWith("A,B", ",") && RemoveSuffix("A,B", ",") == "A,B";
    assert CollectCodes(["A,B"]) == ["A,B"];
  }

  /** Without a space after the colon the first word is `noqa:E001`, which is not a directive. */
  lemma GluedCodeIsNoDirective(text: string, line: int)
    requires text == "# noqa:E001"
    ensures ParseIgnore(Token(text, Some(line), None, None)) == None
  {
    assert text == "# " + JoinSpaces(["noqa:E001"]);
    assert WellFormedWords(["noqa:E001"]);
    CommentWordsOf("# ", ["noqa:E001"]);
    ParseIgnoreOfWords(Token(text, Some(line), None, None), ["noqa:E001"]);
  }

  /** `# noqa:` alone is a directive that names no code and silences nothing by name. */
  lemma BareColonNamesNothing(text: string, line: int)
    requires text == "# noqa:"
    ensures ParseIgnore(Token(text, Some(line), None, None)) == Some(NoqaIgnore(line, [], false))
  {
    assert text == "# " + JoinSpaces(["noqa:"] + []);
    NoqaColonCollects("# ", [], line, None, None);
  }

  /** A comment that is only markers and whitespace is no directive. */
  lemma BlankCommentIsNoDirective(text: string, line: int)
    requires AllSpace(LStrip(text, CommentMarkers))
    ensures ParseIgnore(Token(text, Some(line), None, None)) == None
  {
    WordsEmptyIffAllSpace(LStrip(text, CommentMarkers));
  }
}
