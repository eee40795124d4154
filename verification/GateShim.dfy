/**
 The shim an old `pdx setup` wrote for a tool, and the test that tells such a shim
 from any other file (cmd/pdx/gate_shim_owned.go).
 */
module GateShim {
  import opened Outcomes
  import opened Text

  // ---- quoting -----------------------------------------------------------

  /** The characters a backslash escapes inside double quotes: section 2.2.3 of the POSIX Shell Command Language. */
  predicate Special(c: char) {
    c == '\\' || c == '"' || c == '$' || c == '`'
  }

  function QuoteChar(c: char): string {
    if Special(c) then ['\\', c] else [c]
  }

  /** shQuoteInner: a one-character replacer. */
  function Quote(s: string): string {
    if s == [] then [] else QuoteChar(s[0]) + Quote(s[1..])
  }

  /** shUnquoteInner: at each position the escapes are tried first, anything else is copied. */
  function Unquote(s: string): string {
    if s == [] then []
    else if |s| >= 2 && s[0] == '\\' && Special(s[1]) then [s[1]] + Unquote(s[2..])
    else [s[0]] + Unquote(s[1..])
  }

  lemma {:induction false} UnquoteQuote(s: string)
    ensures Unquote(Quote(s)) == s
  {
    if s != [] {
      UnquoteQuote(s[1..]);
      var q := Quote(s);
      if Special(s[0]) {
        assert q[2..] == Quote(s[1..]);
      } else {
        assert q[1..] == Quote(s[1..]);
      }
    }
  }

  /** Inside quoted text a double quote always follows a backslash. */
  lemma {:induction false} QuotesAreEscaped(s: string, i: nat)
    requires i < |Quote(s)| && Quote(s)[i] == '"'
    ensures i > 0 && Quote(s)[i - 1] == '\\'
  {
    var n := |QuoteChar(s[0])|;
    if i >= n {
      QuotesAreEscaped(s[1..], i - n);
    }
  }

  // ---- the script --------------------------------------------------------

  const HEAD := "PDX_BIN=\"${PDX_BIN:-"
  const CLOSE := "}\"\n"

  const WRITTEN := "#!/bin/sh\n# Written by `pdx setup` (pdx"
  const GATE_OF := " gate shim for "
  const REWRITTEN := "); rewritten by it, removed by"
  const REMOVED := " `pdx setup --uninstall-gate`.\n"

  function Before(tool: string): string {
    WRITTEN + (GATE_OF + (tool + (REWRITTEN + REMOVED)))
  }

  /** The lines after the path line, for each tool: the results below hold whatever they are. */
  type Body = string -> string

  /** A script with the path in its place. */
  function Script(before: string, pdxPath: string, rest: string): string {
    before + (HEAD + (Quote(pdxPath) + (CLOSE + rest)))
  }

  function ShimScript(body: Body, tool: string, pdxPath: string): string {
    Script(Before(tool), pdxPath, body(tool))
  }

  /** shimPdxPath. */
  function ShimPdxPath(content: string): Option<string> {
    match Index(content, HEAD)
    case None => None
    case Some(i) =>
      var rest := content[i + |HEAD|..];
      match Index(rest, CLOSE)
      case None => None
      case Some(j) => Some(Unquote(rest[..j]))
  }

  /** content is the script for the path it names. */
  predicate Accepts(content: string, before: string, rest: string) {
    var pdx := ShimPdxPath(content);
    pdx.Some? && Script(before, pdx.value, rest) == content
  }

  /** isShimOf over what reading the file gave. */
  predicate IsShimOf(body: Body, file: Option<string>, tool: string) {
    file.Some? && Accepts(file.value, Before(tool), body(tool))
  }

  // ---- finding the path again --------------------------------------------

  lemma PlainConcat(a: string, b: string)
    requires '$' !in a && '$' !in b
    ensures '$' !in a + b
  {
  }

  lemma TextIsPlain()
    ensures '$' !in WRITTEN && '$' !in GATE_OF
  {
  }

  lemma MoreTextIsPlain()
    ensures '$' !in REWRITTEN && '$' !in REMOVED
  {
  }

  lemma BeforeIsPlain(tool: string)
    requires '$' !in tool
    ensures '$' !in Before(tool)
  {
    TextIsPlain();
    MoreTextIsPlain();
    PlainConcat(REWRITTEN, REMOVED);
    PlainConcat(tool, REWRITTEN + REMOVED);
    PlainConcat(GATE_OF, tool + (REWRITTEN + REMOVED));
    PlainConcat(WRITTEN, GATE_OF + (tool + (REWRITTEN + REMOVED)));
  }

  /** Head's `$` is the first of the text, so Head is found there and nowhere earlier. */
  lemma HeadIsFound(before: string, after: string)
    requires '$' !in before
    ensures Index(before + (HEAD + after), HEAD) == Some(|before|)
  {
    var s := before + (HEAD + after);
    assert s[|before|..|before| + |HEAD|] == HEAD;
    forall j | 0 <= j < |before|
      ensures !At(s, HEAD, j)
    {
      if At(s, HEAD, j) {
        assert s[j..j + |HEAD|][9] == s[j + 9] && HEAD[9] == '$';
        NoDollarBefore(before, after, j + 9);
      }
    }
    IndexIs(s, HEAD, |before|);
  }

  lemma NoDollarBefore(before: string, after: string, k: nat)
    requires '$' !in before && k < |before| + 9
    ensures (before + (HEAD + after))[k] != '$'
  {
    var s := before + (HEAD + after);
    if k < |before| {
      assert s[k] == before[k];
    } else {
      assert s[k] == HEAD[k - |before|];
    }
  }

  /** The closing `}"` cannot begin inside the quoted path. */
  lemma CloseIsFound(p: string, after: string)
    ensures Index(Quote(p) + (CLOSE + after), CLOSE) == Some(|Quote(p)|)
  {
    var q := Quote(p);
    var s := q + (CLOSE + after);
    assert s[|q|..|q| + 3] == CLOSE;
    forall j | 0 <= j < |q|
      ensures !At(s, CLOSE, j)
    {
      if At(s, CLOSE, j) {
        assert s[j..j + 3][0] == s[j] && s[j..j + 3][1] == s[j + 1];
        if j + 1 < |q| {
          QuotesAreEscaped(p, j + 1);
        }
      }
    }
    IndexIs(s, CLOSE, |q|);
  }

  lemma AfterPrefix(a: string, b: string, c: string)
    ensures (a + (b + c))[|a| + |b|..] == c
  {
  }

  lemma PrefixOf(a: string, b: string)
    ensures (a + b)[..|a|] == a
  {
  }

  lemma ScriptPathIsRecovered(before: string, p: string, rest: string)
    requires '$' !in before
    ensures ShimPdxPath(Script(before, p, rest)) == Some(p)
  {
    var tail := Quote(p) + (CLOSE + rest);
    HeadIsFound(before, tail);
    AfterPrefix(before, HEAD, tail);
    CloseIsFound(p, rest);
    PrefixOf(Quote(p), CLOSE + rest);
    UnquoteQuote(p);
  }

  /** The path written into a shim is found again in it, whatever the path. */
  lemma PathIsRecovered(body: Body, tool: string, p: string)
    requires '$' !in tool
    ensures ShimPdxPath(ShimScript(body, tool, p)) == Some(p)
  {
    BeforeIsPlain(tool);
    ScriptPathIsRecovered(Before(tool), p, body(tool));
  }

  const SHIM_TOOLS := ["go", "pnpm", "npx", "vitest", "tsc", "composer", "xcodebuild",
                       "swift", "swift-build", "swift-test"]

  /** The tools setup wrote shims for are ones the results below are about. */
  lemma ToolsArePlain(tool: string)
    requires tool in SHIM_TOOLS
    ensures '$' !in tool
  {
  }

  /** content is the script for some path. */
  ghost predicate IsScript(content: string, before: string, rest: string) {
    exists p :: Script(before, p, rest) == content
  }

  lemma AcceptsExactlyTheScripts(content: string, before: string, rest: string)
    requires '$' !in before
    ensures Accepts(content, before, rest) <==> IsScript(content, before, rest)
  {
    if IsScript(content, before, rest) {
      var p :| Script(before, p, rest) == content;
      ScriptPathIsRecovered(before, p, rest);
    }
  }

  /** isShimOf accepts a content for a tool exactly when the generator prints it for some path. */
  lemma AcceptsExactlyTheShims(body: Body, content: string, tool: string)
    requires '$' !in tool
    ensures IsShimOf(body, Some(content), tool) <==> exists p :: ShimScript(body, tool, p) == content
  {
    BeforeIsPlain(tool);
    var before, rest := Before(tool), body(tool);
    AcceptsExactlyTheScripts(content, before, rest);
    if p :| Script(before, p, rest) == content {
      assert ShimScript(body, tool, p) == content;
    }
    if p :| ShimScript(body, tool, p) == content {
      assert Script(before, p, rest) == content;
    }
  }

  /** No two paths print the same shim. */
  lemma PathIsUnique(body: Body, tool: string, p: string, q: string)
    requires '$' !in tool && ShimScript(body, tool, p) == ShimScript(body, tool, q)
    ensures p == q
  {
    PathIsRecovered(body, tool, p);
    PathIsRecovered(body, tool, q);
  }

  // ---- what a shell makes of the path line ---------------------------------

  /**
   The word of a double-quoted ${VAR:-word} as sections 2.2.3 and 2.6.2 of the POSIX Shell
   Command Language read it: a backslash escapes the special characters and removes a
   newline, an unescaped `}` ends the word; None when another expansion or the end of the
   quotes comes first. The result is the word's value and the text after it.
   */
  function ShellDefault(s: string): Option<(string, string)> {
    if s == [] then None
    else if s[0] == '}' then Some(("", s[1..]))
    else if s[0] == '\\' && |s| >= 2 && Special(s[1]) then Prepend([s[1]], ShellDefault(s[2..]))
    else if s[0] == '\\' && |s| >= 2 && s[1] == '\n' then ShellDefault(s[2..])
    else if s[0] == '\\' then Prepend(['\\'], ShellDefault(s[1..]))
    else if Special(s[0]) then None
    else Prepend([s[0]], ShellDefault(s[1..]))
  }

  function Prepend(c: string, r: Option<(string, string)>): Option<(string, string)> {
    match r case None => None case Some((v, t)) => Some((c + v, t))
  }

  /** The shell reads the path up to its first `}`. */
  lemma {:induction false} ShellReadsToBrace(p: string, t: string)
    requires '}' !in p
    ensures ShellDefault(Quote(p) + ("}" + t)) == Some((p, t))
  {
    var s := Quote(p) + ("}" + t);
    if p == [] {
      assert s == "}" + t && s[1..] == t;
    } else {
      ShellReadsToBrace(p[1..], t);
      var rest := Quote(p[1..]) + ("}" + t);
      if Special(p[0]) {
        assert s[2..] == rest && s[0] == '\\' && s[1] == p[0];
      } else {
        assert s[1..] == rest && s[0] == p[0];
      }
      assert [p[0]] + p[1..] == p;
    }
  }

  /** The shell reads only the part before the first `}` when there is one. */
  lemma ShellStopsAtBrace(a: string, b: string, t: string)
    requires '}' !in a
    ensures ShellDefault(Quote(a + ("}" + b)) + ("}" + t)) == Some((a, Quote(b) + ("}" + t)))
  {
    QuoteConcat(a, "}" + b);
    assert ("}" + b)[1..] == b;
    Reassociate(Quote(a), "}", Quote(b), "}" + t);
    ShellReadsToBrace(a, Quote(b) + ("}" + t));
  }

  lemma Reassociate(a: string, b: string, c: string, d: string)
    ensures (a + (b + c)) + d == a + (b + (c + d))
  {
  }

  /**
   The rest of the double-quoted word, up to its closing quote: a backslash escapes as before,
   a `}` is an ordinary character; None when another expansion or the end of the text comes first.
   */
  function ShellQuoted(s: string): Option<(string, string)> {
    if s == [] then None
    else if s[0] == '"' then Some(("", s[1..]))
    else if s[0] == '\\' && |s| >= 2 && Special(s[1]) then Prepend([s[1]], ShellQuoted(s[2..]))
    else if s[0] == '\\' && |s| >= 2 && s[1] == '\n' then ShellQuoted(s[2..])
    else if s[0] == '\\' then Prepend(['\\'], ShellQuoted(s[1..]))
    else if Special(s[0]) then None
    else Prepend([s[0]], ShellQuoted(s[1..]))
  }

  /**
   What PDX_BIN becomes by the path line, s being the text after its `${PDX_BIN:-`: the variable's
   own value when it is set and not empty, else the default, and then the rest of the quoted word.
   */
  function ShellAssigns(current: Option<string>, s: string): Option<(string, string)> {
    match ShellDefault(s)
    case None => None
    case Some((word, t)) =>
      Prepend(if current.Some? && current.value != "" then current.value else word, ShellQuoted(t))
  }

  lemma ClosingIsRead(t: string)
    ensures ShellQuoted("}" + ("\"" + t)) == Some(("}", t))
  {
    var rest := "\"" + t;
    assert rest[0] == '"' && rest[1..] == t;
    assert ShellQuoted(rest) == Some(("", t));
    assert ("}" + rest)[0] == '}' && ("}" + rest)[1..] == rest;
    assert ['}'] + "" == "}";
  }

  lemma {:induction false} QuotedIsRead(b: string, t: string)
    ensures ShellQuoted(Quote(b) + ("}\"" + t)) == Some((b + "}", t))
  {
    var s := Quote(b) + ("}\"" + t);
    if b == [] {
      assert s == "}" + ("\"" + t) && b + "}" == "}";
      ClosingIsRead(t);
    } else {
      QuotedIsRead(b[1..], t);
      var rest := Quote(b[1..]) + ("}\"" + t);
      if Special(b[0]) {
        assert s[2..] == rest && s[0] == '\\' && s[1] == b[0];
      } else {
        assert s[1..] == rest && s[0] == b[0];
      }
      assert [b[0]] + (b[1..] + "}") == b + "}";
    }
  }

  /** What the path after its first `}` adds to the value; nothing when it holds none. */
  function Spill(p: string): string {
    if '}' !in p then "" else p[FirstBrace(p) + 1..] + "}"
  }

  /** The part of the path that is read as the default. */
  function UpToBrace(p: string): string {
    if '}' !in p then p else p[..FirstBrace(p)]
  }

  function PathValue(current: Option<string>, p: string): string {
    (if current.Some? && current.value != "" then current.value else UpToBrace(p)) + Spill(p)
  }

  /** The value of PDX_BIN after the path line, for every path and every value before it. */
  lemma ShellValue(current: Option<string>, p: string, t: string)
    ensures ShellAssigns(current, Quote(p) + ("}\"" + t)) == Some((PathValue(current, p), t))
  {
    SplitClose(t);
    if '}' !in p {
      ShellReadsToBrace(p, "\"" + t);
      assert ("\"" + t)[1..] == t;
    } else {
      var k := FirstBrace(p);
      CutBrace(p, k);
      ShellStopsAtBrace(p[..k], p[k + 1..], "\"" + t);
      QuotedIsRead(p[k + 1..], t);
    }
  }

  lemma SplitClose(t: string)
    ensures "}\"" + t == "}" + ("\"" + t)
  {
  }

  predicate AllBraces(s: string) {
    forall i :: 0 <= i < |s| ==> s[i] == '}'
  }

  /** Moving a brace from the front to the end changes nothing exactly in a text of braces. */
  lemma {:induction false} BraceMoves(b: string)
    ensures "}" + b == b + "}" <==> AllBraces(b)
  {
    if "}" + b == b + "}" {
      BracesFollow(b, |b|);
    }
  }

  lemma {:induction false} BracesFollow(b: string, n: nat)
    requires "}" + b == b + "}" && n <= |b|
    ensures AllBraces(b[..n])
  {
    if n > 0 {
      BracesFollow(b, n - 1);
      assert ("}" + b)[n - 1] == (b + "}")[n - 1] == b[n - 1];
      if n > 1 {
        assert ("}" + b)[n - 1] == b[n - 2] == b[..n - 1][n - 2];
      }
    }
  }

  /**
   With PDX_BIN unset or empty the shim calls the pdx it was written for if and only if the path
   holds no `}`, or nothing but `}` after its first one.
   */
  lemma ShellReadsPathBack(p: string, t: string)
    ensures ShellAssigns(None, Quote(p) + ("}\"" + t)) == Some((p, t))
       <==> '}' !in p || AllBraces(p[FirstBrace(p) + 1..])
  {
    ShellValue(None, p, t);
    PathValueIff(p);
  }

  lemma PathValueIff(p: string)
    ensures PathValue(None, p) == p <==> '}' !in p || AllBraces(p[FirstBrace(p) + 1..])
  {
    if '}' in p {
      var k := FirstBrace(p);
      CutBrace(p, k);
      ReadBackIff(p[..k], p[k + 1..]);
    } else {
      assert p + "" == p;
    }
  }

  lemma ReadBackIff(a: string, b: string)
    ensures a + (b + "}") == a + ("}" + b) <==> AllBraces(b)
  {
    BraceMoves(b);
    SameAfter(a, "}" + b, b + "}");
  }

  /** A PDX_BIN that is set wins, untouched exactly when the path written into the shim holds no `}`. */
  lemma ShellKeepsOverride(v: string, p: string, t: string)
    requires v != ""
    ensures ShellAssigns(Some(v), Quote(p) + ("}\"" + t)) == Some((v, t)) <==> '}' !in p
  {
    ShellValue(Some(v), p, t);
    assert v + Spill(p) == v <==> |Spill(p)| == 0;
  }

  /** A path that is not read back: the shim for `/a}b` calls `/ab}`. */
  lemma BraceInPathIsMisread(t: string)
    ensures ShellAssigns(None, Quote("/a}b") + ("}\"" + t)) == Some(("/ab}", t))
  {
    var p := "/a}b";
    assert p[2] == '}';
    assert FirstBrace(p) == 2;
    ShellValue(None, p, t);
    assert p[..2] == "/a" && p[3..] == "b";
    assert "/a" + ("b" + "}") == "/ab}";
  }

  lemma SameAfter(a: string, b: string, c: string)
    ensures a + b == a + c <==> b == c
  {
    assert (a + b)[|a|..] == b && (a + c)[|a|..] == c;
  }

  lemma CutBrace(p: string, k: nat)
    requires k < |p| && p[k] == '}'
    ensures p == p[..k] + ("}" + p[k + 1..]) && p[..k] != p
  {
  }

  function FirstBrace(p: string): (k: nat)
    requires '}' in p
    ensures k < |p| && p[k] == '}' && '}' !in p[..k]
  {
    if p[0] == '}' then 0 else 1 + FirstBrace(p[1..])
  }

  lemma {:induction false} QuoteConcat(a: string, b: string)
    ensures Quote(a + b) == Quote(a) + Quote(b)
  {
    if a == [] {
      assert a + b == b;
    } else {
      assert (a + b)[1..] == a[1..] + b;
      QuoteConcat(a[1..], b);
    }
  }
}
