/**
 * The code passes: a fence pair becomes a `pre` block and a backtick pair an
 * inline `code` element. The fence pass runs after the header, emphasis and
 * list passes, so what lies between the fences has already been rewritten.
 */
module CodeFacts {
  import opened Wrappers
  import opened Regex
  import opened Scanning
  import opened Markdown
  import opened HeaderFacts

  lemma CodeSteps(s: string)
    ensures Code(s) == ReplaceAll(InlineCode, ReplaceAll(Fence, s))
  {
    EachTwo(Fence, InlineCode, s);
  }

  /** Text between two fences, with no backtick of its own, becomes one `pre` block, line breaks included. */
  lemma FenceWhole(x: string)
    requires '`' !in x
    ensures Code("```" + x + "```") == "<pre><code>" + x + "</code></pre>"
  {
    CodeSteps("```" + x + "```");
    LazyWhole("```", true, "<pre><code>", "</code></pre>", x, true);
    PreNoBacktick(x);
    InlineIdle("<pre><code>" + x + "</code></pre>");
  }

  lemma PreNoBacktick(x: string)
    requires '`' !in x
    ensures '`' !in "<pre><code>" + x + "</code></pre>"
  {
  }

  /** Text with no backtick is left alone by the inline pass. */
  lemma InlineIdle(s: string)
    requires '`' !in s
    ensures ReplaceAll(InlineCode, s) == s
  {
    ScanUnchanged(InlineCode, s, true);
  }

  /** A lone backtick pair around non-empty text is not a fence. */
  lemma FenceSkipsInline(x: string, b: bool)
    requires x != [] && '`' !in x
    ensures Scan(Fence, "`" + x + "`", b) == "`" + x + "`"
  {
    var t := "`" + x + "`";
    assert t == ['`'] + (x + "`");
    assert t[1] == x[0];
    ScanPass(Fence, '`', x + "`", b);
    ScanSkip(Fence, x, "`", false);
    assert "`" == ['`'] + [];
    ScanPass(Fence, '`', [], After(x, false));
  }

  /** `` `x` `` becomes `<code>x</code>`. */
  lemma InlineWhole(x: string)
    requires x != [] && '`' !in x
    ensures Code("`" + x + "`") == "<code>" + x + "</code>"
  {
    CodeSteps("`" + x + "`");
    FenceSkipsInline(x, true);
    InlineScan(x);
  }

  lemma InlineScan(x: string)
    requires x != [] && '`' !in x
    ensures ReplaceAll(InlineCode, "`" + x + "`") == "<code>" + x + "</code>"
  {
    InlineMatch(x);
    ScanWhole(InlineCode, "`" + x + "`", true, "<code>" + x + "</code>");
  }

  lemma InlineMatch(x: string)
    requires x != [] && '`' !in x
    ensures MatchAt(InlineCode, true, "`" + x + "`") == Some(Match(|x| + 2, "<code>" + x + "</code>"))
  {
    var t := "`" + x + "`";
    InlineRun(x);
    assert t[1..|x| + 1] == x;
  }

  /** The run after the opening backtick stops at the closing one. */
  lemma InlineRun(x: string)
    requires '`' !in x
    ensures RunEnd("`" + x + "`", 1, '`') == |x| + 1
  {
    var t := "`" + x + "`";
    assert forall k | 1 <= k < |t| - 1 :: t[k] == x[k - 1];
    RunEndAt(t, 1, |t| - 1, '`');
  }

  lemma FenceShape(r: string)
    ensures "```\n# " + r + "\n```" == ("```" + ['\n'] + ("# " + r)) + ['\n'] + "```"
    ensures "```" + ['\n'] + ("<h1>" + r + "</h1>") + ['\n'] + "```" == "```" + ("\n<h1>" + r + "</h1>\n") + "```"
    ensures "<pre><code>" + ("\n<h1>" + r + "</h1>\n") + "</code></pre>" == "<pre><code>\n<h1>" + r + "</h1>\n</code></pre>"
    ensures Hashes(1) + " " == "# " && Open(1) == "<h1>" && Close(1) == "</h1>"
    ensures LineFree("```") && "```" != [] && "```"[0] != '#'
  {
    FenceLines(r);
    FenceWrapped(r);
    FenceLiterals();
  }

  lemma FenceLines(r: string)
    ensures "```\n# " + r + "\n```" == ("```" + ['\n'] + ("# " + r)) + ['\n'] + "```"
  {
  }

  lemma FenceWrapped(r: string)
    ensures "```" + ['\n'] + ("<h1>" + r + "</h1>") + ['\n'] + "```" == "```" + ("\n<h1>" + r + "</h1>\n") + "```"
    ensures "<pre><code>" + ("\n<h1>" + r + "</h1>\n") + "</code></pre>" == "<pre><code>\n<h1>" + r + "</h1>\n</code></pre>"
  {
  }

  lemma FenceLiterals()
    ensures Hashes(1) + " " == "# " && Open(1) == "<h1>" && Close(1) == "</h1>"
    ensures LineFree("```") && "```" != [] && "```"[0] != '#'
  {
    assert Hashes(1) == "#";
  }

  /** The header stage turns a `# r` line between fences into a header line. */
  lemma HeadersOfFenced(r: string)
    requires LineFree(r)
    ensures Headers("```\n# " + r + "\n```") == "```" + ("\n<h1>" + r + "</h1>\n") + "```"
  {
    FenceShape(r);
    HeadersByLine("```" + ['\n'] + ("# " + r), '\n', "```");
    HeadersByLine("```", '\n', "# " + r);
    UnmarkedLine("```");
    HeaderLine(1, r);
  }
}
