/**
 * Facts about the whole renderer: a fenced block holding one header line goes
 * through every stage, from the header pass to the line-break passes.
 */
module RenderFacts {
  import opened Regex
  import opened Scanning
  import opened Markdown
  import opened EmphasisFacts
  import opened LinkFacts
  import opened ListFacts
  import opened QuoteFacts
  import opened CodeFacts

  /** Text that no stage before the code stage changes: one line, no emphasis marker, no `[`, no tag, no backtick. */
  predicate Inert(r: string) {
    Plain(r) && '[' !in r && '<' !in r && '`' !in r
  }

  function HLine(r: string): string {
    "<h1>" + r + "</h1>"
  }

  /** What the header stage makes of "```\n# r\n```". */
  function Fenced(r: string): string {
    "```" + ("\n" + HLine(r) + "\n") + "```"
  }

  /**
   * The header pass runs before the fence pass, so a `# r` line between fences
   * comes out as a header: fence contents are not kept as written.
   */
  lemma FenceRendered(r: string)
    requires Inert(r)
    ensures Render("```\n# " + r + "\n```") == "<pre><code><br><h1>" + r + "</h1><br></code></pre>"
  {
    var s := "```\n# " + r + "\n```";
    var h := Fenced(r);
    HeadersOfFenced(r);
    FencedIsHeaders(r);
    assert Headers(s) == h;
    FencedLacks(r);
    EmphasisIdle(h);
    LinksIdle(h);
    ListsIdle(r);
    QuotesIdle(r);
    FenceWhole("\n" + HLine(r) + "\n");
    FencedBreaks(r);
    assert s != [];
  }

  lemma FencedIsHeaders(r: string)
    ensures Fenced(r) == "```" + ("\n<h1>" + r + "</h1>\n") + "```"
  {
  }

  /** None of the characters the early stages look for occurs in the fenced block. */
  lemma FencedLacks(r: string)
    requires Inert(r)
    ensures '*' !in Fenced(r) && '_' !in Fenced(r) && '[' !in Fenced(r)
    ensures '`' !in "\n" + HLine(r) + "\n" && '<' !in r && LineFree(r)
  {
  }

  // ---------------------------------------------------------------------------
  // Emphasis and links
  // ---------------------------------------------------------------------------

  /** Without `*` and `_` the emphasis stage changes nothing. */
  lemma EmphasisIdle(s: string)
    requires '*' !in s && '_' !in s
    ensures Emphasis(s) == s
  {
    EmphasisSteps(s);
    StarsIdle(s);
    UnderscoresIdle(s);
  }

  lemma StarsIdle(s: string)
    requires '*' !in s
    ensures ReplaceAll(Bold, s) == s && ReplaceAll(Italic, s) == s
  {
    ScanUnchanged(Bold, s, true);
    ScanUnchanged(Italic, s, true);
  }

  /** Without `[` the link stage changes nothing. */
  lemma LinksIdle(s: string)
    requires '[' !in s
    ensures LinksImages(s) == s
  {
    LinkStages(s);
    ScanUnchanged(Anchor, s, true);
    ImageIdle(s, true);
  }

  // ---------------------------------------------------------------------------
  // The line passes of the list and quote stages
  // ---------------------------------------------------------------------------

  lemma FencedByLine(r: string)
    ensures Fenced(r) == "```" + ['\n'] + (HLine(r) + ['\n'] + "```")
  {
  }

  /** No list or quote marker starts the fence line or the header line. */
  lemma LinesMiss(p: Pattern, r: string)
    requires p == Bullet || p == Dash || p == Numbered || p == Quote
    ensures LineLocal(p)
    ensures MatchAt(p, true, "```").None? && MatchAt(p, true, HLine(r)).None?
  {
    assert "```"[0] == '`' && HLine(r)[0] == '<';
  }

  lemma HLineFree(r: string)
    requires LineFree(r)
    ensures LineFree(HLine(r)) && HLine(r) != []
  {
    LineFreeAppend("<h1>", r);
    LineFreeAppend("<h1>" + r, "</h1>");
  }

  /** A line pass that matches neither line leaves the fenced block as it is. */
  lemma LinesStay(p: Pattern, r: string)
    requires LineLocal(p) && (p.LineStart? || p.NumberedLine?) && LineFree(r)
    requires MatchAt(p, true, "```").None? && MatchAt(p, true, HLine(r)).None?
    ensures Scan(p, Fenced(r), true) == Fenced(r)
  {
    FencedByLine(r);
    var z := HLine(r) + ['\n'] + "```";
    ScanLines(p, "```", '\n', z, true);
    ScanLines(p, HLine(r), '\n', "```", true);
    ScanFirstPass(p, "```");
    HLineFree(r);
    ScanFirstPass(p, HLine(r));
  }

  /** A list or quote line pass leaves the fenced block as it is. */
  lemma MarkerLinesStay(p: Pattern, r: string)
    requires p == Bullet || p == Dash || p == Numbered || p == Quote
    requires LineFree(r)
    ensures Scan(p, Fenced(r), true) == Fenced(r)
  {
    LinesMiss(p, r);
    LinesStay(p, r);
  }

  // ---------------------------------------------------------------------------
  // The gap passes of the list and quote stages
  // ---------------------------------------------------------------------------

  /** The header tags differ from the closing tag each gap pass looks for. */
  lemma HeaderTags(p: Pattern)
    requires p == MergeUl || p == MergeOl || p == JoinQuote
    ensures TagGap(p) && Diverges("<h1>", p.left) && Diverges("</h1>", p.left)
    ensures '<' !in "<h1>"[1..] && '<' !in "</h1>"[1..]
  {
    if p == MergeUl {
      UlMergeTags();
    } else if p == MergeOl {
      OlMergeTags();
    } else {
      JoinQuoteTag();
    }
    HeaderTagsDiverge(p.left);
  }

  lemma HeaderTagsDiverge(left: string)
    requires left == "</ul>" || left == "</ol>" || left == "</blockquote>"
    ensures Diverges("<h1>", left) && Diverges("</h1>", left)
    ensures '<' !in "<h1>"[1..] && '<' !in "</h1>"[1..]
  {
    assert "<h1>"[1] != left[1];
    assert "</h1>"[2] != left[2];
    assert "<h1>"[1..] == "h1>" && "</h1>"[1..] == "/h1>";
  }

  /** A tag gap whose left tag is neither header tag copies the header line. */
  lemma GapCopiesHeader(p: Pattern, r: string, t: string, b: bool)
    requires TagGap(p) && Diverges("<h1>", p.left) && Diverges("</h1>", p.left)
    requires '<' !in "<h1>"[1..] && '<' !in "</h1>"[1..] && '<' !in r
    ensures Scan(p, HLine(r) + t, b) == HLine(r) + Scan(p, t, false)
  {
    var u := "</h1>" + t;
    HLineSplit(r, t);
    GapCopiesTag(p, "<h1>", r + u, b);
    GapCopiesText(p, r, u, false);
    GapCopiesTag(p, "</h1>", t, false);
    HLineSplit(r, Scan(p, t, false));
  }

  lemma HLineSplit(r: string, t: string)
    ensures HLine(r) + t == "<h1>" + (r + ("</h1>" + t))
  {
  }

  lemma FencedByHeader(r: string)
    ensures Fenced(r) == "```\n" + (HLine(r) + ("\n```" + []))
  {
  }

  /** A list-merging or quote-joining pass leaves the fenced block as it is. */
  lemma GapFencedStays(p: Pattern, r: string, b: bool)
    requires p == MergeUl || p == MergeOl || p == JoinQuote
    requires '<' !in r
    ensures Scan(p, Fenced(r), b) == Fenced(r)
  {
    HeaderTags(p);
    FencedByHeader(r);
    var e: string := [];
    GapCopiesText(p, "```\n", HLine(r) + ("\n```" + e), b);
    GapCopiesHeader(p, r, "\n```" + e, false);
    GapCopiesText(p, "\n```", e, false);
  }

  /** The list stage leaves the fenced block as it is. */
  lemma ListsIdle(r: string)
    requires LineFree(r) && '<' !in r
    ensures Lists(Fenced(r)) == Fenced(r)
  {
    var h := Fenced(r);
    ListsSplit(h);
    ItemsSteps(h);
    MarkerLinesStay(Bullet, r);
    MarkerLinesStay(Dash, r);
    MarkerLinesStay(Numbered, r);
    MergesSteps(h);
    GapFencedStays(MergeUl, r, true);
    GapFencedStays(MergeOl, r, true);
  }

  /** The quote stage leaves the fenced block as it is. */
  lemma QuotesIdle(r: string)
    requires LineFree(r) && '<' !in r
    ensures Quotes(Fenced(r)) == Fenced(r)
  {
    QuotesSteps(Fenced(r));
    MarkerLinesStay(Quote, r);
    GapFencedStays(JoinQuote, r, true);
  }

  // ---------------------------------------------------------------------------
  // The line-break stage
  // ---------------------------------------------------------------------------

  /** A `\n` after a stretch without one becomes `<br>`. */
  lemma NewlineStep(x: string, y: string, b: bool)
    requires '\n' !in x
    ensures Scan(Newline, x + ("\n" + y), b) == x + ("<br>" + Scan(Newline, y, true))
  {
    ScanSkip(Newline, x, "\n" + y, b);
    ScanTake(Newline, "\n", y, After(x, b), "<br>");
  }

  lemma CodeByLine(r: string)
    ensures "<pre><code>" + ("\n" + HLine(r) + "\n") + "</code></pre>"
         == "<pre><code>" + ("\n" + (HLine(r) + ("\n" + "</code></pre>")))
  {
  }

  /** The `\n` pass turns both line breaks of the code block into `<br>`. */
  lemma CodeNewlines(r: string)
    requires LineFree(r)
    ensures ReplaceAll(Newline, "<pre><code>" + ("\n" + HLine(r) + "\n") + "</code></pre>")
         == "<pre><code>" + ("<br>" + (HLine(r) + ("<br>" + "</code></pre>")))
  {
    CodeByLine(r);
    assert '\n' !in HLine(r);
    NewlineStep("<pre><code>", HLine(r) + ("\n" + "</code></pre>"), true);
    NewlineStep(HLine(r), "</code></pre>", true);
    ScanUnchanged(Newline, "</code></pre>", true);
  }

  /** The tags of the code block differ from `<br>` before their end. */
  lemma BrTags()
    ensures TagGap(BrRun)
    ensures Diverges("<pre>", "<br>") && Diverges("<code>", "<br>") && Diverges("</code>", "<br>")
    ensures Diverges("</pre>", "<br>") && Diverges("<h1>", "<br>") && Diverges("</h1>", "<br>")
  {
    assert "<br>"[1..] == "br>";
    assert "<pre>"[1] != "<br>"[1] && "<code>"[1] != "<br>"[1] && "</code>"[1] != "<br>"[1];
    assert "</pre>"[1] != "<br>"[1] && "<h1>"[1] != "<br>"[1] && "</h1>"[1] != "<br>"[1];
  }

  /** The tags of the code block hold no `<` after their first character. */
  lemma BrTagsOneAngle()
    ensures '<' !in "<pre>"[1..] && '<' !in "<code>"[1..] && '<' !in "</code>"[1..]
    ensures '<' !in "</pre>"[1..] && '<' !in "<h1>"[1..] && '<' !in "</h1>"[1..]
  {
    assert "<pre>"[1..] == "pre>" && "<code>"[1..] == "code>" && "</code>"[1..] == "/code>";
    assert "</pre>"[1..] == "/pre>" && "<h1>"[1..] == "h1>" && "</h1>"[1..] == "/h1>";
  }

  lemma BrGap()
    ensures TagGap(BrRun) && BrRun.left == "<br>" && BrRun.right == "<br>"
  {
    assert "<br>"[1..] == "br>";
  }

  /** `<br>` right before a tag other than `<br>` is copied. */
  lemma BrBeforeTag(z: string)
    requires z != [] && z[0] == '<' && Diverges(z, "<br>")
    ensures Scan(BrRun, "<br>" + z, false) == "<br>" + Scan(BrRun, z, false)
  {
    BrGap();
    var e: string := [];
    assert "<br>" + e + z == "<br>" + z && e + z == z;
    GapLeftStays(BrRun, e, z, false);
  }

  /** The closing tags of the code block are copied. */
  lemma BrCodeClose()
    ensures Scan(BrRun, "<br>" + ("</code>" + "</pre>"), false) == "<br>" + ("</code>" + "</pre>")
  {
    BrTags();
    BrTagsOneAngle();
    var e: string := [];
    assert ("</code>" + "</pre>")[1] == '/';
    BrBeforeTag("</code>" + "</pre>");
    GapCopiesTag(BrRun, "</code>", "</pre>", false);
    GapCopiesTag(BrRun, "</pre>", e, false);
    assert "</pre>" + e == "</pre>";
  }

  /** The header tags differ from `<br>` and hold one `<` each. */
  lemma BrHeaderTags()
    ensures TagGap(BrRun) && Diverges("<h1>", "<br>") && Diverges("</h1>", "<br>")
    ensures '<' !in "<h1>"[1..] && '<' !in "</h1>"[1..]
  {
    BrGap();
    assert "<h1>"[1] != "<br>"[1] && "</h1>"[1] != "<br>"[1];
    assert "<h1>"[1..] == "h1>" && "</h1>"[1..] == "/h1>";
  }

  /** The header line is copied by the last pass. */
  lemma BrCopiesHeader(r: string, t: string)
    requires '<' !in r
    ensures Scan(BrRun, HLine(r) + t, false) == HLine(r) + Scan(BrRun, t, false)
  {
    BrHeaderTags();
    GapCopiesHeader(BrRun, r, t, false);
  }

  /** The header line between the two `<br>` is copied. */
  lemma BrHeaderLine(r: string)
    requires '<' !in r
    ensures Scan(BrRun, "<br>" + (HLine(r) + ("<br>" + ("</code>" + "</pre>"))), false)
         == "<br>" + (HLine(r) + ("<br>" + ("</code>" + "</pre>")))
  {
    var t := "<br>" + ("</code>" + "</pre>");
    BrCodeClose();
    BrCopiesHeader(r, t);
    HeaderNotBr(r, t);
    BrBeforeTag(HLine(r) + t);
  }

  lemma HeaderNotBr(r: string, t: string)
    ensures var z := HLine(r) + t; z != [] && z[0] == '<' && Diverges(z, "<br>")
  {
    var z := HLine(r) + t;
    assert z[0] == '<' && z[1] == 'h' && "<br>"[1] == 'b';
  }

  /** The last pass finds no white space between two `<br>` and changes nothing. */
  lemma CodeBrRun(r: string)
    requires '<' !in r
    ensures ReplaceAll(BrRun, "<pre><code>" + ("<br>" + (HLine(r) + ("<br>" + "</code></pre>"))))
         == "<pre><code><br><h1>" + r + "</h1><br></code></pre>"
  {
    BrTags();
    BrTagsOneAngle();
    var u := "<br>" + (HLine(r) + ("<br>" + ("</code>" + "</pre>")));
    BrHeaderLine(r);
    CodeBrShape(r);
    GapCopiesTag(BrRun, "<pre>", "<code>" + u, true);
    GapCopiesTag(BrRun, "<code>", u, false);
  }

  lemma CodeBrShape(r: string)
    ensures "<pre><code>" + ("<br>" + (HLine(r) + ("<br>" + "</code></pre>")))
         == "<pre>" + ("<code>" + ("<br>" + (HLine(r) + ("<br>" + ("</code>" + "</pre>")))))
    ensures "<pre>" + ("<code>" + ("<br>" + (HLine(r) + ("<br>" + ("</code>" + "</pre>")))))
         == "<pre><code><br><h1>" + r + "</h1><br></code></pre>"
  {
    CodeBrTags();
    var w := "<br>" + (HLine(r) + ("<br>" + ("</code>" + "</pre>")));
    assert "<pre><code>" + w == "<pre>" + ("<code>" + w);
    assert "<br>" + (HLine(r) + ("<br>" + "</code></pre>")) == w;
  }

  lemma CodeBrTags()
    ensures "<pre><code>" == "<pre>" + "<code>" && "</code></pre>" == "</code>" + "</pre>"
    ensures "<pre><code><br><h1>" == "<pre>" + "<code>" + "<br>" + "<h1>"
    ensures "</h1><br></code></pre>" == "</h1>" + "<br>" + "</code>" + "</pre>"
  {
  }

  /** The line-break stage on the code block. */
  lemma FencedBreaks(r: string)
    requires LineFree(r) && '<' !in r
    ensures Breaks("<pre><code>" + ("\n" + HLine(r) + "\n") + "</code></pre>")
         == "<pre><code><br><h1>" + r + "</h1><br></code></pre>"
  {
    var c := "<pre><code>" + ("\n" + HLine(r) + "\n") + "</code></pre>";
    EachTwo(Newline, BrRun, c);
    CodeNewlines(r);
    CodeBrRun(r);
  }
}
