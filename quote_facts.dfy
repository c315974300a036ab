/**
 * The blockquote passes: each `> ` line becomes its own blockquote, then a
 * close followed by white space and an open is replaced by `<br>`, so
 * consecutive quoted lines form one blockquote.
 */
module QuoteFacts {
  import opened Wrappers
  import opened Regex
  import opened Scanning
  import opened Markdown

  /** The blockquote the `> ` pass writes around one line. */
  function Bq(a: string): string {
    "<blockquote>" + a + "</blockquote>"
  }

  lemma QuotesSteps(s: string)
    ensures Quotes(s) == ReplaceAll(JoinQuote, ReplaceAll(Quote, s))
  {
    EachTwo(Quote, JoinQuote, s);
  }

  /** `> a` becomes a blockquote holding `a`. */
  lemma QuoteLine(a: string)
    requires LineFree(a)
    ensures ReplaceAll(Quote, "> " + a) == Bq(a)
  {
    var x := "> " + a;
    LineFreeAppend("> ", a);
    assert x[2..] == a;
    LineStartOneLine("> ", "<blockquote>", "</blockquote>", x);
  }

  lemma TwoQuoteShape(a: string, c: string)
    ensures "> " + a + "\n> " + c == ("> " + a) + ['\n'] + ("> " + c)
    ensures Bq(a) + ['\n'] + Bq(c) == Bq(a) + "\n" + Bq(c)
    ensures AllSpace("\n")
  {
  }

  /** Each quoted line is wrapped on its own. */
  lemma QuoteLines(a: string, c: string)
    requires LineFree(a) && LineFree(c)
    ensures ReplaceAll(Quote, "> " + a + "\n> " + c) == Bq(a) + "\n" + Bq(c)
  {
    TwoQuoteShape(a, c);
    ScanLines(Quote, "> " + a, '\n', "> " + c, true);
    QuoteLine(a);
    QuoteLine(c);
  }

  lemma JoinShape(a: string, sp: string, c: string)
    ensures Bq(a) + sp + Bq(c)
         == "<blockquote>" + (a + ("</blockquote>" + sp + "<blockquote>" + (c + "</blockquote>")))
    ensures "<blockquote>" + (a + ("<br>" + (c + "</blockquote>"))) == Bq(a + "<br>" + c)
  {
  }

  /** The join pass is a gap between tags, and an opening tag is not its left tag. */
  lemma JoinQuoteTag()
    ensures TagGap(JoinQuote)
    ensures Diverges("<blockquote>", "</blockquote>") && '<' !in "<blockquote>"[1..]
  {
    CloseTagOneAngle();
    OpenTagOneAngle();
  }

  lemma CloseTagOneAngle()
    ensures "</blockquote>"[0] == '<' && '<' !in "</blockquote>"[1..]
  {
    assert "</blockquote>"[1..] == "/blockquote>";
  }

  lemma OpenTagOneAngle()
    ensures Diverges("<blockquote>", "</blockquote>") && '<' !in "<blockquote>"[1..]
  {
    assert "<blockquote>"[1] != "</blockquote>"[1];
    assert "<blockquote>"[1..] == "blockquote>";
  }

  /** A closing tag at the very end stays. */
  lemma JoinTail(c: string)
    requires '<' !in c
    ensures Scan(JoinQuote, c + "</blockquote>", false) == c + "</blockquote>"
  {
    JoinQuoteTag();
    GapCopiesText(JoinQuote, c, "</blockquote>", false);
    GapLeftAtEnd(JoinQuote, false);
  }

  /** A close, white space and an open become `<br>`. */
  lemma JoinMiddle(sp: string, c: string)
    requires '<' !in c && AllSpace(sp)
    ensures Scan(JoinQuote, "</blockquote>" + sp + "<blockquote>" + (c + "</blockquote>"), false)
         == "<br>" + (c + "</blockquote>")
  {
    JoinQuoteTag();
    GapJoins(JoinQuote, sp, c + "</blockquote>", false);
    JoinTail(c);
  }

  /** Two blockquotes separated by white space only become one, with a `<br>` between the lines. */
  lemma QuotesJoined(a: string, sp: string, c: string)
    requires '<' !in a && '<' !in c && AllSpace(sp)
    ensures ReplaceAll(JoinQuote, Bq(a) + sp + Bq(c)) == Bq(a + "<br>" + c)
  {
    JoinShape(a, sp, c);
    JoinQuoteTag();
    var w := "</blockquote>" + sp + "<blockquote>" + (c + "</blockquote>");
    GapCopiesTag(JoinQuote, "<blockquote>", a + w, true);
    GapCopiesText(JoinQuote, a, w, false);
    JoinMiddle(sp, c);
  }

  /** `> a` and `> c` on consecutive lines make one blockquote `a<br>c`. */
  lemma TwoQuotedLines(a: string, c: string)
    requires LineFree(a) && LineFree(c) && '<' !in a && '<' !in c
    ensures Quotes("> " + a + "\n> " + c) == Bq(a + "<br>" + c)
  {
    QuotesSteps("> " + a + "\n> " + c);
    QuoteLines(a, c);
    TwoQuoteShape(a, c);
    QuotesJoined(a, "\n", c);
  }

  lemma TwoQuotedLinesExample()
    ensures Quotes("> a\n> b") == "<blockquote>a<br>b</blockquote>"
  {
    QuoteExampleParts();
    TwoQuotedLines("a", "b");
  }

  lemma QuoteExampleParts()
    ensures "> a\n> b" == "> " + "a" + "\n> " + "b"
    ensures Bq("a" + "<br>" + "b") == "<blockquote>a<br>b</blockquote>"
    ensures LineFree("a") && LineFree("b") && '<' !in "a" && '<' !in "b"
  {
  }
}
