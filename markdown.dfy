/**
 * `renderMarkdown`: twenty-one global replacements applied in a fixed order to
 * one string, up to (and not including) the HTML sanitiser.
 */
module Markdown {
  import opened Regex
  import opened Scanning

  // ---------------------------------------------------------------------------
  // The passes, in the order they run
  // ---------------------------------------------------------------------------

  const H1 := LineStart("# ", "<h1>", "</h1>")
  const H2 := LineStart("## ", "<h2>", "</h2>")
  const H3 := LineStart("### ", "<h3>", "</h3>")
  const H4 := LineStart("#### ", "<h4>", "</h4>")

  const Bold := Lazy("**", false, "<strong>", "</strong>")
  const Italic := Lazy("*", false, "<em>", "</em>")
  const BoldU := Lazy("__", false, "<strong>", "</strong>")
  const ItalicU := Lazy("_", false, "<em>", "</em>")

  const Anchor := Link
  const Picture := Image

  const Bullet := LineStart("* ", "<ul><li>", "</li></ul>")
  const Dash := LineStart("- ", "<ul><li>", "</li></ul>")
  const Numbered := NumberedLine("<ol><li>", "</li></ol>")
  const MergeUl := Gap("</ul>", "<ul>", "")
  const MergeOl := Gap("</ol>", "<ol>", "")

  const Quote := LineStart("> ", "<blockquote>", "</blockquote>")
  const JoinQuote := Gap("</blockquote>", "<blockquote>", "<br>")

  const Fence := Lazy("```", true, "<pre><code>", "</code></pre>")
  const InlineCode := Enclosed('`', "<code>", "</code>")

  const Newline := Literal('\n', "<br>")
  const BrRun := Gap("<br>", "<br>", "<br><br>")

  // ---------------------------------------------------------------------------
  // The stages and the renderer
  // ---------------------------------------------------------------------------

  const HeaderPasses := [H1, H2, H3, H4]
  const EmphasisPasses := [Bold, Italic, BoldU, ItalicU]
  const LinkPasses := [Anchor, Picture]
  const ItemPasses := [Bullet, Dash, Numbered]
  const MergePasses := [MergeUl, MergeOl]
  const ListPasses := ItemPasses + MergePasses
  const QuotePasses := [Quote, JoinQuote]
  const CodePasses := [Fence, InlineCode]
  const BreakPasses := [Newline, BrRun]

  function Headers(s: string): string {
    ReplaceEach(HeaderPasses, s)
  }

  function Emphasis(s: string): string {
    ReplaceEach(EmphasisPasses, s)
  }

  function LinksImages(s: string): string {
    ReplaceEach(LinkPasses, s)
  }

  function Lists(s: string): string {
    ReplaceEach(ListPasses, s)
  }

  function Quotes(s: string): string {
    ReplaceEach(QuotePasses, s)
  }

  function Code(s: string): string {
    ReplaceEach(CodePasses, s)
  }

  /** `\n` becomes `<br>`, then runs of white space between two `<br>` are removed. */
  function Breaks(s: string): (r: string)
    ensures '\n' !in r
    ensures Collapsed(ReplaceAll(Newline, s), r)
  {
    var t := ReplaceAll(Newline, s);
    NewlinesGone(s, true);
    BrRunCollapses(t, true);
    CollapsedLacks(t, Scan(BrRun, t, true), '\n');
    EachTwo(Newline, BrRun, s);
    ReplaceEach(BreakPasses, s)
  }

  /** The HTML handed to the sanitiser: the stages in order, or the empty string for empty input. */
  function Render(s: string): (r: string)
    ensures s == [] ==> r == []
    ensures s != [] ==> '\n' !in r
  {
    if s == [] then [] else Breaks(Code(Quotes(Lists(LinksImages(Emphasis(Headers(s)))))))
  }

  // ---------------------------------------------------------------------------
  // Line breaks
  // ---------------------------------------------------------------------------

  /** The `\n` pass leaves no `\n` behind. */
  lemma {:induction false} NewlinesGone(t: string, b: bool)
    ensures '\n' !in Scan(Newline, t, b)
    decreases |t|
  {
    if t != [] {
      var m := Step(Newline, b, t);
      NewlinesGone(t[m.len..], IsLineTerminator(t[m.len - 1]));
      assert '\n' !in m.out;
    }
  }

  /**
   * `r` is `t` with the white space removed from between some pairs of `<br>`
   * tags, and otherwise the same.
   */
  predicate Collapsed(t: string, r: string)
    decreases |t|
  {
    if t == [] then r == []
    else
      || (r != [] && r[0] == t[0] && Collapsed(t[1..], r[1..]))
      || (exists j | 4 <= j <= |t| - 4 ::
            && t[..4] == "<br>" && AllSpace(t[4..j]) && t[j..j + 4] == "<br>"
            && |r| >= 8 && r[..8] == "<br><br>" && Collapsed(t[j + 4..], r[8..]))
  }

  /** The final pass changes its input only by deleting white space between two `<br>` tags. */
  lemma {:induction false} BrRunCollapses(t: string, b: bool)
    ensures Collapsed(t, Scan(BrRun, t, b))
    decreases |t|
  {
    if t != [] {
      var m := Step(BrRun, b, t);
      BrRunCollapses(t[m.len..], IsLineTerminator(t[m.len - 1]));
      BrRunFront(t, b);
    }
  }

  /** The inductive step of `BrRunCollapses`. */
  lemma BrRunFront(t: string, b: bool)
    requires t != []
    requires var m := Step(BrRun, b, t);
      Collapsed(t[m.len..], Scan(BrRun, t[m.len..], IsLineTerminator(t[m.len - 1])))
    ensures Collapsed(t, Scan(BrRun, t, b))
  {
    var m := Step(BrRun, b, t);
    ScanUnfold(BrRun, t, b);
    var rest := Scan(BrRun, t[m.len..], IsLineTerminator(t[m.len - 1]));
    if MatchAt(BrRun, b, t).Some? {
      BrRunMatched(t, b, rest);
    } else {
      CollapsedCopy(t, rest);
    }
  }

  /** Where the final pass matches, its output collapses the matched run. */
  lemma BrRunMatched(t: string, b: bool, rest: string)
    requires t != [] && MatchAt(BrRun, b, t).Some?
    requires Collapsed(t[Step(BrRun, b, t).len..], rest)
    ensures Collapsed(t, Step(BrRun, b, t).out + rest)
  {
    var m := MatchAt(BrRun, b, t).value;
    var j := m.len - 4;
    assert "<br>" <= t && "<br>" <= t[j..];
    PrefixTake("<br>", t);
    PrefixTake("<br>", t[j..]);
    assert t[j..][..4] == t[j..j + 4];
    CollapsedGap(t, j, rest);
  }

  lemma PrefixTake(d: string, u: string)
    requires d <= u
    ensures u[..|d|] == d
  {
  }

  lemma CollapsedGap(t: string, j: nat, rest: string)
    requires 4 <= j <= |t| - 4 && t[..4] == "<br>" && t[j..j + 4] == "<br>"
    requires forall k | 4 <= k < j :: IsSpace(t[k])
    requires Collapsed(t[j + 4..], rest)
    ensures Collapsed(t, "<br><br>" + rest)
  {
    var r := "<br><br>" + rest;
    assert r[..8] == "<br><br>" && r[8..] == rest;
    assert AllSpace(t[4..j]) by {
      forall i | 0 <= i < j - 4 ensures IsSpace(t[4..j][i]) {
        assert t[4..j][i] == t[4 + i];
      }
    }
  }

  lemma CollapsedCopy(t: string, rest: string)
    requires t != [] && Collapsed(t[1..], rest)
    ensures Collapsed(t, [t[0]] + rest)
  {
    assert ([t[0]] + rest)[1..] == rest;
  }

  /** A character that is not part of `<br>` survives the collapse only if it was already there. */
  lemma {:induction false} CollapsedLacks(t: string, r: string, c: char)
    requires Collapsed(t, r) && c !in t && c !in "<br>"
    ensures c !in r
    decreases |t|
  {
    if t != [] {
      if r != [] && r[0] == t[0] && Collapsed(t[1..], r[1..]) {
        assert t[0] in t;
        CollapsedLacks(t[1..], r[1..], c);
        assert r == [r[0]] + r[1..];
      } else {
        var j :| 4 <= j <= |t| - 4 && t[..4] == "<br>" && AllSpace(t[4..j]) && t[j..j + 4] == "<br>"
                 && |r| >= 8 && r[..8] == "<br><br>" && Collapsed(t[j + 4..], r[8..]);
        assert forall x | x in t[j + 4..] :: x in t;
        CollapsedLacks(t[j + 4..], r[8..], c);
        assert r == r[..8] + r[8..];
      }
    }
  }
}
