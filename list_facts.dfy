/**
 * The list passes: each item line is wrapped in its own one-item list, then
 * a list close followed by white space and an open of the same kind is
 * deleted, so consecutive items of one kind form one list and items of two
 * kinds stay in two.
 */
module ListFacts {
  import opened Wrappers
  import opened Regex
  import opened Scanning
  import opened Markdown

  /** `<li>a</li>` */
  function Li(a: string): string {
    "<li>" + a + "</li>"
  }

  /** The one-item list the `*` and `-` passes write. */
  function UlItem(a: string): string {
    "<ul>" + Li(a) + "</ul>"
  }

  /** The one-item list the numbered pass writes. */
  function OlItem(a: string): string {
    "<ol>" + Li(a) + "</ol>"
  }

  /** The three item passes. */
  function Items(s: string): string {
    ReplaceEach(ItemPasses, s)
  }

  /** The two merge passes. */
  function Merges(s: string): string {
    ReplaceEach(MergePasses, s)
  }

  /** A non-empty run of decimal digits. */
  predicate Number(d: string) {
    d != [] && forall i | 0 <= i < |d| :: IsDigit(d[i])
  }

  // ---------------------------------------------------------------------------
  // The stage as item passes, then merge passes
  // ---------------------------------------------------------------------------

  lemma ListsSplit(s: string)
    ensures Lists(s) == Merges(Items(s))
  {
    ListPassesWellFormed();
    EachAppend(ItemPasses, MergePasses, s);
  }

  lemma ListPassesWellFormed()
    ensures forall p | p in ItemPasses + MergePasses :: WellFormed(p)
  {
  }

  lemma ItemsSteps(s: string)
    ensures Items(s) == ReplaceAll(Numbered, ReplaceAll(Dash, ReplaceAll(Bullet, s)))
  {
    var s1 := ReplaceAll(Bullet, s);
    assert ItemPasses[1..] == [Dash, Numbered];
    assert ReplaceEach(ItemPasses, s) == ReplaceEach([Dash, Numbered], s1);
    EachTwo(Dash, Numbered, s1);
  }

  lemma MergesSteps(s: string)
    ensures Merges(s) == ReplaceAll(MergeOl, ReplaceAll(MergeUl, s))
  {
    EachTwo(MergeUl, MergeOl, s);
  }

  /** The item passes act on each line separately. */
  lemma ItemsByLine(w: string, lt: char, z: string)
    requires IsLineTerminator(lt)
    ensures Items(w + [lt] + z) == Items(w) + [lt] + Items(z)
  {
    EachLines(ItemPasses, w, lt, z);
  }

  // ---------------------------------------------------------------------------
  // One item line
  // ---------------------------------------------------------------------------

  lemma ItemShapes(a: string)
    ensures "<ul><li>" + a + "</li></ul>" == UlItem(a)
    ensures "<ol><li>" + a + "</li></ol>" == OlItem(a)
    ensures LineFree(a) ==> LineFree(UlItem(a)) && LineFree(OlItem(a))
  {
  }

  /** A wrapped line starts with `<`, so no later item pass touches it. */
  lemma WrappedStays(y: string)
    requires LineFree(y) && y != [] && y[0] == '<'
    ensures ReplaceAll(Dash, y) == y && ReplaceAll(Numbered, y) == y
  {
    LineStartOneLine("- ", "<ul><li>", "</li></ul>", y);
    NumberedOneLine("<ol><li>", "</li></ol>", y);
  }

  /** `* a` becomes a one-item unordered list. */
  lemma StarItem(a: string)
    requires LineFree(a)
    ensures Items("* " + a) == UlItem(a)
  {
    var x := "* " + a;
    LineFreeAppend("* ", a);
    assert x[2..] == a;
    ItemsSteps(x);
    LineStartOneLine("* ", "<ul><li>", "</li></ul>", x);
    ItemShapes(a);
    WrappedStays(UlItem(a));
  }

  /** `- a` becomes a one-item unordered list. */
  lemma DashItem(a: string)
    requires LineFree(a)
    ensures Items("- " + a) == UlItem(a)
  {
    var x := "- " + a;
    LineFreeAppend("- ", a);
    assert x[2..] == a;
    ItemsSteps(x);
    LineStartOneLine("* ", "<ul><li>", "</li></ul>", x);
    LineStartOneLine("- ", "<ul><li>", "</li></ul>", x);
    ItemShapes(a);
    NumberedOneLine("<ol><li>", "</li></ol>", UlItem(a));
  }

  /** The digits of `d. x` are read up to the dot. */
  lemma {:induction false} DigitsEndOver(t: string, i: nat, n: nat)
    requires i + n <= |t|
    requires forall k | i <= k < i + n :: IsDigit(t[k])
    requires i + n < |t| ==> !IsDigit(t[i + n])
    ensures DigitsEnd(t, i) == i + n
    decreases n
  {
    if n > 0 {
      DigitsEndOver(t, i + 1, n - 1);
    }
  }

  lemma NumberLayout(d: string, x: string)
    requires Number(d) && LineFree(x)
    ensures var t := d + ". " + x;
      && LineFree(t) && t != [] && t[0] != '*' && t[0] != '-' && IsDigit(t[0])
      && DigitsEnd(t, 0) == |d| && ". " <= t[|d|..] && t[|d| + 2..] == x
  {
    var t := d + ". " + x;
    assert forall k | 0 <= k < |d| :: t[k] == d[k];
    assert t[|d|] == '.' && t[|d|..][..2] == ". " && t[|d| + 2..] == x;
    assert LineFree(t) by {
      assert LineFree(d);
      LineFreeAppend(d, ". ");
      LineFreeAppend(d + ". ", x);
    }
    DigitsEndOver(t, 0, |d|);
  }

  /** `d. x` becomes a one-item ordered list, and the number is dropped. */
  lemma NumberItem(d: string, x: string)
    requires Number(d) && LineFree(x)
    ensures Items(d + ". " + x) == OlItem(x)
  {
    var t := d + ". " + x;
    NumberLayout(d, x);
    ItemsSteps(t);
    LineStartOneLine("* ", "<ul><li>", "</li></ul>", t);
    LineStartOneLine("- ", "<ul><li>", "</li></ul>", t);
    NumberedOneLine("<ol><li>", "</li></ol>", t);
    ItemShapes(x);
  }

  // ---------------------------------------------------------------------------
  // Merging
  // ---------------------------------------------------------------------------

  /** The `</ul>\s*<ul>` pass is a gap between tags, and `<ul>` is not its left tag. */
  lemma UlMergeTags()
    ensures TagGap(MergeUl) && Diverges("<ul>", "</ul>") && '<' !in "<ul>"[1..]
  {
    assert "</ul>"[1..] == "/ul>" && "<ul>"[1..] == "ul>";
    assert "<ul>"[1] != "</ul>"[1];
  }

  /** The `</ol>\s*<ol>` pass is a gap between tags, and `<ol>` is not its left tag. */
  lemma OlMergeTags()
    ensures TagGap(MergeOl) && Diverges("<ol>", "</ol>") && '<' !in "<ol>"[1..]
  {
    assert "</ol>"[1..] == "/ol>" && "<ol>"[1..] == "ol>";
    assert "<ol>"[1] != "</ol>"[1];
  }

  /** Neither merge pass starts at an item tag. */
  lemma ItemTags(p: Pattern)
    requires p == MergeUl || p == MergeOl
    ensures TagGap(p) && Diverges("<li>", p.left) && Diverges("</li>", p.left)
    ensures '<' !in "<li>"[1..] && '<' !in "</li>"[1..]
  {
    assert "<li>"[1..] == "li>" && "</li>"[1..] == "/li>";
    if p == MergeUl {
      UlMergeTags();
      assert "<li>"[1] != "</ul>"[1] && "</li>"[2] != "</ul>"[2];
    } else {
      OlMergeTags();
      assert "<li>"[1] != "</ol>"[1] && "</li>"[2] != "</ol>"[2];
    }
  }

  /** Each merge pass leaves the tags of the other kind of list alone. */
  lemma OtherListTags(p: Pattern, open: string, close: string)
    requires (p == MergeUl && open == "<ol>" && close == "</ol>")
          || (p == MergeOl && open == "<ul>" && close == "</ul>")
    ensures TagGap(p) && open != [] && Diverges(open, p.left) && '<' !in open[1..]
    ensures close != [] && Diverges(close, p.left) && '<' !in close[1..]
  {
    if p == MergeUl {
      UlMergeTags();
      OlMergeTags();
      assert "<ol>"[1] != "</ul>"[1] && "</ol>"[2] != "</ul>"[2];
    } else {
      UlMergeTags();
      OlMergeTags();
      assert "<ul>"[1] != "</ol>"[1] && "</ul>"[2] != "</ol>"[2];
    }
  }

  /** An item is copied by either merge pass. */
  lemma GapCopiesLi(p: Pattern, a: string, y: string, b: bool)
    requires (p == MergeUl || p == MergeOl) && '<' !in a
    ensures Scan(p, Li(a) + y, b) == Li(a) + Scan(p, y, false)
  {
    ItemTags(p);
    Nest4("<li>", a, "</li>", y);
    GapCopiesTag(p, "<li>", a + ("</li>" + y), b);
    GapCopiesText(p, a, "</li>" + y, false);
    GapCopiesTag(p, "</li>", y, false);
    Nest4("<li>", a, "</li>", Scan(p, y, false));
  }

  /** A whole one-item list of the other kind is copied by a merge pass. */
  lemma GapCopiesList(p: Pattern, open: string, a: string, close: string, y: string, b: bool)
    requires (p == MergeUl && open == "<ol>" && close == "</ol>")
          || (p == MergeOl && open == "<ul>" && close == "</ul>")
    requires '<' !in a
    ensures Scan(p, open + Li(a) + close + y, b) == open + Li(a) + close + Scan(p, y, false)
  {
    OtherListTags(p, open, close);
    Nest4(open, Li(a), close, y);
    GapCopiesTag(p, open, Li(a) + (close + y), b);
    GapCopiesLi(p, a, close + y, false);
    GapCopiesTag(p, close, y, false);
    Nest4(open, Li(a), close, Scan(p, y, false));
  }

  /** `</ul>` at the very end is copied: no `<ul>` follows it. */
  lemma UlCloseAtEnd(b: bool)
    ensures Scan(MergeUl, "</ul>", b) == "</ul>"
  {
    UlMergeTags();
    GapLeftAtEnd(MergeUl, b);
  }

  /** `</ol>` at the very end is copied: no `<ol>` follows it. */
  lemma OlCloseAtEnd(b: bool)
    ensures Scan(MergeOl, "</ol>", b) == "</ol>"
  {
    OlMergeTags();
    GapLeftAtEnd(MergeOl, b);
  }

  /** Two unordered items separated by white space only. */
  function UlPair(a: string, sp: string, c: string): string {
    "<ul>" + Li(a) + "</ul>" + sp + "<ul>" + Li(c) + "</ul>"
  }

  /** One list holding two items. */
  function UlBoth(a: string, c: string): string {
    "<ul>" + Li(a) + Li(c) + "</ul>"
  }

  lemma UlPairShape(a: string, sp: string, c: string)
    ensures UlPair(a, sp, c) == "<ul>" + (Li(a) + ("</ul>" + sp + "<ul>" + (Li(c) + "</ul>")))
    ensures "<ul>" + (Li(a) + ("" + (Li(c) + "</ul>"))) == UlBoth(a, c)
    ensures UlBoth(a, c) == "<ul>" + (Li(a) + (Li(c) + ("</ul>" + [])))
    ensures UlItem(a) + ['\n'] + UlItem(c) == UlPair(a, "\n", c)
  {
  }

  /** The `</ul>\s*<ul>` pass joins the two lists. */
  lemma UlPairJoined(a: string, sp: string, c: string)
    requires '<' !in a && '<' !in c && AllSpace(sp)
    ensures ReplaceAll(MergeUl, UlPair(a, sp, c)) == UlBoth(a, c)
  {
    UlMergeTags();
    UlPairShape(a, sp, c);
    var p := MergeUl;
    var tail := Li(c) + "</ul>";
    GapCopiesTag(p, "<ul>", Li(a) + ("</ul>" + sp + "<ul>" + tail), true);
    GapCopiesLi(p, a, "</ul>" + sp + "<ul>" + tail, false);
    GapJoins(p, sp, tail, false);
    GapCopiesLi(p, c, "</ul>", false);
    UlCloseAtEnd(false);
  }

  /** The `</ol>\s*<ol>` pass finds nothing in an unordered list. */
  lemma UlBothStays(a: string, c: string)
    requires '<' !in a && '<' !in c
    ensures ReplaceAll(MergeOl, UlBoth(a, c)) == UlBoth(a, c)
  {
    OtherListTags(MergeOl, "<ul>", "</ul>");
    UlPairShape(a, "", c);
    var p := MergeOl;
    GapCopiesTag(p, "<ul>", Li(a) + (Li(c) + ("</ul>" + [])), true);
    GapCopiesLi(p, a, Li(c) + ("</ul>" + []), false);
    GapCopiesLi(p, c, "</ul>" + [], false);
    GapCopiesTag(p, "</ul>", [], false);
  }

  lemma TwoLines(m1: string, a: string, m2: string, c: string)
    ensures m1 + a + "\n" + m2 + c == (m1 + a) + ['\n'] + (m2 + c)
  {
  }

  /** Two unordered item lines, whichever of `*` and `-` starts each, make one list. */
  lemma TwoBulletsOneList(m1: string, a: string, m2: string, c: string)
    requires m1 in {"* ", "- "} && m2 in {"* ", "- "}
    requires LineFree(a) && LineFree(c) && '<' !in a && '<' !in c
    ensures Lists(m1 + a + "\n" + m2 + c) == UlBoth(a, c)
  {
    var w := m1 + a;
    var z := m2 + c;
    TwoLines(m1, a, m2, c);
    ListsSplit(w + ['\n'] + z);
    ItemsByLine(w, '\n', z);
    if m1 == "* " { StarItem(a); } else { DashItem(a); }
    if m2 == "* " { StarItem(c); } else { DashItem(c); }
    UlPairShape(a, "\n", c);
    NewlineSpace();
    MergesSteps(UlPair(a, "\n", c));
    UlPairJoined(a, "\n", c);
    UlBothStays(a, c);
  }

  lemma NewlineSpace()
    ensures AllSpace("\n")
  {
  }

  lemma TwoBulletsExample()
    ensures Lists("* a\n* b") == "<ul><li>a</li><li>b</li></ul>"
    ensures Lists("* a\n- b") == "<ul><li>a</li><li>b</li></ul>"
  {
    TwoBulletsParts();
    TwoBulletsOneList("* ", "a", "* ", "b");
    TwoBulletsOneList("* ", "a", "- ", "b");
  }

  lemma TwoBulletsParts()
    ensures "* a\n* b" == "* " + "a" + "\n" + "* " + "b"
    ensures "* a\n- b" == "* " + "a" + "\n" + "- " + "b"
    ensures UlBoth("a", "b") == "<ul><li>a</li><li>b</li></ul>"
    ensures LineFree("a") && LineFree("b") && '<' !in "a" && '<' !in "b"
  {
  }

  lemma OlShape(x: string)
    ensures OlItem(x) == "<ol>" + Li(x) + "</ol>" + []
    ensures OlItem(x) == "<ol>" + (Li(x) + "</ol>")
  {
  }

  /** One numbered line is one ordered list, without its number. */
  lemma NumberedList(d: string, x: string)
    requires Number(d) && LineFree(x) && '<' !in x
    ensures Lists(d + ". " + x) == OlItem(x)
  {
    OlMergeTags();
    ListsSplit(d + ". " + x);
    NumberItem(d, x);
    MergesSteps(OlItem(x));
    OlShape(x);
    GapCopiesList(MergeUl, "<ol>", x, "</ol>", [], true);
    GapCopiesTag(MergeOl, "<ol>", Li(x) + "</ol>", true);
    GapCopiesLi(MergeOl, x, "</ol>", false);
    OlCloseAtEnd(false);
  }

  lemma NumberedExample()
    ensures Lists("3. x") == "<ol><li>x</li></ol>"
  {
    NumberedParts();
    NumberedList("3", "x");
  }

  lemma NumberedParts()
    ensures "3. x" == "3" + ". " + "x" && OlItem("x") == "<ol><li>x</li></ol>"
    ensures Number("3") && LineFree("x") && '<' !in "x"
  {
  }

  /** An unordered item followed by a numbered one: the close tags differ in kind, so nothing merges. */
  lemma BulletThenNumber(a: string, d: string, c: string)
    requires LineFree(a) && LineFree(c) && '<' !in a && '<' !in c && Number(d)
    ensures Lists("* " + a + "\n" + d + ". " + c) == UlItem(a) + "\n" + OlItem(c)
  {
    var w := "* " + a;
    var z := d + ". " + c;
    BulletNumberShape(a, d, c);
    ListsSplit(w + ['\n'] + z);
    ItemsByLine(w, '\n', z);
    StarItem(a);
    NumberItem(d, c);
    MixedShape(a, c);
    MergesSteps(UlItem(a) + "\n" + OlItem(c));
    MixedUl(a, c);
    MixedOl(a, c);
  }

  lemma BulletNumberShape(a: string, d: string, c: string)
    ensures "* " + a + "\n" + d + ". " + c == ("* " + a) + ['\n'] + (d + ". " + c)
  {
  }

  lemma MixedShape(a: string, c: string)
    ensures UlItem(a) + ['\n'] + OlItem(c) == UlItem(a) + "\n" + OlItem(c)
    ensures UlItem(a) + "\n" + OlItem(c) == "<ul>" + (Li(a) + ("</ul>" + "\n" + OlItem(c)))
    ensures OlItem(c) == "<ol>" + Li(c) + "</ol>" + [] && OlItem(c)[1] == 'o'
    ensures "<ul>" + (Li(a) + ("</ul>" + ("\n" + ("<ol>" + Li(c) + "</ol>" + [])))) == UlItem(a) + "\n" + OlItem(c)
    ensures UlItem(a) + "\n" + OlItem(c) == "<ul>" + Li(a) + "</ul>" + ("\n" + ("<ol>" + (Li(c) + "</ol>")))
  {
  }

  lemma OlAfterUlClose(c: string)
    ensures !IsSpace(OlItem(c)[0]) && Diverges(OlItem(c), "<ul>")
  {
    assert OlItem(c)[..4] == "<ol>";
    assert OlItem(c)[1] != "<ul>"[1];
  }

  /** The `</ul>\s*<ul>` pass: `</ul>` is followed by `<ol>`, not `<ul>`. */
  lemma MixedUl(a: string, c: string)
    requires '<' !in a && '<' !in c
    ensures ReplaceAll(MergeUl, UlItem(a) + "\n" + OlItem(c)) == UlItem(a) + "\n" + OlItem(c)
  {
    UlMergeTags();
    OlAfterUlClose(c);
    MixedShape(a, c);
    NewlineSpace();
    var p := MergeUl;
    GapCopiesTag(p, "<ul>", Li(a) + ("</ul>" + "\n" + OlItem(c)), true);
    GapCopiesLi(p, a, "</ul>" + "\n" + OlItem(c), false);
    GapLeftStays(p, "\n", OlItem(c), false);
    GapCopiesText(p, "\n", OlItem(c), false);
    GapCopiesList(p, "<ol>", c, "</ol>", [], false);
  }

  /** The `</ol>\s*<ol>` pass: the only `</ol>` is at the end. */
  lemma MixedOl(a: string, c: string)
    requires '<' !in a && '<' !in c
    ensures ReplaceAll(MergeOl, UlItem(a) + "\n" + OlItem(c)) == UlItem(a) + "\n" + OlItem(c)
  {
    OlMergeTags();
    MixedShape(a, c);
    var p := MergeOl;
    GapCopiesList(p, "<ul>", a, "</ul>", "\n" + ("<ol>" + (Li(c) + "</ol>")), true);
    GapCopiesText(p, "\n", "<ol>" + (Li(c) + "</ol>"), false);
    GapCopiesTag(p, "<ol>", Li(c) + "</ol>", false);
    GapCopiesLi(p, c, "</ol>", false);
    OlCloseAtEnd(false);
  }
}
