/**
 * The link and image passes: a well-formed `[label](url)` becomes an anchor,
 * text without `](` is left alone, and since links are rewritten first an
 * image `![alt](url)` comes out as `!` followed by an anchor.
 */
module LinkFacts {
  import opened Wrappers
  import opened Regex
  import opened Scanning
  import opened Markdown

  /** The anchor the link pass writes. */
  function AnchorHtml(text: string, url: string): string {
    "<a href=\"" + url + "\">" + text + "</a>"
  }

  /** A label and a url the link syntax takes whole: the url holds no `]`, so no longer label fits. */
  predicate LinkFriendly(text: string, url: string) {
    text != [] && '[' !in text && url != [] && ')' !in url && ']' !in url
  }

  // ---------------------------------------------------------------------------
  // A whole link
  // ---------------------------------------------------------------------------

  /** The pieces of `[text](url)`, position by position. */
  predicate LinkLayout(t: string, text: string, url: string) {
    var k := |text| + 1;
    && |t| == |text| + |url| + 4 && t[0] == '[' && t[1..k] == text
    && t[k] == ']' && t[k + 1] == '(' && t[k + 2..|t| - 1] == url && t[|t| - 1] == ')'
  }

  lemma LayoutOfLink(text: string, url: string)
    ensures LinkLayout("[" + text + "](" + url + ")", text, url)
  {
    var t := "[" + text + "](" + url + ")";
    var k := |text| + 1;
    assert t[1..k] == text;
    assert t[k + 2..|t| - 1] == url;
  }

  /** With the label ending right after `text`, the url runs to the final `)`. */
  lemma LinkAtLabel(t: string, text: string, url: string)
    requires LinkLayout(t, text, url) && text != [] && url != [] && ')' !in url
    ensures LinkAt(t, |text| + 1) == Some(LinkSyntax(text, url, |t|))
  {
    var k := |text| + 1;
    var q := RunEnd(t, k + 2, ')');
    assert t[|t| - 1] in t[k + 2..|t|];
    assert forall i | k + 2 <= i < |t| - 1 :: t[i] == url[i - k - 2];
    assert q == |t| - 1;
  }

  /** No label end after `text` fits: the url holds no `]`. */
  lemma LinkNoLonger(t: string, text: string, url: string)
    requires LinkLayout(t, text, url) && ']' !in url
    ensures forall k' | |text| + 1 < k' <= |t| :: LinkAt(t, k').None?
  {
    var k := |text| + 1;
    forall k' | k < k' <= |t| ensures LinkAt(t, k').None? {
      if k + 2 <= k' < |t| - 1 {
        assert t[k'] == url[k' - k - 2];
      }
    }
  }

  /** The greedy label stops at the end of `text`. */
  lemma LinkPartsOfLink(t: string, text: string, url: string)
    requires LinkLayout(t, text, url) && LinkFriendly(text, url)
    ensures LinkParts(t) == Some(LinkSyntax(text, url, |t|))
  {
    var k := |text| + 1;
    var e := RunEnd(t, 1, '[');
    assert forall i | 1 <= i < k :: t[i] == text[i - 1];
    assert k <= e;
    LinkAtLabel(t, text, url);
    LinkNoLonger(t, text, url);
    LinkTryPicks(t, e, k);
  }

  /** `[text](url)` on its own becomes one anchor. */
  lemma LinkWhole(text: string, url: string)
    requires LinkFriendly(text, url)
    ensures ReplaceAll(Anchor, "[" + text + "](" + url + ")") == AnchorHtml(text, url)
  {
    var t := "[" + text + "](" + url + ")";
    LayoutOfLink(text, url);
    LinkPartsOfLink(t, text, url);
    ScanWhole(Anchor, t, true, AnchorHtml(text, url));
  }

  /** Text with no `[` holds no image syntax. */
  lemma {:induction false} ImageIdle(s: string, b: bool)
    requires '[' !in s
    ensures Scan(Picture, s, b) == s
  {
    forall k, b' | 0 <= k < |s| ensures MatchAt(Picture, b', s[k..]).None? {
      if |s[k..]| > 1 {
        assert s[k..][1..][0] == s[k + 1];
      }
    }
    ScanNoMatch(Picture, s, b);
  }

  /** Both passes of the stage: a lone well-formed link becomes an anchor and nothing else. */
  lemma LinkRendered(text: string, url: string)
    requires LinkFriendly(text, url) && '[' !in url
    ensures LinksImages("[" + text + "](" + url + ")") == AnchorHtml(text, url)
  {
    LinkStages("[" + text + "](" + url + ")");
    LinkWhole(text, url);
    AnchorNoBracket(text, url);
    ImageIdle(AnchorHtml(text, url), true);
  }

  /** The links-and-images stage is the link pass, then the image pass. */
  lemma LinkStages(s: string)
    ensures LinksImages(s) == ReplaceAll(Picture, ReplaceAll(Anchor, s))
  {
    EachTwo(Anchor, Picture, s);
  }

  /** The label backtracks as far as it must and no further: in `[a](b](c)` it is `a](b`. */
  lemma LongestLabelExample()
    ensures ReplaceAll(Anchor, "[a](b](c)") == AnchorHtml("a](b", "c")
  {
    var t := "[a](b](c)";
    assert LinkLayout(t, "a](b", "c");
    LinkPartsOfLink(t, "a](b", "c");
    ScanWhole(Anchor, t, true, AnchorHtml("a](b", "c"));
  }

  // ---------------------------------------------------------------------------
  // No `](`, no anchor
  // ---------------------------------------------------------------------------

  /** Every link match holds `](` right after its label. */
  lemma ArrowInLink(s: string, k: nat)
    requires k < |s|
    ensures LinkParts(s[k..]).Some? ==> exists i | k <= i < |s| :: "](" <= s[i..]
  {
    var t := s[k..];
    if LinkParts(t).Some? {
      LinkPartsSpec(t);
      var l := LinkParts(t).value;
      var j := |l.text| + 1;
      assert t[..l.len][j] == t[j] && t[..l.len][j + 1] == t[j + 1];
      assert t[j..] == s[k + j..];
    }
  }

  /** Where `](` occurs nowhere, the link pass changes nothing. */
  lemma {:induction false} NoArrowNoAnchor(s: string, b: bool)
    requires Absent("](", s)
    ensures Scan(Anchor, s, b) == s
  {
    forall k, b' | 0 <= k < |s| ensures MatchAt(Anchor, b', s[k..]).None? {
      ArrowInLink(s, k);
    }
    ScanNoMatch(Anchor, s, b);
  }

  lemma NoCloseBracketNoArrow(s: string)
    requires ']' !in s
    ensures Absent("](", s)
  {
    forall k | 0 <= k < |s| ensures !("](" <= s[k..]) {
      assert s[k..][0] == s[k];
    }
  }

  /** `[no-close(url)` holds no `](`, so it stays as it is and no anchor appears. */
  lemma NoCloseExample()
    ensures ReplaceAll(Anchor, "[no-close(url)") == "[no-close(url)"
    ensures '<' !in ReplaceAll(Anchor, "[no-close(url)")
  {
    NoCloseInput();
    NoArrowNoAnchor("[no-close(url)", true);
  }

  lemma NoCloseInput()
    ensures Absent("](", "[no-close(url)") && '<' !in "[no-close(url)"
  {
    NoCloseBracketNoArrow("[no-close(url)");
  }

  // ---------------------------------------------------------------------------
  // Images come second
  // ---------------------------------------------------------------------------

  /** `![alt](url)` loses its brackets to the link pass, so the image pass finds nothing. */
  lemma ImageShadowed(alt: string, url: string)
    requires LinkFriendly(alt, url) && '[' !in url
    ensures LinksImages("![" + alt + "](" + url + ")") == "!" + AnchorHtml(alt, url)
  {
    var t := "[" + alt + "](" + url + ")";
    assert "![" + alt + "](" + url + ")" == "!" + t;
    LinkStages("!" + t);
    ScanSkip(Anchor, "!", t, true);
    LinkWhole(alt, url);
    AnchorNoBracket(alt, url);
    ImageIdle("!" + AnchorHtml(alt, url), true);
  }

  lemma AnchorNoBracket(text: string, url: string)
    requires '[' !in text && '[' !in url
    ensures '[' !in AnchorHtml(text, url) && '[' !in "!" + AnchorHtml(text, url)
  {
  }

  lemma ImageExample()
    ensures LinksImages("![alt](url)") == "!<a href=\"url\">alt</a>"
  {
    ImageExampleParts();
    ImageShadowed("alt", "url");
  }

  lemma ImageExampleParts()
    ensures "![alt](url)" == "![" + "alt" + "](" + "url" + ")"
    ensures "!" + AnchorHtml("alt", "url") == "!<a href=\"url\">alt</a>"
    ensures LinkFriendly("alt", "url") && '[' !in "url"
  {
  }
}
