/**
 * The four emphasis passes: `**x**` and `*z*` become `<strong>` and `<em>`
 * elements, and after a single-character pass no line holds two of that
 * character.
 */
module EmphasisFacts {
  import opened Wrappers
  import opened Regex
  import opened Scanning
  import opened Markdown

  // ---------------------------------------------------------------------------
  // Bold then italic
  // ---------------------------------------------------------------------------

  /** Text on one line with no emphasis marker in it. */
  predicate Plain(s: string) {
    LineFree(s) && '*' !in s && '_' !in s
  }

  /** The four emphasis passes, one after another. */
  lemma EmphasisSteps(s: string)
    ensures Emphasis(s) == ReplaceAll(ItalicU, ReplaceAll(BoldU, ReplaceAll(Italic, ReplaceAll(Bold, s))))
  {
    EmphasisSplit();
    EachAppend([Bold, Italic], [BoldU, ItalicU], s);
    EachTwo(Bold, Italic, s);
    EachTwo(BoldU, ItalicU, ReplaceAll(Italic, ReplaceAll(Bold, s)));
  }

  lemma EmphasisSplit()
    ensures EmphasisPasses == [Bold, Italic] + [BoldU, ItalicU]
    ensures forall p | p in [Bold, Italic] + [BoldU, ItalicU] :: WellFormed(p)
  {
  }

  /** `*z*` holds no `**`, so the bold pass copies it. */
  lemma BoldSkipsSingle(z: string, b: bool)
    requires Plain(z) && z != []
    ensures Scan(Bold, "*" + z + "*", b) == "*" + z + "*"
  {
    var t := "*" + z + "*";
    assert t == ['*'] + (z + "*");
    assert t[1] == z[0];
    ScanPass(Bold, '*', z + "*", b);
    ScanSkip(Bold, z, "*", false);
    assert "*" == ['*'] + [];
    ScanPass(Bold, '*', [], After(z, false));
  }

  lemma BoldStep(x: string, y: string, z: string)
    requires Plain(x) && Plain(y) && Plain(z) && z != []
    ensures ReplaceAll(Bold, "**" + x + "**" + y + "*" + z + "*")
         == "<strong>" + x + "</strong>" + y + "*" + z + "*"
  {
    var single := "*" + z + "*";
    Regroup5("**" + x + "**", y, "*", z, "*");
    LazyHead("**", false, "<strong>", "</strong>", x, y + single, true);
    ScanSkip(Bold, y, single, false);
    BoldSkipsSingle(z, After(y, false));
    Regroup5("<strong>" + x + "</strong>", y, "*", z, "*");
  }

  lemma ItalicStep(x: string, y: string, z: string)
    requires Plain(x) && Plain(y) && Plain(z)
    ensures ReplaceAll(Italic, "<strong>" + x + "</strong>" + y + "*" + z + "*")
         == "<strong>" + x + "</strong>" + y + "<em>" + z + "</em>"
  {
    var pre := "<strong>" + x + "</strong>" + y;
    assert '*' !in pre;
    Regroup4(pre, "*", z, "*");
    ScanSkip(Italic, pre, "*" + z + "*", true);
    LazyWhole("*", false, "<em>", "</em>", z, After(pre, true));
    Regroup4(pre, "<em>", z, "</em>");
  }

  /** Text with no `_` is left alone by the two underscore passes. */
  lemma UnderscoresIdle(s: string)
    requires '_' !in s
    ensures ReplaceAll(BoldU, s) == s && ReplaceAll(ItalicU, s) == s
  {
    ScanUnchanged(BoldU, s, true);
    ScanUnchanged(ItalicU, s, true);
  }

  /** `**x**y*z*` on one line becomes `<strong>x</strong>y<em>z</em>`. */
  lemma BoldThenItalic(x: string, y: string, z: string)
    requires Plain(x) && Plain(y) && Plain(z) && z != []
    ensures Emphasis("**" + x + "**" + y + "*" + z + "*")
         == "<strong>" + x + "</strong>" + y + "<em>" + z + "</em>"
  {
    var r := "<strong>" + x + "</strong>" + y + "<em>" + z + "</em>";
    EmphasisSteps("**" + x + "**" + y + "*" + z + "*");
    BoldStep(x, y, z);
    ItalicStep(x, y, z);
    TaggedPlain(x, y, z);
    UnderscoresIdle(r);
  }

  lemma TaggedPlain(x: string, y: string, z: string)
    requires Plain(x) && Plain(y) && Plain(z)
    ensures '_' !in "<strong>" + x + "</strong>" + y + "<em>" + z + "</em>"
  {
  }

  lemma BoldAndItalicExample()
    ensures Emphasis("**bold** and *italic*") == "<strong>bold</strong> and <em>italic</em>"
  {
    ExampleInput();
    ExampleOutput();
    ExamplePlain();
    BoldThenItalic("bold", " and ", "italic");
  }

  lemma ExampleInput()
    ensures "**bold** and *italic*" == "**" + "bold" + "**" + " and " + "*" + "italic" + "*"
  {
  }

  lemma ExampleOutput()
    ensures "<strong>bold</strong> and <em>italic</em>"
         == "<strong>" + "bold" + "</strong>" + " and " + "<em>" + "italic" + "</em>"
  {
  }

  lemma ExamplePlain()
    ensures Plain("bold") && Plain(" and ") && Plain("italic")
  {
  }

  // ---------------------------------------------------------------------------
  // At most one marker per line
  // ---------------------------------------------------------------------------

  /** From the front of `t` to the end of its first line there is no `c`. */
  predicate NoneOnLine(t: string, c: char)
    decreases |t|
  {
    t == [] || IsLineTerminator(t[0]) || (t[0] != c && NoneOnLine(t[1..], c))
  }

  /**
   * Reading `s` from the front, no line holds two `c`; `seen` says whether the
   * line `s` starts in already held one.
   */
  predicate OnePerLine(s: string, c: char, seen: bool)
    decreases |s|
  {
    if s == [] then true
    else if IsLineTerminator(s[0]) then OnePerLine(s[1..], c, false)
    else if s[0] == c then !seen && OnePerLine(s[1..], c, true)
    else OnePerLine(s[1..], c, seen)
  }

  /** Between any two `c` in `s` there is a line terminator. */
  predicate AtMostOnePerLine(s: string, c: char) {
    forall i, j | 0 <= i < j < |s| && s[i] == c && s[j] == c ::
      exists k | i < k < j :: IsLineTerminator(s[k])
  }

  /** The line-by-line reading means what it says. */
  lemma {:induction false} OnePerLineMeans(s: string, c: char, seen: bool)
    requires !IsLineTerminator(c) && OnePerLine(s, c, seen)
    ensures AtMostOnePerLine(s, c)
    ensures seen ==> forall j | 0 <= j < |s| && s[j] == c :: exists k | 0 <= k < j :: IsLineTerminator(s[k])
    decreases |s|
  {
    if s != [] {
      var seen' := if IsLineTerminator(s[0]) then false else seen || s[0] == c;
      OnePerLineMeans(s[1..], c, seen');
      var u := s[1..];
      forall i, j | 0 <= i < j < |s| && s[i] == c && s[j] == c
        ensures exists k | i < k < j :: IsLineTerminator(s[k])
      {
        assert u[j - 1] == s[j];
        if i == 0 {
          var k' :| 0 <= k' < j - 1 && IsLineTerminator(u[k']);
          assert s[k' + 1] == u[k'];
        } else {
          assert u[i - 1] == s[i];
          var k' :| i - 1 < k' < j - 1 && IsLineTerminator(u[k']);
          assert s[k' + 1] == u[k'];
        }
      }
      if seen {
        forall j | 0 <= j < |s| && s[j] == c
          ensures exists k | 0 <= k < j :: IsLineTerminator(s[k])
        {
          if !IsLineTerminator(s[0]) {
            assert u[j - 1] == s[j];
            var k' :| 0 <= k' < j - 1 && IsLineTerminator(u[k']);
            assert s[k' + 1] == u[k'];
          }
        }
      }
    }
  }

  /** A search for `c` that stops without finding one leaves none on the line. */
  lemma {:induction false} FindNoneOnLine(t: string, c: char, j: nat)
    requires j <= |t| && Find(t, [c], j, false).None?
    ensures NoneOnLine(t[j..], c)
    decreases |t| - j
  {
    if j < |t| && !IsLineTerminator(t[j]) {
      assert t[j..][0] == t[j];
      assert t[j] != c by {
        assert !([c] <= t[j..]);
      }
      FindNoneOnLine(t, c, j + 1);
      assert t[j..][1..] == t[j + 1..];
    }
  }

  /** Text with no `c` leaves the reading in its "none seen" state. */
  lemma {:induction false} OnePerLineFree(u: string, v: string, c: char)
    requires c !in u && OnePerLine(v, c, false)
    ensures OnePerLine(u + v, c, false)
    decreases |u|
  {
    if u != [] {
      assert u[0] in u;
      assert forall x | x in u[1..] :: x in u;
      OnePerLineFree(u[1..], v, c);
      ConsAppend(u, v);
      OnePerLineCons(u[0], u[1..] + v, c, false);
    } else {
      assert u + v == v;
    }
  }

  lemma OnePerLineCons(x: char, v: string, c: char, seen: bool)
    ensures OnePerLine([x] + v, c, seen)
        == if IsLineTerminator(x) then OnePerLine(v, c, false)
           else if x == c then !seen && OnePerLine(v, c, true)
           else OnePerLine(v, c, seen)
  {
    assert ([x] + v)[0] == x && ([x] + v)[1..] == v;
  }

  /**
   * After `/c(.*?)c/g`, no line holds two `c`: a `c` is either paired with the
   * next one on its line and both are dropped, or is the last on its line.
   */
  lemma {:induction false} LazyLeavesOne(c: char, open: string, close: string, t: string, b: bool, seen: bool)
    requires !IsLineTerminator(c) && c !in open && c !in close
    requires seen ==> NoneOnLine(t, c)
    ensures OnePerLine(Scan(Lazy([c], false, open, close), t, b), c, seen)
    decreases |t|
  {
    if t != [] {
      var p := Lazy([c], false, open, close);
      var m := Step(p, b, t);
      ScanUnfold(p, t, b);
      if MatchAt(p, b, t).Some? {
        var rest := t[m.len..];
        var b' := IsLineTerminator(t[m.len - 1]);
        LazyPairOut(c, open, close, t, b);
        LazyLeavesOne(c, open, close, rest, b', false);
        OnePerLineFree(m.out, Scan(p, rest, b'), c);
      } else {
        var b' := IsLineTerminator(t[0]);
        var seen' := if b' then false else seen || t[0] == c;
        LazyCopyStep(c, open, close, t, b, seen);
        LazyLeavesOne(c, open, close, t[1..], b', seen');
        OnePerLineCons(t[0], Scan(p, t[1..], b'), c, seen);
      }
    }
  }

  /** A matched pair is replaced by text with no `c`. */
  lemma LazyPairOut(c: char, open: string, close: string, t: string, b: bool)
    requires !IsLineTerminator(c) && c !in open && c !in close && t != []
    requires MatchAt(Lazy([c], false, open, close), b, t).Some?
    ensures c !in Step(Lazy([c], false, open, close), b, t).out
  {
    var m := MatchAt(Lazy([c], false, open, close), b, t).value;
    var j := m.len - 1;
    FindSpec(t, [c], 1, false);
    forall k | 1 <= k < j ensures t[k] != c {
      assert !([c] <= t[k..]);
    }
  }

  /** Where no pair starts, the copied character keeps the reading's promise for the rest of the line. */
  lemma LazyCopyStep(c: char, open: string, close: string, t: string, b: bool, seen: bool)
    requires !IsLineTerminator(c) && t != []
    requires MatchAt(Lazy([c], false, open, close), b, t).None?
    requires seen ==> NoneOnLine(t, c)
    ensures t[0] == c ==> !seen && NoneOnLine(t[1..], c)
    ensures seen && !IsLineTerminator(t[0]) ==> NoneOnLine(t[1..], c)
  {
    if t[0] == c {
      assert [c] <= t;
      FindNoneOnLine(t, c, 1);
    }
  }

  /** After the `*` pass no line holds two `*`. */
  lemma ItalicLeavesOneStar(s: string)
    ensures AtMostOnePerLine(ReplaceAll(Italic, s), '*')
  {
    LazyLeavesOne('*', "<em>", "</em>", s, true, false);
    OnePerLineMeans(ReplaceAll(Italic, s), '*', false);
  }

  /** After the `_` pass no line holds two `_`. */
  lemma ItalicULeavesOneUnderscore(s: string)
    ensures AtMostOnePerLine(ReplaceAll(ItalicU, s), '_')
  {
    LazyLeavesOne('_', "<em>", "</em>", s, true, false);
    OnePerLineMeans(ReplaceAll(ItalicU, s), '_', false);
  }
}
