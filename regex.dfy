/**
 * The part of JavaScript regular expressions, and of `String.prototype.replace`
 * with the `g` flag, that the Markdown renderer relies on.
 *
 * A pattern is matched at the start of a suffix `t` of the buffer; `atStart` says
 * whether that position is at the start of the buffer or just after a line
 * terminator (what `^` means under the `m` flag).  `Scan` is the global replace:
 * it takes the leftmost match, emits its replacement and resumes after it, and
 * copies every character at which no match starts.  No pattern here matches the
 * empty string, so the scan always advances.
 */
module Regex {
  import opened Wrappers

  // ---------------------------------------------------------------------------
  // Character classes
  // ---------------------------------------------------------------------------

  /** The characters `.` refuses and beside which `^` and `$` match under `m`. */
  predicate IsLineTerminator(c: char) {
    c == '\n' || c == '\r' || c == '\U{2028}' || c == '\U{2029}'
  }

  /** The class `\s`: white space and line terminators. */
  predicate IsSpace(c: char) {
    || c == '\t' || c == '\n' || c == '\U{000B}' || c == '\U{000C}' || c == '\r'
    || c == ' ' || c == '\U{00A0}' || c == '\U{1680}' || ('\U{2000}' <= c <= '\U{200A}')
    || c == '\U{2028}' || c == '\U{2029}' || c == '\U{202F}' || c == '\U{205F}'
    || c == '\U{3000}' || c == '\U{FEFF}'
  }

  /** The class `[0-9]`. */
  predicate IsDigit(c: char) {
    '0' <= c <= '9'
  }

  /** `s` lies on one line. */
  predicate LineFree(s: string) {
    forall i | 0 <= i < |s| :: !IsLineTerminator(s[i])
  }

  /** `s` is white space only. */
  predicate AllSpace(w: string) {
    forall i | 0 <= i < |w| :: IsSpace(w[i])
  }

  /** `d` occurs nowhere in `s`. */
  predicate Absent(d: string, s: string) {
    forall k | 0 <= k < |s| :: !(d <= s[k..])
  }

  // ---------------------------------------------------------------------------
  // Greedy runs and lazy searches
  // ---------------------------------------------------------------------------

  /** Where `.*` starting at `i` stops: the next line terminator, or the end. */
  function LineEnd(t: string, i: nat): (r: nat)
    requires i <= |t|
    ensures i <= r <= |t| && LineFree(t[i..r])
    ensures r < |t| ==> IsLineTerminator(t[r])
    decreases |t| - i
  {
    if i == |t| || IsLineTerminator(t[i]) then i
    else
      var r := LineEnd(t, i + 1);
      assert t[i..r] == [t[i]] + t[i + 1..r];
      r
  }

  /** Where `[0-9]*` starting at `i` stops. */
  function DigitsEnd(t: string, i: nat): (r: nat)
    requires i <= |t|
    ensures i <= r <= |t|
    ensures forall k | i <= k < r :: IsDigit(t[k])
    ensures r < |t| ==> !IsDigit(t[r])
    decreases |t| - i
  {
    if i == |t| || !IsDigit(t[i]) then i else DigitsEnd(t, i + 1)
  }

  /** Where `\s*` starting at `i` stops. */
  function SpaceEnd(t: string, i: nat): (r: nat)
    requires i <= |t|
    ensures i <= r <= |t|
    ensures forall k | i <= k < r :: IsSpace(t[k])
    ensures r < |t| ==> !IsSpace(t[r])
    decreases |t| - i
  {
    if i == |t| || !IsSpace(t[i]) then i else SpaceEnd(t, i + 1)
  }

  /** Where `[^c]*` starting at `i` stops: the next `c`, or the end. */
  function RunEnd(t: string, i: nat, c: char): (r: nat)
    requires i <= |t|
    ensures i <= r <= |t| && c !in t[i..r]
    ensures r < |t| ==> t[r] == c
    decreases |t| - i
  {
    if i == |t| || t[i] == c then i
    else
      var r := RunEnd(t, i + 1, c);
      assert t[i..r] == [t[i]] + t[i + 1..r];
      r
  }

  /** A run stops at the first `c`. */
  lemma {:induction false} RunEndAt(t: string, i: nat, j: nat, c: char)
    requires i <= j < |t| && t[j] == c
    requires forall k | i <= k < j :: t[k] != c
    ensures RunEnd(t, i, c) == j
    decreases j - i
  {
    if i < j {
      RunEndAt(t, i + 1, j, c);
    }
  }

  /**
   * The lazy search `(.*?)d` (when `crossLines` is false) or `([\s\S]*?)d` (when
   * it is true) whose capture starts at `j`: the first position at or after `j`
   * where `d` occurs, provided every character before it may be captured.
   */
  function Find(t: string, d: string, j: nat, crossLines: bool): (r: Option<nat>)
    requires j <= |t| && d != []
    ensures r.Some? ==> j <= r.value && r.value + |d| <= |t| && d <= t[r.value..]
    decreases |t| - j
  {
    if j == |t| then None
    else if d <= t[j..] then Some(j)
    else if !crossLines && IsLineTerminator(t[j]) then None
    else Find(t, d, j + 1, crossLines)
  }

  /** `Find` returns the first occurrence it may reach, and none is missed. */
  lemma {:induction false} FindSpec(t: string, d: string, j: nat, crossLines: bool)
    requires j <= |t| && d != []
    ensures Find(t, d, j, crossLines).Some? ==> forall k | j <= k < Find(t, d, j, crossLines).value ::
              !(d <= t[k..]) && (crossLines || !IsLineTerminator(t[k]))
    ensures Find(t, d, j, crossLines).None? ==> forall k | j <= k < |t| && (crossLines || k <= LineEnd(t, j)) ::
              !(d <= t[k..])
    decreases |t| - j
  {
    if j < |t| && !(d <= t[j..]) && (crossLines || !IsLineTerminator(t[j])) {
      FindSpec(t, d, j + 1, crossLines);
      if !crossLines {
        assert LineEnd(t, j) == LineEnd(t, j + 1);
      }
    }
  }

  // ---------------------------------------------------------------------------
  // Pattern shapes
  // ---------------------------------------------------------------------------

  /** A match: how many characters of the buffer it consumes, and its replacement. */
  datatype Match = Match(len: nat, out: string)

  /** The parts of `[label](url)` found at the start of a string. */
  datatype LinkSyntax = LinkSyntax(text: string, url: string, len: nat)

  /** The shapes of the renderer's global regular expressions. */
  datatype Pattern =
      /** `/^marker(.*$)/gm` → `open $1 close` */
    | LineStart(marker: string, open: string, close: string)
      /** `/^([0-9]+)\. (.*$)/gm` → `open $2 close` */
    | NumberedLine(open: string, close: string)
      /** `/delim(.*?)delim/g`, or `/delim([\s\S]*?)delim/g` → `open $1 close` */
    | Lazy(delim: string, crossLines: bool, open: string, close: string)
      /** `/d([^d]+)d/g` → `open $1 close` */
    | Enclosed(d: char, open: string, close: string)
      /** `/\[([^\[]+)\]\(([^\)]+)\)/g` → `<a href="$2">$1</a>` */
    | Link
      /** `/!\[([^\[]+)\]\(([^\)]+)\)/g` → `<img src="$2" alt="$1" />` */
    | Image
      /** `/left\s*right/g` → `repl` */
    | Gap(left: string, right: string, repl: string)
      /** `/c/g` → `repl` */
    | Literal(c: char, repl: string)

  /** The patterns the renderer uses: none matches the empty string, and greedy runs never need to give characters back. */
  predicate WellFormed(p: Pattern) {
    match p
    case LineStart(marker, _, _) => marker != [] && LineFree(marker)
    case Lazy(delim, crossLines, _, _) => delim != [] && (crossLines || LineFree(delim))
    case Gap(left, right, _) => left != [] && right != [] && !IsSpace(right[0])
    case _ => true
  }

  /** Patterns whose matches never reach past the end of the line they start on. */
  predicate LineLocal(p: Pattern) {
    WellFormed(p) && (p.LineStart? || p.NumberedLine? || (p.Lazy? && !p.crossLines))
  }

  /** `c` can be the first character of a match of `p`. */
  predicate Lead(p: Pattern, c: char)
    requires WellFormed(p)
  {
    match p
    case LineStart(marker, _, _) => c == marker[0]
    case NumberedLine(_, _) => IsDigit(c)
    case Lazy(delim, _, _, _) => c == delim[0]
    case Enclosed(d, _, _) => c == d
    case Link => c == '['
    case Image => c == '!'
    case Gap(left, _, _) => c == left[0]
    case Literal(x, _) => c == x
  }

  // ---------------------------------------------------------------------------
  // Matchers, one per shape
  // ---------------------------------------------------------------------------

  function MatchLineStart(marker: string, open: string, close: string, atStart: bool, t: string): (m: Option<Match>)
    requires marker != []
    ensures m.Some? <==> atStart && marker <= t
    ensures m.Some? ==>
      var e := m.value.len;
      |marker| <= e <= |t| && LineFree(t[|marker|..e]) && (e < |t| ==> IsLineTerminator(t[e]))
      && m.value.out == open + t[|marker|..e] + close
  {
    if atStart && marker <= t then
      var e := LineEnd(t, |marker|);
      Some(Match(e, open + t[|marker|..e] + close))
    else None
  }

  function MatchNumberedLine(open: string, close: string, atStart: bool, t: string): (m: Option<Match>)
    ensures m.Some? ==> atStart && t != [] && IsDigit(t[0])
    ensures m.Some? ==>
      var d := DigitsEnd(t, 0);
      var e := m.value.len;
      d + 2 <= e <= |t| && ". " <= t[d..] && LineFree(t[d + 2..e]) && (e < |t| ==> IsLineTerminator(t[e]))
      && m.value.out == open + t[d + 2..e] + close
  {
    if atStart && t != [] && IsDigit(t[0]) then
      var d := DigitsEnd(t, 0);
      if ". " <= t[d..] then
        var e := LineEnd(t, d + 2);
        Some(Match(e, open + t[d + 2..e] + close))
      else None
    else None
  }

  function MatchLazy(delim: string, crossLines: bool, open: string, close: string, t: string): (m: Option<Match>)
    requires delim != []
    ensures m.Some? ==> delim <= t
    ensures m.Some? ==>
      var j := m.value.len - |delim|;
      |delim| <= j && m.value.len <= |t| && delim <= t[j..]
      && m.value.out == open + t[|delim|..j] + close
  {
    if delim <= t then
      match Find(t, delim, |delim|, crossLines)
      case Some(j) => Some(Match(j + |delim|, open + t[|delim|..j] + close))
      case None => None
    else None
  }

  function MatchEnclosed(d: char, open: string, close: string, t: string): (m: Option<Match>)
    ensures m.Some? ==>
      var q := m.value.len - 1;
      2 <= q + 1 <= |t| && 1 < q && t[0] == d && t[q] == d && d !in t[1..q]
      && m.value.out == open + t[1..q] + close
  {
    if t != [] && t[0] == d then
      var q := RunEnd(t, 1, d);
      if 1 < q < |t| then Some(Match(q + 1, open + t[1..q] + close)) else None
    else None
  }

  /** Conversely, a `d`, a non-empty run free of `d`, and a `d` always match, up to that second `d`. */
  lemma EnclosedMatches(d: char, open: string, close: string, t: string, q: nat)
    requires 1 < q < |t| && t[0] == d && t[q] == d && d !in t[1..q]
    ensures MatchEnclosed(d, open, close, t) == Some(Match(q + 1, open + t[1..q] + close))
  {
    assert forall k | 1 <= k < q :: t[k] == t[1..q][k - 1];
    RunEndAt(t, 1, q, d);
  }

  /** The link syntax with the label ending at `k`, if the rest of the pattern fits there. */
  function LinkAt(t: string, k: nat): (r: Option<LinkSyntax>)
    requires 2 <= k <= |t| && t[0] == '['
    ensures r.Some? ==> k + 1 < |t| && t[k] == ']' && t[k + 1] == '('
    ensures r.Some? ==> k + 3 < r.value.len <= |t| && r.value.text == t[1..k]
  {
    if k + 1 < |t| && t[k] == ']' && t[k + 1] == '(' then
      var q := RunEnd(t, k + 2, ')');
      if k + 2 < q < |t| then Some(LinkSyntax(t[1..k], t[k + 2..q], q + 1)) else None
    else None
  }

  /** What `LinkAt` found: a non-empty label, then `](`, a non-empty url without `)`, then `)`. */
  lemma LinkAtShape(t: string, k: nat)
    requires 2 <= k <= |t| && t[0] == '[' && LinkAt(t, k).Some?
    ensures var l := LinkAt(t, k).value;
      && l.text != [] && l.url != [] && ')' !in l.url
      && t[..l.len] == "[" + l.text + "](" + l.url + ")"
  {
    var q := RunEnd(t, k + 2, ')');
    assert t[..1] == "[" && t[k..k + 2] == "](" && t[q..q + 1] == ")";
    SliceFive(t, 1, k, k + 2, q, q + 1);
  }

  /** A prefix cut at four points is the concatenation of its five pieces. */
  lemma SliceFive(t: string, a: nat, b: nat, c: nat, d: nat, e: nat)
    requires a <= b <= c <= d <= e <= |t|
    ensures t[..e] == t[..a] + t[a..b] + t[b..c] + t[c..d] + t[d..e]
  {
    assert t[..b] == t[..a] + t[a..b];
    assert t[..c] == t[..b] + t[b..c];
    assert t[..d] == t[..c] + t[c..d];
    assert t[..e] == t[..d] + t[d..e];
  }

  /** The greedy label `[^\[]+` backtracking from `k`: the longest label that lets the rest match. */
  function LinkTry(t: string, k: nat): (r: Option<LinkSyntax>)
    requires 1 <= k <= |t| && t[0] == '['
    ensures r.Some? ==> 2 <= |r.value.text| + 1 <= k && LinkAt(t, |r.value.text| + 1) == r
    decreases k
  {
    if k < 2 then None
    else match LinkAt(t, k)
      case Some(l) => Some(l)
      case None => LinkTry(t, k - 1)
  }

  /** `LinkTry` finds the longest label: no label end above the one found (or none at all) fits the pattern. */
  lemma {:induction false} LinkTryLongest(t: string, k: nat)
    requires 1 <= k <= |t| && t[0] == '['
    ensures LinkTry(t, k).None? ==> forall k' | 2 <= k' <= k :: LinkAt(t, k').None?
    ensures LinkTry(t, k).Some? ==>
      forall k' | |LinkTry(t, k).value.text| + 1 < k' <= k :: LinkAt(t, k').None?
    decreases k
  {
    if 2 <= k {
      if LinkAt(t, k).Some? {
        assert LinkTry(t, k) == LinkAt(t, k);
        assert |LinkAt(t, k).value.text| + 1 == k;
      } else {
        LinkTryLongest(t, k - 1);
        assert LinkTry(t, k) == LinkTry(t, k - 1);
      }
    }
  }

  /** The link syntax at the start of `t`, with the longest possible label. */
  function LinkParts(t: string): (r: Option<LinkSyntax>)
    ensures r.Some? ==> t != [] && t[0] == '[' && 0 < r.value.len <= |t|
  {
    if t != [] && t[0] == '[' then LinkTry(t, RunEnd(t, 1, '[')) else None
  }

  /**
   * `\[([^\[]+)\]\(([^\)]+)\)` at the start of `t`: a label free of `[`, then `](`,
   * a non-empty url free of `)`, then `)`, with the label as long as it can be;
   * and no match at all when no label end fits.
   */
  lemma LinkPartsSpec(t: string)
    ensures LinkParts(t).Some? ==>
      var l := LinkParts(t).value;
      && l.text != [] && '[' !in l.text && l.url != [] && ')' !in l.url
      && t[..l.len] == "[" + l.text + "](" + l.url + ")"
      && forall k | |l.text| + 1 < k <= RunEnd(t, 1, '[') :: LinkAt(t, k).None?
    ensures t != [] && t[0] == '[' && LinkParts(t).None? ==>
      forall k | 2 <= k <= RunEnd(t, 1, '[') :: LinkAt(t, k).None?
  {
    if t != [] && t[0] == '[' {
      var e := RunEnd(t, 1, '[');
      LinkTryLongest(t, e);
      var r := LinkTry(t, e);
      if r.Some? {
        LinkAtShape(t, |r.value.text| + 1);
        assert '[' !in r.value.text by {
          forall i | 0 <= i < |r.value.text| ensures r.value.text[i] != '[' {
            assert r.value.text[i] == t[1..e][i];
          }
        }
      }
    }
  }

  function MatchGap(left: string, right: string, repl: string, t: string): (m: Option<Match>)
    requires left != [] && right != []
    ensures m.Some? ==>
      var j := m.value.len - |right|;
      left <= t && |left| <= j && m.value.len <= |t|
      && (forall k | |left| <= k < j :: IsSpace(t[k])) && right <= t[j..]
      && m.value.out == repl
  {
    if left <= t then
      var j := SpaceEnd(t, |left|);
      if right <= t[j..] then Some(Match(j + |right|, repl)) else None
    else None
  }

  function MatchAt(p: Pattern, atStart: bool, t: string): (m: Option<Match>)
    requires WellFormed(p)
    ensures m.Some? ==> 0 < m.value.len <= |t| && Lead(p, t[0])
  {
    match p
    case LineStart(marker, open, close) => MatchLineStart(marker, open, close, atStart, t)
    case NumberedLine(open, close) => MatchNumberedLine(open, close, atStart, t)
    case Lazy(delim, crossLines, open, close) => MatchLazy(delim, crossLines, open, close, t)
    case Enclosed(d, open, close) => MatchEnclosed(d, open, close, t)
    case Link =>
      (match LinkParts(t)
       case Some(l) => Some(Match(l.len, "<a href=\"" + l.url + "\">" + l.text + "</a>"))
       case None => None)
    case Image =>
      if t != [] && t[0] == '!' then
        match LinkParts(t[1..])
        case Some(l) => Some(Match(l.len + 1, "<img src=\"" + l.url + "\" alt=\"" + l.text + "\" />"))
        case None => None
      else None
    case Gap(left, right, repl) => MatchGap(left, right, repl, t)
    case Literal(c, repl) => if t != [] && t[0] == c then Some(Match(1, repl)) else None
  }

  // ---------------------------------------------------------------------------
  // The global replace
  // ---------------------------------------------------------------------------

  /** `atStart` after consuming the non-empty `x`, or `b` when nothing was consumed. */
  function After(x: string, b: bool): bool {
    if x == [] then b else IsLineTerminator(x[|x| - 1])
  }

  /** What the scan does at the front of `t`: the match there, or a copy of the first character. */
  function Step(p: Pattern, atStart: bool, t: string): (m: Match)
    requires WellFormed(p) && t != []
    ensures 0 < m.len <= |t|
    ensures MatchAt(p, atStart, t).None? ==> m == Match(1, [t[0]])
    ensures MatchAt(p, atStart, t).Some? ==> m == MatchAt(p, atStart, t).value
  {
    match MatchAt(p, atStart, t)
    case Some(m) => m
    case None => Match(1, [t[0]])
  }

  /** Replace every match of `p` in `t`, scanning left to right without overlap. */
  function Scan(p: Pattern, t: string, atStart: bool): string
    requires WellFormed(p)
    decreases |t|
  {
    if t == [] then []
    else
      var m := Step(p, atStart, t);
      m.out + Scan(p, t[m.len..], IsLineTerminator(t[m.len - 1]))
  }

  /** `s.replace(p, …)` with the `g` flag (and `m` where the pattern uses `^`). */
  function ReplaceAll(p: Pattern, s: string): string
    requires WellFormed(p)
  {
    Scan(p, s, true)
  }

  /** The passes `ps`, one after another, each a global replace on the result of the one before. */
  function ReplaceEach(ps: seq<Pattern>, s: string): string
    requires forall p | p in ps :: WellFormed(p)
    decreases |ps|
  {
    if ps == [] then s else ReplaceEach(ps[1..], ReplaceAll(ps[0], s))
  }
}
