/**
 * General facts about the global replace `Regex.Scan`: text that cannot start a
 * match is copied, a match at the front is replaced, a scan with no match is
 * the identity, and a pattern that stays on one line acts line by line.
 */
module Scanning {
  import opened Wrappers
  import opened Regex

  /** Characters none of which can start a match are copied unchanged. */
  lemma {:induction false} ScanSkip(p: Pattern, x: string, y: string, b: bool)
    requires WellFormed(p)
    requires forall c | c in x :: !Lead(p, c)
    ensures Scan(p, x + y, b) == x + Scan(p, y, After(x, b))
    decreases |x|
  {
    if x != [] {
      assert x[0] in x;
      forall c | c in x[1..] ensures !Lead(p, c) {
        assert c in x;
      }
      ScanSkip(p, x[1..], y, IsLineTerminator(x[0]));
      ScanSkipFront(p, x, y, b);
    } else {
      assert x + y == y;
    }
  }

  /** The inductive step of `ScanSkip`: the first character of `x` is copied. */
  lemma ScanSkipFront(p: Pattern, x: string, y: string, b: bool)
    requires WellFormed(p) && x != [] && !Lead(p, x[0])
    requires Scan(p, x[1..] + y, IsLineTerminator(x[0]))
          == x[1..] + Scan(p, y, After(x[1..], IsLineTerminator(x[0])))
    ensures Scan(p, x + y, b) == x + Scan(p, y, After(x, b))
  {
    ConsAppend(x, y);
    ScanPass(p, x[0], x[1..] + y, b);
    AfterTail(x, b);
    Assoc([x[0]], x[1..], Scan(p, y, After(x, b)));
  }

  lemma ConsAppend(x: string, y: string)
    requires x != []
    ensures x + y == [x[0]] + (x[1..] + y) && [x[0]] + x[1..] == x
  {
  }

  lemma Assoc(a: string, b: string, c: string)
    ensures a + (b + c) == (a + b) + c
  {
  }

  lemma AfterTail(x: string, b: bool)
    requires x != []
    ensures After(x[1..], IsLineTerminator(x[0])) == After(x, b)
  {
    if x[1..] != [] {
      assert x[1..][|x[1..]| - 1] == x[|x| - 1];
    }
  }

  /** A string none of whose characters can start a match is left as it is. */
  lemma ScanUnchanged(p: Pattern, s: string, b: bool)
    requires WellFormed(p)
    requires forall c | c in s :: !Lead(p, c)
    ensures Scan(p, s, b) == s
  {
    ScanSkip(p, s, [], b);
    assert s + [] == s;
  }

  /** A match of exactly the front part `x` is replaced and the scan resumes after it. */
  lemma ScanTake(p: Pattern, x: string, y: string, b: bool, out: string)
    requires WellFormed(p)
    requires MatchAt(p, b, x + y) == Some(Match(|x|, out))
    ensures x != [] && Scan(p, x + y, b) == out + Scan(p, y, After(x, b))
  {
    StepTakes(p, x + y, b, |x|, out);
    DropAppend(x, y, |x|);
    ScanUnfold(p, x + y, b);
  }

  lemma StepTakes(p: Pattern, t: string, b: bool, n: nat, out: string)
    requires WellFormed(p)
    requires MatchAt(p, b, t) == Some(Match(n, out))
    ensures t != [] && 0 < n <= |t| && Step(p, b, t) == Match(n, out)
  {
  }

  /** A front character at which no match starts is copied. */
  lemma ScanPass(p: Pattern, c: char, y: string, b: bool)
    requires WellFormed(p)
    requires MatchAt(p, b, [c] + y).None?
    ensures Scan(p, [c] + y, b) == [c] + Scan(p, y, IsLineTerminator(c))
  {
    assert ([c] + y)[1..] == y;
  }

  /** If no match starts anywhere, the scan is the identity. */
  lemma {:induction false} ScanNoMatch(p: Pattern, t: string, b: bool)
    requires WellFormed(p)
    requires forall k, b' | 0 <= k < |t| :: MatchAt(p, b', t[k..]).None?
    ensures Scan(p, t, b) == t
    decreases |t|
  {
    if t != [] {
      assert t[0..] == t;
      forall k, b' | 0 <= k < |t[1..]| ensures MatchAt(p, b', t[1..][k..]).None? {
        assert t[1..][k..] == t[k + 1..];
      }
      ScanNoMatch(p, t[1..], IsLineTerminator(t[0]));
    }
  }

  // ---------------------------------------------------------------------------
  // Line locality
  // ---------------------------------------------------------------------------

  /** Whether a one-line `d` is a prefix of `x[j..]` is not affected by what follows a line terminator. */
  lemma PrefixLocal(d: string, x: string, y: string, j: nat)
    requires LineFree(d) && j <= |x|
    requires y == [] || IsLineTerminator(y[0])
    ensures (d <= (x + y)[j..]) == (d <= x[j..])
  {
    assert (x + y)[j..] == x[j..] + y;
    if |d| > |x| - j && y != [] {
      var i := |x| - j;
      assert (x[j..] + y)[i] == y[0];
      assert !IsLineTerminator(d[i]);
    }
    if |d| <= |x| - j {
      assert (x[j..] + y)[..|d|] == x[j..][..|d|];
    }
  }

  /** `.*` stops at the line terminator, whatever follows it. */
  lemma {:induction false} LineEndAppend(x: string, y: string, i: nat)
    requires i <= |x|
    requires y == [] || IsLineTerminator(y[0])
    ensures LineEnd(x + y, i) == LineEnd(x, i)
    decreases |x| - i
  {
    if i < |x| {
      assert (x + y)[i] == x[i];
      if !IsLineTerminator(x[i]) {
        LineEndAppend(x, y, i + 1);
      }
    }
  }

  /** `[0-9]*` stops before a line terminator, whatever follows it. */
  lemma {:induction false} DigitsEndAppend(x: string, y: string, i: nat)
    requires i <= |x|
    requires y == [] || IsLineTerminator(y[0])
    ensures DigitsEnd(x + y, i) == DigitsEnd(x, i)
    decreases |x| - i
  {
    if i < |x| {
      assert (x + y)[i] == x[i];
      if IsDigit(x[i]) {
        DigitsEndAppend(x, y, i + 1);
      }
    }
  }

  /** A one-line lazy search ends at the line terminator, whatever follows. */
  lemma {:induction false} FindLocal(x: string, y: string, d: string, j: nat)
    requires d != [] && LineFree(d) && j <= |x|
    requires y == [] || IsLineTerminator(y[0])
    ensures Find(x + y, d, j, false) == Find(x, d, j, false)
    decreases |x| - j
  {
    PrefixLocal(d, x, y, j);
    if j == |x| {
      if y != [] {
        assert d[0] != y[0];
        assert (x + y)[j..] == y;
        assert !(d <= (x + y)[j..]);
        assert (x + y)[j] == y[0];
      }
    } else {
      assert (x + y)[j] == x[j];
      if !(d <= x[j..]) && !IsLineTerminator(x[j]) {
        FindLocal(x, y, d, j + 1);
      }
    }
  }

  /** A line-local match on a one-line `x` does not look past the line terminator after it. */
  lemma MatchLocalLine(p: Pattern, b: bool, x: string, y: string)
    requires LineLocal(p) && LineFree(x)
    requires y == [] || IsLineTerminator(y[0])
    ensures MatchAt(p, b, x + y) == MatchAt(p, b, x)
  {
    match p
    case LineStart(marker, open, close) => LineStartLocal(marker, open, close, b, x, y);
    case NumberedLine(open, close) => NumberedLocal(open, close, b, x, y);
    case Lazy(delim, crossLines, open, close) => LazyLocal(delim, open, close, x, y);
  }

  lemma LineEndLocal(x: string, y: string, i: nat)
    requires LineFree(x) && i <= |x|
    requires y == [] || IsLineTerminator(y[0])
    ensures LineEnd(x + y, i) == |x| && LineEnd(x, i) == |x|
    ensures (x + y)[i..|x|] == x[i..|x|]
  {
    LineEndAppend(x, y, i);
    assert LineEnd(x, i) == |x|;
  }

  lemma LineStartLocal(marker: string, open: string, close: string, b: bool, x: string, y: string)
    requires marker != [] && LineFree(marker) && LineFree(x)
    requires y == [] || IsLineTerminator(y[0])
    ensures MatchLineStart(marker, open, close, b, x + y) == MatchLineStart(marker, open, close, b, x)
  {
    PrefixLocal(marker, x, y, 0);
    assert (x + y)[0..] == x + y && x[0..] == x;
    if b && marker <= x {
      LineEndLocal(x, y, |marker|);
    }
  }

  lemma NumberedLocal(open: string, close: string, b: bool, x: string, y: string)
    requires LineFree(x)
    requires y == [] || IsLineTerminator(y[0])
    ensures MatchNumberedLine(open, close, b, x + y) == MatchNumberedLine(open, close, b, x)
  {
    if x == [] {
      assert x + y == y;
    } else {
      assert (x + y)[0] == x[0];
      DigitsEndAppend(x, y, 0);
      var d := DigitsEnd(x, 0);
      PrefixLocal(". ", x, y, d);
      if ". " <= x[d..] {
        LineEndLocal(x, y, d + 2);
      }
    }
  }

  lemma LazyLocal(delim: string, open: string, close: string, x: string, y: string)
    requires delim != [] && LineFree(delim) && LineFree(x)
    requires y == [] || IsLineTerminator(y[0])
    ensures MatchLazy(delim, false, open, close, x + y) == MatchLazy(delim, false, open, close, x)
  {
    PrefixLocal(delim, x, y, 0);
    SliceFromZero(x + y);
    SliceFromZero(x);
    if delim <= x {
      FindLocal(x, y, delim, |delim|);
      var f := Find(x, delim, |delim|, false);
      if f.Some? {
        SliceLeft(x, y, |delim|, f.value);
      }
      SameLazy(delim, open, close, x, x + y);
    }
  }

  lemma SliceFromZero(s: string)
    ensures s[0..] == s
  {
  }

  /** Two texts that start with the delimiter and whose searches agree give the same lazy match. */
  lemma SameLazy(delim: string, open: string, close: string, u: string, v: string)
    requires delim != [] && delim <= u && delim <= v
    requires Find(v, delim, |delim|, false) == Find(u, delim, |delim|, false)
    requires var f := Find(u, delim, |delim|, false);
      f.Some? ==> v[|delim|..f.value] == u[|delim|..f.value]
    ensures MatchLazy(delim, false, open, close, v) == MatchLazy(delim, false, open, close, u)
  {
  }

  lemma SliceLeft(x: string, y: string, i: nat, j: nat)
    requires i <= j <= |x|
    ensures (x + y)[i..j] == x[i..j]
  {
  }


  /** A line-local match does not look past the first line terminator after it. */
  lemma MatchLocal(p: Pattern, b: bool, w: string, v: string)
    requires LineLocal(p)
    requires v == [] || IsLineTerminator(v[0])
    ensures MatchAt(p, b, w + v) == MatchAt(p, b, w)
  {
    var i := LineEnd(w, 0);
    assert w[0..i] == w[..i];
    if i == |w| {
      assert w[..i] == w;
      MatchLocalLine(p, b, w, v);
    } else {
      assert w == w[..i] + w[i..];
      assert w + v == w[..i] + (w[i..] + v);
      assert (w[i..] + v)[0] == w[i];
      MatchLocalLine(p, b, w[..i], w[i..] + v);
      MatchLocalLine(p, b, w[..i], w[i..]);
    }
  }

  /** A line-local pass acts on the text before a line terminator and on the text after it separately. */
  lemma ScanLines(p: Pattern, w: string, lt: char, z: string, b: bool)
    requires LineLocal(p) && IsLineTerminator(lt)
    ensures Scan(p, w + [lt] + z, b) == Scan(p, w, b) + [lt] + Scan(p, z, true)
  {
    assert w + [lt] + z == w + ([lt] + z);
    ScanSplit(p, w, [lt] + z, b);
    assert ([lt] + z)[1..] == z;
  }

  /** `ScanLines`, with the line terminator and what follows it as one string `u`. */
  lemma {:induction false} ScanSplit(p: Pattern, w: string, u: string, b: bool)
    requires LineLocal(p) && u != [] && IsLineTerminator(u[0])
    ensures Scan(p, w + u, b) == Scan(p, w, b) + [u[0]] + Scan(p, u[1..], true)
    decreases |w|
  {
    if w == [] {
      ScanSplitEmpty(p, u, b);
    } else {
      var m := Step(p, b, w);
      ScanSplit(p, w[m.len..], u, IsLineTerminator(w[m.len - 1]));
      ScanSplitFront(p, w, u, b);
    }
  }

  lemma ScanSplitEmpty(p: Pattern, u: string, b: bool)
    requires LineLocal(p) && u != [] && IsLineTerminator(u[0])
    ensures Scan(p, [] + u, b) == Scan(p, [], b) + [u[0]] + Scan(p, u[1..], true)
  {
    assert [] + u == u;
    LineTerminatorCopied(p, u, b);
    NilFront([u[0]], Scan(p, u[1..], true));
  }

  /** At a line terminator a line-local pass matches nothing, so it is copied. */
  lemma LineTerminatorCopied(p: Pattern, u: string, b: bool)
    requires LineLocal(p) && u != [] && IsLineTerminator(u[0])
    ensures Scan(p, u, b) == [u[0]] + Scan(p, u[1..], true)
  {
    MatchLocal(p, b, [], u);
    assert [] + u == u;
    ScanUnfold(p, u, b);
  }

  lemma NilFront(a: string, c: string)
    ensures [] + a + c == a + c
  {
  }

  /** The inductive step of `ScanSplit`: the front step on `w` is the front step on `w + u`. */
  lemma ScanSplitFront(p: Pattern, w: string, u: string, b: bool)
    requires LineLocal(p) && u != [] && IsLineTerminator(u[0]) && w != []
    requires var m := Step(p, b, w); var b' := IsLineTerminator(w[m.len - 1]);
      Scan(p, w[m.len..] + u, b') == Scan(p, w[m.len..], b') + [u[0]] + Scan(p, u[1..], true)
    ensures Scan(p, w + u, b) == Scan(p, w, b) + [u[0]] + Scan(p, u[1..], true)
  {
    StepLocal(p, b, w, u);
    var m := Step(p, b, w);
    var b' := IsLineTerminator(w[m.len - 1]);
    DropAppend(w, u, m.len);
    ScanUnfold(p, w + u, b);
    ScanUnfold(p, w, b);
    Regroup(m.out, Scan(p, w[m.len..], b'), [u[0]], Scan(p, u[1..], true));
  }

  lemma DropAppend(w: string, u: string, n: nat)
    requires 0 < n <= |w|
    ensures (w + u)[n..] == w[n..] + u && (w + u)[n - 1] == w[n - 1]
  {
  }

  lemma Nest4(a: string, b: string, c: string, d: string)
    ensures a + b + c + d == a + (b + (c + d))
  {
  }

  lemma Regroup4(a: string, b: string, c: string, d: string)
    ensures a + (b + c + d) == a + b + c + d
  {
  }

  lemma Regroup5(a: string, b: string, c: string, d: string, e: string)
    ensures a + (b + (c + d + e)) == a + b + c + d + e
  {
  }

  lemma Regroup(a: string, b: string, c: string, d: string)
    ensures a + (b + c + d) == (a + b) + c + d
  {
  }

  /** One step of the scan, as an equation. */
  lemma ScanUnfold(p: Pattern, t: string, b: bool)
    requires WellFormed(p) && t != []
    ensures var m := Step(p, b, t);
      Scan(p, t, b) == m.out + Scan(p, t[m.len..], IsLineTerminator(t[m.len - 1]))
  {
  }

  /** A line-local pass takes the same step whatever follows the current line. */
  lemma StepLocal(p: Pattern, b: bool, w: string, v: string)
    requires LineLocal(p) && w != []
    requires v == [] || IsLineTerminator(v[0])
    ensures Step(p, b, w + v) == Step(p, b, w)
  {
    MatchLocal(p, b, w, v);
  }

  /** Passes that all stay on one line act on each line separately. */
  lemma {:induction false} EachLines(ps: seq<Pattern>, w: string, lt: char, z: string)
    requires forall p | p in ps :: WellFormed(p) && LineLocal(p)
    requires IsLineTerminator(lt)
    ensures ReplaceEach(ps, w + [lt] + z) == ReplaceEach(ps, w) + [lt] + ReplaceEach(ps, z)
    decreases |ps|
  {
    if ps != [] {
      ScanLines(ps[0], w, lt, z, true);
      assert forall p | p in ps[1..] :: p in ps;
      EachLines(ps[1..], ReplaceAll(ps[0], w), lt, ReplaceAll(ps[0], z));
    }
  }

  /** Running two lists of passes in turn is running their concatenation. */
  lemma {:induction false} EachAppend(ps: seq<Pattern>, qs: seq<Pattern>, s: string)
    requires forall p | p in ps + qs :: WellFormed(p)
    ensures ReplaceEach(ps + qs, s) == ReplaceEach(qs, ReplaceEach(ps, s))
    decreases |ps|
  {
    if ps == [] {
      assert ps + qs == qs;
    } else {
      assert (ps + qs)[0] == ps[0] && (ps + qs)[1..] == ps[1..] + qs;
      EachAppend(ps[1..], qs, ReplaceAll(ps[0], s));
    }
  }

  lemma EachTwo(p: Pattern, q: Pattern, s: string)
    requires WellFormed(p) && WellFormed(q)
    ensures ReplaceEach([p, q], s) == ReplaceAll(q, ReplaceAll(p, s))
  {
    assert [p, q][1..] == [q] && [q][1..] == [];
    assert ReplaceEach([p, q], s) == ReplaceEach([q], ReplaceAll(p, s));
    assert ReplaceEach([q], ReplaceAll(p, s)) == ReplaceEach([], ReplaceAll(q, ReplaceAll(p, s)));
  }

  /** Away from the start of a line, a `^`-anchored pattern never matches on that line. */
  lemma {:induction false} ScanOffLineStart(p: Pattern, x: string)
    requires WellFormed(p) && (p.LineStart? || p.NumberedLine?) && LineFree(x)
    ensures Scan(p, x, false) == x
    decreases |x|
  {
    if x != [] {
      assert !IsLineTerminator(x[0]);
      assert LineFree(x[1..]) by {
        forall i | 0 <= i < |x[1..]| ensures !IsLineTerminator(x[1..][i]) {
          assert x[1..][i] == x[i + 1];
        }
      }
      ScanOffLineStart(p, x[1..]);
    }
  }

  /** A match that takes all of `x` is the whole result. */
  lemma ScanWhole(p: Pattern, x: string, b: bool, out: string)
    requires WellFormed(p)
    requires MatchAt(p, b, x) == Some(Match(|x|, out))
    ensures Scan(p, x, b) == out
  {
    assert x + [] == x;
    ScanTake(p, x, [], b, out);
    assert out + [] == out;
  }

  /** A one-line `x` whose first character is not matched is copied unchanged. */
  lemma ScanFirstPass(p: Pattern, x: string)
    requires WellFormed(p) && (p.LineStart? || p.NumberedLine?) && LineFree(x) && x != []
    requires MatchAt(p, true, x).None?
    ensures Scan(p, x, true) == x
  {
    assert [x[0]] + x[1..] == x;
    ScanPass(p, x[0], x[1..], true);
    assert LineFree(x[1..]) by {
      forall i | 0 <= i < |x[1..]| ensures !IsLineTerminator(x[1..][i]) {
        assert x[1..][i] == x[i + 1];
      }
    }
    ScanOffLineStart(p, x[1..]);
  }

  /** On one line, `/^marker(.*$)/gm` wraps the whole line exactly when it starts with `marker`. */
  lemma LineStartOneLine(marker: string, open: string, close: string, x: string)
    requires WellFormed(LineStart(marker, open, close)) && LineFree(x)
    ensures Scan(LineStart(marker, open, close), x, true)
         == if marker <= x then open + x[|marker|..] + close else x
  {
    var p := LineStart(marker, open, close);
    if marker <= x {
      LineEndLocal(x, [], |marker|);
      assert x[|marker|..|x|] == x[|marker|..];
      ScanWhole(p, x, true, open + x[|marker|..] + close);
    } else if x != [] {
      ScanFirstPass(p, x);
    }
  }

  /** On one line, `/^([0-9]+)\. (.*$)/gm` wraps the text after the number exactly when the line starts with digits and `. `. */
  lemma NumberedOneLine(open: string, close: string, x: string)
    requires LineFree(x)
    ensures Scan(NumberedLine(open, close), x, true)
         == if x != [] && IsDigit(x[0]) && ". " <= x[DigitsEnd(x, 0)..]
            then open + x[DigitsEnd(x, 0) + 2..] + close else x
  {
    var p := NumberedLine(open, close);
    if x != [] {
      var d := DigitsEnd(x, 0);
      if IsDigit(x[0]) && ". " <= x[d..] {
        LineEndLocal(x, [], d + 2);
        assert x[d + 2..|x|] == x[d + 2..];
        ScanWhole(p, x, true, open + x[d + 2..] + close);
      } else {
        ScanFirstPass(p, x);
      }
    }
  }

  // ---------------------------------------------------------------------------
  // Matches at the front
  // ---------------------------------------------------------------------------

  /** Between `j` and `r` no occurrence of `d` starts, and the search may pass every character. */
  predicate NoneBetween(t: string, d: string, j: nat, r: nat, crossLines: bool)
    requires r <= |t|
  {
    forall k | j <= k < r :: !(d <= t[k..]) && (crossLines || !IsLineTerminator(t[k]))
  }

  /** The lazy search stops at the first occurrence of `d`. */
  lemma {:induction false} FindFirst(t: string, d: string, j: nat, r: nat, crossLines: bool)
    requires d != [] && j <= r && r + |d| <= |t| && d <= t[r..]
    requires NoneBetween(t, d, j, r, crossLines)
    ensures Find(t, d, j, crossLines) == Some(r)
    decreases r - j
  {
    if j < r {
      FindFirst(t, d, j + 1, r, crossLines);
    }
  }

  /** `delim x delim`, with no `delim[0]` inside `x`, is one lazy match at the front. */
  lemma LazyFront(delim: string, crossLines: bool, open: string, close: string, x: string, y: string, b: bool)
    requires delim != [] && (crossLines || LineFree(delim))
    requires delim[0] !in x && (crossLines || LineFree(x))
    ensures MatchAt(Lazy(delim, crossLines, open, close), b, delim + x + delim + y)
         == Some(Match(|delim| + |x| + |delim|, open + x + close))
  {
    var t := delim + x + delim + y;
    assert t[..|delim|] == delim && t[|delim|..|delim| + |x|] == x && t[|delim| + |x|..][..|delim|] == delim;
    LazyFront2(delim, crossLines, open, close, x, t, b);
  }

  /** A lazy match at the front is replaced, and the scan resumes after it, off the start of a line. */
  lemma LazyHead(delim: string, crossLines: bool, open: string, close: string, x: string, y: string, b: bool)
    requires delim != [] && LineFree(delim)
    requires delim[0] !in x && (crossLines || LineFree(x))
    ensures Scan(Lazy(delim, crossLines, open, close), delim + x + delim + y, b)
         == open + x + close + Scan(Lazy(delim, crossLines, open, close), y, false)
  {
    LazyFront(delim, crossLines, open, close, x, y, b);
    ScanTake(Lazy(delim, crossLines, open, close), delim + x + delim, y, b, open + x + close);
    AfterDelim(delim, x, b);
  }

  /** A closing delimiter that lies on one line leaves the scan off the start of a line. */
  lemma AfterDelim(delim: string, x: string, b: bool)
    requires delim != [] && LineFree(delim)
    ensures !After(delim + x + delim, b)
  {
    var w := delim + x + delim;
    assert w[|w| - 1] == delim[|delim| - 1];
  }

  /** A lazy match that takes the whole string. */
  lemma LazyWhole(delim: string, crossLines: bool, open: string, close: string, x: string, b: bool)
    requires delim != [] && LineFree(delim)
    requires delim[0] !in x && (crossLines || LineFree(x))
    ensures Scan(Lazy(delim, crossLines, open, close), delim + x + delim, b) == open + x + close
  {
    LazyHead(delim, crossLines, open, close, x, [], b);
    AppendNil(delim + x + delim);
    AppendNil(open + x + close);
  }

  lemma AppendNil(s: string)
    ensures s + [] == s
  {
  }

  lemma LazyFront2(delim: string, crossLines: bool, open: string, close: string, x: string, t: string, b: bool)
    requires delim != [] && (crossLines || LineFree(delim))
    requires delim[0] !in x && (crossLines || LineFree(x))
    requires |delim| + |x| + |delim| <= |t| && t[..|delim|] == delim
    requires t[|delim|..|delim| + |x|] == x && t[|delim| + |x|..][..|delim|] == delim
    ensures MatchAt(Lazy(delim, crossLines, open, close), b, t)
         == Some(Match(|delim| + |x| + |delim|, open + x + close))
  {
    NoStartInside(delim, crossLines, x, t);
    LazyFind(delim, crossLines, x, t);
    LazyFound(delim, crossLines, open, close, x, t, b);
  }

  lemma LazyFound(delim: string, crossLines: bool, open: string, close: string, x: string, t: string, b: bool)
    requires delim != [] && (crossLines || LineFree(delim))
    requires |delim| + |x| <= |t| && t[..|delim|] == delim && t[|delim|..|delim| + |x|] == x
    requires Find(t, delim, |delim|, crossLines) == Some(|delim| + |x|)
    ensures MatchAt(Lazy(delim, crossLines, open, close), b, t)
         == Some(Match(|delim| + |x| + |delim|, open + x + close))
  {
    PrefixByTake(delim, t);
    assert MatchLazy(delim, crossLines, open, close, t) == Some(Match(|delim| + |x| + |delim|, open + x + close));
  }

  lemma LazyFind(delim: string, crossLines: bool, x: string, t: string)
    requires delim != [] && |delim| + |x| + |delim| <= |t| && t[|delim| + |x|..][..|delim|] == delim
    requires NoneBetween(t, delim, |delim|, |delim| + |x|, crossLines)
    ensures Find(t, delim, |delim|, crossLines) == Some(|delim| + |x|)
  {
    PrefixByTake(delim, t[|delim| + |x|..]);
    FindFirst(t, delim, |delim|, |delim| + |x|, crossLines);
  }

  lemma PrefixByTake(d: string, u: string)
    requires |d| <= |u| && u[..|d|] == d
    ensures d <= u
  {
  }

  lemma NoStartInside(delim: string, crossLines: bool, x: string, t: string)
    requires delim != [] && delim[0] !in x && (crossLines || LineFree(x))
    requires |delim| + |x| <= |t| && t[|delim|..|delim| + |x|] == x
    ensures NoneBetween(t, delim, |delim|, |delim| + |x|, crossLines)
  {
    forall k | |delim| <= k < |delim| + |x|
      ensures !(delim <= t[k..]) && (crossLines || !IsLineTerminator(t[k]))
    {
      assert t[k] == x[k - |delim|];
      assert t[k..][0] != delim[0];
    }
  }

  /**
   * A front part `x` at whose first character no match starts, and none of
   * whose other characters can start one, is copied.
   */
  lemma ScanChunk(p: Pattern, x: string, y: string, b: bool)
    requires WellFormed(p) && x != []
    requires MatchAt(p, b, x + y).None?
    requires forall c | c in x[1..] :: !Lead(p, c)
    ensures Scan(p, x + y, b) == x + Scan(p, y, After(x, b))
  {
    ConsAppend(x, y);
    ScanPass(p, x[0], x[1..] + y, b);
    ScanSkip(p, x[1..], y, IsLineTerminator(x[0]));
    AfterTail(x, b);
    Assoc([x[0]], x[1..], Scan(p, y, After(x, b)));
  }

  /** Only `^` looks at whether the scan is at the start of a line. */
  lemma ScanUnanchored(p: Pattern, t: string, b: bool, b': bool)
    requires WellFormed(p) && !p.LineStart? && !p.NumberedLine?
    ensures Scan(p, t, b) == Scan(p, t, b')
  {
    if t != [] {
      assert MatchAt(p, b, t) == MatchAt(p, b', t);
    }
  }

  /** Backtracking from `k` stops at the longest label end `k0` that fits. */
  lemma {:induction false} LinkTryPicks(t: string, k: nat, k0: nat)
    requires 2 <= k0 <= k <= |t| && t[0] == '['
    requires LinkAt(t, k0).Some?
    requires forall k' | k0 < k' <= k :: LinkAt(t, k').None?
    ensures LinkTry(t, k) == LinkAt(t, k0)
    decreases k
  {
    if k > k0 {
      assert LinkAt(t, k).None?;
      LinkTryPicks(t, k - 1, k0);
    }
  }

  // ---------------------------------------------------------------------------
  // Gaps: `left\s*right`
  // ---------------------------------------------------------------------------

  /** `x` and `d` differ somewhere inside both. */
  predicate Diverges(x: string, d: string) {
    exists i | 0 <= i < |x| && i < |d| :: x[i] != d[i]
  }

  /** A gap pattern whose left tag starts with its only `<`. */
  predicate TagGap(p: Pattern) {
    p.Gap? && WellFormed(p) && p.left[0] == '<' && '<' !in p.left[1..]
  }

  /** `\s*` run over exactly `n` white-space characters. */
  lemma {:induction false} SpaceEndOver(t: string, i: nat, n: nat)
    requires i + n <= |t|
    requires forall k | i <= k < i + n :: IsSpace(t[k])
    requires i + n < |t| ==> !IsSpace(t[i + n])
    ensures SpaceEnd(t, i) == i + n
    decreases n
  {
    if n > 0 {
      SpaceEndOver(t, i + 1, n - 1);
    }
  }

  /** A tag that differs from the gap's left tag is copied. */
  lemma GapCopiesTag(p: Pattern, x: string, y: string, b: bool)
    requires TagGap(p) && x != [] && Diverges(x, p.left) && '<' !in x[1..]
    ensures Scan(p, x + y, b) == x + Scan(p, y, false)
  {
    var i :| 0 <= i < |x| && i < |p.left| && x[i] != p.left[i];
    assert (x + y)[i] == x[i];
    ScanChunk(p, x, y, b);
    ScanUnanchored(p, y, After(x, b), false);
  }

  /** Text without `<` is copied by a tag gap. */
  lemma GapCopiesText(p: Pattern, a: string, y: string, b: bool)
    requires TagGap(p) && '<' !in a
    ensures Scan(p, a + y, b) == a + Scan(p, y, false)
  {
    ScanSkip(p, a, y, b);
    ScanUnanchored(p, y, After(a, b), false);
  }

  /** `left`, white space, `right` is replaced as a whole. */
  lemma GapJoins(p: Pattern, sp: string, y: string, b: bool)
    requires TagGap(p) && AllSpace(sp)
    ensures Scan(p, p.left + sp + p.right + y, b) == p.repl + Scan(p, y, false)
  {
    var x := p.left + sp + p.right;
    MatchGapJoins(p.left, sp, p.right, p.repl, y);
    ScanTake(p, x, y, b, p.repl);
    ScanUnanchored(p, y, After(x, b), false);
  }

  lemma MatchGapJoins(left: string, sp: string, right: string, repl: string, y: string)
    requires left != [] && right != [] && !IsSpace(right[0]) && AllSpace(sp)
    ensures MatchGap(left, right, repl, left + sp + right + y) == Some(Match(|left + sp + right|, repl))
  {
    var t := left + sp + right + y;
    assert t[..|left|] == left && t[|left| + |sp|..] == right + y;
    PrefixByTake(left, t);
    assert forall k | |left| <= k < |left| + |sp| :: t[k] == sp[k - |left|];
    SpaceEndOver(t, |left|, |sp|);
    assert (right + y)[..|right|] == right;
    PrefixByTake(right, right + y);
  }

  /** A closing tag at the very end is copied. */
  lemma GapLeftAtEnd(p: Pattern, b: bool)
    requires TagGap(p)
    ensures Scan(p, p.left, b) == p.left
  {
    var e: string := [];
    GapLeftStays(p, e, e, b);
    assert p.left + e + e == p.left && e + e == e;
  }

  /** `left` followed by white space and then something other than `right` is copied. */
  lemma GapLeftStays(p: Pattern, sp: string, z: string, b: bool)
    requires TagGap(p) && AllSpace(sp)
    requires z == [] || (!IsSpace(z[0]) && Diverges(z, p.right))
    ensures Scan(p, p.left + sp + z, b) == p.left + Scan(p, sp + z, false)
  {
    var t := p.left + sp + z;
    assert t[..|p.left|] == p.left && t[|p.left| + |sp|..] == z;
    assert forall k | |p.left| <= k < |p.left| + |sp| :: t[k] == sp[k - |p.left|];
    if z != [] {
      assert t[|p.left| + |sp|] == z[0];
      var i :| 0 <= i < |z| && i < |p.right| && z[i] != p.right[i];
      assert t[|p.left| + |sp|..][i] == z[i];
    }
    SpaceEndOver(t, |p.left|, |sp|);
    Assoc(p.left, sp, z);
    ScanChunk(p, p.left, sp + z, b);
    ScanUnanchored(p, sp + z, After(p.left, b), false);
  }

  // ---------------------------------------------------------------------------
  // One-line strings
  // ---------------------------------------------------------------------------

  lemma LineFreeAppend(a: string, b: string)
    requires LineFree(a) && LineFree(b)
    ensures LineFree(a + b)
  {
    forall i | 0 <= i < |a + b| ensures !IsLineTerminator((a + b)[i]) {
      if i < |a| {
        assert (a + b)[i] == a[i];
      } else {
        assert (a + b)[i] == b[i - |a|];
      }
    }
  }

}
