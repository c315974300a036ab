/**
 * The four header passes: a line of one to four hash signs and a space becomes
 * a header element, a line of more hash signs is left alone, and the passes
 * act on each line separately.
 */
module HeaderFacts {
  import opened Wrappers
  import opened Regex
  import opened Scanning
  import opened Markdown

  // ---------------------------------------------------------------------------
  // Headers
  // ---------------------------------------------------------------------------

  /** `k` hash signs. */
  function Hashes(k: nat): string {
    seq(k, _ => '#')
  }

  /** The `k`-th header pass is `/^#…# (.*$)/gm` with `k` hash signs. */
  lemma HeaderPassShape(k: nat)
    requires 1 <= k <= 4
    ensures HeaderPasses[k - 1] == LineStart(Hashes(k) + " ", Open(k), Close(k))
  {
    assert Hashes(1) == "#" && Hashes(2) == "##" && Hashes(3) == "###" && Hashes(4) == "####";
  }

  function Open(k: nat): string
    requires 1 <= k <= 4
  {
    "<h" + ["1234"[k - 1]] + ">"
  }

  function Close(k: nat): string
    requires 1 <= k <= 4
  {
    "</h" + ["1234"[k - 1]] + ">"
  }

  lemma HeaderPassesWellFormed()
    ensures forall p | p in HeaderPasses :: WellFormed(p)
  {
  }

  /** The `k`-th header pass. */
  function HeaderPass(k: nat, s: string): string
    requires 1 <= k <= 4
  {
    HeaderPassesWellFormed();
    ReplaceAll(HeaderPasses[k - 1], s)
  }

  /** The header passes from the `j`-th on (counting from 0). */
  function HeadersFrom(j: nat, s: string): string
    requires j <= 4
  {
    HeaderPassesWellFormed();
    assert forall p | p in HeaderPasses[j..] :: p in HeaderPasses;
    ReplaceEach(HeaderPasses[j..], s)
  }

  lemma HeadersFromStart(s: string)
    ensures Headers(s) == HeadersFrom(0, s)
  {
    assert HeaderPasses[0..] == HeaderPasses;
  }

  lemma HeadersFromStep(j: nat, s: string)
    requires j < 4
    ensures HeadersFrom(j, s) == HeadersFrom(j + 1, HeaderPass(j + 1, s))
  {
    HeaderSuffix(j);
  }

  lemma HeadersFromEnd(s: string)
    ensures HeadersFrom(4, s) == s
  {
    assert HeaderPasses[4..] == [];
  }

  /** One header pass on one line. */
  lemma HeaderPassOnLine(k: nat, y: string)
    requires 1 <= k <= 4 && LineFree(y)
    ensures HeaderPass(k, y) == if Hashes(k) + " " <= y then Open(k) + y[k + 1..] + Close(k) else y
  {
    HeaderPassShape(k);
    LineStartOneLine(Hashes(k) + " ", Open(k), Close(k), y);
  }

  /** `j` hash signs and a space start a line of `k` hash signs and a space exactly when `j == k`. */
  lemma MarkerPrefix(j: nat, k: nat, rest: string)
    ensures (Hashes(j) + " " <= Hashes(k) + " " + rest) <==> j == k
  {
    var x := Hashes(k) + " " + rest;
    var mk := Hashes(j) + " ";
    if j < k {
      assert mk[j] == ' ' && x[j] == '#';
    } else if j > k {
      assert mk[k] == '#' && x[k] == ' ';
    } else {
      assert x[..j + 1] == mk;
    }
  }

  /** The passes from the `j`-th on, as the first one and the rest. */
  lemma HeaderSuffix(j: nat)
    requires j < 4
    ensures HeaderPasses[j..][0] == HeaderPasses[j] && HeaderPasses[j..][1..] == HeaderPasses[j + 1..]
  {
  }

  /** A line of exactly `k` hash signs (1 ≤ k ≤ 4) and a space becomes an `<hk>` element holding the rest of the line. */
  lemma HeaderLine(k: nat, rest: string)
    requires 1 <= k <= 4 && LineFree(rest)
    ensures Headers(Hashes(k) + " " + rest) == Open(k) + rest + Close(k)
  {
    LineFreeAppend(Hashes(k) + " ", rest);
    HeadersFromStart(Hashes(k) + " " + rest);
    HeadersFromLine(0, k, rest);
  }

  lemma {:induction false} HeadersFromLine(j: nat, k: nat, rest: string)
    requires j < k <= 4 && LineFree(rest) && LineFree(Hashes(k) + " " + rest)
    ensures HeadersFrom(j, Hashes(k) + " " + rest) == Open(k) + rest + Close(k)
    decreases k - j
  {
    if j + 1 < k {
      HeaderSkipped(j, k, rest);
      HeadersFromLine(j + 1, k, rest);
    } else {
      HeaderTaken(k, rest);
    }
  }

  /** A pass for fewer hash signs than the line has does nothing to it. */
  lemma HeaderSkipped(j: nat, k: nat, rest: string)
    requires j + 1 < k <= 4 && LineFree(Hashes(k) + " " + rest)
    ensures HeadersFrom(j, Hashes(k) + " " + rest) == HeadersFrom(j + 1, Hashes(k) + " " + rest)
  {
    HeadersFromStep(j, Hashes(k) + " " + rest);
    HeaderPassOnLine(j + 1, Hashes(k) + " " + rest);
    MarkerPrefix(j + 1, k, rest);
  }

  /** The pass for exactly the line's hash signs tags it, and the later passes leave the tag alone. */
  lemma HeaderTaken(k: nat, rest: string)
    requires 1 <= k <= 4 && LineFree(rest) && LineFree(Hashes(k) + " " + rest)
    ensures HeadersFrom(k - 1, Hashes(k) + " " + rest) == Open(k) + rest + Close(k)
  {
    var x := Hashes(k) + " " + rest;
    HeadersFromStep(k - 1, x);
    HeaderTakenPass(k, rest);
    TagLine(k, rest);
    HeadersFromUnmarked(k, Open(k) + rest + Close(k));
  }

  lemma HeaderTakenPass(k: nat, rest: string)
    requires 1 <= k <= 4 && LineFree(Hashes(k) + " " + rest)
    ensures HeaderPass(k, Hashes(k) + " " + rest) == Open(k) + rest + Close(k)
  {
    var x := Hashes(k) + " " + rest;
    HeaderPassOnLine(k, x);
    MarkerPrefix(k, k, rest);
    assert x[k + 1..] == rest;
  }

  /** A header element lies on one line and starts with `<`. */
  lemma TagLine(k: nat, rest: string)
    requires 1 <= k <= 4 && LineFree(rest)
    ensures var y := Open(k) + rest + Close(k); LineFree(y) && y != [] && y[0] != '#'
  {
    LineFreeAppend(Open(k), rest);
    LineFreeAppend(Open(k) + rest, Close(k));
  }

  /** A line that does not start with a hash sign is left alone by the header passes. */
  lemma {:induction false} HeadersFromUnmarked(j: nat, y: string)
    requires j <= 4 && LineFree(y) && y != [] && y[0] != '#'
    ensures HeadersFrom(j, y) == y
    decreases 4 - j
  {
    if j < 4 {
      HeadersFromStep(j, y);
      HeaderPassOnLine(j + 1, y);
      assert (Hashes(j + 1) + " ")[0] == '#';
      HeadersFromUnmarked(j + 1, y);
    } else {
      HeadersFromEnd(y);
    }
  }

  lemma UnmarkedLine(y: string)
    requires LineFree(y) && y != [] && y[0] != '#'
    ensures Headers(y) == y
  {
    HeadersFromStart(y);
    HeadersFromUnmarked(0, y);
  }

  /** A line starting with five or more hash signs is left unchanged by all four header passes. */
  lemma ManyHashes(x: string)
    requires LineFree(x) && "#####" <= x
    ensures Headers(x) == x
  {
    HeadersFromStart(x);
    HeadersFromMany(0, x);
  }

  lemma {:induction false} HeadersFromMany(j: nat, x: string)
    requires j <= 4 && LineFree(x) && "#####" <= x
    ensures HeadersFrom(j, x) == x
    decreases 4 - j
  {
    if j < 4 {
      HeadersFromStep(j, x);
      HeaderPassOnLine(j + 1, x);
      assert (Hashes(j + 1) + " ")[j + 1] == ' ' && x[j + 1] == '#';
      HeadersFromMany(j + 1, x);
    } else {
      HeadersFromEnd(x);
    }
  }

  /** The header passes act on each line separately. */
  lemma HeadersByLine(w: string, lt: char, z: string)
    requires IsLineTerminator(lt)
    ensures Headers(w + [lt] + z) == Headers(w) + [lt] + Headers(z)
  {
    EachLines(HeaderPasses, w, lt, z);
  }
}
