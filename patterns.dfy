/**
 * The two fixed-width regular expressions of the validators and the way
 * `re.search` finds them:
 *
 *   Aadhaar  \b\d{4} \d{4} \d{4}\b
 *   PAN      \b[A-Z]{5}[0-9]{4}[A-Z]{1}\b
 *
 * Each pattern is a word boundary, a fixed sequence of single-character
 * atoms, and a word boundary. A search tries start positions from left to
 * right and stops at the first one where the whole pattern matches.
 */
module Patterns {

  import opened Options
  import opened CharClasses

  /** One single-character item of a pattern. */
  datatype Atom =
    | AnyDigit      // \d
    | LiteralSpace  // ' '
    | UpperRange    // [A-Z]
    | DigitRange    // [0-9]

  predicate Admits(a: Atom, c: char) {
    match a
    case AnyDigit => IsDigit(c)
    case LiteralSpace => c == ' '
    case UpperRange => IsAsciiUpper(c)
    case DigitRange => IsAsciiDigit(c)
  }

  datatype Pattern = Aadhaar | Pan

  /** The length of every match of `p`: `\d{4} \d{4} \d{4}` is 14 characters, `[A-Z]{5}[0-9]{4}[A-Z]{1}` is 10. */
  function Width(p: Pattern): nat {
    match p
    case Aadhaar => 14
    case Pan => 10
  }

  /**
   * The atom at offset `o` between the two `\b`: for Aadhaar a literal space
   * at 4 and 9 and `\d` elsewhere; for PAN `[A-Z]` at 0-4 and 9 and `[0-9]`
   * at 5-8.
   */
  function AtomAt(p: Pattern, o: nat): Atom {
    match p
    case Aadhaar => if o == 4 || o == 9 then LiteralSpace else AnyDigit
    case Pan => if o < 5 || o == 9 then UpperRange else DigitRange
  }

  /** `\b` at position `i` of `s`: exactly one of the characters around it is a word character. */
  predicate IsWordBoundary(s: string, i: nat)
    requires i <= |s|
  {
    (i > 0 && IsWordChar(s[i - 1])) != (i < |s| && IsWordChar(s[i]))
  }

  /** The string `w` is admitted, character by character, by the atoms of `p`. */
  predicate Fits(p: Pattern, w: string) {
    |w| == Width(p) && forall o :: 0 <= o < |w| ==> Admits(AtomAt(p, o), w[o])
  }

  /** The characters of `s` from `i` on are admitted, one by one, by the atoms of `p`. */
  predicate ShapeAt(p: Pattern, s: string, i: nat)
    requires i + Width(p) <= |s|
  {
    Fits(p, s[i..i + Width(p)])
  }

  /** The whole pattern, both word boundaries included, matches `s` at start position `i`. */
  predicate MatchesAt(p: Pattern, s: string, i: nat) {
    && i + Width(p) <= |s|
    && IsWordBoundary(s, i)
    && ShapeAt(p, s, i)
    && IsWordBoundary(s, i + Width(p))
  }

  ghost predicate HasMatch(p: Pattern, s: string) {
    exists k: nat :: MatchesAt(p, s, k)
  }

  /** `k` is where `re.search` reports its match: a match, and no earlier start position admits one. */
  ghost predicate IsLeftmostMatch(p: Pattern, s: string, k: nat) {
    MatchesAt(p, s, k) && forall j: nat :: j < k ==> !MatchesAt(p, s, j)
  }

  /** The first start position, from `from` on, at which `p` matches `s`. */
  function FindFrom(p: Pattern, s: string, from: nat): (r: Option<nat>)
    ensures r.Some? ==> from <= r.value && MatchesAt(p, s, r.value)
    ensures r.Some? ==> forall j: nat :: from <= j < r.value ==> !MatchesAt(p, s, j)
    ensures r.None? ==> forall j: nat :: from <= j ==> !MatchesAt(p, s, j)
    decreases |s| - from
  {
    if from + Width(p) > |s| then None
    else if MatchesAt(p, s, from) then Some(from)
    else FindFrom(p, s, from + 1)
  }

  /** `re.search(pattern, s)`: the start of the leftmost match, if there is one. */
  function Search(p: Pattern, s: string): (r: Option<nat>)
    ensures r.Some? <==> HasMatch(p, s)
    ensures forall k: nat :: r == Some(k) <==> IsLeftmostMatch(p, s, k)
  {
    FindFrom(p, s, 0)
  }

  /** A text has at most one leftmost match. */
  lemma LeftmostMatchUnique(p: Pattern, s: string, k1: nat, k2: nat)
    requires IsLeftmostMatch(p, s, k1) && IsLeftmostMatch(p, s, k2)
    ensures k1 == k2
  {
  }

  /** The first and the last atom of both patterns admit only word characters. */
  lemma ShapeEndsWithWordChars(p: Pattern, s: string, i: nat)
    requires i + Width(p) <= |s| && ShapeAt(p, s, i)
    ensures IsWordChar(s[i]) && IsWordChar(s[i + Width(p) - 1])
  {
    var w := s[i..i + Width(p)];
    assert Admits(AtomAt(p, 0), w[0]);
    assert Admits(AtomAt(p, Width(p) - 1), w[Width(p) - 1]);
  }

  /**
   * Because both patterns begin and end with a word character, the two `\b`
   * say only that the neighbours of the match, where there are any, are not
   * word characters.
   */
  lemma MatchesAtNeighbours(p: Pattern, s: string, i: nat)
    ensures MatchesAt(p, s, i) <==>
      && i + Width(p) <= |s|
      && ShapeAt(p, s, i)
      && (i == 0 || !IsWordChar(s[i - 1]))
      && (i + Width(p) == |s| || !IsWordChar(s[i + Width(p)]))
  {
    if i + Width(p) <= |s| && ShapeAt(p, s, i) {
      ShapeEndsWithWordChars(p, s, i);
    }
  }

  /** No atom admits a line break. */
  lemma LineBreakOutsideMatch(p: Pattern, s: string, i: nat, x: nat)
    requires i + Width(p) <= |s| && ShapeAt(p, s, i)
    requires i <= x < i + Width(p)
    ensures s[x] != '\n'
  {
    var w := s[i..i + Width(p)];
    assert w[x - i] == s[x];
    assert Admits(AtomAt(p, x - i), w[x - i]);
  }

  /** A window inside the first line reads the same once more lines are appended. */
  lemma WindowInFirstLine(a: string, b: string, i: nat, n: nat)
    requires i + n <= |a|
    ensures (a + "\n" + b)[i..i + n] == a[i..i + n]
  {
    var w, v := (a + "\n" + b)[i..i + n], a[i..i + n];
    assert forall x :: 0 <= x < n ==> w[x] == v[x];
  }

  /** A window inside the later lines reads the same once a line is put before them. */
  lemma WindowInLaterLines(a: string, b: string, i: nat, n: nat)
    requires i + n <= |b|
    ensures (a + "\n" + b)[|a| + 1 + i..|a| + 1 + i + n] == b[i..i + n]
  {
    var d := |a| + 1;
    var w, v := (a + "\n" + b)[d + i..d + i + n], b[i..i + n];
    assert forall x :: 0 <= x < n ==> w[x] == v[x];
  }

  /** A match inside the first line stays a match when more lines follow. */
  lemma MatchInFirstLine(p: Pattern, a: string, b: string, k: nat)
    requires MatchesAt(p, a, k)
    ensures MatchesAt(p, a + "\n" + b, k)
  {
    var s := a + "\n" + b;
    MatchesAtNeighbours(p, a, k);
    MatchesAtNeighbours(p, s, k);
    WindowInFirstLine(a, b, k, Width(p));
    if k > 0 {
      assert s[k - 1] == a[k - 1];
    }
    if k + Width(p) < |a| {
      assert s[k + Width(p)] == a[k + Width(p)];
    } else {
      assert s[k + Width(p)] == '\n';
    }
  }

  /** A match inside the later lines stays a match when a line comes before them. */
  lemma MatchInLaterLines(p: Pattern, a: string, b: string, k: nat)
    requires MatchesAt(p, b, k)
    ensures MatchesAt(p, a + "\n" + b, |a| + 1 + k)
  {
    var s := a + "\n" + b;
    var j := |a| + 1 + k;
    MatchesAtNeighbours(p, b, k);
    MatchesAtNeighbours(p, s, j);
    WindowInLaterLines(a, b, k, Width(p));
    if k > 0 {
      assert s[j - 1] == b[k - 1];
    } else {
      assert s[j - 1] == '\n';
    }
    if k + Width(p) < |b| {
      assert s[j + Width(p)] == b[k + Width(p)];
    }
  }

  /** A match never spans a line break: it lies wholly in the line before or in the lines after. */
  lemma MatchBesideLineBreak(p: Pattern, a: string, b: string, j: nat)
    requires MatchesAt(p, a + "\n" + b, j)
    ensures
      || (j + Width(p) <= |a| && MatchesAt(p, a, j))
      || (j > |a| && MatchesAt(p, b, j - |a| - 1))
  {
    var s := a + "\n" + b;
    MatchesAtNeighbours(p, s, j);
    if j + Width(p) <= |a| {
      MatchesAtNeighbours(p, a, j);
      WindowInFirstLine(a, b, j, Width(p));
      if j > 0 {
        assert s[j - 1] == a[j - 1];
      }
      if j + Width(p) < |a| {
        assert s[j + Width(p)] == a[j + Width(p)];
      }
    } else if j > |a| {
      var k := j - |a| - 1;
      MatchesAtNeighbours(p, b, k);
      WindowInLaterLines(a, b, k, Width(p));
      if k > 0 {
        assert s[j - 1] == b[k - 1];
      }
      if k + Width(p) < |b| {
        assert s[j + Width(p)] == b[k + Width(p)];
      }
    } else {
      assert s[|a|] == '\n';
      LineBreakOutsideMatch(p, s, j, |a|);
    }
  }

  /**
   * A piece `m` of the pattern's shape, with no word character on either
   * side of it, is a match; it is the one `re.search` reports when no match
   * starts further left.
   */
  lemma MatchPlacedAt(p: Pattern, pre: string, m: string, post: string)
    requires Fits(p, m)
    requires pre == [] || !IsWordChar(pre[|pre| - 1])
    requires post == [] || !IsWordChar(post[0])
    ensures MatchesAt(p, pre + m + post, |pre|)
    ensures (forall j: nat :: j < |pre| ==> !MatchesAt(p, pre + m + post, j)) ==>
      IsLeftmostMatch(p, pre + m + post, |pre|)
  {
    var s := pre + m + post;
    var i := |pre|;
    MatchesAtNeighbours(p, s, i);
    assert s[i..i + Width(p)] == m;
    if pre != [] {
      assert s[i - 1] == pre[|pre| - 1];
    }
    if post != [] {
      assert s[i + Width(p)] == post[0];
    }
  }

  /** The offset of the first digit atom of each pattern. */
  function FirstDigitOffset(p: Pattern): (o: nat)
    ensures o < Width(p)
    ensures AtomAt(p, o) == AnyDigit || AtomAt(p, o) == DigitRange
  {
    match p
    case Aadhaar => 0
    case Pan => 5
  }

  /** No match starts where its first digit would have to fall inside a stretch free of digits. */
  lemma DigitFreePrefix(p: Pattern, pre: string, rest: string)
    requires forall c :: c in pre ==> !IsDigit(c)
    ensures forall j: nat :: j + FirstDigitOffset(p) < |pre| ==> !MatchesAt(p, pre + rest, j)
  {
    var s := pre + rest;
    var o := FirstDigitOffset(p);
    forall j: nat | j + o < |pre| && j + Width(p) <= |s|
      ensures !ShapeAt(p, s, j)
    {
      var w := s[j..j + Width(p)];
      assert w[o] == pre[j + o];
      assert pre[j + o] in pre;
    }
  }

  /** A text without any digit contains neither pattern: both need digits. */
  lemma DigitFreeNoMatch(p: Pattern, s: string)
    requires forall c :: c in s ==> !IsDigit(c)
    ensures !HasMatch(p, s)
  {
    DigitFreePrefix(p, s, []);
    assert s + [] == s;
  }

}
