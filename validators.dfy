/**
 * `validate_aadhaar` and `validate_pan`: one `re.search` each, reported as a
 * pair (matched text, error message) of which exactly one part is `None`.
 */
module Validators {

  import opened Options
  import opened CharClasses
  import opened Patterns

  const AadhaarNotFound: string := "No valid Aadhaar pattern found"
  const PanNotFound: string := "No valid PAN pattern found"

  function NotFoundMessage(p: Pattern): string {
    match p
    case Aadhaar => AadhaarNotFound
    case Pan => PanNotFound
  }

  /**
   * The pair a validator returns: `(match.group(), None)` for the leftmost
   * match, `(None, reason)` when the pattern occurs nowhere.
   */
  function Validate(p: Pattern, text: string): (r: (Option<string>, Option<string>))
    ensures r.0.Some? != r.1.Some?
    ensures r.0.Some? <==> HasMatch(p, text)
    ensures r.0.Some? ==> Fits(p, r.0.value)
    ensures forall k: nat :: IsLeftmostMatch(p, text, k) ==> r.0 == Some(text[k..k + Width(p)])
    ensures r.1.Some? ==> r.1.value == NotFoundMessage(p)
  {
    match Search(p, text)
    case None => (None, Some(NotFoundMessage(p)))
    case Some(k) => (Some(text[k..k + Width(p)]), None)
  }

  function ValidateAadhaar(text: string): (r: (Option<string>, Option<string>))
    ensures r.0.Some? != r.1.Some?
    ensures r.0.None? <==> !HasMatch(Aadhaar, text)
    ensures r.0.Some? ==> Fits(Aadhaar, r.0.value)
    ensures r.0.None? ==> r.1 == Some("No valid Aadhaar pattern found")
    ensures forall k: nat :: IsLeftmostMatch(Aadhaar, text, k) ==> r.0 == Some(text[k..k + 14])
  {
    Validate(Aadhaar, text)
  }

  function ValidatePan(text: string): (r: (Option<string>, Option<string>))
    ensures r.0.Some? != r.1.Some?
    ensures r.0.None? <==> !HasMatch(Pan, text)
    ensures r.0.Some? ==> Fits(Pan, r.0.value)
    ensures r.0.None? ==> r.1 == Some("No valid PAN pattern found")
    ensures forall k: nat :: IsLeftmostMatch(Pan, text, k) ==> r.0 == Some(text[k..k + 10])
  {
    Validate(Pan, text)
  }

  /**
   * What an Aadhaar match looks like: fourteen characters of the text, digits
   * at offsets 0-3, 5-8 and 10-13, a literal space at 4 and 9, no word
   * character right before or right after it, and no match further left.
   */
  lemma AadhaarMatchForm(text: string, m: string)
    requires ValidateAadhaar(text).0 == Some(m)
    ensures |m| == 14
    ensures forall o :: 0 <= o < 14 ==> if o == 4 || o == 9 then m[o] == ' ' else IsDigit(m[o])
    ensures exists k: nat ::
      && k + 14 <= |text| && text[k..k + 14] == m
      && (k == 0 || !IsWordChar(text[k - 1]))
      && (k + 14 == |text| || !IsWordChar(text[k + 14]))
      && IsLeftmostMatch(Aadhaar, text, k)
  {
    var k := Search(Aadhaar, text).value;
    MatchesAtNeighbours(Aadhaar, text, k);
    assert Fits(Aadhaar, m);
    forall o | 0 <= o < 14
      ensures if o == 4 || o == 9 then m[o] == ' ' else IsDigit(m[o])
    {
      assert Admits(AtomAt(Aadhaar, o), m[o]);
    }
  }

  /**
   * What a PAN match looks like: ten characters of the text, ASCII capitals at
   * offsets 0-4 and 9, ASCII digits at 5-8, no word character right before or
   * right after it, and no match further left.
   */
  lemma PanMatchForm(text: string, m: string)
    requires ValidatePan(text).0 == Some(m)
    ensures |m| == 10
    ensures forall o :: 0 <= o < 10 ==> if o < 5 || o == 9 then IsAsciiUpper(m[o]) else IsAsciiDigit(m[o])
    ensures exists k: nat ::
      && k + 10 <= |text| && text[k..k + 10] == m
      && (k == 0 || !IsWordChar(text[k - 1]))
      && (k + 10 == |text| || !IsWordChar(text[k + 10]))
      && IsLeftmostMatch(Pan, text, k)
  {
    var k := Search(Pan, text).value;
    MatchesAtNeighbours(Pan, text, k);
    assert Fits(Pan, m);
    forall o | 0 <= o < 10
      ensures if o < 5 || o == 9 then IsAsciiUpper(m[o]) else IsAsciiDigit(m[o])
    {
      assert Admits(AtomAt(Pan, o), m[o]);
    }
  }

  /**
   * Two PAN matches never overlap or touch: every character of a match is a
   * word character, so no second match can start inside it or right after it.
   */
  lemma PanMatchesApart(text: string, i: nat, j: nat)
    requires MatchesAt(Pan, text, i) && MatchesAt(Pan, text, j) && i < j
    ensures i + 10 < j
  {
    MatchesAtNeighbours(Pan, text, j);
    var w := text[i..i + 10];
    assert Fits(Pan, w);
    forall x | i <= x < i + 10
      ensures IsWordChar(text[x])
    {
      assert w[x - i] == text[x];
      assert Admits(AtomAt(Pan, x - i), w[x - i]);
    }
  }

  /** Three groups of four digits separated by single spaces have the Aadhaar shape. */
  lemma AadhaarGroupsFit(g1: string, g2: string, g3: string)
    requires |g1| == 4 && |g2| == 4 && |g3| == 4
    requires forall c :: c in g1 + g2 + g3 ==> IsDigit(c)
    ensures Fits(Aadhaar, g1 + " " + g2 + " " + g3)
  {
    var w := g1 + " " + g2 + " " + g3;
        forall o | 0 <= o < 14
      ensures Admits(AtomAt(Aadhaar, o), w[o])
    {
      if o < 4 {
        assert w[o] == (g1 + g2 + g3)[o];
      } else if 5 <= o < 9 {
        assert w[o] == (g1 + g2 + g3)[o - 1];
      } else if 10 <= o {
        assert w[o] == (g1 + g2 + g3)[o - 2];
      }
    }
  }

  /** Five capitals, four digits and one capital, all ASCII, have the PAN shape. */
  lemma PanPartsFit(letters: string, digits: string, last: char)
    requires |letters| == 5 && |digits| == 4
    requires forall c :: c in letters ==> IsAsciiUpper(c)
    requires forall c :: c in digits ==> IsAsciiDigit(c)
    requires IsAsciiUpper(last)
    ensures Fits(Pan, letters + digits + [last])
  {
    var w := letters + digits + [last];
        forall o | 0 <= o < 10
      ensures Admits(AtomAt(Pan, o), w[o])
    {
      if o < 5 {
        assert w[o] == letters[o];
      } else if o < 9 {
        assert w[o] == digits[o - 5];
      }
    }
  }

}
