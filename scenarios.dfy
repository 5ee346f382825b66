/**
 * Worked inputs: an Aadhaar card, a PAN card, unrelated text, a text with two
 * overlapping Aadhaar-shaped runs, and two PDFs (blank pages, a corrupt file).
 */
module Scenarios {

  import opened Options
  import opened CharClasses
  import opened Patterns
  import opened Validators
  import opened Extraction
  import opened Verification

  /** An Aadhaar number on its own line between other lines is found and verifies the card. */
  lemma AadhaarCardText()
    ensures ValidateAadhaar("Name: Asha Kumar\n" + "1234 5678 9012" + "\nDOB: 01-01-1990").0 == Some("1234 5678 9012")
    ensures ClassifyText("Name: Asha Kumar\n" + "1234 5678 9012" + "\nDOB: 01-01-1990") == AadhaarVerified
  {
    var pre, m, post := "Name: Asha Kumar\n", "1234 5678 9012", "\nDOB: 01-01-1990";
    AadhaarGroupsFit("1234", "5678", "9012");
    assert "1234" + " " + "5678" + " " + "9012" == m;
    DigitFreePrefix(Aadhaar, pre, m + post);
    assert pre + (m + post) == pre + m + post;
    MatchPlacedAt(Aadhaar, pre, m, post);
  }

  /** A PAN with no Aadhaar-shaped text beside it verifies as a PAN card. */
  lemma PanCardText()
    ensures ValidatePan("PAN: " + "ABCDE1234F").0 == Some("ABCDE1234F")
    ensures ClassifyText("PAN: " + "ABCDE1234F") == PanVerified
  {
    var pre, m := "PAN: ", "ABCDE1234F";
    var s := pre + m;
    assert pre + m + [] == s;
    PanPartsFit("ABCDE", "1234", 'F');
    assert "ABCDE" + "1234" + ['F'] == m;
    DigitFreePrefix(Pan, "PAN: ABCDE", "1234F");
    assert "PAN: ABCDE" + "1234F" == s;
    MatchPlacedAt(Pan, pre, m, []);
    DigitFreePrefix(Aadhaar, "PAN: ABCDE", "1234F");
    assert !HasMatch(Aadhaar, s);
  }

  /** Text without identifiers is invalid, with both validators' reasons in the verdict. */
  lemma UnrelatedText()
    ensures ClassifyText("Random unrelated text with no identifiers") == NoPatternFound
  {
    var s := "Random unrelated text with no identifiers";
    assert forall c :: c in s ==> !IsDigit(c);
    DigitFreeNoMatch(Aadhaar, s);
    DigitFreeNoMatch(Pan, s);
  }

  /**
   * "1111 2222 3333 4444" holds two overlapping Aadhaar-shaped runs, at 0 and
   * at 5; the validator reports only the leftmost one.
   */
  lemma OverlappingAadhaarRuns()
    ensures MatchesAt(Aadhaar, "1111 " + "2222 3333" + " 4444", 0)
    ensures MatchesAt(Aadhaar, "1111 " + "2222 3333" + " 4444", 5)
    ensures ValidateAadhaar("1111 " + "2222 3333" + " 4444").0 == Some("1111 " + "2222 3333")
  {
    var g1, g2, g3, g4 := "1111", "2222", "3333", "4444";
    var first := g1 + " " + g2 + " " + g3;
    var second := g2 + " " + g3 + " " + g4;
    var s := "1111 " + "2222 3333" + " 4444";
    assert s == first + " " + g4 == g1 + " " + second;
    AadhaarGroupsFit(g1, g2, g3);
    MatchPlacedAt(Aadhaar, [], first, " " + g4);
    assert [] + first + (" " + g4) == s;
    AadhaarGroupsFit(g2, g3, g4);
    MatchPlacedAt(Aadhaar, g1 + " ", second, []);
    assert (g1 + " ") + second + [] == s;
    assert s[0..14] == first == "1111 " + "2222 3333";
  }

  /** A scanned PDF of two blank pages joins to a lone line break, which is text: the verdict is "invalid", not "no text". */
  lemma TwoBlankPdfPages()
    ensures VerifyDocument("scan.pdf", true, Rendering(Some(["", ""]), "")) == NoPatternFound
  {
    PdfSuffixCaseInsensitive("scan.pdf");
    PdfVerdict("scan.pdf", Rendering(Some(["", ""]), ""), ["", ""]);
    DigitFreeNoMatch(Pan, JoinPages(["", ""]));
  }

  /** A corrupt PDF, whose conversion fails, yields no text. */
  lemma CorruptPdf()
    ensures VerifyDocument("card.PDF", true, Rendering(None, "")) == NoTextExtracted
  {
    PdfSuffixCaseInsensitive("card.PDF");
  }

}
