/**
 * `verify_document`: a chain of guarded returns that turns "does the file
 * exist" and the extracted text into one of five verdict strings. Aadhaar is
 * tried before PAN, so a text carrying both identifiers is an Aadhaar card.
 */
module Verification {

  import opened Options
  import opened Patterns
  import opened Validators
  import opened Extraction

  const FileNotFound: string := "Error: File not found"
  const NoTextExtracted: string := "Error: No text could be extracted"
  const AadhaarVerified: string := "Aadhaar Verified"
  const PanVerified: string := "PAN Verified"
  const NoPatternFound: string :=
    "Invalid Document:\nAadhaar Error: " + "No valid Aadhaar pattern found" + "\nPAN Error: " + "No valid PAN pattern found"

  /** How an f-string shows an optional string: `None` is shown as "None". */
  function Format(o: Option<string>): string {
    match o
    case Some(s) => s
    case None => "None"
  }

  /** Python truthiness of the first component of a validator's pair. */
  predicate Truthy(o: Option<string>) {
    o.Some? && o.value != ""
  }

  /** The f-string of the last return, from the two error components. */
  function InvalidDocument(aadhaarError: Option<string>, panError: Option<string>): string {
    "Invalid Document:\nAadhaar Error: " + Format(aadhaarError) + "\nPAN Error: " + Format(panError)
  }

  /**
   * `verify_document` from the extracted text on: the empty-text guard, the
   * Aadhaar check, the PAN check and the combined error.
   */
  function ClassifyText(text: string): (verdict: string)
    ensures verdict == NoTextExtracted <==> text == ""
    ensures verdict == AadhaarVerified <==> text != "" && HasMatch(Aadhaar, text)
    ensures verdict == PanVerified <==> text != "" && !HasMatch(Aadhaar, text) && HasMatch(Pan, text)
    ensures verdict == NoPatternFound <==> text != "" && !HasMatch(Aadhaar, text) && !HasMatch(Pan, text)
  {
    if text == "" then NoTextExtracted
    else
      var (aadhaarNumber, aadhaarError) := ValidateAadhaar(text);
      if Truthy(aadhaarNumber) then AadhaarVerified
      else
        var (panNumber, panError) := ValidatePan(text);
        if Truthy(panNumber) then PanVerified
        else InvalidDocument(aadhaarError, panError)
  }

  /**
   * `verify_document(file_path)`, with the existence test as `fileExists` and
   * what OCR makes of the file as `r`. The code after the last return of the
   * source is unreachable, so the result is always one of five fixed strings.
   */
  function VerifyDocument(path: string, fileExists: bool, r: Rendering): (verdict: string)
    ensures verdict == FileNotFound <==> !fileExists
    ensures verdict == NoTextExtracted <==> fileExists && ExtractText(path, r) == ""
    ensures verdict in {FileNotFound, NoTextExtracted, AadhaarVerified, PanVerified, NoPatternFound}
  {
    if !fileExists then FileNotFound else ClassifyText(ExtractText(path, r))
  }

  /** A PDF whose conversion fails yields no pages, hence no text. */
  lemma FailedPdfConversion(path: string, r: Rendering)
    requires IsPdfPath(path) && r.pdfPageTexts.None?
    ensures VerifyDocument(path, true, r) == NoTextExtracted
  {
  }

  /** A pattern occurs in the joined text exactly when it occurs in one of the pages. */
  lemma {:induction false} JoinedPagesMatch(p: Pattern, pages: seq<string>)
    ensures HasMatch(p, JoinPages(pages)) <==> exists i :: 0 <= i < |pages| && HasMatch(p, pages[i])
  {
    if |pages| >= 2 {
      var rest := pages[1..];
      var tail := JoinPages(rest);
      JoinedPagesMatch(p, rest);
      assert JoinPages(pages) == pages[0] + "\n" + tail;
      if HasMatch(p, JoinPages(pages)) {
        var j: nat :| MatchesAt(p, pages[0] + "\n" + tail, j);
        MatchBesideLineBreak(p, pages[0], tail, j);
        if j + Width(p) <= |pages[0]| {
          assert HasMatch(p, pages[0]);
        } else {
          assert HasMatch(p, tail);
          var i :| 0 <= i < |rest| && HasMatch(p, rest[i]);
          assert pages[i + 1] == rest[i];
        }
      }
      if exists i :: 0 <= i < |pages| && HasMatch(p, pages[i]) {
        var i :| 0 <= i < |pages| && HasMatch(p, pages[i]);
        var k: nat :| MatchesAt(p, pages[i], k);
        if i == 0 {
          MatchInFirstLine(p, pages[0], tail, k);
        } else {
          assert rest[i - 1] == pages[i];
          assert HasMatch(p, tail);
          var k': nat :| MatchesAt(p, tail, k');
          MatchInLaterLines(p, pages[0], tail, k');
        }
      }
    }
  }

  /**
   * The verdict on an existing PDF that converts: no text only when there is
   * no page or a single empty one, Aadhaar when some page carries an Aadhaar
   * number, PAN when no page does and some page carries a PAN.
   */
  lemma PdfVerdict(path: string, r: Rendering, pages: seq<string>)
    requires IsPdfPath(path) && r.pdfPageTexts == Some(pages)
    ensures VerifyDocument(path, true, r) == NoTextExtracted <==>
      |pages| == 0 || (|pages| == 1 && pages[0] == "")
    ensures VerifyDocument(path, true, r) == AadhaarVerified <==>
      exists i :: 0 <= i < |pages| && HasMatch(Aadhaar, pages[i])
    ensures VerifyDocument(path, true, r) == PanVerified <==>
      && (forall i :: 0 <= i < |pages| ==> !HasMatch(Aadhaar, pages[i]))
      && (exists i :: 0 <= i < |pages| && HasMatch(Pan, pages[i]))
  {
    JoinedPagesMatch(Aadhaar, pages);
    JoinedPagesMatch(Pan, pages);
  }

}
