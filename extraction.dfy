/**
 * The text-assembly part of `extract_text`: a path whose lower-cased form
 * ends in ".pdf" is rasterised page by page and the page texts are joined
 * with line breaks; any other path is read as one image. The OCR engine and
 * the rasteriser are outside the model: what they would produce for a file
 * is given as a `Rendering`.
 */
module Extraction {

  import opened Options

  /** `str.lower()` on one character (ASCII capitals only in this model). */
  function LowerChar(c: char): char {
    if 'A' <= c <= 'Z' then (c as int + 32) as char else c
  }

  function Lower(s: string): (r: string)
    ensures |r| == |s|
    ensures forall i :: 0 <= i < |s| ==> r[i] == LowerChar(s[i])
  {
    seq(|s|, i requires 0 <= i < |s| => LowerChar(s[i]))
  }

  predicate EndsWith(s: string, suffix: string) {
    |suffix| <= |s| && s[|s| - |suffix|..] == suffix
  }

  /** `file_path.lower().endswith('.pdf')` */
  predicate IsPdfPath(path: string) {
    EndsWith(Lower(path), ".pdf")
  }

  /** The PDF test looks at the last four characters only, and ignores their case. */
  lemma PdfSuffixCaseInsensitive(path: string)
    ensures IsPdfPath(path) <==>
      && |path| >= 4
      && path[|path| - 4] == '.'
      && path[|path| - 3] in "pP"
      && path[|path| - 2] in "dD"
      && path[|path| - 1] in "fF"
  {
    var n := |path|;
    var low := Lower(path);
    if n >= 4 {
      var tail := low[n - 4..];
      assert tail == [low[n - 4], low[n - 3], low[n - 2], low[n - 1]];
    }
  }

  /**
   * What the outside world produces for a file: for a PDF, the OCR text of
   * each rasterised page in page order, or None when `convert_from_path`
   * raises; for an image, the OCR text of that image.
   */
  datatype Rendering = Rendering(pdfPageTexts: Option<seq<string>>, imageText: string)

  /** `convert_pdf_to_images` followed by OCR of each page: a failed conversion gives no pages. */
  function PdfPageTexts(r: Rendering): (pages: seq<string>)
    ensures r.pdfPageTexts.None? ==> pages == []
    ensures r.pdfPageTexts.Some? ==> pages == r.pdfPageTexts.value
  {
    match r.pdfPageTexts
    case None => []
    case Some(texts) => texts
  }

  function TotalLength(pages: seq<string>): nat {
    if |pages| == 0 then 0 else |pages[0]| + TotalLength(pages[1..])
  }

  /** `'\n'.join(pages)` */
  function JoinPages(pages: seq<string>): (text: string)
    ensures text == "" <==> |pages| == 0 || (|pages| == 1 && pages[0] == "")
    ensures |pages| > 0 ==> |text| == TotalLength(pages) + |pages| - 1
    ensures |pages| > 0 ==> text[..|pages[0]|] == pages[0]
  {
    if |pages| == 0 then ""
    else if |pages| == 1 then pages[0]
    else pages[0] + "\n" + JoinPages(pages[1..])
  }

  /** `extract_text(file_path)` with the OCR results of the file given as `r`. */
  function ExtractText(path: string, r: Rendering): (text: string)
    ensures !IsPdfPath(path) ==> text == r.imageText
    ensures IsPdfPath(path) && r.pdfPageTexts.None? ==> text == ""
  {
    if IsPdfPath(path) then JoinPages(PdfPageTexts(r)) else r.imageText
  }

}
