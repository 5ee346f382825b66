# Aadhaar / PAN document classification, modelled in Dafny

The repository reads a scanned identity document (an image or a PDF), runs
OCR over it, and classifies the extracted text as an Aadhaar card, a PAN card
or an invalid document. The classification is two regular-expression searches
tried in a fixed order:

- Aadhaar: `\b\d{4} \d{4} \d{4}\b`
- PAN: `\b[A-Z]{5}[0-9]{4}[A-Z]{1}\b`

The result is one of five fixed strings. This project models that decision in
`ocr_validation.py` as pure functions. It also models the part of text
extraction that decides the result: the case-insensitive `.pdf` suffix test,
a failed PDF conversion giving no pages, and the page texts joined with `"\n"`.

Modules:

- `CharClasses`: `\d`, `\w`, `[A-Z]`, `[0-9]`.
- `Patterns`: the two patterns, one atom per character offset.
  - Python's `\b` is `IsWordBoundary`.
  - `MatchesAt` is "the whole pattern matches at this start position".
  - `FindFrom`/`Search` is `re.search`: it tries start positions from the
    left and stops at the first match.
  - Lemmas cover how a match behaves around a line break.
- `Validators`: `validate_aadhaar` and `validate_pan`. Each returns the pair
  `(match.group(), None)` or `(None, reason)`.
- `Extraction`: `extract_text`. What OCR and the PDF rasteriser would produce
  for a file is the input `Rendering`:
  - for a PDF, the OCR text of each page in order, or `None` when
    `convert_from_path` raises;
  - for an image, the OCR text of the image.
- `Verification`: `verify_document`.
  - The existence test is the boolean input `fileExists`.
  - `ClassifyText` is the chain of guarded returns from the extracted text on.
  - Python details are modelled: the truthiness of the matched string
    (`Truthy`) and how an f-string shows `None` (`Format`). The proofs show
    the `"None"` case is never reached.
- `Scenarios`: worked inputs.

Where the system's design description and the code differ, the model follows
the code:

- The description says empty extracted text gives "no text" whatever the
  file's existence. The code tests existence first
  (`ocr_validation.py:95-96`). So a missing file always gives
  `"Error: File not found"`.
- The description quotes the combined verdict's reasons with a lower-case
  "no valid". The code writes "No valid" (`ocr_validation.py:59,66`).
- The description says a validator returns "that exact substring" for any
  well-formed occurrence. `re.search` returns only the leftmost one, and
  Aadhaar-shaped runs can overlap. `Scenarios.OverlappingAadhaarRuns` shows
  that `"1111 2222 3333 4444"` matches at offsets 0 and 5, and only the first
  is reported.

Two consequences of the code that the model makes explicit:

- A PDF of two blank pages joins to `"\n"`. That string is truthy, so the
  verdict is the "Invalid Document" message, not "No text could be extracted"
  (`Scenarios.TwoBlankPdfPages`, `Verification.PdfVerdict`).
- `ocr_validation.py:121-140` follows an unconditional return and is dead code.
  `Verification.VerifyDocument` proves that every result is one of the five
  fixed strings.

## Model

| member | source | states |
|---|---|---|
| `Patterns.FindFrom` | ocr_validation.py:57 | the first start position at or after `from` where the pattern, with both `\b`, matches; no match at any position before it, or none at all when it returns None |
| `Patterns.Search` | ocr_validation.py:64 | `re.search` finds a match exactly when the text contains one, and what it returns is exactly the leftmost match |
| `Patterns.LeftmostMatchUnique` | ocr_validation.py:57 | a text has at most one leftmost match, so the searched result is determined by the text |
| `Patterns.MatchesAtNeighbours` | ocr_validation.py:57 | because both patterns start and end with a word character, the two `\b` hold exactly when the character before and the character after the match are absent or non-word |
| `Patterns.MatchInFirstLine` | ocr_validation.py:50 | a match inside a page stays a match when further pages are joined after it with a line break |
| `Patterns.MatchInLaterLines` | ocr_validation.py:50 | a match inside later pages stays a match, shifted, when a page is joined before them with a line break |
| `Patterns.MatchBesideLineBreak` | ocr_validation.py:50 | a match in text joined at a line break lies wholly in the part before it or wholly in the part after it, and is a match there |
| `Patterns.MatchPlacedAt` | ocr_validation.py:57 | a well-shaped run with no word character on either side is a match, and it is the reported one when no match starts further left |
| `Patterns.DigitFreePrefix` | ocr_validation.py:64 | no match starts where the first digit of the pattern would fall in a stretch with no digits |
| `Patterns.DigitFreeNoMatch` | ocr_validation.py:57 | a text without digits matches neither pattern |
| `Validators.Validate` | ocr_validation.py:55-67 | exactly one component of the pair is present; a match is returned exactly when the pattern occurs; it is the text of the leftmost match and has the pattern's shape; otherwise the component is the pattern's not-found reason |
| `Validators.ValidateAadhaar` | ocr_validation.py:55-60 | exactly one of (number, error) is present; error is exactly "No valid Aadhaar pattern found" when and only when no Aadhaar match exists; the number is the 14 characters of the leftmost match |
| `Validators.ValidatePan` | ocr_validation.py:62-67 | exactly one of (number, error) is present; error is exactly "No valid PAN pattern found" when and only when no PAN match exists; the number is the 10 characters of the leftmost match |
| `Validators.AadhaarMatchForm` | ocr_validation.py:57 | a returned Aadhaar number has length 14, digits at offsets 0-3, 5-8 and 10-13, spaces at 4 and 9; it is a substring of the text with non-word neighbours or a string end on each side, and the leftmost match |
| `Validators.PanMatchForm` | ocr_validation.py:64 | a returned PAN has length 10, ASCII capitals at 0-4 and 9, ASCII digits at 5-8; it is a substring of the text with non-word neighbours or a string end on each side, and the leftmost match |
| `Validators.PanMatchesApart` | ocr_validation.py:64 | two PAN matches in one text never overlap or touch |
| `Validators.AadhaarGroupsFit` | ocr_validation.py:57 | three groups of four digits joined by single spaces have the Aadhaar shape |
| `Validators.PanPartsFit` | ocr_validation.py:64 | five ASCII capitals, four ASCII digits and one ASCII capital have the PAN shape |
| `Extraction.PdfSuffixCaseInsensitive` | ocr_validation.py:48 | a path is routed as a PDF exactly when its last four characters are `.`, `p`/`P`, `d`/`D`, `f`/`F` |
| `Extraction.PdfPageTexts` | ocr_validation.py:13-19 | a failed conversion yields no pages; a successful one yields the pages in order |
| `Extraction.JoinPages` | ocr_validation.py:50 | the joined text is empty exactly when there is no page or a single empty page; its length is the pages' total plus one separator between each pair; it starts with the first page |
| `Extraction.ExtractText` | ocr_validation.py:46-51 | an image's text is its OCR text; a PDF whose conversion fails gives the empty text |
| `Verification.ClassifyText` | ocr_validation.py:104-119 | "No text could be extracted" exactly for the empty text; "Aadhaar Verified" exactly when an Aadhaar match exists, whether or not a PAN match also exists; "PAN Verified" exactly when there is a PAN match and no Aadhaar match; otherwise exactly the combined "Invalid Document" message |
| `Verification.VerifyDocument` | ocr_validation.py:93-119 | "File not found" exactly when the file does not exist, whatever OCR would give; "No text" exactly for an existing file whose extracted text is empty; the result is always one of the five fixed strings |
| `Verification.FailedPdfConversion` | ocr_validation.py:15-19 | an existing PDF whose conversion raises gets "No text could be extracted" |
| `Verification.JoinedPagesMatch` | ocr_validation.py:48-50 | a pattern occurs in the joined PDF text exactly when it occurs in one of the pages |
| `Verification.PdfVerdict` | ocr_validation.py:48-117 | for an existing PDF that converts: "No text" exactly with no page or one empty page; "Aadhaar Verified" exactly when some page carries an Aadhaar number; "PAN Verified" exactly when no page does and some page carries a PAN |
| `Scenarios.AadhaarCardText` | ocr_validation.py:108-111 | a card text with an Aadhaar number on its own line yields that number and "Aadhaar Verified" |
| `Scenarios.PanCardText` | ocr_validation.py:114-117 | "PAN: ABCDE1234F" yields "ABCDE1234F" and "PAN Verified" |
| `Scenarios.UnrelatedText` | ocr_validation.py:119 | text without identifiers yields the combined "Invalid Document" message |
| `Scenarios.OverlappingAadhaarRuns` | ocr_validation.py:57 | "1111 2222 3333 4444" matches at offsets 0 and 5, and the validator reports only "1111 2222 3333" |
| `Scenarios.TwoBlankPdfPages` | ocr_validation.py:50 | a PDF of two blank pages is "Invalid Document", not "No text" |
| `Scenarios.CorruptPdf` | ocr_validation.py:13-19 | a `.PDF` file whose conversion fails yields "No text could be extracted" |

## Left out

- OCR (`pytesseract.image_to_string`, `Image.open`) and the fixed tesseract path are calls into foreign code. Their output is the `Rendering` input.
- PDF rasterisation (`convert_from_path`) is foreign code. Only its contract "an exception gives no pages" is kept.
- `os.path.exists` is foreign code. It is the `fileExists` input.
- Exceptions that `verify_document` lets escape are not modelled. Examples: a missing OCR binary, or an unreadable image (including a path that exists but is not an image).
- `analyze_spacing` and `analyze_fonts` are left out. They use OpenCV thresholding, contour counting and floating-point pixel density, and they only print warnings.
- `check_qr_barcode` is left out. It is a pyzbar call, and its result is never used by the verdict.
- `process_page` is left out. It is temporary-file I/O and is never called by `verify_document`.
- Console `print` logging and the `__main__` example are left out.
- The unreachable block after the last return (`ocr_validation.py:121-140`) is not modelled. Only its deadness is captured, through the five-verdict guarantee.
- Aadhaar and PAN checksum or structural rules are not modelled: the code does not implement them.
- `CharClasses.IsDigit` and `CharClasses.IsWordChar` are ASCII-only. Python's `\d` and `\w` also accept non-ASCII Unicode digits and letters. A text that touches such characters can be judged differently by the model.
- `Extraction.LowerChar` lower-cases ASCII capitals only. Python's `str.lower()` applies full Unicode case mapping. The PDF test only asks whether the lower-cased path ends in ".pdf", so the model assumes that no non-ASCII character lower-cases to text ending in one of those four characters.
- Repeated calls on the same file and the same OCR output give the same verdict. This holds because every member is a function; no separate lemma states it.
