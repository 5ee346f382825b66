/**
 * The character classes the two identifier patterns use.
 *
 * `\d` and `\w` of Python's `re` module are Unicode-aware on `str` patterns;
 * this model restricts both to ASCII. `[A-Z]` and `[0-9]` are ASCII ranges in
 * Python too, so those two are exact.
 */
module CharClasses {

  /** `\d`: a decimal digit (ASCII digits in this model). */
  predicate IsDigit(c: char) {
    '0' <= c <= '9'
  }

  /** `\w`: a letter, a digit or the underscore (ASCII in this model). */
  predicate IsWordChar(c: char) {
    IsDigit(c) || 'a' <= c <= 'z' || 'A' <= c <= 'Z' || c == '_'
  }

  /** The regex range `[A-Z]`. */
  predicate IsAsciiUpper(c: char) {
    'A' <= c <= 'Z'
  }

  /** The regex range `[0-9]`. */
  predicate IsAsciiDigit(c: char) {
    '0' <= c <= '9'
  }

}
