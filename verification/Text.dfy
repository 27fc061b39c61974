/** Character classes of JavaScript regular expressions and of `String.prototype.trim`. */
module Text {

  /** `\s`, and what `trim()` strips. */
  predicate IsJsWhitespace(c: char) {
    || '\U{0009}' <= c <= '\U{000D}'
    || c in {' ', '\U{00A0}', '\U{1680}', '\U{2028}', '\U{2029}', '\U{202F}', '\U{205F}', '\U{3000}', '\U{FEFF}'}
    || '\U{2000}' <= c <= '\U{200A}'
  }

  /** White space and line terminators of ECMA-262, sections 12.2 and 12.3, by code point. */
  const WHITESPACE := {
    9, 10, 11, 12, 13, 32, 160, 5760, 8192, 8193, 8194, 8195, 8196, 8197, 8198, 8199, 8200, 8201, 8202, 8232, 8233,
    8239, 8287, 12288, 65279
  }

  lemma WhitespaceByCodePoint(c: char)
    ensures IsJsWhitespace(c) <==> c as int in WHITESPACE
  {
  }

  /** `\d` */
  predicate IsDigit(c: char) {
    '0' <= c <= '9'
  }

  /** `\w` */
  predicate IsWord(c: char) {
    IsDigit(c) || 'a' <= c <= 'z' || 'A' <= c <= 'Z' || c == '_'
  }

  predicate AllDigits(s: string) {
    forall i :: 0 <= i < |s| ==> IsDigit(s[i])
  }
}
