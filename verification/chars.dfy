/** Character classes used by the line classifier. Python's `\s` and
    `str.strip()` share one whitespace set, given here in full; `\d` is kept
    to its ASCII part. */
module Chars {

  /** Python's whitespace (`str.isspace`): tab, line feed, vertical tab,
      form feed, carriage return, the separators U+001C..U+001F and space,
      and beyond ASCII the code points of `WideWs`. */
  predicate IsWs(c: char) {
    ('\t' <= c <= '\r') || ('\U{001C}' <= c <= ' ')
    || ('\U{0085}' <= c && InRanges(c, WideWs))
  }

  /** The whitespace beyond ASCII, as inclusive ranges: next line,
      no-break space, the Ogham space mark, the Unicode space separators,
      the line and paragraph separators, and the narrow no-break, medium
      mathematical and ideographic spaces. */
  const WideWs: seq<(char, char)> := [
    ('\U{0085}', '\U{0085}'), ('\U{00A0}', '\U{00A0}'), ('\U{1680}', '\U{1680}'),
    ('\U{2000}', '\U{200A}'), ('\U{2028}', '\U{2029}'), ('\U{202F}', '\U{202F}'),
    ('\U{205F}', '\U{205F}'), ('\U{3000}', '\U{3000}')
  ]

  /** `c` lies in one of the inclusive ranges `rs`. */
  predicate InRanges(c: char, rs: seq<(char, char)>) {
    rs != [] && ((rs[0].0 <= c <= rs[0].1) || InRanges(c, rs[1..]))
  }

  /** `\d`, restricted to ASCII. */
  predicate IsDigit(c: char) {
    '0' <= c <= '9'
  }

  /** `[A-Z]`. */
  predicate IsUpper(c: char) {
    'A' <= c <= 'Z'
  }

  /** `[A-Z0-9_]`. */
  predicate IsWordChar(c: char) {
    IsUpper(c) || IsDigit(c) || c == '_'
  }

  predicate AllWs(s: string) {
    forall i :: 0 <= i < |s| ==> IsWs(s[i])
  }

  predicate NoWs(s: string) {
    forall i :: 0 <= i < |s| ==> !IsWs(s[i])
  }

  predicate AllDigits(s: string) {
    forall i :: 0 <= i < |s| ==> IsDigit(s[i])
  }
}
