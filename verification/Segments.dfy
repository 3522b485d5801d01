/** The validator for one id or tenant segment, shared by every store. */
module Segments {
  const MAX_SEGMENT_LEN := 128

  predicate SafeChar(c: char) {
    'A' <= c <= 'Z' || 'a' <= c <= 'z' || '0' <= c <= '9' || c == '-' || c == '_' || c == '.'
  }

  predicate SafeSegment(s: string) {
    && 0 < |s| <= MAX_SEGMENT_LEN
    && s != "." && s != ".."
    && s[0] != '-'
    && forall i | 0 <= i < |s| :: SafeChar(s[i])
  }

  /**
   * Refused are the empty text, a text over 128 characters, the two relative directories, an option-like text,
   * and any with a character besides ASCII letters, digits, dash, underscore and dot; so no accepted text has a
   * slash in it.
   */
  lemma SafeMeans(s: string)
    ensures !SafeSegment(s) <==>
      || s == "" || |s| > 128 || s == "." || s == ".." || s[0] == '-'
      || exists i :: 0 <= i < |s| && !('A' <= s[i] <= 'Z') && !('a' <= s[i] <= 'z') && !('0' <= s[i] <= '9') && s[i] !in "-_."
    ensures SafeSegment(s) ==> '/' !in s
  {
  }
}
