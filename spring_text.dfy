/** The text test behind Spring's `Assert.hasText`: a string "has text" when it
    is not null, not empty, and holds at least one character that Java's
    `Character.isWhitespace` does not classify as white space. */
module SpringText {
  import opened Wrappers

  /** Java's `Character.isWhitespace` as of Java 9 (Unicode 6.3 and later;
      Java 8 also counts U+180E as white space): the Unicode space, line and paragraph
      separators other than the non-breaking spaces U+00A0, U+2007 and U+202F,
      plus the control characters TAB, LF, VT, FF, CR and U+001C..U+001F. */
  predicate IsWhitespace(c: char) {
    || c == ' '
    || ('\U{0009}' <= c <= '\U{000D}')
    || ('\U{001C}' <= c <= '\U{001F}')
    || c == '\U{1680}'
    || ('\U{2000}' <= c <= '\U{2006}')
    || ('\U{2008}' <= c <= '\U{200A}')
    || c == '\U{2028}'
    || c == '\U{2029}'
    || c == '\U{205F}'
    || c == '\U{3000}'
  }

  /** Scans the string from the front and stops at the first character that is
      not white space, as Spring's `StringUtils.containsText` does. */
  function ContainsText(s: string): (r: bool)
    ensures r <==> exists i :: 0 <= i < |s| && !IsWhitespace(s[i])
  {
    if s == [] then false
    else if !IsWhitespace(s[0]) then true
    else
      var rest := ContainsText(s[1..]);
      assert forall i :: 0 < i < |s| ==> s[i] == s[1..][i - 1];
      rest
  }

  /** `Assert.hasText`'s condition on a nullable string. */
  function HasText(s: Option<string>): (r: bool)
    ensures r ==> s.Some? && |s.value| > 0
    ensures r <==> s.Some? && exists i :: 0 <= i < |s.value| && !IsWhitespace(s.value[i])
  {
    s.Some? && ContainsText(s.value)
  }
}
