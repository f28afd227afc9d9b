/** String predicates the Java code takes from `java.lang.String`,
    `java.lang.Character` and Spring's `StringUtils`. */
module Text {

  /** `s.startsWith(prefix)`: case-sensitive, character by character. */
  predicate StartsWith(s: string, prefix: string) {
    |prefix| <= |s| && s[..|prefix|] == prefix
  }

  /** `Character.isWhitespace(c)`: the Unicode space, line and paragraph
      separators except the three non-breaking spaces, plus the ASCII
      controls TAB, LF, VT, FF, CR and FS, GS, RS, US. */
  predicate IsJavaWhitespace(c: char) {
    || c == ' ' || c == '\t' || c == '\n' || c == '\U{000B}' || c == '\U{000C}' || c == '\r'
    || ('\U{001C}' <= c <= '\U{001F}')
    || c == '\U{1680}'
    || ('\U{2000}' <= c <= '\U{200A}' && c != '\U{2007}')
    || c == '\U{2028}' || c == '\U{2029}' || c == '\U{205F}' || c == '\U{3000}'
  }

  /** `StringUtils.hasText(s)`: not empty and holding a non-whitespace character. */
  predicate HasText(s: string) {
    s != [] && (!IsJavaWhitespace(s[0]) || HasText(s[1..]))
  }

  /** `hasText` holds exactly when some character is not whitespace. */
  lemma {:induction false} HasTextIff(s: string)
    ensures HasText(s) <==> exists i :: 0 <= i < |s| && !IsJavaWhitespace(s[i])
  {
    if s != [] {
      HasTextIff(s[1..]);
      if exists i :: 0 <= i < |s| && !IsJavaWhitespace(s[i]) {
        var i :| 0 <= i < |s| && !IsJavaWhitespace(s[i]);
        if i > 0 {
          assert s[1..][i - 1] == s[i];
        }
      }
      if HasText(s[1..]) {
        var i :| 0 <= i < |s| - 1 && !IsJavaWhitespace(s[1..][i]);
        assert s[i + 1] == s[1..][i];
      }
    }
  }

  lemma StartsWithPrefix(s: string, prefix: string, rest: string)
    requires s == prefix + rest
    ensures StartsWith(s, prefix) && s[|prefix|..] == rest
  {
  }
}
