/**
 * The component-name rule shared by both builders: the pattern
 * `^[a-zA-Z][a-zA-Z0-9_]*$` (no flags, so ASCII only and anchored at both
 * ends), and the two messages a bad name produces.
 */
module ComponentNames {

  const NameRequired := "Component name is required"

  const NameFormat := "Component name must start with a letter and contain only letters, numbers, and underscores"

  predicate IsAsciiLetter(c: char) {
    'a' <= c <= 'z' || 'A' <= c <= 'Z'
  }

  predicate IsNameChar(c: char) {
    IsAsciiLetter(c) || '0' <= c <= '9' || c == '_'
  }

  /** The whole string matches `^[a-zA-Z][a-zA-Z0-9_]*$`. */
  predicate IsValidName(s: string) {
    && |s| > 0
    && IsAsciiLetter(s[0])
    && forall i :: 1 <= i < |s| ==> IsNameChar(s[i])
  }
}
