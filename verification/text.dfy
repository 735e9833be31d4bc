/**
 * Ordinal, case-insensitive string comparison, as used for e-mail
 * addresses (StringComparison.OrdinalIgnoreCase), for request paths
 * (PathString.StartsWithSegments) and for header and query names.
 */
module Text {

  /** Simple upper-case mapping of one character (ASCII letters only). */
  function ToUpperOrdinal(c: char): char
  {
    if 'a' <= c <= 'z' then (c as int - 32) as char else c
  }

  /** `a.Equals(b, StringComparison.OrdinalIgnoreCase)` */
  predicate EqualsIgnoreCase(a: string, b: string)
  {
    |a| == |b| && forall i :: 0 <= i < |a| ==> ToUpperOrdinal(a[i]) == ToUpperOrdinal(b[i])
  }

  /** `s.StartsWith(prefix, StringComparison.OrdinalIgnoreCase)` */
  predicate StartsWithIgnoreCase(s: string, prefix: string)
  {
    |prefix| <= |s| && EqualsIgnoreCase(s[..|prefix|], prefix)
  }

  lemma EqualsIgnoreCaseReflexive(a: string)
    ensures EqualsIgnoreCase(a, a)
  {
  }

  lemma EqualsIgnoreCaseSymmetric(a: string, b: string)
    ensures EqualsIgnoreCase(a, b) <==> EqualsIgnoreCase(b, a)
  {
  }

  lemma EqualsIgnoreCaseTransitive(a: string, b: string, c: string)
    requires EqualsIgnoreCase(a, b) && EqualsIgnoreCase(b, c)
    ensures EqualsIgnoreCase(a, c)
  {
  }

  /** `x` and `y` are the lower- and upper-case forms of one ASCII letter, in either order. */
  predicate SameLetterOtherCase(x: char, y: char)
  {
    ('a' <= x <= 'z' && y as int == x as int - 32) ||
    ('a' <= y <= 'z' && x as int == y as int - 32)
  }

  /**
   * What the comparison accepts: equal lengths, and at each position either the
   * same character or the two cases of one ASCII letter.
   */
  lemma EqualsIgnoreCaseExactly(a: string, b: string)
    ensures EqualsIgnoreCase(a, b) <==>
      |a| == |b| && forall i :: 0 <= i < |a| ==> a[i] == b[i] || SameLetterOtherCase(a[i], b[i])
  {
  }
}
