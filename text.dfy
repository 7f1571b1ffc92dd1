/**
 * Character and string predicates behind the view model's validation
 * (`String.isBlank`) and search (`String.contains(..., ignoreCase = true)`).
 */
module Text {

  /**
   * Kotlin's `Char.isWhitespace` on the JVM (`Character.isWhitespace` or
   * `Character.isSpaceChar`), written out as its fixed table: the ASCII
   * controls 9-13 and 28-31, the space, and the Unicode space, line and
   * paragraph separators.
   */
  predicate IsWhitespace(c: char)
  {
    var n := c as int;
    (9 <= n <= 13) || (28 <= n <= 32) || n == 0xA0 || n == 0x1680
    || (0x2000 <= n <= 0x200A) || n == 0x2028 || n == 0x2029
    || n == 0x202F || n == 0x205F || n == 0x3000
  }

  /** `String.isBlank`: empty, or made of whitespace only. */
  predicate IsBlank(s: string)
  {
    forall i | 0 <= i < |s| :: IsWhitespace(s[i])
  }

  /** Lower-case mapping, restricted to the ASCII letters. */
  function LowerAscii(c: char): char
  {
    if 'A' <= c <= 'Z' then (c as int + 32) as char else c
  }

  /** `Char.equals(other, ignoreCase = true)` on the ASCII letters. */
  predicate SameIgnoringCase(a: char, b: char)
  {
    LowerAscii(a) == LowerAscii(b)
  }

  /** `q` occurs in `s` at offset `start`, ignoring case. */
  predicate RegionMatches(s: string, start: nat, q: string)
    requires start + |q| <= |s|
  {
    forall j | 0 <= j < |q| :: SameIgnoringCase(s[start + j], q[j])
  }

  /** `s.contains(q, ignoreCase = true)`: some offset of `s` matches `q`. */
  predicate ContainsIgnoreCase(s: string, q: string)
  {
    exists i | 0 <= i <= |s| - |q| :: RegionMatches(s, i, q)
  }

  /** Every string contains the empty string. */
  lemma EmptyIsContained(s: string)
    ensures ContainsIgnoreCase(s, "")
  {
    assert RegionMatches(s, 0, "");
  }

  /** Every string contains itself, whatever the case of its letters. */
  lemma ContainsItself(s: string)
    ensures ContainsIgnoreCase(s, s)
  {
    assert RegionMatches(s, 0, s);
  }

  /** Two queries that agree up to ASCII case are found in exactly the same strings. */
  lemma ContainsIsCaseBlind(s: string, q: string, q': string)
    requires |q| == |q'|
    requires forall j | 0 <= j < |q| :: LowerAscii(q[j]) == LowerAscii(q'[j])
    ensures ContainsIgnoreCase(s, q) <==> ContainsIgnoreCase(s, q')
  {
    if ContainsIgnoreCase(s, q) {
      var i :| 0 <= i <= |s| - |q| && RegionMatches(s, i, q);
      assert RegionMatches(s, i, q');
    }
    if ContainsIgnoreCase(s, q') {
      var i :| 0 <= i <= |s| - |q'| && RegionMatches(s, i, q');
      assert RegionMatches(s, i, q);
    }
  }
}
