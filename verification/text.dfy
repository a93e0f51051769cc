/** Java's `String.equalsIgnoreCase`, restricted to the ASCII case mapping. */
module Text {

  /** `Character.toUpperCase` on the ASCII range. */
  function Upper(c: char): char {
    if 'a' <= c <= 'z' then (c as int - 32) as char else c
  }

  /** `Character.toLowerCase` on the ASCII range. */
  function Lower(c: char): char {
    if 'A' <= c <= 'Z' then (c as int + 32) as char else c
  }

  /** The per-character test of `equalsIgnoreCase`: equal, or equal after
      upper-casing, or equal after lower-casing the upper-cased characters. */
  predicate CharEqualsIgnoreCase(a: char, b: char) {
    a == b || Upper(a) == Upper(b) || Lower(Upper(a)) == Lower(Upper(b))
  }

  /** `a.equalsIgnoreCase(b)`: same length and every position matches. */
  predicate EqualsIgnoreCase(a: string, b: string) {
    |a| == |b| && forall i :: 0 <= i < |a| ==> CharEqualsIgnoreCase(a[i], b[i])
  }

  /** The lower-case normal form of a string. */
  function Fold(s: string): (r: string)
    ensures |r| == |s|
    ensures forall i :: 0 <= i < |s| ==> r[i] == Lower(s[i])
  {
    seq(|s|, i requires 0 <= i < |s| => Lower(s[i]))
  }

  lemma CharEqualsIgnoreCaseIsLowerEquality(a: char, b: char)
    ensures CharEqualsIgnoreCase(a, b) <==> Lower(a) == Lower(b)
  {
  }

  /** Case-insensitive equality is equality of the folded forms, so it is an
      equivalence relation (in particular transitive). */
  lemma EqualsIgnoreCaseIsFoldEquality(a: string, b: string)
    ensures EqualsIgnoreCase(a, b) <==> Fold(a) == Fold(b)
  {
    if EqualsIgnoreCase(a, b) {
      forall i | 0 <= i < |a|
        ensures Fold(a)[i] == Fold(b)[i]
      {
        CharEqualsIgnoreCaseIsLowerEquality(a[i], b[i]);
      }
    }
    if Fold(a) == Fold(b) {
      forall i | 0 <= i < |a|
        ensures CharEqualsIgnoreCase(a[i], b[i])
      {
        assert Fold(a)[i] == Fold(b)[i];
        CharEqualsIgnoreCaseIsLowerEquality(a[i], b[i]);
      }
    }
  }
}
