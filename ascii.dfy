/**
 * Case-insensitive string equality as used by `String.equals(other, ignoreCase = true)`
 * on the JVM: equal lengths, then a character-by-character comparison that accepts two
 * characters when they are equal, when their upper-case forms are equal, or when the
 * lower-case forms of their upper-case forms are equal.
 *
 * The case mapping here is restricted to the 26 ASCII letters; every other character is
 * its own upper and lower case.
 */
module Ascii {

  predicate IsUpper(c: char) { 'A' <= c <= 'Z' }

  predicate IsLower(c: char) { 'a' <= c <= 'z' }

  function UpperChar(c: char): (u: char)
    ensures IsLower(c) ==> IsUpper(u) && u as int == c as int - 32
    ensures !IsLower(c) ==> u == c
  {
    if IsLower(c) then (c as int - 32) as char else c
  }

  function LowerChar(c: char): (l: char)
    ensures IsUpper(c) ==> IsLower(l) && l as int == c as int + 32
    ensures !IsUpper(c) ==> l == c
  {
    if IsUpper(c) then (c as int + 32) as char else c
  }

  /**
   * One step of the character comparison made by `equals(…, ignoreCase = true)`: with
   * ASCII case mapping it accepts exactly the pairs whose lower-case forms agree.
   */
  predicate CharEqualsIgnoreCase(x: char, y: char)
    ensures CharEqualsIgnoreCase(x, y) <==> LowerChar(x) == LowerChar(y)
  {
    x == y
    || UpperChar(x) == UpperChar(y)
    || LowerChar(UpperChar(x)) == LowerChar(UpperChar(y))
  }

  /**
   * `a.equals(b, ignoreCase = true)` for non-null `a` and `b`: the strings have the same
   * length and agree, position by position, on the lower-case form of each character.
   */
  predicate EqualsIgnoreCase(a: string, b: string)
    ensures EqualsIgnoreCase(a, b) <==>
      |a| == |b| && forall i :: 0 <= i < |a| ==> LowerChar(a[i]) == LowerChar(b[i])
  {
    |a| == |b| && forall i :: 0 <= i < |a| ==> CharEqualsIgnoreCase(a[i], b[i])
  }

  /** The string with every ASCII upper-case letter replaced by its lower-case form. */
  function Fold(s: string): (r: string)
    ensures |r| == |s|
    ensures forall i :: 0 <= i < |s| ==> r[i] == LowerChar(s[i])
  {
    if s == [] then [] else [LowerChar(s[0])] + Fold(s[1..])
  }

  /** Case-insensitive equality is equality after folding. */
  lemma EqualsIgnoreCaseIffFoldEqual(a: string, b: string)
    ensures EqualsIgnoreCase(a, b) <==> Fold(a) == Fold(b)
  {
    if EqualsIgnoreCase(a, b) {
      assert forall i :: 0 <= i < |a| ==> Fold(a)[i] == Fold(b)[i];
    }
    if Fold(a) == Fold(b) {
      forall i | 0 <= i < |a| ensures CharEqualsIgnoreCase(a[i], b[i]) {
        assert Fold(a)[i] == Fold(b)[i];
      }
    }
  }

  lemma EqualsIgnoreCaseReflexive(a: string)
    ensures EqualsIgnoreCase(a, a)
  {
  }

  lemma EqualsIgnoreCaseSymmetric(a: string, b: string)
    ensures EqualsIgnoreCase(a, b) ==> EqualsIgnoreCase(b, a)
  {
    EqualsIgnoreCaseIffFoldEqual(a, b);
    EqualsIgnoreCaseIffFoldEqual(b, a);
  }

  lemma EqualsIgnoreCaseTransitive(a: string, b: string, c: string)
    ensures EqualsIgnoreCase(a, b) && EqualsIgnoreCase(b, c) ==> EqualsIgnoreCase(a, c)
  {
    EqualsIgnoreCaseIffFoldEqual(a, b);
    EqualsIgnoreCaseIffFoldEqual(b, c);
    EqualsIgnoreCaseIffFoldEqual(a, c);
  }

  /** Folding loses exactly the case: a string equals its folded form ignoring case. */
  lemma EqualsIgnoreCaseFold(s: string)
    ensures EqualsIgnoreCase(s, Fold(s))
  {
    assert forall i :: 0 <= i < |s| ==> LowerChar(s[i]) == LowerChar(Fold(s)[i]);
  }

  /** Strings equal ignoring case agree on the folded form of their first character. */
  lemma EqualsIgnoreCaseFirstChar(a: string, b: string)
    requires |a| > 0
    ensures EqualsIgnoreCase(a, b) ==> |b| > 0 && LowerChar(a[0]) == LowerChar(b[0])
  {
    if EqualsIgnoreCase(a, b) {
      assert CharEqualsIgnoreCase(a[0], b[0]);
    }
  }

}
