/**
 * The parts of java.lang.String and java.lang.Character that the two request
 * handlers depend on: a nullable reference, isBlank, isWhitespace,
 * equalsIgnoreCase, and counting the occurrences of one character.
 */
module Strings {

  /** A Java reference that may be null: an absent header or query parameter. */
  datatype Option<T> = None | Some(value: T)

  /**
   * Character.isWhitespace: the Unicode space, line and paragraph separators
   * except the three no-break spaces (U+00A0, U+2007, U+202F), together with
   * the control characters U+0009..U+000D and U+001C..U+001F.
   */
  predicate IsWhitespace(c: char): (w: bool)
    ensures c == ' ' || c == '\t' || c == '\n' || c == '\r' ==> w
    ensures c == '\U{00A0}' || c == '\U{2007}' || c == '\U{202F}' ==> !w
    ensures ('0' <= c <= '9') || ('A' <= c <= 'Z') || ('a' <= c <= 'z') ==> !w
  {
    || ('\U{0009}' <= c <= '\U{000D}')
    || ('\U{001C}' <= c <= '\U{0020}')
    || c == '\U{1680}'
    || ('\U{2000}' <= c <= '\U{2006}')
    || ('\U{2008}' <= c <= '\U{200A}')
    || c == '\U{2028}' || c == '\U{2029}'
    || c == '\U{205F}' || c == '\U{3000}'
  }

  /** String.isBlank: empty, or made only of whitespace code points. */
  predicate IsBlank(s: string): (b: bool)
    ensures s == "" ==> b
    ensures (forall i :: 0 <= i < |s| ==> s[i] == ' ' || s[i] == '\t') ==> b
    ensures b && s != "" ==> IsWhitespace(s[0]) && IsWhitespace(s[|s| - 1])
  {
    forall i :: 0 <= i < |s| ==> IsWhitespace(s[i])
  }

  /** A string is blank exactly when both of its halves are. */
  lemma BlankAppend(a: string, b: string)
    ensures IsBlank(a + b) <==> IsBlank(a) && IsBlank(b)
  {
    if IsBlank(a + b) {
      forall i | 0 <= i < |a| ensures IsWhitespace(a[i]) {
        assert (a + b)[i] == a[i];
      }
      forall i | 0 <= i < |b| ensures IsWhitespace(b[i]) {
        assert (a + b)[|a| + i] == b[i];
      }
    }
  }

  /** Character.toUpperCase restricted to the ASCII letters. */
  function ToUpperAscii(c: char): (u: char)
    ensures 'a' <= c <= 'z' ==> 'A' <= u <= 'Z' && u as int == c as int - 32
    ensures !('a' <= c <= 'z') ==> u == c
  {
    if 'a' <= c <= 'z' then (c as int - 32) as char else c
  }

  /**
   * String.equalsIgnoreCase, with case folding of the ASCII letters only:
   * the lengths agree and the characters agree position by position once
   * lower-case ASCII letters are mapped to upper case.
   */
  function EqualsIgnoreCase(a: string, b: string): (r: bool)
    ensures a == b ==> r
    ensures r ==> |a| == |b|
  {
    |a| == |b| && forall i :: 0 <= i < |a| ==> ToUpperAscii(a[i]) == ToUpperAscii(b[i])
  }

  /** Comparing ignoring case does not depend on the order of the two strings. */
  lemma EqualsIgnoreCaseSymmetric(a: string, b: string)
    ensures EqualsIgnoreCase(a, b) == EqualsIgnoreCase(b, a)
  {
    if EqualsIgnoreCase(a, b) {
      assert forall i :: 0 <= i < |b| ==> ToUpperAscii(b[i]) == ToUpperAscii(a[i]);
    }
  }

  /**
   * Which strings compare equal, ignoring case, to a string of upper-case
   * ASCII letters: exactly those of its length whose every character is the
   * same letter, in upper or in lower case.
   */
  lemma {:induction false} EqualsIgnoreCaseUpper(upper: string, s: string)
    requires forall i :: 0 <= i < |upper| ==> 'A' <= upper[i] <= 'Z'
    ensures EqualsIgnoreCase(upper, s) <==>
              && |s| == |upper|
              && forall i :: 0 <= i < |s| ==> s[i] == upper[i] || s[i] as int == upper[i] as int + 32
  {
    if |s| == |upper| {
      forall i | 0 <= i < |s|
        ensures ToUpperAscii(upper[i]) == ToUpperAscii(s[i]) <==>
                  s[i] == upper[i] || s[i] as int == upper[i] as int + 32
      {
        assert ToUpperAscii(upper[i]) == upper[i];
      }
    }
  }

  /** The number of occurrences of c in s. */
  function Count(s: string, c: char): (n: nat)
    ensures n <= |s|
    ensures n == 0 <==> c !in s
  {
    if s == [] then 0
    else (if s[0] == c then 1 else 0) + Count(s[1..], c)
  }

  /** Counting distributes over concatenation. */
  lemma {:induction false} CountAppend(a: string, b: string, c: char)
    ensures Count(a + b, c) == Count(a, c) + Count(b, c)
  {
    if a == [] {
      assert a + b == b;
    } else {
      assert (a + b)[1..] == a[1..] + b;
      CountAppend(a[1..], b, c);
    }
  }
}
