/**
  String helpers the backend and the form schemas rely on, restricted to ASCII:
  `toLowerCase`, a case-insensitive anchored match (`new RegExp("^" + x + "$", "i")`
  for an `x` without regular-expression metacharacters), the character classes used by
  the validators, the capitalisation of a duplicate-key field name, and JavaScript's
  string length, which counts UTF-16 code units.
 */
module Text {

  predicate IsUpper(c: char) { 'A' <= c <= 'Z' }
  predicate IsLower(c: char) { 'a' <= c <= 'z' }
  predicate IsLetter(c: char) { IsUpper(c) || IsLower(c) }
  predicate IsDigit(c: char) { '0' <= c <= '9' }

  /** ASCII lower-casing of one character; anything but `A`..`Z` is left alone. */
  function LowerChar(c: char): (r: char)
    ensures IsUpper(c) ==> IsLower(r)
    ensures !IsUpper(c) ==> r == c
    ensures !IsUpper(r)
  {
    if IsUpper(c) then (c as int - 'A' as int + 'a' as int) as char else c
  }

  /** ASCII upper-casing of one character; anything but `a`..`z` is left alone. */
  function UpperChar(c: char): (r: char)
    ensures IsLower(c) ==> IsUpper(r)
    ensures !IsLower(c) ==> r == c
  {
    if IsLower(c) then (c as int - 'a' as int + 'A' as int) as char else c
  }

  /** `s.toLowerCase()` on ASCII text. */
  function Lower(s: string): (r: string)
    ensures |r| == |s|
    ensures forall i :: 0 <= i < |s| ==> r[i] == LowerChar(s[i])
  {
    seq(|s|, i requires 0 <= i < |s| => LowerChar(s[i]))
  }

  /** Lower-casing twice is lower-casing once: a stored lower-case name is unchanged by a
      lower-cased query on it. */
  lemma LowerIdempotent(s: string)
    ensures Lower(Lower(s)) == Lower(s)
  {
  }

  /** A case-insensitive anchored match of `pattern` against `s`. */
  predicate EqualsIgnoreCase(s: string, pattern: string) {
    Lower(s) == Lower(pattern)
  }

  /** The match is an equivalence that differs from `==` only in the case of letters. */
  lemma EqualsIgnoreCaseFacts(a: string, b: string, c: string)
    ensures EqualsIgnoreCase(a, a)
    ensures EqualsIgnoreCase(a, b) ==> EqualsIgnoreCase(b, a)
    ensures EqualsIgnoreCase(a, b) && EqualsIgnoreCase(b, c) ==> EqualsIgnoreCase(a, c)
    ensures EqualsIgnoreCase(a, b) ==> |a| == |b|
  {
    if EqualsIgnoreCase(a, b) {
      assert |Lower(a)| == |Lower(b)|;
    }
  }

  /** `field.charAt(0).toUpperCase() + field.slice(1)`. */
  function Capitalize(s: string): (r: string)
    ensures |r| == |s|
    ensures |s| > 0 ==> r[0] == UpperChar(s[0]) && r[1..] == s[1..]
  {
    if |s| == 0 then "" else [UpperChar(s[0])] + s[1..]
  }

  /** A character outside the Basic Multilingual Plane, which UTF-16 writes as a
      surrogate pair. */
  predicate IsAstral(c: char) { c as int >= 0x1_0000 }

  /** JavaScript's `s.length`: the number of UTF-16 code units, two for an astral
      character and one for any other. */
  function Utf16Length(s: string): (n: nat)
    ensures |s| <= n <= 2 * |s|
  {
    if |s| == 0 then 0 else (if IsAstral(s[0]) then 2 else 1) + Utf16Length(s[1..])
  }

  /** Text without astral characters is as long in UTF-16 code units as in characters. */
  lemma {:induction false} Utf16LengthNoAstral(s: string)
    ensures (forall i :: 0 <= i < |s| ==> !IsAstral(s[i])) ==> Utf16Length(s) == |s|
  {
    if |s| > 0 {
      Utf16LengthNoAstral(s[1..]);
      assert forall i :: 1 <= i < |s| ==> s[i] == s[1..][i - 1];
    }
  }

  /** An astral character anywhere makes the code-unit count exceed the character count. */
  lemma {:induction false} Utf16LengthAstral(s: string, k: nat)
    requires k < |s| && IsAstral(s[k])
    ensures Utf16Length(s) > |s|
  {
    if k > 0 {
      assert s[1..][k - 1] == s[k];
      Utf16LengthAstral(s[1..], k - 1);
    }
  }

  /** Some character of `s` satisfies `p` (an unanchored one-class regular expression). */
  predicate Contains(s: string, p: char -> bool) {
    exists i :: 0 <= i < |s| && p(s[i])
  }

  /** The template `${a}, ${b}` and its longer relatives. */
  function CommaJoin(parts: seq<string>): (r: string)
    ensures |parts| == 1 ==> r == parts[0]
  {
    if |parts| == 0 then ""
    else if |parts| == 1 then parts[0]
    else parts[0] + ", " + CommaJoin(parts[1..])
  }
}
