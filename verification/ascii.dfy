/** ASCII lowercasing: the model of Python's `str.lower()` as the recommendation
    handlers use it. Only the letters A-Z are mapped; every other character is
    left as it is. */
module Ascii {

  predicate IsUpper(c: char) {
    'A' <= c <= 'Z'
  }

  predicate IsLowerLetter(c: char) {
    'a' <= c <= 'z'
  }

  /** A string with no upper-case ASCII letter in it. */
  predicate IsLowerCase(s: string) {
    forall i :: 0 <= i < |s| ==> !IsUpper(s[i])
  }

  function UpperChar(c: char): (d: char)
    requires IsLowerLetter(c)
    ensures IsUpper(d)
  {
    (c as int - 32) as char
  }

  function LowerChar(c: char): (d: char)
    ensures !IsUpper(d)
    ensures IsUpper(c) ==> IsLowerLetter(d) && UpperChar(d) == c
    ensures !IsUpper(c) ==> d == c
  {
    if IsUpper(c) then (c as int + 32) as char else c
  }

  /** `s.lower()`: same length, each character lowered on its own. */
  function Lower(s: string): (r: string)
    ensures |r| == |s|
    ensures forall i :: 0 <= i < |s| ==> r[i] == LowerChar(s[i])
    ensures IsLowerCase(r)
  {
    if s == [] then [] else [LowerChar(s[0])] + Lower(s[1..])
  }

  /** Lowering a string that is already lower case changes nothing. */
  lemma LowerOfLowerCase(s: string)
    requires IsLowerCase(s)
    ensures Lower(s) == s
  {
  }

  /** `s.lower().lower() == s.lower()`. */
  lemma LowerIdempotent(s: string)
    ensures Lower(Lower(s)) == Lower(s)
  {
    LowerOfLowerCase(Lower(s));
  }

  /** Character `c` is `k` written in either case. */
  predicate SameLetterAnyCase(c: char, k: char) {
    c == k || (IsLowerLetter(k) && c == UpperChar(k))
  }

  /** A character lowers to a non-upper-case `k` exactly when it is `k` in either case. */
  lemma LowerCharEqualsIff(c: char, k: char)
    requires !IsUpper(k)
    ensures LowerChar(c) == k <==> SameLetterAnyCase(c, k)
  {
  }

  /** The inputs that lower to a lower-case key `k` are exactly the strings of
      the same length that spell `k` with any mix of upper and lower case. */
  lemma LowerEqualsIff(s: string, k: string)
    requires IsLowerCase(k)
    ensures Lower(s) == k <==>
            |s| == |k| && forall i :: 0 <= i < |s| ==> SameLetterAnyCase(s[i], k[i])
  {
    if |s| == |k| {
      forall i | 0 <= i < |s|
        ensures Lower(s)[i] == k[i] <==> SameLetterAnyCase(s[i], k[i])
      {
        LowerCharEqualsIff(s[i], k[i]);
      }
    }
  }
}
