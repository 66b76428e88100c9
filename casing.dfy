/**
  Per-character case mapping used by `capitalizeFirst`.

  An ASCII-only, per-character stand-in for JavaScript's
  `String.prototype.toUpperCase` / `toLowerCase`: 'a'..'z' and 'A'..'Z' trade
  places letter for letter, every other character is left alone. Under such a mapping a string's case conversion
  is character by character and never changes its length.
*/
module Casing {

  /** The case-bearing characters of this model. */
  predicate IsLower(c: char) { 'a' <= c <= 'z' }
  predicate IsUpper(c: char) { 'A' <= c <= 'Z' }

  /** Distance between a lower-case letter and its upper-case partner. */
  const CaseOffset: int := 'a' as int - 'A' as int

  /** `c.toUpperCase()` for one character. */
  function ToUpper(c: char): (r: char)
    ensures !IsLower(r)
    ensures r == c <==> !IsLower(c)
    ensures IsLower(c) ==> IsUpper(r) && r as int - 'A' as int == c as int - 'a' as int
  {
    if IsLower(c) then (c as int - CaseOffset) as char else c
  }

  /** `c.toLowerCase()` for one character. */
  function ToLower(c: char): (r: char)
    ensures !IsUpper(r)
    ensures r == c <==> !IsUpper(c)
    ensures IsUpper(c) ==> IsLower(r) && r as int - 'a' as int == c as int - 'A' as int
  {
    if IsUpper(c) then (c as int + CaseOffset) as char else c
  }

  /** Upper-casing then lower-casing loses nothing but the case, and vice versa. */
  lemma CaseRoundTrip(c: char)
    ensures ToLower(ToUpper(c)) == ToLower(c)
    ensures ToUpper(ToLower(c)) == ToUpper(c)
  {
  }

  /** `s.toLowerCase()`: every character of `s` mapped by `ToLower`. */
  function LowerString(s: string): (r: string)
    ensures |r| == |s|
    ensures forall i :: 0 <= i < |s| ==> r[i] == ToLower(s[i])
  {
    if |s| == 0 then [] else [ToLower(s[0])] + LowerString(s[1..])
  }

  /** A lower-cased string holds no upper-case letter. */
  predicate NoUpper(s: string) {
    forall i :: 0 <= i < |s| ==> !IsUpper(s[i])
  }

  /** Lower-casing fixes exactly the strings that hold no upper-case letter. */
  lemma LowerStringFixedPoints(s: string)
    ensures LowerString(s) == s <==> NoUpper(s)
  {
  }

  /** Lower-casing twice is lower-casing once. */
  lemma LowerStringIdempotent(s: string)
    ensures LowerString(LowerString(s)) == LowerString(s)
  {
  }
}
