/**
  `capitalizeFirst` of components/web/src/utils/format.ts: the empty string is
  returned as it is; any other string becomes its first character upper-cased
  followed by the rest lower-cased.
*/
module Format {
  import opened Casing

  /** `capitalizeFirst(str)`. */
  function Capitalize(s: string): (r: string)
    ensures |r| == |s|
    ensures |s| == 0 ==> r == s
    ensures |s| > 0 ==> r[0] == ToUpper(s[0])
    ensures forall i :: 1 <= i < |s| ==> r[i] == ToLower(s[i])
  {
    if |s| == 0 then s
    else [ToUpper(s[0])] + LowerString(s[1..])
  }

  /** The shape `capitalizeFirst` produces: no lower-case letter at the head,
      no upper-case letter after it. */
  predicate IsCapitalized(s: string) {
    (|s| > 0 ==> !IsLower(s[0])) && forall i :: 1 <= i < |s| ==> !IsUpper(s[i])
  }

  /** The two strings spell the same letters, ignoring case. */
  predicate EqualIgnoringCase(s: string, t: string) {
    |s| == |t| && forall i :: 0 <= i < |s| ==> ToLower(s[i]) == ToLower(t[i])
  }

  /** The result has the capitalized shape and spells the same word as the input. */
  lemma CapitalizeSound(s: string)
    ensures IsCapitalized(Capitalize(s))
    ensures EqualIgnoringCase(Capitalize(s), s)
  {
  }

  /** `Capitalize(s)` is the only capitalized string that equals `s` ignoring case. */
  lemma CapitalizeUnique(s: string, t: string)
    ensures t == Capitalize(s) <==> IsCapitalized(t) && EqualIgnoringCase(t, s)
  {
  }

  /** `capitalizeFirst` leaves a string unchanged exactly when it is already
      capitalized, as "World" is. */
  lemma CapitalizeFixedPoints(s: string)
    ensures Capitalize(s) == s <==> IsCapitalized(s)
  {
  }

  /** Applying `capitalizeFirst` a second time changes nothing. */
  lemma CapitalizeIdempotent(s: string)
    ensures Capitalize(Capitalize(s)) == Capitalize(s)
  {
  }

  /** The five cases of format.test.ts. */
  lemma CapitalizeExamples()
    ensures Capitalize("hello") == "Hello"
    ensures Capitalize("World") == "World"
    ensures Capitalize("TEST") == "Test"
    ensures Capitalize("") == ""
    ensures Capitalize("a") == "A"
  {
  }
}
