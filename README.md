# capitalizeFirst

A Dafny model of `capitalizeFirst` from `components/web/src/utils/format.ts`,
the repository's only piece of logic. Given a string, it returns the empty
string unchanged, and otherwise returns the first character upper-cased
followed by the remaining characters lower-cased.

- `casing.dfy` (module `Casing`): an ASCII-only, per-character stand-in for
  JavaScript's `toUpperCase` / `toLowerCase`. `LowerString` is `toLowerCase()`
  on a whole string; `Capitalize` applies it to the tail `s[1..]`, which is
  the source's `slice(1)`.
- `format.dfy` (module `Format`): `Capitalize` models `capitalizeFirst`. The
  module also defines an independent description of what the result should
  be: `IsCapitalized` (no lower-case letter at the head, no upper-case letter
  after it) and `EqualIgnoringCase`. The lemmas prove that `Capitalize(s)` is
  the one string that has that shape and spells `s` ignoring case. They also
  prove its fixed points, its idempotence and the five cases of
  `format.test.ts`.

## Model

| member | source | states |
|---|---|---|
| Casing.ToUpper | components/web/src/utils/format.ts:10 | `charAt(0).toUpperCase()`: the result is never a lower-case letter; the character is left alone exactly when it is not a lower-case letter; a lower-case letter becomes its own upper-case partner (same position in the alphabet) |
| Casing.ToLower | components/web/src/utils/format.ts:10 | the mirror of ToUpper, used for each character of the tail: an upper-case letter becomes its own lower-case partner, everything else is left alone |
| Casing.CaseRoundTrip | components/web/src/utils/format.ts:10 | upper-casing then lower-casing a character equals lower-casing it, and vice versa: case mapping changes only the case |
| Casing.LowerString | components/web/src/utils/format.ts:10 | `toLowerCase()`: same length as the input, each character mapped by `ToLower` at the same index |
| Casing.LowerStringFixedPoints | components/web/src/utils/format.ts:10 | lower-casing leaves a string unchanged if and only if it holds no upper-case letter |
| Casing.LowerStringIdempotent | components/web/src/utils/format.ts:10 | lower-casing twice equals lower-casing once |
| Format.Capitalize | components/web/src/utils/format.ts:6-11 | same length as the input; the empty string is returned unchanged; otherwise the head is the upper-case mapping of the input's head and every later character is the lower-case mapping of the input's character at that index |
| Format.CapitalizeSound | components/web/src/utils/format.ts:10 | the result has no lower-case letter at its head, no upper-case letter after it, and equals the input ignoring case |
| Format.CapitalizeUnique | components/web/src/utils/format.ts:6-11 | a string is the result for `s` if and only if it has the capitalized shape and equals `s` ignoring case |
| Format.CapitalizeFixedPoints | components/web/src/utils/format.test.ts:9-10 | the function leaves a string unchanged if and only if the string already has the capitalized shape ("World") |
| Format.CapitalizeIdempotent | components/web/src/utils/format.ts:10 | applying the function twice equals applying it once |
| Format.CapitalizeExamples | components/web/src/utils/format.test.ts:5-23 | "hello" gives "Hello", "World" gives "World", "TEST" gives "Test", "" gives "", "a" gives "A" |

## Left out

- Unicode case mapping. JavaScript's `toUpperCase` and `toLowerCase` follow the Unicode tables. Some of their mappings change length ('ß' becomes "SS"). `toLowerCase` also applies the context-dependent final-sigma rule ("ΑΣ" becomes "ας" but "ΣΑ" becomes "σα"), so a character's lower-case form can depend on its neighbours. The model maps only 'a'..'z' and 'A'..'Z', one character at a time, and leaves every other character alone. The length-preservation and idempotence results hold for this mapping only.
- UTF-16 code units. JavaScript's `charAt(0)` and `slice(1)` index UTF-16 code units, so a character outside the Basic Multilingual Plane would be split. The model's characters are Unicode scalar values.
- The `!str` test for `null` or `undefined` (format.ts:7). The parameter is typed `string`, so only the empty-string case is modelled.
- The vitest harness of format.test.ts. Its five assertions are stated in `Format.CapitalizeExamples`.
