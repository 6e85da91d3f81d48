# chemical-number-identifier, modelled in Dafny

This library checks chemical registry identifiers given as strings. It knows four schemes:

- CAS Registry Numbers (`XX-YY-Z` up to `XXXXXXX-YY-Z`, check digit mod 10);
- EC numbers (`XXX-YYY-Z`, check digit mod 11, with a remainder of 10 written as check digit 1);
- Kenyan KE Annex 1 numbers (`KE-XXXXX`, which only have to be 8 characters long);
- KE Annex 2 numbers (`YYYY-X-ZZZZ`, whose year must lie between 1991 and the current year).

For each scheme there are three functions:

- a format checker (a regular expression);
- a validator (the check-digit arithmetic);
- a combinator that runs the validator only on a well-formatted input. It reports one of three outcomes: error `format`, error `invalid`, or success.

The dispatcher `identifyChemicalNumber` runs the four combinators in a fixed order. It returns the first success. Failing that, it returns the first `invalid` report, and failing that a "No Chemical Identifiers were matched" record. `identifyChemicalNumbers` maps the dispatcher over a list.

The Dafny modules follow the two source files:

- `Js` (js.dfy): the parts of the JavaScript runtime the code relies on, as values:
  - numbers that may be NaN, and a call that may throw a TypeError;
  - `split('-')` and `join('-')`;
  - the whitespace class of `trim`;
  - the global `parseInt`;
  - the conversion of a one-character string to a number that `*` performs;
  - `+`, `*` and the truncating `%`.
- `Util` (util.js): `reverseString`, the two `calculateTotalDigitValue*` loops (as methods proved against one specification function), `isModuloValid` and `isModuloValidExceptionEC`.
- `Shapes` (index.js:5-8): the four regular expressions as fixed character layouts. They are proved equal to the "digit runs between dashes" reading of each expression, and pairwise disjoint.
- `Checks`: the format checkers, the validators, `isFormattedCorrectlyKE` and `isValidKE`. The validators are total over all strings, as the source's are. Off-format inputs keep their NaN and throw behaviour. On a well-formatted input each validator is proved equal to the scheme's check-digit rule.
- `Combinators`: the result record and the four combinators, with the three-outcome invariant `WellFormed`.
- `Identify`: the dispatcher, its precedence contract, and the batch dispatcher. The lemma `IdentifyByShape` shows that, the shapes being disjoint, the order of the combinators never decides the answer.
- `Examples`: the concrete inputs of the repository's test files, as lemmas.

The current year, which the source reads from the clock, is a parameter `currentYear`.

One behaviour of the source is proved rather than corrected: `isValidKE` tests Annex 1 first, and Annex 1 validity is a length test. So any 8-character string is reported as a valid Annex 1 number. `Checks.EightCharactersShadowAnnexTwo` shows this on "3000-1-1": the Annex 2 validator rejects its year, yet isValidKE reports it as valid.

## Model

| member | source | states |
|---|---|---|
| Js.Add | util.js:58 | `+` on numbers: NaN if either side is NaN, otherwise the integer sum |
| Js.Mul | util.js:58 | `*` on numbers: NaN if either side is NaN, otherwise the integer product |
| Js.Rem | util.js:27 | `%`: NaN on a NaN operand or a zero divisor; otherwise smaller in magnitude than the divisor, with the sign of the dividend, and leaving a multiple of the divisor (so the remainder truncates toward zero: -7 % 3 is -1); the Euclidean remainder for non-negative operands |
| Js.RemDetermined | util.js:27 | those conditions fix the value: any integer meeting them is the remainder `%` gives |
| Js.CharToNumber | util.js:58 | a one-character string as a number: a digit gives its value, whitespace gives 0, and it is NaN exactly on a character that is neither |
| Js.StrictEquals | util.js:27 | `===` on numbers: holds iff both are numbers (not NaN) with the same value, so NaN equals nothing, itself included |
| Js.IsBlank | util.js:7 | `!s.trim()`: holds iff the string is empty or every character is ECMAScript whitespace or a line terminator |
| Js.PartOrUndefined | index.js:170-171 | `parts[k]` used as a string: the k-th piece when it exists, otherwise the text "undefined" that `undefined` converts to (also index.js:194-195) |
| Js.Split | index.js:169 | `split('-')` yields at least one piece, and no piece contains a dash |
| Js.JoinSplit | index.js:169 | joining the pieces of `split('-')` with '-' gives back the string |
| Js.SplitJoin | index.js:169 | splitting a '-'-join of dash-free pieces gives back the pieces |
| Js.ParseInt | index.js:170 | `parseInt` of a non-empty digit string is its decimal value; of a string without any digit it is NaN |
| Util.Reverse | util.js:9 | the result has the input's length and `r[i] == s[|s|-1-i]` |
| Util.ReverseReverse | util.js:6-10 | reversing twice gives back the input |
| Util.ReverseDigits | util.js:9 | reversing a digit string gives a digit string |
| Util.ReverseString | util.js:6-10 | throws exactly when the input is empty or only whitespace; otherwise returns the characters in reverse order |
| Util.TotalDigitValue | util.js:53-62 | the accumulated total is NaN exactly when some character's `Number()` is NaN (by `Js.CharToNumber`, a character that is neither digit nor whitespace), and otherwise non-negative |
| Util.TotalOfDigits | util.js:46-62 | on a digit string the total is Σ digit(s[i])·(i+1), the weighted digit sum |
| Util.CalculateTotalDigitValueCAS | util.js:53-62 | the loop returns `TotalDigitValue` of its input; the invariant keeps `total` equal to the total of the first i-1 characters |
| Util.CalculateTotalDigitValueEC | util.js:64-73 | the same loop returns the same `TotalDigitValue`, so it agrees with the CAS version on every input |
| Util.IsModuloValid | util.js:24-28 | true only for numbers with a non-zero modulus and a check sum smaller in magnitude than it (so false whenever 0 < mod ≤ check); for a non-negative total and positive modulus, true iff `total mod m == checkSum` |
| Util.IsModuloValidExceptionEC | util.js:42-44 | true only for check sum 1 and a modulus above 10 in magnitude; for a non-negative total and positive modulus, true iff the remainder is 10 and the check sum is 1 |
| Util.ExceptionExcludesPlain | util.js:42-44 | with modulus 11, the plain test and the remainder-10 exception never hold together |
| Util.WorkedExample | util.js:13-17 | "812377" weighs 105, its total is 105, and 105 mod 10 is 5 |
| Shapes.CasShape | index.js:5 | holds iff the whole string is 2–7 digits, '-', 2 digits, '-', 1 digit |
| Shapes.EcShape | index.js:6 | holds iff the whole string is 3 digits, '-', 3 digits, '-', 1 digit |
| Shapes.AnnexOneShape | index.js:7 | holds iff the whole string is "KE-" followed by 5 digits |
| Shapes.AnnexTwoShape | index.js:8 | holds iff the whole string is 4 digits, '-', 1 digit, '-', 1–4 digits |
| Shapes.CasSplit | index.js:5 | the three pieces `split('-')` gives for a CAS-shaped string |
| Shapes.EcSplit | index.js:6 | the three pieces `split('-')` gives for an EC-shaped string |
| Shapes.AnnexTwoSplit | index.js:8 | the three pieces `split('-')` gives for an Annex 2-shaped string |
| Shapes.CasShapeSegments | index.js:5 | CAS shape iff the pieces are a run of 2–7 digits, a run of 2 digits and one digit |
| Shapes.EcShapeSegments | index.js:6 | EC shape iff the pieces are two runs of 3 digits and one digit |
| Shapes.AnnexOneShapeSegments | index.js:7 | Annex 1 shape iff the input is "KE-" followed by one run of 5 digits |
| Shapes.AnnexTwoShapeSegments | index.js:8 | Annex 2 shape iff the pieces are a run of 4 digits, one digit and a run of 1–4 digits |
| Shapes.JoinedRunsFit | index.js:5-8 | any choice of digit runs joined by '-' splits back into those runs, so each shape accepts all of its expression's language |
| Shapes.ShapesDisjoint | index.js:5-8 | no string has two of the four shapes |
| Checks.IsFormattedCorrectlyCAS | index.js:61-71 | succeeds iff the pieces fit the CAS runs; message "is formatted correctly" or "is not formatted correctly" |
| Checks.IsFormattedCorrectlyEC | index.js:79-89 | succeeds iff the pieces fit the EC runs; same messages |
| Checks.IsFormattedCorrectlyAnnexOneKE | index.js:97-107 | succeeds iff "KE-" and one 5-digit run; same messages |
| Checks.IsFormattedCorrectlyAnnexTwoKE | index.js:115-125 | succeeds iff the pieces fit the Annex 2 runs; same messages |
| Checks.IsFormattedCorrectlyKE | index.js:135-155 | succeeds iff either annex shape matches; names Annex 1 for an Annex 1 shape and Annex 2 for an Annex 2 shape; otherwise "did not match either Annex numbers" |
| Checks.IsValidCAS | index.js:166-181 | throws iff there is no second piece or the first or second piece is blank; on a CAS-formatted input it returns, and succeeds iff the CAS check-digit rule holds |
| Checks.CasFormatNeverThrows | index.js:171 | the pieces of a CAS-formatted input are never blank, so reverseString does not throw |
| Checks.CasUnderFormat | index.js:169-174 | on CAS-formatted pieces, the mod-10 test of the reversed total is the CAS rule |
| Checks.IsValidEC | index.js:190-207 | never throws; on an EC-formatted input succeeds iff the weighted sum mod 11 is the check digit, or the remainder is 10 and the check digit 1 |
| Checks.EcUnderFormat | index.js:193-200 | on EC-formatted pieces, the mod-11 test or its exception is the EC rule |
| Checks.IsValidAnnexOneKE | index.js:216-226 | succeeds iff the input has 8 characters |
| Checks.IsValidAnnexTwoKE | index.js:235-250 | a first piece with no digit fails; success needs a current year of at least 1991; on an Annex 2-formatted input succeeds iff 1991 ≤ year ≤ current year |
| Checks.IsValidKE | index.js:258-280 | succeeds iff 8 characters or Annex 2-valid; Annex 1 message first, then the Annex 2 message, else the combined failure message |
| Checks.AnnexOneFormattedIsValid | index.js:216-226 | every Annex 1-formatted string passes the Annex 1 validator |
| Checks.EightCharactersShadowAnnexTwo | index.js:258-273 | "3000-1-1" is Annex 2-shaped with a future year that the Annex 2 validator rejects, yet isValidKE calls it a valid Annex 1 number |
| Combinators.TypeName | index.js:293 | the `type` string of each scheme, distinct per scheme: "CAS Number", "EC Number", "KE Annex 1", "KE Annex 2" |
| Combinators.NumberFormat | index.js:294 | the `numberFormat` string of each scheme, distinct per scheme |
| Combinators.ReportFields | index.js:288-455 | every outcome of each combinator carries that scheme's `type` and `numberFormat` strings |
| Combinators.IsFormattedCorrectlyAndIsValidCAS | index.js:288-323 | a well-formed three-outcome record for CAS; formatted iff CAS shape; success iff shape and CAS rule; the message of each outcome |
| Combinators.IsFormattedCorrectlyAndIsValidEC | index.js:331-366 | the same for EC: formatted iff EC shape, success iff shape and EC rule |
| Combinators.IsFormattedCorrectlyAndIsValidAnnexOneKE | index.js:374-411 | success iff Annex 1 shape; never error 'invalid' |
| Combinators.IsFormattedCorrectlyAndIsValidAnnexTwoKE | index.js:419-455 | formatted iff Annex 2 shape; success iff shape and 1991 ≤ year ≤ current year |
| Identify.Attempt | index.js:460-473 | the entry for each scheme yields that scheme's well-formed report |
| Identify.Attempts | index.js:19-21 | one well-formed report per entry of `identificationObject`, in order, each for that entry's scheme and keeping the input |
| Identify.NoMatchReport | index.js:29-34 | the fallback record is a well-formed 'format' failure that keeps the input |
| Identify.Find | index.js:23 | `find` gives the first element satisfying the predicate, or none when no element does |
| Identify.Decide | index.js:23-34 | the first successful report; else, when nothing succeeded, the first 'invalid' report; the fallback record exactly when no report succeeded or was 'invalid' |
| Identify.IdentifyChemicalNumber | index.js:16-35 | the answer keeps the input and is a well-formed record |
| Identify.DecideOnlyFormatted | index.js:23-27 | when only one report got past its format check, that report is the answer |
| Identify.DecideNoneFormatted | index.js:23-34 | when no report got past its format check, the fallback record is the answer |
| Identify.FormattedByShape | index.js:19-21 | the four attempts are the four combinators, in order, each formatted exactly on its scheme's shape |
| Identify.IdentifyWithOneShape | index.js:19-27 | an input formatted for one scheme gets that scheme's report |
| Identify.IdentifyByShape | index.js:19-27 | a string of one scheme's shape gets that scheme's combinator report; a string of no shape gets the fallback |
| Identify.IdentifySucceedsIff | index.js:16-35 | identification succeeds iff some scheme's shape and rule both hold |
| Identify.IdentifyChemicalNumbers | index.js:43-53 | one report per input, in order, each the dispatcher's report |
| Examples.CasWater | test/isValidCAS.test.js:16-24 | "7732-18-5" is a valid CAS number, passes the combinator and is identified as CAS |
| Examples.CasLongCheckDigit | test/isFormattedCorrectlyAndIsValidCAS.test.js:23-28 | "7732-18-50" fails the CAS combinator with error 'format' |
| Examples.CasOnDigitPieces | index.js:166-181 | on any three digit pieces, isValidCAS returns and succeeds iff the reversed weighted sum mod 10 equals the third piece's value |
| Examples.CasCheckDigitTooLarge | test/isValidCAS.test.js:26-35 | isValidCAS rejects "7732-18-50" |
| Examples.CasShortMiddle | test/isValidCAS.test.js:36-41 | isValidCAS rejects "7732-1-5" |
| Examples.CasShortPieces | test/isValidCAS.test.js:42-47 | isValidCAS rejects "7-1-50" |
| Examples.CasLettersInDigits | test/isValidCAS.test.js:54-59 | isValidCAS rejects "7732-XX-50" (NaN total) |
| Examples.CasOnNaN | index.js:166-181 | on dash-free pieces with non-blank first two, a NaN check digit or NaN total makes isValidCAS return a failure |
| Examples.CasCheckDigitNotANumber | test/isValidCAS.test.js:60-65 | isValidCAS rejects "7732-18-XX" (NaN check sum) |
| Examples.CasNoSecondPiece | util.js:7 | isValidCAS throws on "hello", which has no second piece to reverse |
| Examples.EcValid | test/isValidEC.test.js:15-23 | "200-003-9" is a valid EC number and passes the EC combinator |
| Examples.EcLongCheckDigit | test/isFormattedCorrectlyAndIsValidEC.test.js:26-34 | "200-003-99" fails the EC combinator with error 'format' |
| Examples.EcOnDigitPieces | index.js:190-207 | on any three digit pieces, isValidEC succeeds iff the weighted sum of the first two mod 11 is the third piece's value, or is 10 with a third piece worth 1 |
| Examples.EcOnNaN | index.js:190-207 | on dash-free pieces, a NaN check digit or NaN total makes isValidEC fail |
| Examples.EcCheckDigitTooLarge | test/isValidEC.test.js:26-34 | isValidEC rejects "200-003-99" with the message "200-003-99 is not a valid EC number" |
| Examples.EcShortMiddle | test/isValidEC.test.js:35-40 | isValidEC rejects "200-03-9" |
| Examples.EcShortFirst | test/isValidEC.test.js:41-46 | isValidEC rejects "20-003-9" |
| Examples.EcLetterInFirstPiece | test/isValidEC.test.js:47-52 | isValidEC rejects "20X-003-9" (NaN total) |
| Examples.EcLetterInSecondPiece | test/isValidEC.test.js:53-58 | isValidEC rejects "200-X03-9" (NaN total) |
| Examples.EcCheckDigitNotANumber | test/isValidEC.test.js:59-64 | isValidEC rejects "200-003-X" (NaN check sum) |
| Examples.EcInvalid | test/identifyChemicalNumber.test.js:48-54 | "123-456-7" is identified as an 'invalid' EC number |
| Examples.AnnexOneValid | test/isFormattedCorrectlyAndIsValidAnnexOneKE.test.js:15-23 | "KE-12345" passes the Annex 1 combinator, isFormattedCorrectlyKE and isValidKE |
| Examples.AnnexOneTooLong | test/isFormattedCorrectlyAndIsValidAnnexOneKE.test.js:59-64 | "KE-123456" fails with error 'format' and fails the length test |
| Examples.AnnexTwoValid | test/isValidAnnexTwoKE.test.js:15-23 | with a current year of at least 2017, "2017-2-13" is a valid Annex 2 number |
| Examples.AnnexTwoBeforeIntroduction | index.js:241-242 | "1990-1-1" is Annex 2-formatted but 'invalid' |
| Examples.AnnexTwoNoYear | test/isFormattedCorrectlyAndIsValidAnnexTwoKE.test.js:26-34 | "K-12" fails the Annex 2 combinator with error 'format' and fails the Annex 2 validator |
| Examples.KeShortNumber | test/isValidKE.test.js:35-40 | isValidKE rejects "KE-12" with the combined failure message |
| Examples.KeLowerCase | test/isValidKE.test.js:41-46 | isValidKE rejects "Ke-12" with the combined failure message |
| Examples.KeNoDash | test/isValidKE.test.js:47-52 | isValidKE rejects "KE12" with the combined failure message |
| Examples.IdentifyCasInvalid | test/identifyChemicalNumber.test.js:41-47 | "123-45-6" is identified as an 'invalid' CAS number |
| Examples.IdentifyHello | test/identifyChemicalNumber.test.js:35-40 | "hello" gets the fallback record |
| Examples.IdentifyLongCheckDigit | test/identifyChemicalNumber.test.js:71-77 | "123-45-67" gets the fallback record |
| Examples.IdentifyNearMisses | test/identifyChemicalNumber.test.js:78-98 | "123-456-78", "KE-123456" and "2022-1-12901" get the fallback record |
| Examples.IdentifyAnnexTwo | test/identifyChemicalNumber.test.js:62-68 | "2022-1-1290" is identified as Annex 2 once the current year is at least 2022 |
| Examples.BatchExample | index.js:43-53 | a batch of three inputs gets its three reports in order |

## Left out

- The `typeof` and `Array.isArray` guards and their TypeErrors: Dafny's types rule out non-string arguments and non-array batches.
- `new Date().getFullYear()` (index.js:240): the current year is the parameter `currentYear`.
- The regular-expression engine: each expression is modelled by an explicit character layout, proved equal to its "digit runs between dashes" reading.
- Floating-point numbers: totals, years and parsed values are unbounded integers. `parseInt` of a digit string longer than about 16 digits, which loses precision in JavaScript, is computed exactly.
- UTF-16: `.length`, `s[i]` and `parseInt` see UTF-16 code units, while `[...s]` and the model see characters. The two differ only on characters outside the Basic Multilingual Plane.
- `Object.entries` of `identificationObject`: its insertion order is the constant `Identify.Order`.
- `flatMap` in `identifyChemicalNumbers`: each result is a record, not an array, so it behaves as `map`.
- `Object.values(stringArray)` in `identifyChemicalNumbers` (index.js:48): on a JavaScript array with holes, the holes are skipped, and extra enumerable properties are included without the `every` type check. A `seq<string>` has neither, so the batch is modelled as exactly one report per index, in index order.
- The `type` and `numberFormat` fields follow from the report's scheme (`Combinators.TypeName`, `Combinators.NumberFormat`, stated per combinator by `Combinators.ReportFields`) rather than being stored.
- The module exports and the test harness; the tests only supply the concrete inputs of `Examples`.
- Js.ParseInt: the contract states the value only for a string of digits and for a string without digits. The body models whitespace, signs and the "0x" prefix, but no lemma is proved about them.
- Checks.IsValidCAS: off the CAS format, the contract states only when it throws and its messages, not the outcome of the test.
- Checks.IsValidEC: off the EC format, the contract states only its messages, not the outcome of the test.
- Checks.IsValidAnnexTwoKE: off the Annex 2 format, the contract states only that a first piece without digits fails, not the whole parseInt year window.
