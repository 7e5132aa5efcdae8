# TZ.CountryAddress postcode rules and province matcher, in Dafny

This project models the two services of TZ.CountryAddress.

`PostCodeService` checks a postcode against a country's rule. It validates a `[start, end]` range of postcodes, tells whether a code lies inside such a range, and detects overlaps in a list of ranges. `ProvinceService` finds a US state or territory by code, English name or Chinese name, ignoring spaces and letter case.

Modules:

| module | file | what it holds |
|---|---|---|
| `Wrappers` | `wrappers.dfy` | `Option` and `Result` |
| `AsciiText` | `text.dfy` | the .NET primitives the services rely on, over ASCII (see below) |
| `Patterns` | `patterns.dfy` | one constructor per shape of regular expression used by the transcribed rules, each with an explicit matcher that reports the leftmost match |
| `PostCodeRules` | `rules.dfy` | the `PostCodeValidationRuleModel` record, the GB format-fix function, and eleven country rules looked up by `GetPostCodeRule` |
| `PostCodeService` | `service.dfy` | format check; normalisation (left padding, then the optional fix); range validation; containment |
| `RangeOverlap` | `overlap.dfy` | both `CheckRangeOverlap` overloads and the disjointness theorem |
| `PostCodeScenarios`, `OverlapScenarios` | `scenarios.dfy`, `overlap_scenarios.dfy` | the services under concrete rules: US, Belize, Haiti, Iran, GB and Ireland |
| `ProvinceService` | `province.dfy` | the province records, the comparison `CheckSameProvinceStr`, the cache as a class, and the lookups |

The primitives in `AsciiText` are `ToUpper`, the two `Replace` calls, `PadLeft`, `int.TryParse` and `string.Compare(..., OrdinalIgnoreCase)`.

Every public operation of the source returns a `(success, msg)` tuple. Here it returns an `Outcome`: `Pass`, `Fail(error)` with one error constructor per failure site, or `Thrown`. `Thrown` stands for an exception escaping the call, which only the GB fix function can raise (its `Substring` gets a negative length). The order in which the failure sites are tried is the source's.

The source's step-by-step methods are imperative Dafny methods: `CheckPostCodeRangeByRule` and `CheckPostCodeInRange` reassign the bounds and the code, and the `CheckRangeOverlap` loops fail fast. Each method is proved equal to a specification function: `RangeOutcome`, `InRangeOutcome`, `OverlapWithOutcome` and `CheckRangeOverlapOutcome`. The lemmas state what those functions mean.

The key theorem is `RangeOverlap.NumericOverlapDetection`. Take a numeric rule and a list of ranges that validate and whose raw bounds parse with start <= end. The whole-list overlap check then passes exactly when the ranges at every two distinct indexes are disjoint, although each pair test looks in one direction only.

The province cache is a class whose field is a map. The constructor puts the `"US"` list in, and nothing else ever changes it.

## Model

| member | source | states |
|---|---|---|
| AsciiText.UpperChar | TZ.CountryAddress/ProvinceService.cs:89-90 | a lower-case letter becomes its capital (32 code units lower); every other character is unchanged; the result is never a lower-case letter |
| AsciiText.ToUpper | TZ.CountryAddress/ProvinceService.cs:89-90 | the length is kept and each character is upper-cased in place |
| AsciiText.CollapseDoubleSpaces | TZ.CountryAddress/ProvinceService.cs:89-90 | `Replace("  ", " ")` never lengthens a string |
| AsciiText.RemoveSpaces | TZ.CountryAddress/PostCodeService.cs:1203 | `Replace(" ", "")` leaves no U+0020 and never lengthens a string |
| AsciiText.RemoveSpacesOfSpaceFree | TZ.CountryAddress/PostCodeService.cs:1203 | a string without spaces is unchanged by the removal |
| AsciiText.RemoveSpacesAfterCollapse | TZ.CountryAddress/ProvinceService.cs:89-90 | collapsing double spaces and then removing every space equals removing every space |
| AsciiText.RemoveSpacesToUpper | TZ.CountryAddress/ProvinceService.cs:89-90 | upper-casing and removing spaces commute |
| AsciiText.ToUpperIdempotent | TZ.CountryAddress/ProvinceService.cs:89-90 | upper-casing twice is upper-casing once |
| AsciiText.PadLeft | TZ.CountryAddress/PostCodeService.cs:94 | a string shorter than the width becomes exactly width long: pad characters followed by the original; otherwise it is unchanged |
| AsciiText.DigitsValue | TZ.CountryAddress/PostCodeService.cs:3568-3577 | the value of n digits is below 10^n |
| AsciiText.TryParseInt | TZ.CountryAddress/PostCodeService.cs:3568-3577 | a parsed value lies between 0 and Int32.MaxValue |
| AsciiText.DigitsValueLeadingZeros | TZ.CountryAddress/PostCodeService.cs:3524-3537 | zeros put in front of a run of digits do not change its value |
| AsciiText.ShortDigitsParse | TZ.CountryAddress/PostCodeService.cs:3568-3577 | one to nine digits always parse, to their value |
| AsciiText.CompareOrdinalIgnoreCase | TZ.CountryAddress/PostCodeService.cs:171-172 | the comparison is zero exactly when the strings agree ignoring case |
| AsciiText.CompareCommonPrefix | TZ.CountryAddress/PostCodeService.cs:171-172 | a common prefix does not change the comparison |
| AsciiText.CompareSignIsLexOrder | TZ.CountryAddress/PostCodeService.cs:171-172 | the comparison is negative exactly when the upper-cased first string is lexicographically before the second, and positive exactly when it is after |
| Patterns.EircodeMatch | TZ.CountryAddress/PostCodeService.cs:1216 | an Eircode match always ends at the end of the input |
| Patterns.Match | TZ.CountryAddress/PostCodeService.cs:3552-3562 | a match lies inside the input; an anchored pattern matches exactly when the whole input has its shape, and the match is then the whole input |
| Patterns.Extract | TZ.CountryAddress/PostCodeService.cs:3552-3562 | a matched value exists exactly when `Regex.IsMatch` holds, and it is no longer than the input |
| Patterns.NumericExtractIsDigits | TZ.CountryAddress/PostCodeService.cs:3566-3577 | a numeric range pattern extracts a non-empty run of digits no longer than its bound |
| Patterns.NumericExtractParses | TZ.CountryAddress/PostCodeService.cs:3566-3577 | `int.TryParse` of the extracted value fails exactly on overflow, and never when at most nine digits are extracted |
| PostCodeRules.GbFixFormat | TZ.CountryAddress/PostCodeService.cs:1190-1207 | declined exactly for an empty code and for one of 1-4 characters, both counted before spaces are removed; throws exactly when at least five characters hold fewer than three non-spaces; otherwise the same non-space characters, with exactly one space, placed before the last three |
| PostCodeRules.GbFixedShape | TZ.CountryAddress/PostCodeService.cs:1203-1204 | inserting the space before the last three characters of a space-free string gives one more character, exactly one space, at the fourth position from the end |
| PostCodeRules.GbFixFormatIdempotent | TZ.CountryAddress/PostCodeService.cs:1190-1207 | a fixed code with at least four non-space characters is fixed to itself |
| PostCodeRules.GetPostCodeRule | TZ.CountryAddress/PostCodeService.cs:216-3469 | a rule is found exactly for a transcribed country code, matched case-sensitively; it carries that code and has the table's shape: numeric rules extract digits, MinLenght is set, padding is with '0', and no rule both pads and fixes |
| PostCodeRules.UnitedStatesRule | TZ.CountryAddress/PostCodeService.cs:222-236 | the US rule, with the table's shape |
| PostCodeRules.CanadaRule | TZ.CountryAddress/PostCodeService.cs:237-253 | the CA rule, with the table's shape |
| PostCodeRules.MexicoRule | TZ.CountryAddress/PostCodeService.cs:254-268 | the MX rule, with the table's shape |
| PostCodeRules.BelizeRule | TZ.CountryAddress/PostCodeService.cs:285-300 | the BZ rule (no postcodes), with the table's shape |
| PostCodeRules.HaitiRule | TZ.CountryAddress/PostCodeService.cs:401-417 | the HT rule, with the table's shape |
| PostCodeRules.BrazilRule | TZ.CountryAddress/PostCodeService.cs:661-675 | the BR rule, with the table's shape |
| PostCodeRules.FrenchGuianaRule | TZ.CountryAddress/PostCodeService.cs:796-810 | the GF rule, with the table's shape |
| PostCodeRules.UnitedKingdomRule | TZ.CountryAddress/PostCodeService.cs:1177-1209 | the GB rule, with its fix function, and with the table's shape |
| PostCodeRules.IrelandRule | TZ.CountryAddress/PostCodeService.cs:1210-1225 | the IE rule, with the table's shape |
| PostCodeRules.IranRule | TZ.CountryAddress/PostCodeService.cs:2109-2125 | the IR rule, with the table's shape |
| PostCodeRules.BahrainRule | TZ.CountryAddress/PostCodeService.cs:2289-2305 | the BH rule, with the table's shape |
| PostCodeService.GetPostCodeRegex | TZ.CountryAddress/PostCodeService.cs:17-40 | an empty code fails first; the code is upper-cased before the lookup, and an unknown country fails naming the code as given; a known country whose rule has a regex gets that regex and its description, and one whose rule has none fails with the description, or "没有邮编" when that is empty |
| PostCodeService.CheckPostCodeFormatByRule | TZ.CountryAddress/PostCodeService.cs:3479-3503 | a missing rule or an empty regex fails whatever the code; otherwise the check passes exactly when the regex matches, and fails with the rule's description when it does not |
| PostCodeService.CheckPostCodeFormat | TZ.CountryAddress/PostCodeService.cs:48-59 | the country code is looked up as given: an unknown code fails, and a known one defers to the rule's check |
| PostCodeService.PadCode | TZ.CountryAddress/PostCodeService.cs:3524-3537 | when the rule pads (numeric, a one-character pad) and the code is shorter than MinLenght, the code becomes pad characters followed by itself, exactly MinLenght long; otherwise it is unchanged |
| PostCodeService.PadCodeIdempotent | TZ.CountryAddress/PostCodeService.cs:3524-3537 | padding twice is padding once |
| PostCodeService.NormalizeCode | TZ.CountryAddress/PostCodeService.cs:3539-3551 | the padded code, unless fixing is asked for and the rule has a fix function: then the fixed code when the fix succeeds, the padded code when it declines, and failure exactly when it throws |
| PostCodeService.NormalizeAfterPad | TZ.CountryAddress/PostCodeService.cs:86-106 | normalising a padded code is normalising the code |
| PostCodeService.NormalizeIdempotent | TZ.CountryAddress/PostCodeService.cs:3524-3551 | for a rule of the table's shape, normalising a normalised code changes nothing |
| PostCodeService.NonNumericRangeUnordered | TZ.CountryAddress/PostCodeService.cs:3552-3592 | a non-numeric rule checks no order: the range is valid exactly when both normalised bounds match the range regex, so swapping the bounds never changes validity |
| PostCodeService.NumericRangeExact | TZ.CountryAddress/PostCodeService.cs:3552-3587 | for a numeric rule of the table's shape, the range is valid exactly when both bounds extract to numbers and start <= end; a start or end that is "not a number" is always an overflowing digit run |
| PostCodeService.SwappedRangeValid | TZ.CountryAddress/PostCodeService.cs:3579-3583 | a numeric range rejected only for start > end becomes valid once its bounds are swapped |
| PostCodeService.CheckPostCodeRangeByRule | TZ.CountryAddress/PostCodeService.cs:3515-3593 | the method that pads, fixes, extracts, parses and compares step by step returns the range outcome |
| PostCodeService.NonNumericContainmentAsWritten | TZ.CountryAddress/PostCodeService.cs:171-179 | under any non-numeric rule, once the range is valid and the normalised code matches, the check compares that code with the raw bounds and fails as not in range exactly when either ignore-case comparison yields -1 |
| PostCodeService.WithinIgnoreCase | TZ.CountryAddress/PostCodeService.cs:171-179 | the intended non-numeric test holds exactly when the code is neither before the start nor after the end in upper-cased lexicographic order |
| PostCodeService.WithinPassesAsWritten | TZ.CountryAddress/PostCodeService.cs:171-179 | every code inside the range in ignore-case order passes the test as written |
| PostCodeService.AsWrittenAdmitsCodeAfterEnd | TZ.CountryAddress/PostCodeService.cs:171-179 | bounds and a code that differ in one digit only, with the code's digit two or more above the end's, pass the test as written although the code lies after the end |
| PostCodeService.DigitsApart | TZ.CountryAddress/PostCodeService.cs:171-172 | strings that differ in one digit only compare by the difference of those digits |
| PostCodeService.IntendedNonNumericContainment | TZ.CountryAddress/PostCodeService.cs:171-179 | with the intended test, once the range is valid and the code matches, the check passes exactly when the code lies between the bounds in ignore-case order, and fails as not in range otherwise; it never accepts a code the check as written rejects |
| PostCodeService.InvalidRangeDecidesFirst | TZ.CountryAddress/PostCodeService.cs:79-84 | an invalid range fails the containment check with the range's own error, whatever the code |
| PostCodeService.NumericInRangeExact | TZ.CountryAddress/PostCodeService.cs:114-146 | with a valid range, a matching code and all three numbers parsed, the check fails as below the start exactly when code < start, fails as above the end exactly when start <= code and end < code, and passes exactly when start <= code <= end |
| PostCodeService.TryParsePadded | TZ.CountryAddress/PostCodeService.cs:116-124 | under a rule that pads with '0', padding a non-empty bound does not change what `int.TryParse` gives |
| PostCodeService.PaddedInputsSameOutcome | TZ.CountryAddress/PostCodeService.cs:70-146 | already-padded bounds and code give the same containment outcome as unpadded ones, provided neither bound is empty |
| PostCodeService.CheckPostCodeInRange | TZ.CountryAddress/PostCodeService.cs:70-78 | an unknown country fails; otherwise the outcome is the rule's containment outcome |
| PostCodeService.CheckPostCodeInRangeByRule | TZ.CountryAddress/PostCodeService.cs:79-181 | the method that validates the range, pads, fixes and extracts the code and then compares it returns the containment outcome |
| RangeOverlap.FirstFailurePass | TZ.CountryAddress/PostCodeService.cs:3617-3622 | the fail-fast scan passes exactly when every outcome from the start index on, outside the excluded indexes, passes |
| RangeOverlap.FirstFailureIsFirst | TZ.CountryAddress/PostCodeService.cs:3617-3622 | a failing scan reports the outcome at a non-excluded index before which every non-excluded outcome passes |
| RangeOverlap.NumericPairOutcome | TZ.CountryAddress/PostCodeService.cs:3636-3698 | for two well-formed ranges under a numeric rule, the pair test passes exactly when neither raw endpoint of the current range lies in [other start, other end]; otherwise it reports an overlap of the two |
| RangeOverlap.NumericPairsBothWays | TZ.CountryAddress/PostCodeService.cs:3688-3698 | both pair tests of two well-formed numeric ranges pass exactly when the ranges are disjoint |
| RangeOverlap.OverlapWithPass | TZ.CountryAddress/PostCodeService.cs:3596-3721 | the private overload passes exactly when the current range validates and the pair test passes against every index not excluded |
| RangeOverlap.RangePassIffPairsPass | TZ.CountryAddress/PostCodeService.cs:194-207 | a range that validates passes its turn of the whole-list loop exactly when it passes the pair test against every other index |
| RangeOverlap.ListPassIffAllPairsPass | TZ.CountryAddress/PostCodeService.cs:194-207 | when every range validates, the whole-list check passes exactly when every ordered pair of distinct indexes passes the pair test |
| RangeOverlap.AllPairsPassIffDisjoint | TZ.CountryAddress/PostCodeService.cs:3688-3698 | for well-formed numeric ranges, all pair tests pass exactly when the ranges are pairwise disjoint |
| RangeOverlap.NumericOverlapDetection | TZ.CountryAddress/PostCodeService.cs:184-208 | for a numeric rule and well-formed ranges, the whole-list check passes exactly when the ranges at every two distinct indexes are disjoint |
| RangeOverlap.IdenticalRangesOverlap | TZ.CountryAddress/PostCodeService.cs:3688-3698 | two identical well-formed numeric ranges at different indexes are always reported |
| RangeOverlap.NonNumericPairOutcome | TZ.CountryAddress/PostCodeService.cs:3703-3714 | under a non-numeric rule, a validated other range is reported exactly when it shares an endpoint string, compared case-sensitively, with the current one |
| RangeOverlap.CheckPair | TZ.CountryAddress/PostCodeService.cs:3623-3714 | one pass of the pair loop: validate the other range, extract and parse, then compare; returns the pair outcome |
| RangeOverlap.CheckRangeOverlapWith | TZ.CountryAddress/PostCodeService.cs:3596-3721 | the private overload passes exactly when the current range validates and every non-excluded range of the list passes the pair test |
| RangeOverlap.CheckRangeOverlap | TZ.CountryAddress/PostCodeService.cs:184-208 | an empty list passes exactly for a known country; for a numeric rule and well-formed ranges, the check passes exactly when the ranges are pairwise disjoint |
| RangeOverlap.CheckRangeList | TZ.CountryAddress/PostCodeService.cs:194-207 | the loop over the list passes an empty list and, for well-formed numeric ranges, passes exactly when they are pairwise disjoint |
| OverlapScenarios.TwoRanges | TZ.CountryAddress/PostCodeService.cs:194-207 | a list of two valid ranges reports the first range's pair test if it fails, else the second's |
| OverlapScenarios.NestedRangeReportedFromInside | TZ.CountryAddress/PostCodeService.cs:3688-3698 | a range strictly inside another passes the pair test as the other's partner and fails it as current; the list is reported on its second pass |
| OverlapScenarios.UsShortStartPair | TZ.CountryAddress/PostCodeService.cs:3636-3641 | a US range with a start of one to four digits validates, since padding comes first, yet fails the pair test because the raw start does not match `^[0-9]{5}` |
| OverlapScenarios.UsShortStartRejected | TZ.CountryAddress/PostCodeService.cs:184-208 | so a US list of two digit ranges that starts with such a range fails on the first pass with a start mismatch, even when the ranges are disjoint |
| OverlapScenarios.IrelandEveryRangeValid | TZ.CountryAddress/PostCodeService.cs:1220 | the Irish rule validates every range: its range regex is empty and it checks no order |
| OverlapScenarios.IrelandPair | TZ.CountryAddress/PostCodeService.cs:3703-3714 | an Irish pair test passes exactly when the two ranges share no endpoint string |
| OverlapScenarios.IrelandOverlapIsSharedEndpoint | TZ.CountryAddress/PostCodeService.cs:184-208 | two Irish ranges pass the overlap check exactly when their endpoint strings are distinct, even when one lies inside the other |
| PostCodeScenarios.UsPatternOnDigits | TZ.CountryAddress/PostCodeService.cs:227 | the US regex matches five digits, and five digits, a dash and four digits; it matches no run of digits of any other length |
| PostCodeScenarios.UsFiveDigitsAccepted | TZ.CountryAddress/PostCodeService.cs:227-228 | five digits pass the US format check |
| PostCodeScenarios.UsZipPlusFourAccepted | TZ.CountryAddress/PostCodeService.cs:227-228 | five digits, a dash and four digits pass the US format check |
| PostCodeScenarios.UsOtherDigitRunsRejected | TZ.CountryAddress/PostCodeService.cs:3494-3498 | a run of digits of any length other than five fails the US format check with the rule's description |
| PostCodeScenarios.LowerCaseCountryCode | TZ.CountryAddress/PostCodeService.cs:25 | "us" gets the US regex from GetPostCodeRegex, which upper-cases, but fails CheckPostCodeFormat, which does not |
| PostCodeScenarios.BelizeHasNoFormat | TZ.CountryAddress/PostCodeService.cs:291 | Belize has no regex: GetPostCodeRegex fails with its description, and the format check fails whatever the code |
| PostCodeScenarios.UsDigitsNormalize | TZ.CountryAddress/PostCodeService.cs:3524-3537 | a US code of one to five digits is padded to five, which the range regex extracts whole; both the padded and the raw code parse to its value |
| PostCodeScenarios.UsDigitsRange | TZ.CountryAddress/PostCodeService.cs:3515-3593 | under the US rule, a range of one- to five-digit bounds is valid exactly when start <= end, and otherwise fails as start after end |
| PostCodeScenarios.UsDigitsInRange | TZ.CountryAddress/PostCodeService.cs:114-146 | under the US rule with digit bounds and code, containment is integer comparison of the values as written, e.g. "1234" in "1000"-"2000" passes and "12345" in "50000"-"99999" fails below the start |
| PostCodeScenarios.DemoUsRegex | Demo/Program.cs:127 | GetPostCodeRegex("US") hands back the US regex and description |
| PostCodeScenarios.HaitiPrefixedExtract | TZ.CountryAddress/PostCodeService.cs:412 | "HT" followed by four digits is kept by normalisation; the range regex extracts the four digits, which parse, while the whole code does not |
| PostCodeScenarios.HaitiPrefixedRangeValid | TZ.CountryAddress/PostCodeService.cs:3552-3587 | an ordered range of "HT"-prefixed bounds is valid |
| PostCodeScenarios.HaitiPrefixedStartNotParsed | TZ.CountryAddress/PostCodeService.cs:116-120 | yet containment under such a range always fails to parse the start as written |
| PostCodeScenarios.TenDigitsOverflow | TZ.CountryAddress/PostCodeService.cs:3568-3572 | ten digits from "3000000000" on do not parse as an int |
| PostCodeScenarios.IranOverflowingStart | TZ.CountryAddress/PostCodeService.cs:3568-3572 | an Iranian range whose ten-digit start is "3000000000" or more fails as "start not a number" |
| PostCodeScenarios.GbFixSpaceFree | TZ.CountryAddress/PostCodeService.cs:1203-1204 | the GB fix of a space-free code of five or more characters puts one space before its last three |
| PostCodeScenarios.UnitedKingdomShapeMatches | TZ.CountryAddress/PostCodeService.cs:1186 | two to four letters or digits, a space and three more match the GB range regex whole |
| PostCodeScenarios.UnitedKingdomNormalize | TZ.CountryAddress/PostCodeService.cs:1190-1207 | such a code written without its space is fixed to the spaced form, which the range regex matches |
| PostCodeScenarios.UnitedKingdomRangeValid | TZ.CountryAddress/PostCodeService.cs:3515-3593 | GB bounds of that shape make a valid range whatever their order |
| PostCodeScenarios.UnitedKingdomComparesRawBounds | TZ.CountryAddress/PostCodeService.cs:171-179 | with the fix, containment compares the fixed code with the bounds as written, not with the fixed bounds, as in the demo call ("S109EE", "S129EE", "S119EE") |
| PostCodeScenarios.UnitedKingdomBlankBoundThrows | TZ.CountryAddress/PostCodeService.cs:1203-1204 | a GB start bound of five or more characters but fewer than three non-spaces makes the containment call throw |
| PostCodeScenarios.UnitedKingdomUnfixedCompare | TZ.CountryAddress/PostCodeService.cs:171-179 | without the fix, GB codes already in the spaced form are compared as written |
| PostCodeScenarios.UnitedKingdomOneDigitCompare | TZ.CountryAddress/PostCodeService.cs:171-179 | the same for bounds and a code that differ in one digit only |
| PostCodeScenarios.OneDigitAfterEnd | TZ.CountryAddress/PostCodeService.cs:171-179 | such a code, with a digit two or more above the end's, passes the test as written and fails the intended one |
| PostCodeScenarios.UnitedKingdomAboveEndPasses | TZ.CountryAddress/PostCodeService.cs:171-179 | GB containment as written accepts "S15 9EE"-shaped codes after the end of "S10 9EE"-"S12 9EE"-shaped ranges |
| PostCodeScenarios.UnitedKingdomAboveEndRejected | TZ.CountryAddress/PostCodeService.cs:171-179 | the intended containment check rejects the same code as not in range |
| ProvinceService.CheckSameProvinceStr | TZ.CountryAddress/ProvinceService.cs:76-93 | two empty strings agree, an empty and a non-empty one never do, and two non-empty strings agree exactly when they are equal after removing every U+0020 and upper-casing |
| ProvinceService.SameProvinceReflexive | TZ.CountryAddress/ProvinceService.cs:76-93 | every string agrees with itself |
| ProvinceService.SameProvinceSymmetric | TZ.CountryAddress/ProvinceService.cs:76-93 | agreement is symmetric |
| ProvinceService.SameProvinceIgnoresCaseAndSpaces | TZ.CountryAddress/ProvinceService.cs:87-92 | two strings equally empty, with the same upper-cased space-free form, agree with the same strings |
| ProvinceService.SameProvinceIgnoresCase | TZ.CountryAddress/ProvinceService.cs:89-90 | upper-casing a string never changes the comparison |
| ProvinceService.SameProvinceIgnoresSpace | TZ.CountryAddress/ProvinceService.cs:89-90 | inserting a space anywhere into a non-empty string never changes the comparison |
| ProvinceService.TabIsNotASpace | TZ.CountryAddress/ProvinceService.cs:89-90 | only U+0020 is removed: a tab where the other string has a space makes them differ |
| ProvinceService.DifferentCharNoMatch | TZ.CountryAddress/ProvinceService.cs:87-92 | strings without spaces up to a position, which differ there even ignoring case, never agree |
| ProvinceService.FirstMatch | TZ.CountryAddress/ProvinceService.cs:58-63 | the record found is in the list and matches the query by code, English name or Chinese name; none is found exactly when no record matches |
| ProvinceService.FirstMatchIsFirst | TZ.CountryAddress/ProvinceService.cs:58-63 | the record found is the matching one with the smallest index |
| ProvinceService.InitProvinceInfosByCountry | TZ.CountryAddress/ProvinceService.cs:97-695 | only "US" has records (ten of them here), each with a non-empty code and names |
| ProvinceService.ProvinceService.constructor | TZ.CountryAddress/ProvinceService.cs:16-19 | the cache then holds exactly the "US" list |
| ProvinceService.ProvinceService.GetProvinceInfosByCountry | TZ.CountryAddress/ProvinceService.cs:21-28 | a list is found exactly for "US", case-sensitively, and it is the US records |
| ProvinceService.ProvinceService.GetProvinceInfo | TZ.CountryAddress/ProvinceService.cs:47-74 | no data exactly when the country has no list or an empty one; "not found", naming the query, exactly when no record of a non-empty list matches; otherwise a matching record of the list; every country but "US" has no data |
| ProvinceService.ProvinceService.CheckProvince | TZ.CountryAddress/ProvinceService.cs:31-44 | succeeds exactly when GetProvinceInfo does, and otherwise passes its error on |
| ProvinceService.RecordDiffersAt | TZ.CountryAddress/ProvinceService.cs:58-63 | a record whose code and two names all differ from the query at one position, with no spaces before it, does not match |
| ProvinceService.FoundAt | TZ.CountryAddress/ProvinceService.cs:58-63 | on a fresh service, a US query finds the first record it matches |
| ProvinceService.FoundNewYork | TZ.CountryAddress/ProvinceService.cs:430-438 | a query starting with N that matches New York finds New York |
| ProvinceService.NewYorkByCode | TZ.CountryAddress/ProvinceService.cs:433 | "NY" finds New York |
| ProvinceService.NewYorkByName | TZ.CountryAddress/ProvinceService.cs:434 | "New York" finds New York |
| ProvinceService.NewYorkByLowerCaseName | TZ.CountryAddress/ProvinceService.cs:434 | "new york" finds New York |
| ProvinceService.FoundArmedForcesAfrica | TZ.CountryAddress/ProvinceService.cs:646-654 | such a query, matching Armed Forces Africa, finds it |
| ProvinceService.DuplicateCodeResolvesToFirst | TZ.CountryAddress/ProvinceService.cs:646-681 | "AE", the code of four records, always finds the first of them, Armed Forces Africa |
| ProvinceService.LowerCaseCountryHasNoData | TZ.CountryAddress/ProvinceService.cs:21-28 | the cache key is case-sensitive: a province check for "us" fails with no data |

## Left out

- The rule table has about two hundred rule literals. Eleven are transcribed: US, CA, MX, BZ, HT, BR, GF, GB, IE, IR and BH. Every other country code finds no rule here, where the full table would find one.
- The province table has more than sixty US records. Ten are kept: Alabama, Alaska, California, New York and the six Armed Forces records, in source order. The New York and Armed Forces lookups are proved over this subset only.
- There is no regular-expression engine. Each pattern used by the transcribed rules is a constructor with its own matcher. .NET's `$`, which also matches before a final newline, is taken to match only at the end.
- `int.TryParse` accepts only unsigned ASCII digit runs. Leading or trailing whitespace, signs and culture-specific digits are not modelled. The Int32 overflow bound is kept.
- `ToUpper` and the ignore-case comparison are restricted to ASCII. The comparison returns the difference of the upper-cased code units at the first mismatch, or the difference of the lengths.
- A null string is written `""` wherever the source treats null and empty alike. A null rule exists only in `CheckPostCodeFormatByRule`, which takes an `Option`. The null-rule guards of `CheckPostCodeRangeByRule` and of the private `CheckRangeOverlap` are left out, because no public caller reaches them.
- The province cache is a `ConcurrentDictionary` shared by every instance. Here it is one field of the service object. Concurrent access and the insert-if-absent of later constructors are not modelled.
- Message texts are replaced by one error constructor per failure site. The texts that name a range or a query keep that range or query as arguments.
- `Format`, `CountryCnName`, `NoPostCode`, `ProvinceLocalName` and the alias list are carried in the records but never read, as in the source.
- `LeftPaddingChar` is written `""` for null, since the code only asks `IsNullOrEmpty` of it.
- The concrete calls of the demo program are stated over every digit string or code of the same shape, not on the literals themselves.
- The console output of the demo program is not part of this model.
- `["0-9999", "10000-19999"]` under a five-digit rule fails the overlap check: the pair test extracts the raw start "0" with `^[0-9]{5}`, which does not match, although range validation pads it first. `OverlapScenarios.UsShortStartRejected` states the failure.

## Findings

| source | as written | input that shows it | evidently intended | confidence | as-written member | corrected member |
|---|---|---|---|---|---|---|
| TZ.CountryAddress/PostCodeService.cs:171-179 | a non-numeric code is rejected only when `string.Compare(..., OrdinalIgnoreCase)` returns exactly -1, though the comparison returns the difference of the first differing code units | `CheckPostCodeInRange("GB", "S10 9EE", "S12 9EE", "S15 9EE", false)` passes: the end compared with the code yields '2' - '5' = -3 | reject when either comparison is negative (`< 0`) | not executed | PostCodeScenarios.UnitedKingdomAboveEndPasses | PostCodeService.IntendedNonNumericContainment |
