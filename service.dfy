/**
 * PostCodeService: the format check, the normalisation of codes and range bounds (left padding,
 * then the optional fix function), the validation of a [start, end] range and the containment
 * check of a code in a range.
 *
 * Every public operation returns a success flag and a message; here an Outcome says which
 * failure site fired. `Thrown` stands for an exception escaping the call, which only the GB fix
 * function can raise.
 */
module PostCodeService {
  import opened Wrappers
  import opened AsciiText
  import opened Patterns
  import opened PostCodeRules

  /** PostCodeRangeModel: a start and an end code, both as the caller wrote them. */
  datatype PostCodeRange = PostCodeRange(startPostCode: string, endPostCode: string)

  /** One constructor per failure site. */
  datatype Error =
      // GetPostCodeRegex
    | CountryCodeEmpty
    | NoRegexForCountry(countryCode: string)
    | NoPostCodeFormat(countryCode: string, explanation: string)
      // CheckPostCodeFormat and CheckRangeOverlap: no rule for the country
    | NoRuleMatched
      // CheckPostCodeInRange: no rule for the country
    | NoRuleFound
      // CheckPostCodeFormatByRule
    | RuleMissing
    | RegexEmpty
    | FormatMismatch(description: string)
      // CheckPostCodeRangeByRule
    | StartRangeMismatch(description: string)
    | EndRangeMismatch(description: string)
    | StartNotNumber
    | EndNotNumber
    | StartAfterEnd
      // CheckPostCodeInRange
    | CodeRangeMismatch(description: string)
    | StartParseFailed
    | EndParseFailed
    | CodeParseFailed
    | BelowStart
    | AboveEnd
    | NotInRange
      // CheckRangeOverlap
    | RangeInvalid(range: PostCodeRange, cause: Error)
    | CurrentStartMismatch(range: PostCodeRange)
    | CurrentEndMismatch(range: PostCodeRange)
    | CurrentStartNotNumber(range: PostCodeRange)
    | CurrentEndNotNumber(range: PostCodeRange)
    | OtherStartMismatch(range: PostCodeRange)
    | OtherEndMismatch(range: PostCodeRange)
    | OtherStartNotNumber(range: PostCodeRange)
    | OtherEndNotNumber(range: PostCodeRange)
    | Overlap(range: PostCodeRange, other: PostCodeRange)

  /** The (success, msg) tuple of an operation, or an exception escaping it. */
  datatype Outcome = Pass | Fail(error: Error) | Thrown

  /** The regex and description GetPostCodeRegex hands back on success. */
  datatype RegexInfo = RegexInfo(regex: Pattern, description: string)

  // ---------------------------------------------------------------------------------------------
  // Format

  /**
   * GetPostCodeRegex: the country code is upper-cased before the rule lookup; an empty code,
   * an unknown country and a rule without a regex each fail.
   */
  function GetPostCodeRegex(countryCode: string): (r: Result<RegexInfo, Error>)
    ensures countryCode == [] ==> r == Failure(CountryCodeEmpty)
    ensures r == Failure(NoRegexForCountry(countryCode)) <==>
              countryCode != [] && ToUpper(countryCode) !in TranscribedCountries
    ensures countryCode != [] && ToUpper(countryCode) in TranscribedCountries ==>
              var rule := GetPostCodeRule(ToUpper(countryCode)).value;
              && (rule.regex != Empty ==> r == Success(RegexInfo(rule.regex, rule.description)))
              && (rule.regex == Empty ==>
                    r == Failure(NoPostCodeFormat(countryCode,
                                                  if rule.description == [] then "没有邮编" else rule.description)))
  {
    if countryCode == [] then Failure(CountryCodeEmpty)
    else
      var rule := GetPostCodeRule(ToUpper(countryCode));
      if rule.None? then Failure(NoRegexForCountry(countryCode))
      else if rule.value.regex == Empty then
        Failure(NoPostCodeFormat(countryCode,
                                 if rule.value.description == [] then "没有邮编" else rule.value.description))
      else Success(RegexInfo(rule.value.regex, rule.value.description))
  }

  /**
   * CheckPostCodeFormatByRule: a missing rule or an empty regex fails whatever the code;
   * otherwise the check passes exactly when the regex matches the code.
   */
  function CheckPostCodeFormatByRule(rule: Option<Rule>, postCode: string): (r: Outcome)
    ensures rule.None? ==> r == Fail(RuleMissing)
    ensures rule.Some? && rule.value.regex == Empty ==> r == Fail(RegexEmpty)
    ensures rule.Some? && rule.value.regex != Empty ==>
              (r == Pass <==> IsMatch(rule.value.regex, postCode)) &&
              (r != Pass ==> r == Fail(FormatMismatch(rule.value.description)))
  {
    if rule.None? then Fail(RuleMissing)
    else if rule.value.regex == Empty then Fail(RegexEmpty)
    else if !IsMatch(rule.value.regex, postCode) then Fail(FormatMismatch(rule.value.description))
    else Pass
  }

  /** CheckPostCodeFormat: the country code is looked up as given (not upper-cased). */
  function CheckPostCodeFormat(countryCode: string, postCode: string): (r: Outcome)
    ensures countryCode !in TranscribedCountries ==> r == Fail(NoRuleMatched)
    ensures countryCode in TranscribedCountries ==>
              r == CheckPostCodeFormatByRule(GetPostCodeRule(countryCode), postCode)
  {
    var rule := GetPostCodeRule(countryCode);
    if rule.None? then Fail(NoRuleMatched) else CheckPostCodeFormatByRule(rule, postCode)
  }

  // ---------------------------------------------------------------------------------------------
  // Normalisation

  /** Whether a code is short enough to be padded: shorter than a non-null MinLenght. */
  predicate ShorterThanMin(rule: Rule, code: string)
  {
    rule.minLength.Some? && |code| < rule.minLength.value
  }

  /**
   * The left padding applied to a code or bound before any range work: pad characters followed
   * by the original, exactly MinLenght long, when the rule pads and the code is short; otherwise
   * the code unchanged.
   */
  function PadCode(rule: Rule, code: string): (r: string)
    ensures PadsShortCodes(rule) && ShorterThanMin(rule, code) ==>
              |r| == rule.minLength.value && r[|r| - |code|..] == code &&
              forall i :: 0 <= i < |r| - |code| ==> r[i] == rule.leftPaddingChar[0]
    ensures !(PadsShortCodes(rule) && ShorterThanMin(rule, code)) ==> r == code
  {
    if PadsShortCodes(rule) && ShorterThanMin(rule, code) then
      PadLeft(code, rule.minLength.value as nat, rule.leftPaddingChar[0])
    else code
  }

  /** Padding twice is padding once. */
  lemma PadCodeIdempotent(rule: Rule, code: string)
    ensures PadCode(rule, PadCode(rule, code)) == PadCode(rule, code)
  {
  }

  /**
   * Pad, then, when asked to and the rule has one, apply the fix function, keeping its result only
   * when it succeeds. None: the fix function threw.
   */
  function NormalizeCode(rule: Rule, code: string, isFixFormat: bool): (r: Option<string>)
    ensures r.None? <==>
              isFixFormat && rule.fixFormat != NoFix && ApplyFix(rule.fixFormat, PadCode(rule, code)) == FixThrows
    ensures !(isFixFormat && rule.fixFormat != NoFix) ==> r == Some(PadCode(rule, code))
    ensures isFixFormat && rule.fixFormat != NoFix && ApplyFix(rule.fixFormat, PadCode(rule, code)).Fixed? ==>
              r == Some(ApplyFix(rule.fixFormat, PadCode(rule, code)).code)
    ensures isFixFormat && rule.fixFormat != NoFix && ApplyFix(rule.fixFormat, PadCode(rule, code)).NotFixed? ==>
              r == Some(PadCode(rule, code))
  {
    var padded := PadCode(rule, code);
    if isFixFormat && rule.fixFormat != NoFix then
      match ApplyFix(rule.fixFormat, padded)
      case Fixed(fixed) => Some(fixed)
      case NotFixed(_) => Some(padded)
      case FixThrows => None
    else Some(padded)
  }

  /** Normalising a padded code is normalising the code. */
  lemma NormalizeAfterPad(rule: Rule, code: string, isFixFormat: bool)
    ensures NormalizeCode(rule, PadCode(rule, code), isFixFormat) == NormalizeCode(rule, code, isFixFormat)
  {
    PadCodeIdempotent(rule, code);
  }

  /** For a rule of the table's shape, normalising a normalised code changes nothing. */
  lemma NormalizeIdempotent(rule: Rule, code: string, isFixFormat: bool)
    requires WellFormed(rule)
    requires NormalizeCode(rule, code, isFixFormat).Some?
    ensures var n := NormalizeCode(rule, code, isFixFormat).value;
            NormalizeCode(rule, n, isFixFormat) == Some(n)
  {
    var n := NormalizeCode(rule, code, isFixFormat).value;
    if isFixFormat && rule.fixFormat != NoFix {
      assert PadCode(rule, code) == code && PadCode(rule, n) == n;
      match GbFixFormat(code)
      case Fixed(fixed) =>
        if |RemoveSpaces(code)| >= 4 {
          GbFixFormatIdempotent(code);
        } else {
          assert GbFixFormat(n) == NotFixed(CodeTooShort);
        }
      case NotFixed(_) =>
      case FixThrows =>
    } else {
      PadCodeIdempotent(rule, code);
    }
  }

  // ---------------------------------------------------------------------------------------------
  // Range validation

  /**
   * What CheckPostCodeRangeByRule returns: both bounds normalised, then each extracted with the
   * range regex (start first); a numeric rule also parses both and rejects start > end.
   */
  function RangeOutcome(rule: Rule, startPostCode: string, endPostCode: string, isFixFormat: bool): Outcome
  {
    var start := NormalizeCode(rule, startPostCode, isFixFormat);
    var end := NormalizeCode(rule, endPostCode, isFixFormat);
    if start.None? || end.None? then Thrown
    else
      var startValue := Extract(rule.rangeRegex, start.value);
      var endValue := Extract(rule.rangeRegex, end.value);
      if startValue.None? then Fail(StartRangeMismatch(rule.description))
      else if endValue.None? then Fail(EndRangeMismatch(rule.description))
      else if !rule.rangeIsNumber then Pass
      else
        var startNumber := TryParseInt(startValue.value);
        var endNumber := TryParseInt(endValue.value);
        if startNumber.None? then Fail(StartNotNumber)
        else if endNumber.None? then Fail(EndNotNumber)
        else if startNumber.value > endNumber.value then Fail(StartAfterEnd)
        else Pass
  }

  /** The value a bound contributes to a range check: normalised, extracted, parsed when numeric. */
  function BoundNumber(rule: Rule, bound: string, isFixFormat: bool): Option<int>
  {
    var n := NormalizeCode(rule, bound, isFixFormat);
    if n.None? || Extract(rule.rangeRegex, n.value).None? then None
    else TryParseInt(Extract(rule.rangeRegex, n.value).value)
  }

  /**
   * A non-numeric rule checks no order at all: the range is valid as soon as both normalised
   * bounds match the range regex.
   */
  lemma NonNumericRangeUnordered(rule: Rule, startPostCode: string, endPostCode: string, isFixFormat: bool)
    requires !rule.rangeIsNumber
    ensures RangeOutcome(rule, startPostCode, endPostCode, isFixFormat) == Pass <==>
              && NormalizeCode(rule, startPostCode, isFixFormat).Some?
              && NormalizeCode(rule, endPostCode, isFixFormat).Some?
              && IsMatch(rule.rangeRegex, NormalizeCode(rule, startPostCode, isFixFormat).value)
              && IsMatch(rule.rangeRegex, NormalizeCode(rule, endPostCode, isFixFormat).value)
    ensures RangeOutcome(rule, startPostCode, endPostCode, isFixFormat) == Pass <==>
              RangeOutcome(rule, endPostCode, startPostCode, isFixFormat) == Pass
  {
  }

  /**
   * For a numeric rule of the table's shape the range is valid exactly when both bounds extract
   * to numbers with start <= end, and a parse fails only when an extracted value overflows an int.
   */
  lemma NumericRangeExact(rule: Rule, startPostCode: string, endPostCode: string, isFixFormat: bool)
    requires WellFormed(rule) && rule.rangeIsNumber
    ensures RangeOutcome(rule, startPostCode, endPostCode, isFixFormat) == Pass <==>
              && BoundNumber(rule, startPostCode, isFixFormat).Some?
              && BoundNumber(rule, endPostCode, isFixFormat).Some?
              && BoundNumber(rule, startPostCode, isFixFormat).value <= BoundNumber(rule, endPostCode, isFixFormat).value
    ensures RangeOutcome(rule, startPostCode, endPostCode, isFixFormat) == Fail(StartNotNumber) ==>
              var v := Extract(rule.rangeRegex, NormalizeCode(rule, startPostCode, isFixFormat).value).value;
              AllDigits(v) && DigitsValue(v) > IntMax
    ensures RangeOutcome(rule, startPostCode, endPostCode, isFixFormat) == Fail(EndNotNumber) ==>
              var v := Extract(rule.rangeRegex, NormalizeCode(rule, endPostCode, isFixFormat).value).value;
              AllDigits(v) && DigitsValue(v) > IntMax
  {
    var start := NormalizeCode(rule, startPostCode, isFixFormat);
    var end := NormalizeCode(rule, endPostCode, isFixFormat);
    if start.Some? && IsMatch(rule.rangeRegex, start.value) {
      NumericExtractParses(rule.rangeRegex, start.value);
    }
    if end.Some? && IsMatch(rule.rangeRegex, end.value) {
      NumericExtractParses(rule.rangeRegex, end.value);
    }
  }

  /** A numeric range rejected only because start > end becomes valid once its bounds are swapped. */
  lemma SwappedRangeValid(rule: Rule, startPostCode: string, endPostCode: string, isFixFormat: bool)
    requires rule.rangeIsNumber
    requires RangeOutcome(rule, startPostCode, endPostCode, isFixFormat) == Fail(StartAfterEnd)
    ensures RangeOutcome(rule, endPostCode, startPostCode, isFixFormat) == Pass
  {
  }

  /**
   * CheckPostCodeRangeByRule, step by step as the source reassigns the bounds: pad both, fix
   * both, then extract, parse and compare.
   */
  method CheckPostCodeRangeByRule(rule: Rule, startPostCode: string, endPostCode: string, isFixFormat: bool)
    returns (r: Outcome)
    ensures r == RangeOutcome(rule, startPostCode, endPostCode, isFixFormat)
  {
    var start, end := startPostCode, endPostCode;
    if rule.rangeIsNumber && |rule.leftPaddingChar| == 1 {
      if ShorterThanMin(rule, start) {
        start := PadLeft(start, rule.minLength.value as nat, rule.leftPaddingChar[0]);
      }
      if ShorterThanMin(rule, end) {
        end := PadLeft(end, rule.minLength.value as nat, rule.leftPaddingChar[0]);
      }
    }
    assert start == PadCode(rule, startPostCode) && end == PadCode(rule, endPostCode);
    if isFixFormat && rule.fixFormat != NoFix {
      var startFix := ApplyFix(rule.fixFormat, start);
      if startFix.FixThrows? {
        return Thrown;
      }
      if startFix.Fixed? {
        start := startFix.code;
      }
      var endFix := ApplyFix(rule.fixFormat, end);
      if endFix.FixThrows? {
        return Thrown;
      }
      if endFix.Fixed? {
        end := endFix.code;
      }
    }
    assert NormalizeCode(rule, startPostCode, isFixFormat) == Some(start);
    assert NormalizeCode(rule, endPostCode, isFixFormat) == Some(end);
    var startMatch := Extract(rule.rangeRegex, start);
    if startMatch.None? {
      return Fail(StartRangeMismatch(rule.description));
    }
    var endMatch := Extract(rule.rangeRegex, end);
    if endMatch.None? {
      return Fail(EndRangeMismatch(rule.description));
    }
    if rule.rangeIsNumber {
      var startNumber := TryParseInt(startMatch.value);
      if startNumber.None? {
        return Fail(StartNotNumber);
      }
      var endNumber := TryParseInt(endMatch.value);
      if endNumber.None? {
        return Fail(EndNotNumber);
      }
      if startNumber.value > endNumber.value {
        return Fail(StartAfterEnd);
      }
      return Pass;
    }
    return Pass;
  }

  // ---------------------------------------------------------------------------------------------
  // Containment

  /**
   * The non-numeric containment test as CheckPostCodeInRange writes it: the code fails only when
   * an ignore-case comparison of it with the start, or of the end with it, yields exactly -1.
   */
  predicate AsWrittenWithin(startPostCode: string, endPostCode: string, code: string)
  {
    !(CompareOrdinalIgnoreCase(code, startPostCode) == -1 || CompareOrdinalIgnoreCase(endPostCode, code) == -1)
  }

  /**
   * What CheckPostCodeInRange returns once the rule is known: the range must be valid and the
   * normalised code must match the range regex. A numeric rule then compares the code's value
   * with int.TryParse of the RAW bounds; a non-numeric rule compares the normalised code with
   * the raw bounds by ordinal ignore-case comparison and fails only on a result of exactly -1.
   */
  function InRangeOutcome(rule: Rule, startPostCode: string, endPostCode: string, postCode: string,
                          isFixFormat: bool): Outcome
  {
    var range := RangeOutcome(rule, startPostCode, endPostCode, isFixFormat);
    if range != Pass then range
    else
      var code := NormalizeCode(rule, postCode, isFixFormat);
      if code.None? then Thrown
      else if Extract(rule.rangeRegex, code.value).None? then Fail(CodeRangeMismatch(rule.description))
      else if rule.rangeIsNumber then
        var startNumber := TryParseInt(startPostCode);
        var endNumber := TryParseInt(endPostCode);
        var codeNumber := TryParseInt(Extract(rule.rangeRegex, code.value).value);
        if startNumber.None? then Fail(StartParseFailed)
        else if endNumber.None? then Fail(EndParseFailed)
        else if codeNumber.None? then Fail(CodeParseFailed)
        else if codeNumber.value < startNumber.value then Fail(BelowStart)
        else if codeNumber.value > endNumber.value then Fail(AboveEnd)
        else Pass
      else if !AsWrittenWithin(startPostCode, endPostCode, code.value) then Fail(NotInRange)
      else Pass
  }

  /**
   * The non-numeric containment test as its messages describe it: the code is neither before the
   * start nor after the end, ignoring case. CheckPostCodeInRange instead rejects only a comparison
   * result of exactly -1, so a code whose first differing character is two or more code units
   * away from the bound's passes on that side (see AsWrittenAdmitsCodeAfterEnd).
   */
  function WithinIgnoreCase(startPostCode: string, endPostCode: string, code: string): (r: bool)
    ensures r <==> !LexLess(ToUpper(code), ToUpper(startPostCode)) && !LexLess(ToUpper(endPostCode), ToUpper(code))
  {
    CompareSignIsLexOrder(code, startPostCode);
    CompareSignIsLexOrder(endPostCode, code);
    CompareOrdinalIgnoreCase(code, startPostCode) >= 0 && CompareOrdinalIgnoreCase(endPostCode, code) >= 0
  }

  /** Every code inside the range in ignore-case order passes the test as written; the converse fails. */
  lemma WithinPassesAsWritten(startPostCode: string, endPostCode: string, code: string)
    requires WithinIgnoreCase(startPostCode, endPostCode, code)
    ensures AsWrittenWithin(startPostCode, endPostCode, code)
  {
  }

  /**
   * Codes that agree with both bounds except in one digit, two or more above the end's digit,
   * lie after the end and pass the test as written: "S15 9EE" against "S10 9EE" to "S12 9EE",
   * where the comparison with the end yields -3.
   */
  lemma AsWrittenAdmitsCodeAfterEnd(head: string, low: char, high: char, over: char, tail: string)
    requires IsDigit(low) && IsDigit(high) && IsDigit(over)
    requires low <= high && high as int + 2 <= over as int
    ensures var start, end, code := head + [low] + tail, head + [high] + tail, head + [over] + tail;
            AsWrittenWithin(start, end, code) && !WithinIgnoreCase(start, end, code) &&
            LexLess(ToUpper(end), ToUpper(code))
  {
    var start, end, code := head + [low] + tail, head + [high] + tail, head + [over] + tail;
    DigitsApart(head, over, low, tail);
    DigitsApart(head, high, over, tail);
    CompareSignIsLexOrder(end, code);
  }

  /** Strings that agree except in one digit compare by the difference of those digits. */
  lemma DigitsApart(head: string, d: char, e: char, tail: string)
    requires IsDigit(d) && IsDigit(e) && d != e
    ensures CompareOrdinalIgnoreCase(head + [d] + tail, head + [e] + tail) == d as int - e as int
  {
    assert head + [d] + tail == head + ([d] + tail);
    assert head + [e] + tail == head + ([e] + tail);
    CompareCommonPrefix(head, [d] + tail, [e] + tail);
  }

  /**
   * Under any non-numeric rule, once the range is valid and the normalised code matches the range
   * regex, the check as written compares the normalised code with the RAW bounds and rejects it
   * only on a comparison result of exactly -1.
   */
  lemma NonNumericContainmentAsWritten(rule: Rule, startPostCode: string, endPostCode: string, postCode: string,
                                       isFixFormat: bool)
    requires !rule.rangeIsNumber
    requires RangeOutcome(rule, startPostCode, endPostCode, isFixFormat) == Pass
    requires NormalizeCode(rule, postCode, isFixFormat).Some?
    requires IsMatch(rule.rangeRegex, NormalizeCode(rule, postCode, isFixFormat).value)
    ensures var code := NormalizeCode(rule, postCode, isFixFormat).value;
            InRangeOutcome(rule, startPostCode, endPostCode, postCode, isFixFormat) ==
              if CompareOrdinalIgnoreCase(code, startPostCode) == -1 || CompareOrdinalIgnoreCase(endPostCode, code) == -1
              then Fail(NotInRange) else Pass
  {
  }

  /**
   * The containment check with the evidently intended non-numeric test: everything as in
   * InRangeOutcome, except that a code passing the test as written must also lie between the
   * bounds in ignore-case order.
   */
  function IntendedInRangeOutcome(rule: Rule, startPostCode: string, endPostCode: string, postCode: string,
                                  isFixFormat: bool): Outcome
  {
    var asWritten := InRangeOutcome(rule, startPostCode, endPostCode, postCode, isFixFormat);
    if asWritten != Pass || rule.rangeIsNumber then asWritten
    else if WithinIgnoreCase(startPostCode, endPostCode, NormalizeCode(rule, postCode, isFixFormat).value) then Pass
    else Fail(NotInRange)
  }

  /**
   * Under a non-numeric rule, once the range is valid and the normalised code matches the range
   * regex, the intended check passes exactly when the code is neither before the start nor after
   * the end in ignore-case order, and fails as not in range otherwise. It never accepts a code
   * the check as written rejects.
   */
  lemma IntendedNonNumericContainment(rule: Rule, startPostCode: string, endPostCode: string, postCode: string,
                                      isFixFormat: bool)
    requires !rule.rangeIsNumber
    requires RangeOutcome(rule, startPostCode, endPostCode, isFixFormat) == Pass
    requires NormalizeCode(rule, postCode, isFixFormat).Some?
    requires IsMatch(rule.rangeRegex, NormalizeCode(rule, postCode, isFixFormat).value)
    ensures var code := ToUpper(NormalizeCode(rule, postCode, isFixFormat).value);
            IntendedInRangeOutcome(rule, startPostCode, endPostCode, postCode, isFixFormat) == Pass <==>
              !LexLess(code, ToUpper(startPostCode)) && !LexLess(ToUpper(endPostCode), code)
    ensures IntendedInRangeOutcome(rule, startPostCode, endPostCode, postCode, isFixFormat) != Pass ==>
              IntendedInRangeOutcome(rule, startPostCode, endPostCode, postCode, isFixFormat) == Fail(NotInRange)
    ensures IntendedInRangeOutcome(rule, startPostCode, endPostCode, postCode, isFixFormat) == Pass ==>
              InRangeOutcome(rule, startPostCode, endPostCode, postCode, isFixFormat) == Pass
  {
    var code := NormalizeCode(rule, postCode, isFixFormat).value;
    if WithinIgnoreCase(startPostCode, endPostCode, code) {
      WithinPassesAsWritten(startPostCode, endPostCode, code);
    }
  }

  /** The whole of CheckPostCodeInRange, country lookup included. */
  function CheckPostCodeInRangeOutcome(countryCode: string, startPostCode: string, endPostCode: string,
                                       postCode: string, isFixFormat: bool): Outcome
  {
    var rule := GetPostCodeRule(countryCode);
    if rule.None? then Fail(NoRuleFound)
    else InRangeOutcome(rule.value, startPostCode, endPostCode, postCode, isFixFormat)
  }

  /** An invalid range fails with the range's own error, whatever the code. */
  lemma InvalidRangeDecidesFirst(rule: Rule, startPostCode: string, endPostCode: string, postCode: string,
                                 isFixFormat: bool)
    requires RangeOutcome(rule, startPostCode, endPostCode, isFixFormat) != Pass
    ensures InRangeOutcome(rule, startPostCode, endPostCode, postCode, isFixFormat) ==
              RangeOutcome(rule, startPostCode, endPostCode, isFixFormat)
  {
  }

  /**
   * Numeric containment, once the range is valid, the code extracts and all three numbers parse:
   * below the start fails as such, above the end fails as such, and otherwise the code is in range.
   */
  lemma NumericInRangeExact(rule: Rule, startPostCode: string, endPostCode: string, postCode: string,
                            isFixFormat: bool)
    requires rule.rangeIsNumber
    requires RangeOutcome(rule, startPostCode, endPostCode, isFixFormat) == Pass
    requires NormalizeCode(rule, postCode, isFixFormat).Some?
    requires Extract(rule.rangeRegex, NormalizeCode(rule, postCode, isFixFormat).value).Some?
    requires TryParseInt(startPostCode).Some? && TryParseInt(endPostCode).Some?
    requires TryParseInt(Extract(rule.rangeRegex, NormalizeCode(rule, postCode, isFixFormat).value).value).Some?
    ensures var start, end := TryParseInt(startPostCode).value, TryParseInt(endPostCode).value;
            var code := TryParseInt(Extract(rule.rangeRegex, NormalizeCode(rule, postCode, isFixFormat).value).value).value;
            && (InRangeOutcome(rule, startPostCode, endPostCode, postCode, isFixFormat) == Fail(BelowStart) <==> code < start)
            && (InRangeOutcome(rule, startPostCode, endPostCode, postCode, isFixFormat) == Fail(AboveEnd) <==> start <= code && end < code)
            && (InRangeOutcome(rule, startPostCode, endPostCode, postCode, isFixFormat) == Pass <==> start <= code <= end)
  {
  }

  /** Under a rule that pads with '0', padding a non-empty bound changes nothing int.TryParse sees. */
  lemma TryParsePadded(rule: Rule, bound: string)
    requires WellFormed(rule) && bound != []
    ensures TryParseInt(PadCode(rule, bound)) == TryParseInt(bound)
  {
    var padded := PadCode(rule, bound);
    if padded != bound {
      var k := |padded| - |bound|;
      var zeros := padded[..k];
      assert padded == zeros + bound;
      assert forall i :: 0 <= i < |zeros| ==> zeros[i] == '0';
      if AllDigits(bound) {
        DigitsValueLeadingZeros(zeros, bound);
      } else {
        var j :| 0 <= j < |bound| && !IsDigit(bound[j]);
        assert padded[k + j] == bound[j];
      }
    }
  }

  /**
   * Already-padded inputs give the same outcome as unpadded ones, so long as neither bound is
   * empty: CheckPostCodeInRange("1000", "2000", "1500") agrees with ("01000", "02000", "01500").
   */
  lemma PaddedInputsSameOutcome(rule: Rule, startPostCode: string, endPostCode: string, postCode: string,
                                isFixFormat: bool)
    requires WellFormed(rule)
    requires startPostCode != [] && endPostCode != []
    ensures InRangeOutcome(rule, PadCode(rule, startPostCode), PadCode(rule, endPostCode), PadCode(rule, postCode), isFixFormat) ==
              InRangeOutcome(rule, startPostCode, endPostCode, postCode, isFixFormat)
  {
    NormalizeAfterPad(rule, startPostCode, isFixFormat);
    NormalizeAfterPad(rule, endPostCode, isFixFormat);
    NormalizeAfterPad(rule, postCode, isFixFormat);
    TryParsePadded(rule, startPostCode);
    TryParsePadded(rule, endPostCode);
  }

  /**
   * CheckPostCodeInRange: look up the rule, then check the code against the range under it.
   */
  method CheckPostCodeInRange(countryCode: string, startPostCode: string, endPostCode: string,
                              postCode: string, isFixFormat: bool)
    returns (r: Outcome)
    ensures r == CheckPostCodeInRangeOutcome(countryCode, startPostCode, endPostCode, postCode, isFixFormat)
  {
    var found := GetPostCodeRule(countryCode);
    if found.None? {
      return Fail(NoRuleFound);
    }
    r := CheckPostCodeInRangeByRule(found.value, startPostCode, endPostCode, postCode, isFixFormat);
  }

  /**
   * The body of CheckPostCodeInRange once the rule is found, step by step as the source reassigns
   * the code: check the range, pad and fix the code, extract, then compare.
   */
  method CheckPostCodeInRangeByRule(rule: Rule, startPostCode: string, endPostCode: string,
                                    postCode: string, isFixFormat: bool)
    returns (r: Outcome)
    ensures r == InRangeOutcome(rule, startPostCode, endPostCode, postCode, isFixFormat)
  {
    var rangeCheck := CheckPostCodeRangeByRule(rule, startPostCode, endPostCode, isFixFormat);
    if rangeCheck != Pass {
      return rangeCheck;
    }
    var code := postCode;
    if rule.rangeIsNumber && |rule.leftPaddingChar| == 1 {
      if ShorterThanMin(rule, code) {
        code := PadLeft(code, rule.minLength.value as nat, rule.leftPaddingChar[0]);
      }
    }
    assert code == PadCode(rule, postCode);
    if isFixFormat && rule.fixFormat != NoFix {
      var fix := ApplyFix(rule.fixFormat, code);
      if fix.FixThrows? {
        return Thrown;
      }
      if fix.Fixed? {
        code := fix.code;
      }
    }
    assert NormalizeCode(rule, postCode, isFixFormat) == Some(code);
    var codeMatch := Extract(rule.rangeRegex, code);
    if codeMatch.None? {
      return Fail(CodeRangeMismatch(rule.description));
    }
    if rule.rangeIsNumber {
      var startNumber := TryParseInt(startPostCode);
      if startNumber.None? {
        return Fail(StartParseFailed);
      }
      var endNumber := TryParseInt(endPostCode);
      if endNumber.None? {
        return Fail(EndParseFailed);
      }
      var codeNumber := TryParseInt(codeMatch.value);
      if codeNumber.None? {
        return Fail(CodeParseFailed);
      }
      if codeNumber.value < startNumber.value {
        return Fail(BelowStart);
      }
      if codeNumber.value > endNumber.value {
        return Fail(AboveEnd);
      }
      return Pass;
    }
    if CompareOrdinalIgnoreCase(code, startPostCode) == -1 || CompareOrdinalIgnoreCase(endPostCode, code) == -1 {
      return Fail(NotInRange);
    }
    return Pass;
  }
}
