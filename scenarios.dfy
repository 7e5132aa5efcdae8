/**
 * Concrete calls of the postcode service under the transcribed rules: the format examples, the
 * containment examples, the calls of the demo program, and the corner cases the rule shapes
 * create (raw bounds parsed after padded ones validated, an overflowing bound, a fix function that
 * throws, a case-sensitive rule lookup).
 */
module PostCodeScenarios {
  import opened Wrappers
  import opened AsciiText
  import opened Patterns
  import opened PostCodeRules
  import opened PostCodeService

  // ---------------------------------------------------------------------------------------------
  // Format

  /** CheckPostCodeFormat("US", ...) checks against the US rule. */
  lemma UsFormatLookup(postCode: string)
    ensures CheckPostCodeFormat("US", postCode) == CheckPostCodeFormatByRule(Some(UnitedStatesRule()), postCode)
  {
  }

  /** The US pattern matches five digits, or five digits, a dash and four digits, and no other digit run. */
  lemma UsPatternOnDigits(postCode: string)
    ensures |postCode| == 5 && AllDigits(postCode) ==> IsMatch(UnitedStatesRule().regex, postCode)
    ensures |postCode| == 10 && AllDigits(postCode[..5]) && postCode[5] == '-' && AllDigits(postCode[6..]) ==>
              IsMatch(UnitedStatesRule().regex, postCode)
    ensures |postCode| != 5 && AllDigits(postCode) ==> !IsMatch(UnitedStatesRule().regex, postCode)
  {
    if |postCode| == 10 && AllDigits(postCode) {
      assert !IsDigit('-');
    }
  }

  /** Five digits, such as "12345", are a US code. */
  lemma UsFiveDigitsAccepted(postCode: string)
    requires |postCode| == 5 && AllDigits(postCode)
    ensures CheckPostCodeFormat("US", postCode) == Pass
  {
    UsFormatLookup(postCode);
    UsPatternOnDigits(postCode);
  }

  /** Five digits, a dash and four digits, such as "12345-1234", are a US code. */
  lemma UsZipPlusFourAccepted(postCode: string)
    requires |postCode| == 10 && AllDigits(postCode[..5]) && postCode[5] == '-' && AllDigits(postCode[6..])
    ensures CheckPostCodeFormat("US", postCode) == Pass
  {
    UsFormatLookup(postCode);
    UsPatternOnDigits(postCode);
  }

  /** A run of digits of any other length than five, such as "1234" or "123456", is not. */
  lemma UsOtherDigitRunsRejected(postCode: string)
    requires |postCode| != 5 && AllDigits(postCode)
    ensures CheckPostCodeFormat("US", postCode) == Fail(FormatMismatch(UnitedStatesRule().description))
  {
    UsFormatLookup(postCode);
    UsPatternOnDigits(postCode);
  }

  /**
   * GetPostCodeRegex upper-cases the country code and CheckPostCodeFormat does not: "us" has a
   * regex but no format check.
   */
  lemma LowerCaseCountryCode(postCode: string)
    ensures GetPostCodeRegex("us") == Success(RegexInfo(UnitedStatesRule().regex, UnitedStatesRule().description))
    ensures CheckPostCodeFormat("us", postCode) == Fail(NoRuleMatched)
  {
    assert ToUpper("us") == "US";
    assert "us" !in TranscribedCountries;
  }

  /** Belize has no postcodes: its rule carries no regex. */
  lemma BelizeHasNoFormat(postCode: string)
    ensures GetPostCodeRegex("BZ") == Failure(NoPostCodeFormat("BZ", BelizeRule().description))
    ensures CheckPostCodeFormat("BZ", postCode) == Fail(RegexEmpty)
  {
    assert ToUpper("BZ") == "BZ";
    assert GetPostCodeRule("BZ") == Some(BelizeRule());
  }

  // ---------------------------------------------------------------------------------------------
  // Containment under the US rule. A bound or code of one to five digits is padded with zeros
  // to five, the range regex extracts all five, and the value is the one written: the check is
  // then plain integer comparison.

  /** A code of one to five digits, normalised under the US rule, extracts to its own value. */
  lemma UsDigitsNormalize(code: string, isFixFormat: bool)
    requires 1 <= |code| <= 5 && AllDigits(code)
    ensures NormalizeCode(UnitedStatesRule(), code, isFixFormat) == Some(PadCode(UnitedStatesRule(), code))
    ensures Extract(LeadingDigits(5), PadCode(UnitedStatesRule(), code)) == Some(PadCode(UnitedStatesRule(), code))
    ensures TryParseInt(PadCode(UnitedStatesRule(), code)) == Some(DigitsValue(code))
    ensures TryParseInt(code) == Some(DigitsValue(code))
  {
    var rule := UnitedStatesRule();
    var padded := PadCode(rule, code);
    var zeros := padded[..|padded| - |code|];
    assert padded == zeros + code;
    DigitsValueLeadingZeros(zeros, code);
    assert padded[..5] == padded;
    ShortDigitsParse(code);
    TryParsePadded(rule, code);
  }

  /** Under the US rule a range of digit bounds is valid exactly when start <= end. */
  lemma UsDigitsRange(startPostCode: string, endPostCode: string, isFixFormat: bool)
    requires 1 <= |startPostCode| <= 5 && AllDigits(startPostCode)
    requires 1 <= |endPostCode| <= 5 && AllDigits(endPostCode)
    ensures RangeOutcome(UnitedStatesRule(), startPostCode, endPostCode, isFixFormat) ==
              if DigitsValue(startPostCode) > DigitsValue(endPostCode) then Fail(StartAfterEnd) else Pass
  {
    UsDigitsNormalize(startPostCode, isFixFormat);
    UsDigitsNormalize(endPostCode, isFixFormat);
  }

  /**
   * Under the US rule, with digit bounds and a digit code, containment is integer comparison of
   * the values as written.
   */
  lemma UsDigitsInRange(startPostCode: string, endPostCode: string, postCode: string, isFixFormat: bool)
    requires 1 <= |startPostCode| <= 5 && AllDigits(startPostCode)
    requires 1 <= |endPostCode| <= 5 && AllDigits(endPostCode)
    requires 1 <= |postCode| <= 5 && AllDigits(postCode)
    ensures var start, end, code := DigitsValue(startPostCode), DigitsValue(endPostCode), DigitsValue(postCode);
            InRangeOutcome(UnitedStatesRule(), startPostCode, endPostCode, postCode, isFixFormat) ==
              if start > end then Fail(StartAfterEnd)
              else if code < start then Fail(BelowStart)
              else if code > end then Fail(AboveEnd)
              else Pass
  {
    UsDigitsRange(startPostCode, endPostCode, isFixFormat);
    UsDigitsNormalize(startPostCode, isFixFormat);
    UsDigitsNormalize(endPostCode, isFixFormat);
    UsDigitsNormalize(postCode, isFixFormat);
  }

  /** CheckPostCodeInRange("US", ...) runs under the US rule. */
  lemma UsLookup(startPostCode: string, endPostCode: string, postCode: string, isFixFormat: bool)
    ensures CheckPostCodeInRangeOutcome("US", startPostCode, endPostCode, postCode, isFixFormat) ==
              InRangeOutcome(UnitedStatesRule(), startPostCode, endPostCode, postCode, isFixFormat)
  {
  }

  // ---------------------------------------------------------------------------------------------
  // The demo program's calls.

  /** GetPostCodeRegex("US") hands back the US regex. */
  lemma DemoUsRegex()
    ensures GetPostCodeRegex("US") == Success(RegexInfo(UnitedStatesRule().regex, UnitedStatesRule().description))
  {
    assert ToUpper("US") == "US";
  }

  // ---------------------------------------------------------------------------------------------
  // Haiti: the bounds are validated through the range regex (the last four digits) but parsed
  // as written, so bounds carrying the "HT" prefix validate and then fail to parse.

  /** "HT" followed by four digits: the range regex extracts the four digits. */
  lemma HaitiPrefixedExtract(digits: string)
    requires |digits| == 4 && AllDigits(digits)
    ensures NormalizeCode(HaitiRule(), "HT" + digits, true) == Some("HT" + digits)
    ensures Extract(TrailingDigits(4), "HT" + digits) == Some(digits)
    ensures TryParseInt(digits) == Some(DigitsValue(digits))
    ensures TryParseInt("HT" + digits).None?
  {
    var code := "HT" + digits;
    assert code[|code| - 4..] == digits;
    assert AllDigits(code[|code| - 4..]);
    assert Match(TrailingDigits(4), code) == Some(Span(2, 4));
    assert code[2..2 + 4] == digits;
    assert !IsDigit(code[0]);
    ShortDigitsParse(digits);
  }

  /** An ordered range of "HT"-prefixed bounds is valid. */
  lemma HaitiPrefixedRangeValid(startDigits: string, endDigits: string)
    requires |startDigits| == 4 && AllDigits(startDigits)
    requires |endDigits| == 4 && AllDigits(endDigits)
    requires DigitsValue(startDigits) <= DigitsValue(endDigits)
    ensures RangeOutcome(HaitiRule(), "HT" + startDigits, "HT" + endDigits, true) == Pass
  {
    HaitiPrefixedExtract(startDigits);
    HaitiPrefixedExtract(endDigits);
  }

  /** Yet every containment check under such a range fails to parse the start as written. */
  lemma HaitiPrefixedStartNotParsed(startDigits: string, endDigits: string, codeDigits: string)
    requires |startDigits| == 4 && AllDigits(startDigits)
    requires |endDigits| == 4 && AllDigits(endDigits)
    requires |codeDigits| == 4 && AllDigits(codeDigits)
    requires DigitsValue(startDigits) <= DigitsValue(endDigits)
    ensures InRangeOutcome(HaitiRule(), "HT" + startDigits, "HT" + endDigits, "HT" + codeDigits, true) ==
              Fail(StartParseFailed)
  {
    HaitiPrefixedRangeValid(startDigits, endDigits);
    HaitiPrefixedExtract(startDigits);
    HaitiPrefixedExtract(codeDigits);
  }

  // ---------------------------------------------------------------------------------------------
  // Iran: ten digits can exceed Int32.MaxValue, and int.TryParse then fails.

  /** A digit string that starts with 3 or more is worth at least three times its leading power of ten. */
  lemma {:induction false} LeadingDigitBound(s: string)
    requires |s| >= 1 && AllDigits(s) && s[0] >= '3'
    ensures DigitsValue(s) >= 3 * Pow10(|s| - 1)
    decreases |s|
  {
    if |s| > 1 {
      var prefix := s[..|s| - 1];
      assert prefix[0] == s[0];
      LeadingDigitBound(prefix);
      assert DigitsValue(s) >= DigitsValue(prefix) * 10;
    }
  }

  /** Ten digits from "3000000000" on exceed Int32.MaxValue: int.TryParse refuses them. */
  lemma TenDigitsOverflow(s: string)
    requires |s| == 10 && AllDigits(s) && s[0] >= '3'
    ensures TryParseInt(s).None?
  {
    LeadingDigitBound(s);
    assert Pow10(9) == 1000000000;
  }

  /** A ten-digit Iranian start bound from "3000000000" on is not a number to int.TryParse. */
  lemma IranOverflowingStart(startPostCode: string, endPostCode: string, isFixFormat: bool)
    requires |startPostCode| == 10 && AllDigits(startPostCode) && startPostCode[0] >= '3'
    requires |endPostCode| == 10 && AllDigits(endPostCode)
    ensures RangeOutcome(IranRule(), startPostCode, endPostCode, isFixFormat) == Fail(StartNotNumber)
  {
    var rule := IranRule();
    assert NormalizeCode(rule, startPostCode, isFixFormat) == Some(startPostCode);
    assert NormalizeCode(rule, endPostCode, isFixFormat) == Some(endPostCode);
    assert Extract(rule.rangeRegex, startPostCode) == Some(startPostCode[0..10]);
    assert startPostCode[0..10] == startPostCode;
    assert Extract(rule.rangeRegex, endPostCode).Some?;
    TenDigitsOverflow(startPostCode);
  }

  // ---------------------------------------------------------------------------------------------
  // United Kingdom: the fix function puts one space before the last three characters.

  /** The GB fix of a space-free code puts one space before its last three characters. */
  lemma GbFixSpaceFree(head: string, tail: string)
    requires |head| >= 2 && |tail| == 3 && ' ' !in head + tail
    ensures GbFixFormat(head + tail) == Fixed(head + " " + tail)
  {
    var code := head + tail;
    RemoveSpacesAfterCollapse(code);
    RemoveSpacesOfSpaceFree(code);
    assert code[..|code| - 3] == head && code[|code| - 3..] == tail;
  }

  /** Two to four letters or digits, a space and three more: the GB range regex matches it whole. */
  lemma UnitedKingdomShapeMatches(head: string, tail: string)
    requires 2 <= |head| <= 4 && |tail| == 3
    requires AllLettersOrDigits(head) && AllLettersOrDigits(tail)
    ensures Extract(AlnumSpaceAlnum(2, 4, 3), head + " " + tail) == Some(head + " " + tail)
  {
    var fixed := head + " " + tail;
    assert fixed[..|fixed| - 4] == head && fixed[|fixed| - 3..] == tail;
    assert fixed[|fixed| - 4] == ' ';
    assert WholeMatch(AlnumSpaceAlnum(2, 4, 3), fixed);
    assert fixed[0..|fixed|] == fixed;
  }

  /**
   * A GB code made of two to four letters or digits, then three more, is fixed to the two parts
   * with one space between them, which the range regex matches whole.
   */
  lemma UnitedKingdomNormalize(head: string, tail: string)
    requires 2 <= |head| <= 4 && |tail| == 3
    requires AllLettersOrDigits(head) && AllLettersOrDigits(tail)
    ensures NormalizeCode(UnitedKingdomRule(), head + tail, true) == Some(head + " " + tail)
    ensures Extract(AlnumSpaceAlnum(2, 4, 3), head + " " + tail) == Some(head + " " + tail)
  {
    var code := head + tail;
    assert ' ' !in code by {
      assert forall i :: 0 <= i < |code| ==> code[i] == if i < |head| then head[i] else tail[i - |head|];
    }
    GbFixSpaceFree(head, tail);
    assert PadCode(UnitedKingdomRule(), code) == code;
    UnitedKingdomShapeMatches(head, tail);
  }

  /** Fixing ordered GB bounds of that shape leaves a valid range. */
  lemma UnitedKingdomRangeValid(startHead: string, startTail: string, endHead: string, endTail: string)
    requires 2 <= |startHead| <= 4 && |startTail| == 3 && AllLettersOrDigits(startHead) && AllLettersOrDigits(startTail)
    requires 2 <= |endHead| <= 4 && |endTail| == 3 && AllLettersOrDigits(endHead) && AllLettersOrDigits(endTail)
    ensures RangeOutcome(UnitedKingdomRule(), startHead + startTail, endHead + endTail, true) == Pass
  {
    UnitedKingdomNormalize(startHead, startTail);
    UnitedKingdomNormalize(endHead, endTail);
  }

  /**
   * With the fix, a GB containment check compares the fixed code with the bounds as written,
   * not with the fixed bounds.
   */
  lemma UnitedKingdomComparesRawBounds(startHead: string, startTail: string, endHead: string, endTail: string,
                                       codeHead: string, codeTail: string)
    requires 2 <= |startHead| <= 4 && |startTail| == 3 && AllLettersOrDigits(startHead) && AllLettersOrDigits(startTail)
    requires 2 <= |endHead| <= 4 && |endTail| == 3 && AllLettersOrDigits(endHead) && AllLettersOrDigits(endTail)
    requires 2 <= |codeHead| <= 4 && |codeTail| == 3 && AllLettersOrDigits(codeHead) && AllLettersOrDigits(codeTail)
    ensures var code := codeHead + " " + codeTail;
            InRangeOutcome(UnitedKingdomRule(), startHead + startTail, endHead + endTail, codeHead + codeTail, true) ==
              if AsWrittenWithin(startHead + startTail, endHead + endTail, code) then Pass else Fail(NotInRange)
  {
    UnitedKingdomRangeValid(startHead, startTail, endHead, endTail);
    UnitedKingdomNormalize(codeHead, codeTail);
  }

  /** A bound whose fix leaves fewer than three characters makes the whole call throw. */
  lemma UnitedKingdomBlankBoundThrows(startPostCode: string, endPostCode: string, postCode: string)
    requires 5 <= |startPostCode| && |RemoveSpaces(startPostCode)| < 3
    ensures CheckPostCodeInRangeOutcome("GB", startPostCode, endPostCode, postCode, true) == Thrown
  {
    var rule := UnitedKingdomRule();
    assert GetPostCodeRule("GB") == Some(rule);
    assert NormalizeCode(rule, startPostCode, true).None?;
    InvalidRangeDecidesFirst(rule, startPostCode, endPostCode, postCode, true);
  }

  /**
   * Without the fix, a GB containment check of codes already in the fixed shape compares them as
   * written.
   */
  lemma UnitedKingdomUnfixedCompare(startHead: string, endHead: string, codeHead: string, tail: string)
    requires 2 <= |startHead| <= 4 && AllLettersOrDigits(startHead)
    requires 2 <= |endHead| <= 4 && AllLettersOrDigits(endHead)
    requires 2 <= |codeHead| <= 4 && AllLettersOrDigits(codeHead)
    requires |tail| == 3 && AllLettersOrDigits(tail)
    ensures var start, end, code := startHead + " " + tail, endHead + " " + tail, codeHead + " " + tail;
            InRangeOutcome(UnitedKingdomRule(), start, end, code, false) ==
              if AsWrittenWithin(start, end, code) then Pass else Fail(NotInRange)
  {
    UnitedKingdomNormalize(startHead, tail);
    UnitedKingdomNormalize(endHead, tail);
    UnitedKingdomNormalize(codeHead, tail);
  }

  lemma AppendLetterOrDigit(s: string, c: char)
    requires AllLettersOrDigits(s) && IsLetterOrDigit(c)
    ensures AllLettersOrDigits(s + [c])
  {
    assert forall i :: 0 <= i < |s + [c]| ==> (s + [c])[i] == if i < |s| then s[i] else c;
  }

  /** The GB check without the fix, for codes that agree except in one digit. */
  lemma UnitedKingdomOneDigitCompare(head: string, low: char, high: char, over: char, tail: string)
    requires 1 <= |head| <= 3 && AllLettersOrDigits(head) && |tail| == 3 && AllLettersOrDigits(tail)
    requires IsDigit(low) && IsDigit(high) && IsDigit(over)
    ensures var start, end, code := head + [low] + " " + tail, head + [high] + " " + tail, head + [over] + " " + tail;
            InRangeOutcome(UnitedKingdomRule(), start, end, code, false) ==
              if AsWrittenWithin(start, end, code) then Pass else Fail(NotInRange)
  {
    AppendLetterOrDigit(head, low);
    AppendLetterOrDigit(head, high);
    AppendLetterOrDigit(head, over);
    UnitedKingdomUnfixedCompare(head + [low], head + [high], head + [over], tail);
  }

  /** The string half of the finding, for GB-shaped codes: a space and three characters follow the digit. */
  lemma OneDigitAfterEnd(head: string, low: char, high: char, over: char, tail: string)
    requires IsDigit(low) && IsDigit(high) && IsDigit(over)
    requires low <= high && high as int + 2 <= over as int
    ensures var start, end, code := head + [low] + " " + tail, head + [high] + " " + tail, head + [over] + " " + tail;
            AsWrittenWithin(start, end, code) && !WithinIgnoreCase(start, end, code)
  {
    var t := " " + tail;
    assert head + [low] + " " + tail == head + [low] + t;
    assert head + [high] + " " + tail == head + [high] + t;
    assert head + [over] + " " + tail == head + [over] + t;
    AsWrittenAdmitsCodeAfterEnd(head, low, high, over, t);
  }

  /**
   * Take GB bounds and a code that agree except in one digit, such as "S10 9EE", "S12 9EE" and
   * "S15 9EE". When the code's digit exceeds the end's by two or more, the code lies after the
   * end, yet the check passes: the comparison with the end yields the difference of the two
   * digits, which is not -1. The intended test rejects the code.
   */
  lemma UnitedKingdomAboveEndPasses(head: string, low: char, high: char, over: char, tail: string)
    requires 1 <= |head| <= 3 && AllLettersOrDigits(head) && |tail| == 3 && AllLettersOrDigits(tail)
    requires IsDigit(low) && IsDigit(high) && IsDigit(over)
    requires low <= high && high as int + 2 <= over as int
    ensures var start, end, code := head + [low] + " " + tail, head + [high] + " " + tail, head + [over] + " " + tail;
            InRangeOutcome(UnitedKingdomRule(), start, end, code, false) == Pass &&
            !WithinIgnoreCase(start, end, code)
  {
    UnitedKingdomOneDigitCompare(head, low, high, over, tail);
    OneDigitAfterEnd(head, low, high, over, tail);
  }

  /** The intended check rejects the same code as not in range. */
  lemma UnitedKingdomAboveEndRejected(head: string, low: char, high: char, over: char, tail: string)
    requires 1 <= |head| <= 3 && AllLettersOrDigits(head) && |tail| == 3 && AllLettersOrDigits(tail)
    requires IsDigit(low) && IsDigit(high) && IsDigit(over)
    requires low <= high && high as int + 2 <= over as int
    ensures var start, end, code := head + [low] + " " + tail, head + [high] + " " + tail, head + [over] + " " + tail;
            IntendedInRangeOutcome(UnitedKingdomRule(), start, end, code, false) == Fail(NotInRange)
  {
    var code := head + [over] + " " + tail;
    UnitedKingdomAboveEndPasses(head, low, high, over, tail);
    assert NormalizeCode(UnitedKingdomRule(), code, false) == Some(code);
  }
}
