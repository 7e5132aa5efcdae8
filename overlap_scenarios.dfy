/**
 * What the overlap check does on the situations its callers meet: a range nested in another is
 * reported only from the inner side, a US range whose raw start is shorter than five digits is
 * refused by the pair test although range validation pads it, and Irish ranges, which carry no
 * order, are reported only when they share an endpoint string.
 */
module OverlapScenarios {
  import opened Wrappers
  import opened AsciiText
  import opened Patterns
  import opened PostCodeRules
  import opened PostCodeService
  import opened RangeOverlap
  import opened PostCodeScenarios

  /**
   * A list of two valid ranges: the first pass tests the first range against the second, the
   * second pass the second against the first, and the first failure is reported.
   */
  lemma TwoRanges(rule: Rule, a: PostCodeRange, b: PostCodeRange)
    requires RangeOutcome(rule, a.startPostCode, a.endPostCode, true) == Pass
    requires RangeOutcome(rule, b.startPostCode, b.endPostCode, true) == Pass
    ensures FirstFailure(RangeOutcomes(rule, [a, b]), [], 0) ==
              if PairOutcome(rule, a, b) != Pass then PairOutcome(rule, a, b) else PairOutcome(rule, b, a)
  {
    var list := [a, b];
    var first, second := PairOutcomes(rule, a, list), PairOutcomes(rule, b, list);
    assert FirstFailure(first, [0], 2) == Pass && FirstFailure(second, [1], 1) == Pass;
    assert FirstFailure(first, [0], 0) == PairOutcome(rule, a, b);
    assert FirstFailure(second, [1], 0) == PairOutcome(rule, b, a);
    assert FirstFailure(RangeOutcomes(rule, list), [], 2) == Pass;
  }

  /**
   * Under a numeric rule, a range strictly inside another passes the pair test with the outer range
   * as current, and fails it with the inner range as current; the two-range list is reported on
   * its second pass.
   */
  lemma NestedRangeReportedFromInside(rule: Rule, outer: PostCodeRange, inner: PostCodeRange)
    requires rule.rangeIsNumber && WellFormedRange(rule, outer) && WellFormedRange(rule, inner)
    requires RawNumber(rule, outer.startPostCode).value < RawNumber(rule, inner.startPostCode).value
    requires RawNumber(rule, inner.endPostCode).value < RawNumber(rule, outer.endPostCode).value
    ensures PairOutcome(rule, outer, inner) == Pass
    ensures PairOutcome(rule, inner, outer) == Fail(Overlap(inner, outer))
    ensures FirstFailure(RangeOutcomes(rule, [outer, inner]), [], 0) == Fail(Overlap(inner, outer))
  {
    NumericPairOutcome(rule, outer, inner);
    NumericPairOutcome(rule, inner, outer);
    TwoRanges(rule, outer, inner);
  }

  /**
   * Under the US rule a range whose start has fewer than five digits validates (the bounds are
   * padded first), but the pair test extracts the raw start with "^[0-9]{5}" and refuses it.
   */
  lemma UsShortStartPair(current: PostCodeRange, other: PostCodeRange)
    requires 1 <= |current.startPostCode| <= 4 && AllDigits(current.startPostCode)
    requires 1 <= |current.endPostCode| <= 5 && AllDigits(current.endPostCode)
    requires DigitsValue(current.startPostCode) <= DigitsValue(current.endPostCode)
    requires RangeOutcome(UnitedStatesRule(), other.startPostCode, other.endPostCode, true) == Pass
    ensures RangeOutcome(UnitedStatesRule(), current.startPostCode, current.endPostCode, true) == Pass
    ensures PairOutcome(UnitedStatesRule(), current, other) == Fail(CurrentStartMismatch(current))
  {
    UsDigitsRange(current.startPostCode, current.endPostCode, true);
    assert Extract(LeadingDigits(5), current.startPostCode).None?;
  }

  /** So a US list that starts with such a range fails on its first pass with a start mismatch. */
  lemma UsShortStartRejected(current: PostCodeRange, other: PostCodeRange)
    requires 1 <= |current.startPostCode| <= 4 && AllDigits(current.startPostCode)
    requires 1 <= |current.endPostCode| <= 5 && AllDigits(current.endPostCode)
    requires DigitsValue(current.startPostCode) <= DigitsValue(current.endPostCode)
    requires 1 <= |other.startPostCode| <= 5 && AllDigits(other.startPostCode)
    requires 1 <= |other.endPostCode| <= 5 && AllDigits(other.endPostCode)
    requires DigitsValue(other.startPostCode) <= DigitsValue(other.endPostCode)
    ensures CheckRangeOverlapOutcome("US", [current, other]) == Fail(CurrentStartMismatch(current))
  {
    UsDigitsRange(other.startPostCode, other.endPostCode, true);
    UsShortStartPair(current, other);
    TwoRanges(UnitedStatesRule(), current, other);
  }

  /** The Irish rule validates every range: its range regex is empty and it checks no order. */
  lemma IrelandEveryRangeValid(startPostCode: string, endPostCode: string, isFixFormat: bool)
    ensures RangeOutcome(IrelandRule(), startPostCode, endPostCode, isFixFormat) == Pass
  {
  }

  /** Two Irish ranges pass the pair test in one direction exactly when they share no endpoint string. */
  lemma IrelandPair(a: PostCodeRange, b: PostCodeRange)
    ensures PairOutcome(IrelandRule(), a, b) == Pass <==>
              {a.startPostCode, a.endPostCode} !! {b.startPostCode, b.endPostCode}
  {
    IrelandEveryRangeValid(b.startPostCode, b.endPostCode, true);
    NonNumericPairOutcome(IrelandRule(), a, b);
  }

  /**
   * Two Irish ranges pass the overlap check exactly when their endpoint strings are distinct, even
   * when one lies inside the other in alphabetical order.
   */
  lemma IrelandOverlapIsSharedEndpoint(a: PostCodeRange, b: PostCodeRange)
    ensures CheckRangeOverlapOutcome("IE", [a, b]) == Pass <==>
              {a.startPostCode, a.endPostCode} !! {b.startPostCode, b.endPostCode}
  {
    IrelandEveryRangeValid(a.startPostCode, a.endPostCode, true);
    IrelandEveryRangeValid(b.startPostCode, b.endPostCode, true);
    IrelandPair(a, b);
    IrelandPair(b, a);
    TwoRanges(IrelandRule(), a, b);
    IrelandLookup([a, b]);
  }

  /** CheckRangeOverlap("IE", ...) runs under the Irish rule. */
  lemma IrelandLookup(list: seq<PostCodeRange>)
    ensures CheckRangeOverlapOutcome("IE", list) == FirstFailure(RangeOutcomes(IrelandRule(), list), [], 0)
  {
  }
}
