/**
 * The two CheckRangeOverlap overloads of PostCodeService: the private one checks one range
 * against every other range of a list, the public one runs it for each index in turn.
 */
module RangeOverlap {
  import opened Wrappers
  import opened AsciiText
  import opened Patterns
  import opened PostCodeRules
  import opened PostCodeService

  /** A raw (unnormalised) bound as the pair test reads it: extracted with the range regex, parsed. */
  function RawNumber(rule: Rule, bound: string): Option<int>
  {
    var v := Extract(rule.rangeRegex, bound);
    if v.None? then None else TryParseInt(v.value)
  }

  /**
   * The body of the pair loop for one other range. The other range is validated first. A numeric
   * rule then extracts and parses the RAW bounds of the current range and of the other one, and
   * flags an overlap when the current start or the current end lies in [other start, other end].
   * A non-numeric rule flags an overlap only when an endpoint of one range equals, case
   * sensitively, an endpoint of the other.
   */
  function PairOutcome(rule: Rule, current: PostCodeRange, other: PostCodeRange): Outcome
  {
    var valid := RangeOutcome(rule, other.startPostCode, other.endPostCode, true);
    if valid.Thrown? then Thrown
    else if valid.Fail? then Fail(RangeInvalid(other, valid.error))
    else if rule.rangeIsNumber then
      var startMatch := Extract(rule.rangeRegex, current.startPostCode);
      var endMatch := Extract(rule.rangeRegex, current.endPostCode);
      var minMatch := Extract(rule.rangeRegex, other.startPostCode);
      var maxMatch := Extract(rule.rangeRegex, other.endPostCode);
      if startMatch.None? then Fail(CurrentStartMismatch(current))
      else if endMatch.None? then Fail(CurrentEndMismatch(current))
      else if TryParseInt(startMatch.value).None? then Fail(CurrentStartNotNumber(current))
      else if TryParseInt(endMatch.value).None? then Fail(CurrentEndNotNumber(current))
      else if minMatch.None? then Fail(OtherStartMismatch(other))
      else if maxMatch.None? then Fail(OtherEndMismatch(other))
      else if TryParseInt(minMatch.value).None? then Fail(OtherStartNotNumber(other))
      else if TryParseInt(maxMatch.value).None? then Fail(OtherEndNotNumber(other))
      else
        var start, end := TryParseInt(startMatch.value).value, TryParseInt(endMatch.value).value;
        var min, max := TryParseInt(minMatch.value).value, TryParseInt(maxMatch.value).value;
        if (min <= start <= max) || (min <= end <= max) then Fail(Overlap(current, other))
        else Pass
    else if current.startPostCode == other.startPostCode || current.startPostCode == other.endPostCode ||
            current.endPostCode == other.startPostCode || current.endPostCode == other.endPostCode then
      Fail(Overlap(current, other))
    else Pass
  }

  /**
   * The fail-fast loop both overloads run: from index j on, skipping the indexes in `excluded`,
   * the first outcome that is not Pass, or Pass when there is none.
   */
  function FirstFailure(outcomes: seq<Outcome>, excluded: seq<int>, j: nat): Outcome
    decreases |outcomes| - j
  {
    if j >= |outcomes| then Pass
    else if j in excluded || outcomes[j] == Pass then FirstFailure(outcomes, excluded, j + 1)
    else outcomes[j]
  }

  /** The pair test of `current` against each range of the list, in list order. */
  function PairOutcomes(rule: Rule, current: PostCodeRange, list: seq<PostCodeRange>): (r: seq<Outcome>)
    ensures |r| == |list|
    ensures forall k :: 0 <= k < |list| ==> r[k] == PairOutcome(rule, current, list[k])
  {
    seq(|list|, k requires 0 <= k < |list| => PairOutcome(rule, current, list[k]))
  }

  /** What the private CheckRangeOverlap returns: the current range is validated, then the list scanned. */
  function OverlapWithOutcome(rule: Rule, current: PostCodeRange, list: seq<PostCodeRange>, excluded: seq<int>): Outcome
  {
    var valid := RangeOutcome(rule, current.startPostCode, current.endPostCode, true);
    if valid.Thrown? then Thrown
    else if valid.Fail? then Fail(RangeInvalid(current, valid.error))
    else FirstFailure(PairOutcomes(rule, current, list), excluded, 0)
  }

  /** The private check run for each range of the list against all the others, in list order. */
  function RangeOutcomes(rule: Rule, list: seq<PostCodeRange>): (r: seq<Outcome>)
    ensures |r| == |list|
    ensures forall k :: 0 <= k < |list| ==> r[k] == OverlapWithOutcome(rule, list[k], list, [k])
  {
    seq(|list|, k requires 0 <= k < |list| => OverlapWithOutcome(rule, list[k], list, [k]))
  }

  /** What the public CheckRangeOverlap returns. */
  function CheckRangeOverlapOutcome(countryCode: string, list: seq<PostCodeRange>): Outcome
  {
    var rule := GetPostCodeRule(countryCode);
    if rule.None? then Fail(NoRuleMatched) else FirstFailure(RangeOutcomes(rule.value, list), [], 0)
  }

  // ---------------------------------------------------------------------------------------------
  // The scan passes exactly when every step passes, and reports the first step that does not.

  lemma {:induction false} FirstFailurePass(outcomes: seq<Outcome>, excluded: seq<int>, j: nat)
    ensures FirstFailure(outcomes, excluded, j) == Pass <==>
              forall k :: j <= k < |outcomes| && k !in excluded ==> outcomes[k] == Pass
    decreases |outcomes| - j
  {
    if j < |outcomes| {
      FirstFailurePass(outcomes, excluded, j + 1);
    }
  }

  lemma {:induction false} FirstFailureIsFirst(outcomes: seq<Outcome>, excluded: seq<int>, j: nat)
    requires FirstFailure(outcomes, excluded, j) != Pass
    ensures exists k :: j <= k < |outcomes| && k !in excluded && FirstFailure(outcomes, excluded, j) == outcomes[k] &&
              forall m :: j <= m < k && m !in excluded ==> outcomes[m] == Pass
    decreases |outcomes| - j
  {
    if j in excluded || outcomes[j] == Pass {
      FirstFailureIsFirst(outcomes, excluded, j + 1);
      var k :| j + 1 <= k < |outcomes| && k !in excluded && FirstFailure(outcomes, excluded, j + 1) == outcomes[k] &&
               forall m :: j + 1 <= m < k && m !in excluded ==> outcomes[m] == Pass;
      assert j <= k;
    } else {
      assert FirstFailure(outcomes, excluded, j) == outcomes[j];
    }
  }

  // ---------------------------------------------------------------------------------------------
  // Numeric rules: the whole-list check decides pairwise disjointness.

  /**
   * A range the numeric pair test can read: it validates, and its raw bounds extract to numbers
   * with start <= end.
   */
  predicate WellFormedRange(rule: Rule, range: PostCodeRange)
  {
    && RangeOutcome(rule, range.startPostCode, range.endPostCode, true) == Pass
    && RawNumber(rule, range.startPostCode).Some?
    && RawNumber(rule, range.endPostCode).Some?
    && RawNumber(rule, range.startPostCode).value <= RawNumber(rule, range.endPostCode).value
  }

  /** Two well-formed ranges share no number. */
  predicate Disjoint(rule: Rule, a: PostCodeRange, b: PostCodeRange)
    requires WellFormedRange(rule, a) && WellFormedRange(rule, b)
  {
    RawNumber(rule, a.endPostCode).value < RawNumber(rule, b.startPostCode).value ||
    RawNumber(rule, b.endPostCode).value < RawNumber(rule, a.startPostCode).value
  }

  predicate AllWellFormed(rule: Rule, list: seq<PostCodeRange>)
  {
    forall k :: 0 <= k < |list| ==> WellFormedRange(rule, list[k])
  }

  predicate PairwiseDisjoint(rule: Rule, list: seq<PostCodeRange>)
    requires AllWellFormed(rule, list)
  {
    forall i, j :: 0 <= i < j < |list| ==> Disjoint(rule, list[i], list[j])
  }

  /**
   * For two well-formed ranges under a numeric rule the pair test is one-directional: it passes
   * exactly when neither endpoint of the current range lies inside the other range.
   */
  lemma NumericPairOutcome(rule: Rule, current: PostCodeRange, other: PostCodeRange)
    requires rule.rangeIsNumber && WellFormedRange(rule, current) && WellFormedRange(rule, other)
    ensures var start, end := RawNumber(rule, current.startPostCode).value, RawNumber(rule, current.endPostCode).value;
            var min, max := RawNumber(rule, other.startPostCode).value, RawNumber(rule, other.endPostCode).value;
            PairOutcome(rule, current, other) == Pass <==> !(min <= start <= max) && !(min <= end <= max)
    ensures PairOutcome(rule, current, other) != Pass ==> PairOutcome(rule, current, other) == Fail(Overlap(current, other))
  {
    RawNumberParsed(rule, current.startPostCode);
    RawNumberParsed(rule, current.endPostCode);
    RawNumberParsed(rule, other.startPostCode);
    RawNumberParsed(rule, other.endPostCode);
  }

  lemma RawNumberParsed(rule: Rule, bound: string)
    requires RawNumber(rule, bound).Some?
    ensures Extract(rule.rangeRegex, bound).Some?
    ensures TryParseInt(Extract(rule.rangeRegex, bound).value) == RawNumber(rule, bound)
  {
  }

  /** Both pair tests of two well-formed numeric ranges pass exactly when the ranges are disjoint. */
  lemma NumericPairsBothWays(rule: Rule, a: PostCodeRange, b: PostCodeRange)
    requires rule.rangeIsNumber && WellFormedRange(rule, a) && WellFormedRange(rule, b)
    ensures PairOutcome(rule, a, b) == Pass && PairOutcome(rule, b, a) == Pass <==> Disjoint(rule, a, b)
  {
    NumericPairOutcome(rule, a, b);
    NumericPairOutcome(rule, b, a);
  }

  /** Every range passes the pair test against the range at every other index. */
  predicate AllPairsPass(rule: Rule, list: seq<PostCodeRange>)
  {
    forall i, k :: 0 <= i < |list| && 0 <= k < |list| && i != k ==> PairOutcome(rule, list[i], list[k]) == Pass
  }

  /**
   * When every range validates, the whole-list check passes exactly when every ordered pair of
   * distinct indexes passes the pair test.
   */
  lemma ListPassIffAllPairsPass(rule: Rule, list: seq<PostCodeRange>)
    requires forall k :: 0 <= k < |list| ==> RangeOutcome(rule, list[k].startPostCode, list[k].endPostCode, true) == Pass
    ensures FirstFailure(RangeOutcomes(rule, list), [], 0) == Pass <==> AllPairsPass(rule, list)
  {
    var outcomes := RangeOutcomes(rule, list);
    FirstFailurePass(outcomes, [], 0);
    forall i | 0 <= i < |list|
      ensures outcomes[i] == Pass <==>
                forall k :: 0 <= k < |list| && k != i ==> PairOutcome(rule, list[i], list[k]) == Pass
    {
      RangePassIffPairsPass(rule, list, i);
    }
  }

  /** A range that validates passes its row of the scan exactly when it passes the pair test against every other index. */
  lemma RangePassIffPairsPass(rule: Rule, list: seq<PostCodeRange>, i: nat)
    requires i < |list|
    requires RangeOutcome(rule, list[i].startPostCode, list[i].endPostCode, true) == Pass
    ensures RangeOutcomes(rule, list)[i] == Pass <==>
              forall k :: 0 <= k < |list| && k != i ==> PairOutcome(rule, list[i], list[k]) == Pass
  {
    var pairs := PairOutcomes(rule, list[i], list);
    assert RangeOutcomes(rule, list)[i] == FirstFailure(pairs, [i], 0);
    FirstFailurePass(pairs, [i], 0);
    assert forall k :: k !in [i] <==> k != i;
  }

  /** For well-formed numeric ranges, the pair tests all pass exactly when the ranges are pairwise disjoint. */
  lemma AllPairsPassIffDisjoint(rule: Rule, list: seq<PostCodeRange>)
    requires rule.rangeIsNumber && AllWellFormed(rule, list)
    ensures AllPairsPass(rule, list) <==> PairwiseDisjoint(rule, list)
  {
    if AllPairsPass(rule, list) {
      forall i, j | 0 <= i < j < |list| ensures Disjoint(rule, list[i], list[j]) {
        NumericPairsBothWays(rule, list[i], list[j]);
      }
    } else {
      var i, k :| 0 <= i < |list| && 0 <= k < |list| && i != k && PairOutcome(rule, list[i], list[k]) != Pass;
      NumericPairsBothWays(rule, list[i], list[k]);
      if i < k {
        assert !Disjoint(rule, list[i], list[k]);
      } else {
        assert !Disjoint(rule, list[k], list[i]);
      }
    }
  }

  /**
   * The key property of the overlap check: for a numeric rule and a list of well-formed ranges,
   * the whole-list check passes exactly when the ranges at every two distinct indexes are disjoint,
   * although each pair test looks in one direction only.
   */
  lemma NumericOverlapDetection(rule: Rule, list: seq<PostCodeRange>)
    requires rule.rangeIsNumber && AllWellFormed(rule, list)
    ensures FirstFailure(RangeOutcomes(rule, list), [], 0) == Pass <==> PairwiseDisjoint(rule, list)
  {
    ListPassIffAllPairsPass(rule, list);
    AllPairsPassIffDisjoint(rule, list);
  }

  /** Two identical well-formed numeric ranges at different indexes are always reported. */
  lemma IdenticalRangesOverlap(rule: Rule, list: seq<PostCodeRange>, i: nat, j: nat)
    requires rule.rangeIsNumber && AllWellFormed(rule, list)
    requires i < j < |list| && list[i] == list[j]
    ensures FirstFailure(RangeOutcomes(rule, list), [], 0) != Pass
  {
    NumericOverlapDetection(rule, list);
    assert !Disjoint(rule, list[i], list[j]);
  }

  /**
   * A non-numeric rule reports a validated other range only when it shares an endpoint string
   * with the current one.
   */
  lemma NonNumericPairOutcome(rule: Rule, current: PostCodeRange, other: PostCodeRange)
    requires !rule.rangeIsNumber
    requires RangeOutcome(rule, other.startPostCode, other.endPostCode, true) == Pass
    ensures PairOutcome(rule, current, other) == Pass <==>
              {current.startPostCode, current.endPostCode} !! {other.startPostCode, other.endPostCode}
  {
  }

  // ---------------------------------------------------------------------------------------------
  // The loops as the source runs them.

  /** One pass of the pair loop: validate the other range, then compare it with the current one. */
  method CheckPair(rule: Rule, current: PostCodeRange, other: PostCodeRange) returns (r: Outcome)
    ensures r == PairOutcome(rule, current, other)
  {
    var otherValid := CheckPostCodeRangeByRule(rule, other.startPostCode, other.endPostCode, true);
    if otherValid.Thrown? {
      return Thrown;
    }
    if otherValid.Fail? {
      return Fail(RangeInvalid(other, otherValid.error));
    }
    if rule.rangeIsNumber {
      var startMatch := Extract(rule.rangeRegex, current.startPostCode);
      if startMatch.None? {
        return Fail(CurrentStartMismatch(current));
      }
      var endMatch := Extract(rule.rangeRegex, current.endPostCode);
      if endMatch.None? {
        return Fail(CurrentEndMismatch(current));
      }
      var startNumber := TryParseInt(startMatch.value);
      if startNumber.None? {
        return Fail(CurrentStartNotNumber(current));
      }
      var endNumber := TryParseInt(endMatch.value);
      if endNumber.None? {
        return Fail(CurrentEndNotNumber(current));
      }
      var minMatch := Extract(rule.rangeRegex, other.startPostCode);
      if minMatch.None? {
        return Fail(OtherStartMismatch(other));
      }
      var maxMatch := Extract(rule.rangeRegex, other.endPostCode);
      if maxMatch.None? {
        return Fail(OtherEndMismatch(other));
      }
      var minNumber := TryParseInt(minMatch.value);
      if minNumber.None? {
        return Fail(OtherStartNotNumber(other));
      }
      var maxNumber := TryParseInt(maxMatch.value);
      if maxNumber.None? {
        return Fail(OtherEndNotNumber(other));
      }
      if minNumber.value <= startNumber.value <= maxNumber.value {
        return Fail(Overlap(current, other));
      }
      if minNumber.value <= endNumber.value <= maxNumber.value {
        return Fail(Overlap(current, other));
      }
    } else {
      if current.startPostCode == other.startPostCode || current.startPostCode == other.endPostCode ||
         current.endPostCode == other.startPostCode || current.endPostCode == other.endPostCode {
        return Fail(Overlap(current, other));
      }
    }
    return Pass;
  }

  /** The private check passes exactly when the current range validates and every pair test not excluded passes. */
  lemma OverlapWithPass(rule: Rule, current: PostCodeRange, list: seq<PostCodeRange>, excluded: seq<int>)
    ensures OverlapWithOutcome(rule, current, list, excluded) == Pass <==>
              && RangeOutcome(rule, current.startPostCode, current.endPostCode, true) == Pass
              && forall k :: 0 <= k < |list| && k !in excluded ==> PairOutcome(rule, current, list[k]) == Pass
  {
    FirstFailurePass(PairOutcomes(rule, current, list), excluded, 0);
  }

  /**
   * The private CheckRangeOverlap: validate the current range, then walk the list in index order,
   * skipping excluded indexes, and stop at the first pair that does not pass.
   */
  method CheckRangeOverlapWith(rule: Rule, current: PostCodeRange, list: seq<PostCodeRange>, excluded: seq<int>)
    returns (r: Outcome)
    ensures r == OverlapWithOutcome(rule, current, list, excluded)
    ensures r == Pass <==>
              && RangeOutcome(rule, current.startPostCode, current.endPostCode, true) == Pass
              && forall k :: 0 <= k < |list| && k !in excluded ==> PairOutcome(rule, current, list[k]) == Pass
  {
    OverlapWithPass(rule, current, list, excluded);
    ghost var outcomes := PairOutcomes(rule, current, list);
    var valid := CheckPostCodeRangeByRule(rule, current.startPostCode, current.endPostCode, true);
    if valid.Thrown? {
      return Thrown;
    }
    if valid.Fail? {
      return Fail(RangeInvalid(current, valid.error));
    }
    for i := 0 to |list|
      invariant FirstFailure(outcomes, excluded, i) == FirstFailure(outcomes, excluded, 0)
    {
      if |excluded| > 0 && i in excluded {
        continue;
      }
      var pair := CheckPair(rule, current, list[i]);
      if pair != Pass {
        return pair;
      }
    }
    return Pass;
  }

  /**
   * The public CheckRangeOverlap: look up the rule, then check each range, in index order, against
   * all the others, returning the first failure. For a numeric rule and well-formed ranges it
   * passes exactly when the ranges are pairwise disjoint.
   */
  method CheckRangeOverlap(countryCode: string, list: seq<PostCodeRange>) returns (r: Outcome)
    ensures r == CheckRangeOverlapOutcome(countryCode, list)
    ensures list == [] ==> (r == Pass <==> countryCode in TranscribedCountries)
    ensures var rule := GetPostCodeRule(countryCode);
            rule.Some? && rule.value.rangeIsNumber && AllWellFormed(rule.value, list) ==>
              (r == Pass <==> PairwiseDisjoint(rule.value, list))
  {
    var found := GetPostCodeRule(countryCode);
    if found.None? {
      return Fail(NoRuleMatched);
    }
    r := CheckRangeList(found.value, list);
  }

  /**
   * The loop of CheckRangeOverlap once the rule is found: every range in turn against the whole
   * list without itself, stopping at the first failure.
   */
  method CheckRangeList(rule: Rule, list: seq<PostCodeRange>) returns (r: Outcome)
    ensures r == FirstFailure(RangeOutcomes(rule, list), [], 0)
    ensures list == [] ==> r == Pass
    ensures rule.rangeIsNumber && AllWellFormed(rule, list) ==> (r == Pass <==> PairwiseDisjoint(rule, list))
  {
    if rule.rangeIsNumber && AllWellFormed(rule, list) {
      NumericOverlapDetection(rule, list);
    }
    ghost var outcomes := RangeOutcomes(rule, list);
    for i := 0 to |list|
      invariant FirstFailure(outcomes, [], i) == FirstFailure(outcomes, [], 0)
    {
      var current := CheckRangeOverlapWith(rule, list[i], list, [i]);
      if current != Pass {
        return current;
      }
    }
    return Pass;
  }
}
