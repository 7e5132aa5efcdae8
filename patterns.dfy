/**
 * The regular expressions used by the transcribed postcode rules, one constructor per shape,
 * each with an explicit matcher that gives what .NET's Regex.Match would report: whether the
 * pattern matches somewhere, and if so where the leftmost match starts and how long it is.
 * ASCII only; .NET's `$` also matching before a final newline is not modelled.
 */
module Patterns {
  import opened Wrappers
  import opened AsciiText

  datatype Pattern =
    | Empty                                                   // ""  (matches every string, value "")
    | WholeDigits(min: nat, max: nat)                         // ^[0-9]{min,max}$
    | LeadingDigits(n: nat)                                   // ^[0-9]{n}
    | TrailingDigits(n: nat)                                  // [0-9]{n}$
    | LiteralThenDigits(literal: string, n: nat)              // ^973[0-9]{2}$
    | RepeatedLiteralThenDigits(literal: string, maxRepeat: nat, n: nat)  // ^(HT){0,2}[0-9]{4}$
    | DigitsDashDigits(n: nat, m: nat)                        // ^[0-9]{5}-[0-9]{3}$
    | AlnumSpaceAlnum(min: nat, max: nat, n: nat)             // ^[a-zA-Z0-9]{2,4} [a-zA-Z0-9]{3}$
    | CanadianPostalCode                                      // A1A 1A1 without D, F, I, O, Q, U
    | IrishEircode                                            // (?:^[AC-FHKNPRTV-Y][0-9]{2}|D6W)[ -]?[0-9AC-FHKNPRTV-Y]{4}$
    | Either(left: Pattern, right: Pattern)                   // (left)|(right), both anchored at ^ and $

  /** Where a match lies in the searched string. */
  datatype Span = Span(start: nat, len: nat)

  /** A pattern anchored at both ends: when it matches, the match is the whole input. */
  predicate Anchored(p: Pattern)
  {
    match p
    case Empty | LeadingDigits(_) | TrailingDigits(_) | IrishEircode => false
    case Either(l, r) => Anchored(l) && Anchored(r)
    case _ => true
  }

  /** A letter the Canadian pattern admits: [A-Za-z] but none of D, F, I, O, Q, U in either case. */
  predicate IsCanadianLetter(c: char)
  {
    IsLetter(c) && UpperChar(c) !in "DFIOQU"
  }

  /** \s restricted to ASCII: space, tab, line feed, vertical tab, form feed, carriage return. */
  predicate IsRegexSpace(c: char)
  {
    c == ' ' || 9 <= c as int <= 13
  }

  /** [AC-FHKNPRTV-Y] */
  predicate IsEircodeLetter(c: char)
  {
    c in "ACDEFHKNPRTVWXY"
  }

  /** [0-9AC-FHKNPRTV-Y] */
  predicate IsEircodeChar(c: char)
  {
    IsDigit(c) || IsEircodeLetter(c)
  }

  /** h is zero up to maxRepeat copies of literal, back to back. */
  predicate IsRepetition(h: string, literal: string, maxRepeat: nat)
    decreases maxRepeat
  {
    h == [] ||
    (maxRepeat > 0 && 0 < |literal| <= |h| && h[..|literal|] == literal &&
     IsRepetition(h[|literal|..], literal, maxRepeat - 1))
  }

  /** Whether an anchored pattern matches the whole of s. */
  predicate WholeMatch(p: Pattern, s: string)
    requires Anchored(p)
  {
    match p
    case WholeDigits(min, max) => min <= |s| <= max && AllDigits(s)
    case LiteralThenDigits(literal, n) =>
      |s| == |literal| + n && s[..|literal|] == literal && AllDigits(s[|literal|..])
    case RepeatedLiteralThenDigits(literal, maxRepeat, n) =>
      n <= |s| && AllDigits(s[|s| - n..]) && IsRepetition(s[..|s| - n], literal, maxRepeat)
    case DigitsDashDigits(n, m) =>
      |s| == n + 1 + m && AllDigits(s[..n]) && s[n] == '-' && AllDigits(s[n + 1..])
    case AlnumSpaceAlnum(min, max, n) =>
      n + 1 <= |s| && min <= |s| - n - 1 <= max && s[|s| - n - 1] == ' ' &&
      AllLettersOrDigits(s[..|s| - n - 1]) && AllLettersOrDigits(s[|s| - n..])
    case CanadianPostalCode =>
      (|s| == 6 || (|s| == 7 && IsRegexSpace(s[3]))) &&
      IsCanadianLetter(s[0]) && IsDigit(s[1]) && IsCanadianLetter(s[2]) &&
      IsDigit(s[|s| - 3]) && IsCanadianLetter(s[|s| - 2]) && IsDigit(s[|s| - 1])
    case Either(l, r) => WholeMatch(l, s) || WholeMatch(r, s)
  }

  /** The Eircode head at position i: a letter and two digits at the very start, or "D6W" anywhere. */
  predicate EircodeHeadAt(s: string, i: nat)
  {
    i + 3 <= |s| &&
    ((i == 0 && IsEircodeLetter(s[0]) && IsDigit(s[1]) && IsDigit(s[2])) || s[i..i + 3] == "D6W")
  }

  /**
   * The leftmost Eircode match: a head, an optional space or dash, then four Eircode characters
   * ending the input. With a separator the head starts 8 before the end, without one 7 before.
   */
  function EircodeMatch(s: string): (m: Option<Span>)
    ensures m.Some? ==> m.value.start + m.value.len == |s|
  {
    if |s| < 7 || exists i :: |s| - 4 <= i < |s| && !IsEircodeChar(s[i]) then None
    else if |s| >= 8 && (s[|s| - 5] == ' ' || s[|s| - 5] == '-') && EircodeHeadAt(s, |s| - 8) then
      Some(Span(|s| - 8, 8))
    else if EircodeHeadAt(s, |s| - 7) then Some(Span(|s| - 7, 7))
    else None
  }

  /**
   * Regex.Match(s, p): the leftmost match, if any. A match lies inside s, and an anchored pattern
   * only ever matches the whole input.
   */
  function Match(p: Pattern, s: string): (m: Option<Span>)
    ensures m.Some? ==> m.value.start + m.value.len <= |s|
    ensures Anchored(p) ==> (m.Some? <==> WholeMatch(p, s))
    ensures Anchored(p) && m.Some? ==> m.value == Span(0, |s|)
  {
    match p
    case Empty => Some(Span(0, 0))
    case LeadingDigits(n) => if n <= |s| && AllDigits(s[..n]) then Some(Span(0, n)) else None
    case TrailingDigits(n) => if n <= |s| && AllDigits(s[|s| - n..]) then Some(Span(|s| - n, n)) else None
    case IrishEircode => EircodeMatch(s)
    case Either(l, r) => if Match(l, s).Some? then Match(l, s) else Match(r, s)
    case _ => if WholeMatch(p, s) then Some(Span(0, |s|)) else None
  }

  /** Regex.IsMatch(s, p). */
  predicate IsMatch(p: Pattern, s: string)
  {
    Match(p, s).Some?
  }

  /** Regex.Match(s, p).Value when the match succeeds: the matched substring. */
  function Extract(p: Pattern, s: string): (v: Option<string>)
    ensures v.Some? <==> IsMatch(p, s)
    ensures v.Some? ==> |v.value| <= |s|
  {
    match Match(p, s)
    case None => None
    case Some(sp) => Some(s[sp.start..sp.start + sp.len])
  }

  /**
   * A range pattern fit for a numeric rule: whatever it extracts is a non-empty run of digits.
   */
  predicate NumericPattern(p: Pattern)
  {
    match p
    case WholeDigits(min, max) => 1 <= min
    case LeadingDigits(n) => 1 <= n
    case TrailingDigits(n) => 1 <= n
    case LiteralThenDigits(literal, n) => AllDigits(literal) && 1 <= |literal| + n
    case _ => false
  }

  /** The longest value a numeric pattern can extract. */
  function MaxExtractLength(p: Pattern): nat
    requires NumericPattern(p)
  {
    match p
    case WholeDigits(_, max) => max
    case LeadingDigits(n) => n
    case TrailingDigits(n) => n
    case LiteralThenDigits(literal, n) => |literal| + n
  }

  /** A numeric pattern extracts only non-empty digit runs no longer than its bound. */
  lemma NumericExtractIsDigits(p: Pattern, s: string)
    requires NumericPattern(p) && IsMatch(p, s)
    ensures 1 <= |Extract(p, s).value| <= MaxExtractLength(p)
    ensures AllDigits(Extract(p, s).value)
  {
    var v := Extract(p, s).value;
    match p
    case WholeDigits(_, _) =>
    case LeadingDigits(_) =>
    case TrailingDigits(_) =>
    case LiteralThenDigits(literal, n) =>
      assert v == s[..|literal|] + s[|literal|..];
  }

  /**
   * Under a numeric pattern, int.TryParse of the extracted value fails only by overflow; with at
   * most nine digits it never fails.
   */
  lemma NumericExtractParses(p: Pattern, s: string)
    requires NumericPattern(p) && IsMatch(p, s)
    ensures AllDigits(Extract(p, s).value)
    ensures TryParseInt(Extract(p, s).value).None? <==> DigitsValue(Extract(p, s).value) > IntMax
    ensures MaxExtractLength(p) <= 9 ==> TryParseInt(Extract(p, s).value).Some?
  {
    NumericExtractIsDigits(p, s);
    if MaxExtractLength(p) <= 9 {
      ShortDigitsParse(Extract(p, s).value);
    }
  }
}
