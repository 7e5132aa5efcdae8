/**
 * The postcode rule record, the GB format-fix function and a representative part of the
 * per-country rule table.
 */
module PostCodeRules {
  import opened Wrappers
  import opened AsciiText
  import opened Patterns

  /** The optional FixFormatFunc of a rule; the only one in the table is the GB one. */
  datatype FixFormat = NoFix | GbFix

  /** Why a fix function declined to reformat a code. */
  datatype FixFailure = CodeEmpty | CodeTooShort

  /**
   * What a fix function does with a code: reformat it, decline (the code is then kept), or throw
   * (Substring with a negative length raises ArgumentOutOfRangeException).
   */
  datatype FixResult = Fixed(code: string) | NotFixed(reason: FixFailure) | FixThrows

  /**
   * PostCodeValidationRuleModel. `regex` is RegexStr and `rangeRegex` RangeRegexStr, as the
   * pattern shapes they denote; the empty pattern stands for "". `minLength` is the nullable
   * MinLenght; a null LeftPaddingChar is written "" (the code only asks IsNullOrEmpty of it).
   */
  datatype Rule = Rule(
    countryCode: string,
    countryCnName: string,
    regex: Pattern,
    description: string,
    format: string,
    rangeIsNumber: bool,
    rangeRegex: Pattern,
    minLength: Option<int>,
    leftPaddingChar: string,
    noPostCode: bool,
    fixFormat: FixFormat)

  /** Whether codes shorter than MinLenght get left-padded: a numeric range and a one-character pad. */
  predicate PadsShortCodes(rule: Rule)
  {
    rule.rangeIsNumber && |rule.leftPaddingChar| == 1
  }

  /**
   * The shape every rule of the table has: a numeric rule extracts digits, MinLenght is set,
   * padding is with '0', and no rule both pads and carries a fix function.
   */
  predicate WellFormed(rule: Rule)
  {
    && (rule.rangeIsNumber ==> NumericPattern(rule.rangeRegex))
    && rule.minLength.Some?
    && (PadsShortCodes(rule) ==> rule.leftPaddingChar == "0")
    && (rule.fixFormat != NoFix ==> !PadsShortCodes(rule))
  }

  /** The number of U+0020 characters in s. */
  function SpaceCount(s: string): nat
  {
    |s| - |RemoveSpaces(s)|
  }

  /**
   * The GB FixFormatFunc: an empty code or one shorter than five characters (counted before
   * any space is removed) is declined; otherwise every space is removed and a single space is
   * put before the last three characters. With fewer than three characters left, Substring throws.
   */
  function GbFixFormat(code: string): (r: FixResult)
    ensures r == NotFixed(CodeEmpty) <==> code == []
    ensures r == NotFixed(CodeTooShort) <==> 0 < |code| < 5
    ensures r == FixThrows <==> 5 <= |code| && |RemoveSpaces(code)| < 3
    ensures r.Fixed? ==> 5 <= |code| && RemoveSpaces(r.code) == RemoveSpaces(code)
    ensures r.Fixed? ==> |r.code| == |RemoveSpaces(code)| + 1 && SpaceCount(r.code) == 1
    ensures r.Fixed? ==> r.code[|r.code| - 4] == ' '
    ensures r.Fixed? ==> forall i :: 0 <= i < |r.code| && i != |r.code| - 4 ==> r.code[i] != ' '
  {
    if code == [] then NotFixed(CodeEmpty)
    else if |code| < 5 then NotFixed(CodeTooShort)
    else
      var t := RemoveSpaces(CollapseDoubleSpaces(code));
      RemoveSpacesAfterCollapse(code);
      if |t| < 3 then FixThrows
      else
        var fixed := t[..|t| - 3] + " " + t[|t| - 3..];
        GbFixedShape(t, fixed);
        Fixed(fixed)
  }

  /** Putting one space before the last three characters of a space-free string. */
  lemma GbFixedShape(t: string, fixed: string)
    requires ' ' !in t && |t| >= 3
    requires fixed == t[..|t| - 3] + " " + t[|t| - 3..]
    ensures RemoveSpaces(fixed) == t && |fixed| == |t| + 1 && SpaceCount(fixed) == 1
    ensures fixed[|fixed| - 4] == ' '
    ensures forall i :: 0 <= i < |fixed| && i != |fixed| - 4 ==> fixed[i] != ' '
  {
    var a, b := t[..|t| - 3], t[|t| - 3..];
    assert ' ' !in a && ' ' !in b by {
      assert forall i :: 0 <= i < |a| ==> a[i] == t[i];
      assert forall i :: 0 <= i < |b| ==> b[i] == t[|t| - 3 + i];
    }
    RemoveSpacesAppend(a + " ", b);
    RemoveSpacesAppend(a, " ");
    RemoveSpacesOfSpaceFree(a);
    RemoveSpacesOfSpaceFree(b);
    assert RemoveSpaces(" ") == [];
    assert a + b == t;
  }

  /** Fixing a GB code that the fix has already produced, with at least four characters, changes nothing. */
  lemma GbFixFormatIdempotent(code: string)
    requires GbFixFormat(code).Fixed? && |RemoveSpaces(code)| >= 4
    ensures GbFixFormat(GbFixFormat(code).code) == GbFixFormat(code)
  {
    var once := GbFixFormat(code).code;
    var t := RemoveSpaces(CollapseDoubleSpaces(code));
    RemoveSpacesAfterCollapse(code);
    RemoveSpacesAfterCollapse(once);
    assert RemoveSpaces(CollapseDoubleSpaces(once)) == t;
  }

  /** Calling a rule's FixFormatFunc, which the services do only when it is not null. */
  function ApplyFix(fix: FixFormat, code: string): FixResult
    requires fix != NoFix
  {
    match fix
    case GbFix => GbFixFormat(code)
  }

  /** The countries whose rules this model transcribes. */
  const TranscribedCountries: set<string> := {"US", "CA", "MX", "BZ", "HT", "BR", "GF", "GB", "IE", "IR", "BH"}

  /**
   * GetPostCodeRule, for the transcribed countries: an exact, case-sensitive match of the
   * country code selects one rule; any other code gives null.
   */
  function GetPostCodeRule(countryCode: string): (r: Option<Rule>)
    ensures r.Some? <==> countryCode in TranscribedCountries
    ensures r.Some? ==> r.value.countryCode == countryCode && WellFormed(r.value)
  {
    if countryCode == "US" then Some(UnitedStatesRule())
    else if countryCode == "CA" then Some(CanadaRule())
    else if countryCode == "MX" then Some(MexicoRule())
    else if countryCode == "BZ" then Some(BelizeRule())
    else if countryCode == "HT" then Some(HaitiRule())
    else if countryCode == "BR" then Some(BrazilRule())
    else if countryCode == "GF" then Some(FrenchGuianaRule())
    else if countryCode == "GB" then Some(UnitedKingdomRule())
    else if countryCode == "IE" then Some(IrelandRule())
    else if countryCode == "IR" then Some(IranRule())
    else if countryCode == "BH" then Some(BahrainRule())
    else None
  }

  function UnitedStatesRule(): (r: Rule)
    ensures r.countryCode == "US" && WellFormed(r)
  {
    Rule("US", "美国", Either(WholeDigits(5, 5), DigitsDashDigits(5, 4)),
      "5数字，如：12345；或5数字+短横线+4数字，如：12345-1234", "(NNNNN)|(NNNNN-NNNNN)",
      true, LeadingDigits(5), Some(5), "0", false, NoFix)
  }

  function CanadaRule(): (r: Rule)
    ensures r.countryCode == "CA" && WellFormed(r)
  {
    Rule("CA", "加拿大", CanadianPostalCode,
      "字母+数字+字母+空格+数字+字母+数字，不包含字母 D, F, I, O, Q, U，如：a1B 2C3", "ANA NAN",
      false, CanadianPostalCode, Some(6), "", false, NoFix)
  }

  function MexicoRule(): (r: Rule)
    ensures r.countryCode == "MX" && WellFormed(r)
  {
    Rule("MX", "墨西哥", WholeDigits(5, 5), "5位数字，如：12345", "NNNNN",
      true, WholeDigits(5, 5), Some(5), "0", false, NoFix)
  }

  function BelizeRule(): (r: Rule)
    ensures r.countryCode == "BZ" && WellFormed(r)
  {
    Rule("BZ", "伯利兹", Empty, "没有邮编", "",
      false, Empty, Some(0), "", true, NoFix)
  }

  function HaitiRule(): (r: Rule)
    ensures r.countryCode == "HT" && WellFormed(r)
  {
    Rule("HT", "海地", RepeatedLiteralThenDigits("HT", 2, 4), "HT+4位数字 如HT1234,或4位数字，如：1234", "(HT)NNNN",
      true, TrailingDigits(4), Some(4), "0", false, NoFix)
  }

  function BrazilRule(): (r: Rule)
    ensures r.countryCode == "BR" && WellFormed(r)
  {
    Rule("BR", "巴西", DigitsDashDigits(5, 3), "5位数字+短横线+3位数字，如：12345-123", "",
      true, LeadingDigits(5), Some(5), "0", false, NoFix)
  }

  function FrenchGuianaRule(): (r: Rule)
    ensures r.countryCode == "GF" && WellFormed(r)
  {
    Rule("GF", "法属圭亚那", LiteralThenDigits("973", 2), "5位数字,973开头，如：97300", "NNNN",
      true, LiteralThenDigits("973", 2), Some(5), "0", false, NoFix)
  }

  function UnitedKingdomRule(): (r: Rule)
    ensures r.countryCode == "GB" && WellFormed(r)
  {
    Rule("GB", "英国", AlnumSpaceAlnum(2, 4, 3), "2-4位数字或字母+空格+3位数字或字母，如：1a2c 33d", "[AN]{2,4} [AN]{3}",
      false, AlnumSpaceAlnum(2, 4, 3), Some(6), "", false, GbFix)
  }

  function IrelandRule(): (r: Rule)
    ensures r.countryCode == "IE" && WellFormed(r)
  {
    Rule("IE", "爱尔兰", IrishEircode, "1个字母+2个数字（D6W除外）+ 4个字母或数字，如：A65 F4E2", "",
      false, Empty, Some(8), "", false, NoFix)
  }

  function IranRule(): (r: Rule)
    ensures r.countryCode == "IR" && WellFormed(r)
  {
    Rule("IR", "伊朗", WholeDigits(10, 10), "10位数字，如：1234567890", "NNNNNNNNNN",
      true, WholeDigits(10, 10), Some(10), "0", false, NoFix)
  }

  function BahrainRule(): (r: Rule)
    ensures r.countryCode == "BH" && WellFormed(r)
  {
    Rule("BH", "巴林", WholeDigits(3, 4), "3到4位数字，如：123或1234", "NNN(N)",
      true, WholeDigits(3, 4), Some(3), "0", false, NoFix)
  }
}
