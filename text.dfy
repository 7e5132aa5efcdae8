/**
 * The few .NET string and integer primitives the postcode and province services rely on,
 * restricted to ASCII: upper-casing, the two space replacements, left padding, int.TryParse
 * and the ordinal ignore-case comparison.
 */
module AsciiText {
  import opened Wrappers

  /** Int32.MaxValue, the largest value int.TryParse accepts. */
  const IntMax: int := 2147483647

  predicate IsDigit(c: char) { '0' <= c <= '9' }
  predicate IsLower(c: char) { 'a' <= c <= 'z' }
  predicate IsUpper(c: char) { 'A' <= c <= 'Z' }
  predicate IsLetter(c: char) { IsLower(c) || IsUpper(c) }
  predicate IsLetterOrDigit(c: char) { IsLetter(c) || IsDigit(c) }

  predicate AllDigits(s: string) { forall i :: 0 <= i < |s| ==> IsDigit(s[i]) }
  predicate AllLettersOrDigits(s: string) { forall i :: 0 <= i < |s| ==> IsLetterOrDigit(s[i]) }

  /** char.ToUpper on ASCII: a lower-case letter becomes its capital, every other character stays. */
  function UpperChar(c: char): (u: char)
    ensures !IsLower(u)
    ensures IsLetter(c) <==> IsLetter(u)
    ensures !IsLower(c) ==> u == c
    ensures IsLower(c) ==> u as int == c as int - 32
  {
    if IsLower(c) then (c as int - 32) as char else c
  }

  /** string.ToUpper on ASCII. */
  function ToUpper(s: string): (u: string)
    ensures |u| == |s|
    ensures forall i :: 0 <= i < |s| ==> u[i] == UpperChar(s[i])
  {
    if s == [] then [] else [UpperChar(s[0])] + ToUpper(s[1..])
  }

  /**
   * s.Replace("  ", " "): scanning from the left, each pair of spaces not overlapping an earlier
   * pair becomes one space.
   */
  function CollapseDoubleSpaces(s: string): (r: string)
    ensures |r| <= |s|
  {
    CollapseFrom(s, false)
  }

  /**
   * The scan of the replacement: `skip` says that the previous character was the first space of a
   * pair, already written out for both.
   */
  function CollapseFrom(s: string, skip: bool): (r: string)
    ensures |r| <= |s|
  {
    if s == [] then []
    else
      var pair := !skip && |s| >= 2 && s[0] == ' ' && s[1] == ' ';
      (if skip then [] else [s[0]]) + CollapseFrom(s[1..], pair)
  }

  /** s.Replace(" ", ""): every U+0020 is dropped; tabs and other whitespace stay. */
  function RemoveSpaces(s: string): (r: string)
    ensures ' ' !in r
    ensures |r| <= |s|
  {
    if s == [] then []
    else if s[0] == ' ' then RemoveSpaces(s[1..])
    else [s[0]] + RemoveSpaces(s[1..])
  }

  /** Removing spaces distributes over concatenation. */
  lemma {:induction false} RemoveSpacesAppend(a: string, b: string)
    ensures RemoveSpaces(a + b) == RemoveSpaces(a) + RemoveSpaces(b)
  {
    if a != [] {
      assert (a + b)[1..] == a[1..] + b;
      RemoveSpacesAppend(a[1..], b);
    } else {
      assert a + b == b;
    }
  }

  /** A string without spaces is its own space-free form. */
  lemma {:induction false} RemoveSpacesOfSpaceFree(s: string)
    requires ' ' !in s
    ensures RemoveSpaces(s) == s
  {
    if s != [] {
      assert ' ' !in s[1..] by { assert forall i :: 0 <= i < |s[1..]| ==> s[1..][i] == s[i + 1]; }
      RemoveSpacesOfSpaceFree(s[1..]);
      assert s == [s[0]] + s[1..];
    }
  }

  /** The double-space replacement is subsumed by the single-space removal that follows it. */
  lemma RemoveSpacesAfterCollapse(s: string)
    ensures RemoveSpaces(CollapseDoubleSpaces(s)) == RemoveSpaces(s)
  {
    RemoveSpacesAfterCollapseFrom(s, false);
  }

  lemma {:induction false} RemoveSpacesAfterCollapseFrom(s: string, skip: bool)
    requires skip ==> s != [] && s[0] == ' '
    ensures RemoveSpaces(CollapseFrom(s, skip)) == RemoveSpaces(s)
    decreases |s|
  {
    if s != [] {
      var pair := !skip && |s| >= 2 && s[0] == ' ' && s[1] == ' ';
      RemoveSpacesAfterCollapseFrom(s[1..], pair);
      if !skip {
        RemoveSpacesAppend([s[0]], CollapseFrom(s[1..], pair));
        assert RemoveSpaces([s[0]]) == (if s[0] == ' ' then [] else [s[0]]);
      } else {
        assert CollapseFrom(s, skip) == CollapseFrom(s[1..], pair);
      }
    }
  }

  /** Upper-casing never creates nor removes a space, so it commutes with the space removal. */
  lemma {:induction false} RemoveSpacesToUpper(s: string)
    ensures RemoveSpaces(ToUpper(s)) == ToUpper(RemoveSpaces(s))
  {
    if s != [] {
      assert ToUpper(s)[1..] == ToUpper(s[1..]);
      RemoveSpacesToUpper(s[1..]);
      if s[0] != ' ' {
        assert ToUpper([s[0]] + RemoveSpaces(s[1..])) == [UpperChar(s[0])] + ToUpper(RemoveSpaces(s[1..]));
      }
    }
  }

  lemma ToUpperIdempotent(s: string)
    ensures ToUpper(ToUpper(s)) == ToUpper(s)
  {
  }

  /** s.PadLeft(width, c): the pad characters in front of the original, up to width. */
  function PadLeft(s: string, width: nat, c: char): (r: string)
    ensures |s| < width ==> |r| == width && r[width - |s|..] == s
    ensures |s| < width ==> forall i :: 0 <= i < width - |s| ==> r[i] == c
    ensures width <= |s| ==> r == s
  {
    if |s| < width then seq(width - |s|, _ => c) + s else s
  }

  function Pow10(n: nat): (p: nat)
    ensures p >= 1
  {
    if n == 0 then 1 else 10 * Pow10(n - 1)
  }

  function DigitValue(c: char): nat
    requires IsDigit(c)
  {
    c as int - '0' as int
  }

  /** The base-10 value of a run of ASCII digits, most significant first. */
  function DigitsValue(s: string): (v: nat)
    requires AllDigits(s)
    ensures v < Pow10(|s|)
  {
    if s == [] then 0
    else
      var prefix := s[..|s| - 1];
      var v' := DigitsValue(prefix);
      assert v' <= Pow10(|prefix|) - 1;
      assert v' * 10 <= (Pow10(|prefix|) - 1) * 10;
      v' * 10 + DigitValue(s[|s| - 1])
  }

  /**
   * int.TryParse restricted to unsigned ASCII digit strings: a non-empty run of digits whose value
   * fits in a 32-bit signed int parses; anything else fails.
   */
  function TryParseInt(s: string): (r: Option<int>)
    ensures r.Some? ==> 0 <= r.value <= IntMax
  {
    if s != [] && AllDigits(s) && DigitsValue(s) <= IntMax then Some(DigitsValue(s)) else None
  }

  /** Leading zeros do not change the value of a run of digits. */
  lemma {:induction false} DigitsValueLeadingZeros(z: string, s: string)
    requires forall i :: 0 <= i < |z| ==> z[i] == '0'
    requires AllDigits(s)
    ensures AllDigits(z + s)
    ensures DigitsValue(z + s) == DigitsValue(s)
    decreases |s|, |z|
  {
    if s == [] {
      assert z + s == z;
      if z != [] {
        DigitsValueLeadingZeros(z[..|z| - 1], []);
        assert z[..|z| - 1] + [] == z[..|z| - 1];
      }
    } else {
      var s' := s[..|s| - 1];
      assert (z + s)[..|z + s| - 1] == z + s';
      DigitsValueLeadingZeros(z, s');
    }
  }

  /** Nine digits or fewer always parse: they cannot exceed Int32.MaxValue. */
  lemma ShortDigitsParse(s: string)
    requires 1 <= |s| <= 9 && AllDigits(s)
    ensures TryParseInt(s) == Some(DigitsValue(s))
  {
    Pow10Monotone(|s|, 9);
  }

  lemma {:induction false} Pow10Monotone(m: nat, n: nat)
    requires m <= n
    ensures Pow10(m) <= Pow10(n)
    decreases n
  {
    if m < n { Pow10Monotone(m, n - 1); }
  }

  /**
   * string.Compare(a, b, StringComparison.OrdinalIgnoreCase): the difference of the upper-cased
   * code units at the first position where they differ, or else the difference of the lengths.
   * The result is zero exactly when the two strings agree ignoring case.
   */
  function CompareOrdinalIgnoreCase(a: string, b: string): (d: int)
    ensures d == 0 <==> ToUpper(a) == ToUpper(b)
  {
    if a == [] || b == [] then
      assert |ToUpper(a)| == |a| && |ToUpper(b)| == |b|;
      |a| - |b|
    else if UpperChar(a[0]) != UpperChar(b[0]) then
      assert ToUpper(a)[0] != ToUpper(b)[0];
      UpperChar(a[0]) as int - UpperChar(b[0]) as int
    else
      assert ToUpper(a) == [UpperChar(a[0])] + ToUpper(a[1..]);
      assert ToUpper(b) == [UpperChar(b[0])] + ToUpper(b[1..]);
      assert ToUpper(a) == ToUpper(b) ==> ToUpper(a)[1..] == ToUpper(b)[1..];
      CompareOrdinalIgnoreCase(a[1..], b[1..])
  }

  /** A common prefix does not change the ignore-case comparison. */
  lemma {:induction false} CompareCommonPrefix(p: string, x: string, y: string)
    ensures CompareOrdinalIgnoreCase(p + x, p + y) == CompareOrdinalIgnoreCase(x, y)
  {
    if p != [] {
      assert (p + x)[1..] == p[1..] + x && (p + y)[1..] == p[1..] + y;
      CompareCommonPrefix(p[1..], x, y);
    } else {
      assert p + x == x && p + y == y;
    }
  }

  /** Strict lexicographic order on code units: the order an ordinal comparison decides. */
  predicate LexLess(a: string, b: string)
  {
    if a == [] then b != []
    else if b == [] then false
    else if a[0] != b[0] then a[0] < b[0]
    else LexLess(a[1..], b[1..])
  }

  /** The sign of the ignore-case comparison is the lexicographic order of the upper-cased strings. */
  lemma {:induction false} CompareSignIsLexOrder(a: string, b: string)
    ensures CompareOrdinalIgnoreCase(a, b) < 0 <==> LexLess(ToUpper(a), ToUpper(b))
    ensures CompareOrdinalIgnoreCase(a, b) > 0 <==> LexLess(ToUpper(b), ToUpper(a))
  {
    if a != [] && b != [] {
      assert ToUpper(a)[1..] == ToUpper(a[1..]);
      assert ToUpper(b)[1..] == ToUpper(b[1..]);
      if UpperChar(a[0]) == UpperChar(b[0]) {
        CompareSignIsLexOrder(a[1..], b[1..]);
      }
    }
  }
}
