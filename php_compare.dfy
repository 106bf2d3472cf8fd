/**
 * PHP 8's loose comparison `==` / `!=` between two strings: when both are
 * numeric strings they are compared as numbers, otherwise byte by byte.
 * A numeric string is optional leading whitespace, an optional sign, digits
 * with an optional decimal point (at least one digit in all), an optional
 * exponent, and optional trailing whitespace.
 */
module PhpCompare {
  import opened Wrappers

  /** The characters PHP skips around a numeric string: space, \t, \n, \r, \v, \f. */
  predicate IsWhitespace(c: char) {
    c == ' ' || c == '\t' || c == '\n' || c == '\r' || c == 11 as char || c == 12 as char
  }

  predicate IsDigit(c: char) {
    '0' <= c <= '9'
  }

  /** `s` without its leading whitespace. */
  function TrimStart(s: string): (t: string)
    ensures |t| <= |s| && t == s[|s| - |t|..]
    ensures t == [] || !IsWhitespace(t[0])
    decreases |s|
  {
    if s != [] && IsWhitespace(s[0]) then TrimStart(s[1..]) else s
  }

  /** `s` without its trailing whitespace. */
  function TrimEnd(s: string): (t: string)
    ensures |t| <= |s| && t == s[..|t|]
    ensures t == [] || !IsWhitespace(t[|t| - 1])
    decreases |s|
  {
    if s != [] && IsWhitespace(s[|s| - 1]) then TrimEnd(s[..|s| - 1]) else s
  }

  /** The number of digits `s` starts with. */
  function DigitRun(s: string): (n: nat)
    ensures n <= |s|
    ensures forall i :: 0 <= i < n ==> IsDigit(s[i])
    ensures n < |s| ==> !IsDigit(s[n])
    decreases |s|
  {
    if s != [] && IsDigit(s[0]) then 1 + DigitRun(s[1..]) else 0
  }

  predicate AllDigits(s: string) {
    forall i :: 0 <= i < |s| ==> IsDigit(s[i])
  }

  /** The digit run `s` starts with is all digits. */
  lemma DigitRunIsDigits(s: string)
    ensures AllDigits(s[..DigitRun(s)])
  {
    var n := DigitRun(s);
    assert forall i :: 0 <= i < n ==> s[..n][i] == s[i];
  }

  /** Two strings of digits make one. */
  lemma DigitsAppend(a: string, b: string)
    requires AllDigits(a) && AllDigits(b)
    ensures AllDigits(a + b)
  {
    assert forall i :: 0 <= i < |a + b| ==> (a + b)[i] == if i < |a| then a[i] else b[i - |a|];
  }

  /** The value of a string of decimal digits. */
  function DigitsValue(s: string): int
    requires AllDigits(s)
    decreases |s|
  {
    if s == [] then 0 else 10 * DigitsValue(s[..|s| - 1]) + (s[|s| - 1] as int - '0' as int)
  }

  /** The exact value `mantissa * 10^exponent` of a numeric string. */
  datatype Decimal = Decimal(mantissa: int, exponent: int)

  function Pow10(n: nat): (p: nat)
    ensures p >= 1
  {
    if n == 0 then 1 else 10 * Pow10(n - 1)
  }

  /** Whether two decimals denote the same number. */
  predicate SameValue(x: Decimal, y: Decimal) {
    if x.exponent <= y.exponent then x.mantissa == y.mantissa * Pow10(y.exponent - x.exponent)
    else x.mantissa * Pow10(x.exponent - y.exponent) == y.mantissa
  }

  /** A leading sign: whether it is '-', and what follows it. */
  function Sign(s: string): (bool, string) {
    if s != [] && (s[0] == '-' || s[0] == '+') then (s[0] == '-', s[1..]) else (false, s)
  }

  /** The exponent part of a numeric string, or 0 for none; `None` if `s` is not a complete exponent. */
  function ParseExponent(s: string): Option<int> {
    if s == [] then Some(0)
    else if s[0] != 'e' && s[0] != 'E' then None
    else
      var (negative, digits) := Sign(s[1..]);
      if digits != [] && DigitRun(digits) == |digits| then
        Some(if negative then -DigitsValue(digits) else DigitsValue(digits))
      else None
  }

  /** The value of `s` if it is a numeric string. */
  function ParseNumeric(s: string): Option<Decimal> {
    var (negative, u) := Sign(TrimEnd(TrimStart(s)));
    var i := DigitRun(u);
    var whole := u[..i];
    var hasPoint := i < |u| && u[i] == '.';
    var afterPoint := if hasPoint then u[i + 1..] else u[i..];
    var j := if hasPoint then DigitRun(afterPoint) else 0;
    var fraction := afterPoint[..j];
    DigitRunIsDigits(u);
    DigitRunIsDigits(afterPoint);
    DigitsAppend(whole, fraction);
    if whole == [] && fraction == [] then None
    else
      match ParseExponent(afterPoint[j..])
      case None => None
      case Some(e) =>
        var magnitude := DigitsValue(whole + fraction);
        Some(Decimal(if negative then -magnitude else magnitude, e - |fraction|))
  }

  predicate IsNumeric(s: string) {
    ParseNumeric(s).Some?
  }

  /** PHP's `a == b` for two strings. */
  predicate LooseEquals(a: string, b: string) {
    a == b || (IsNumeric(a) && IsNumeric(b) && SameValue(ParseNumeric(a).value, ParseNumeric(b).value))
  }

  /** Strings that are equal byte by byte are loosely equal. */
  lemma StrictImpliesLoose(a: string, b: string)
    ensures a == b ==> LooseEquals(a, b)
  {
  }

  /** When either string is not numeric, the loose comparison is the strict one. */
  lemma NonNumericIsStrict(a: string, b: string)
    requires !IsNumeric(a) || !IsNumeric(b)
    ensures LooseEquals(a, b) <==> a == b
  {
  }

  /** The loose comparison does not depend on the order of its operands. */
  lemma LooseEqualsSymmetric(a: string, b: string)
    ensures LooseEquals(a, b) <==> LooseEquals(b, a)
  {
  }

  /** "1E3" and "1e3" are different strings that PHP's `==` calls equal: both are the number 1000. */
  lemma ExponentCaseIsLooselyEqual()
    ensures "1E3" != "1e3" && LooseEquals("1E3", "1e3")
  {
    OneThousand('E');
    OneThousand('e');
  }

  /** "1E3" and "1e3" both parse as 1 * 10^3. */
  lemma OneThousand(e: char)
    requires e == 'e' || e == 'E'
    ensures ParseNumeric(['1', e, '3']) == Some(Decimal(1, 3))
  {
    var s := ['1', e, '3'];
    assert TrimStart(s) == s;
    assert TrimEnd(s) == s;
    assert Sign(s) == (false, s);
    assert DigitRun(s[1..]) == 0;
    assert DigitRun(s) == 1;
    assert s[..1] == "1";
    assert s[1..][..0] == [];
    assert s[1..][0..] == [e, '3'];
    assert Sign(['3']) == (false, ['3']);
    assert DigitRun(['3']) == 1;
    assert DigitsValue("3") == DigitsValue([]) * 10 + 3;
    assert ParseExponent([e, '3']) == Some(3);
    assert "1" + [] == "1";
    assert DigitsValue("1") == 1;
  }
}
