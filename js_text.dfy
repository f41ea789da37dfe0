/**
 * The JavaScript string and number primitives that the client validators,
 * the table hook and the ledger's breakdown text are built from:
 * `trim`, `toLowerCase`, `includes`, `localeCompare`, number-to-string
 * conversion of whole amounts, and `parseFloat`.
 */
module JsText {

  /** The code points ECMAScript counts as WhiteSpace or LineTerminator, which `trim` strips. */
  predicate IsWhitespace(c: char) {
    c == '\U{9}' || c == '\U{B}' || c == '\U{C}' || c == ' ' || c == '\U{A0}' || c == '\U{FEFF}'
    || c == '\U{1680}' || ('\U{2000}' <= c <= '\U{200A}') || c == '\U{202F}' || c == '\U{205F}'
    || c == '\U{3000}' || c == '\n' || c == '\r' || c == '\U{2028}' || c == '\U{2029}'
  }

  predicate AllWhitespace(s: string) {
    forall i :: 0 <= i < |s| ==> IsWhitespace(s[i])
  }

  /** `s.trimStart()`: the suffix left after dropping the leading whitespace. */
  function TrimStart(s: string): (r: string)
    ensures |r| <= |s| && r == s[|s| - |r|..]
    ensures forall i :: 0 <= i < |s| - |r| ==> IsWhitespace(s[i])
    ensures r == [] || !IsWhitespace(r[0])
  {
    if |s| > 0 && IsWhitespace(s[0]) then
      var r := TrimStart(s[1..]);
      assert forall i :: 1 <= i < |s| - |r| ==> s[i] == s[1..][i - 1];
      r
    else s
  }

  /** `s.trimEnd()`: the prefix left after dropping the trailing whitespace. */
  function TrimEnd(s: string): (r: string)
    ensures |r| <= |s| && r == s[..|r|]
    ensures AllWhitespace(s[|r|..])
    ensures r == [] || !IsWhitespace(r[|r| - 1])
  {
    if |s| > 0 && IsWhitespace(s[|s| - 1]) then
      var r := TrimEnd(s[..|s| - 1]);
      assert forall i :: |r| <= i < |s| - 1 ==> s[i] == s[..|s| - 1][i];
      r
    else s
  }

  /** `s.trim()`. */
  function Trim(s: string): string {
    TrimEnd(TrimStart(s))
  }

  /** A string trims to "" exactly when it is empty or made of whitespace only. */
  lemma TrimEmptyIffBlank(s: string)
    ensures Trim(s) == "" <==> AllWhitespace(s)
  {
    var t := TrimStart(s);
    if AllWhitespace(s) {
      TrimStartOfBlank(s);
    }
    if Trim(s) == "" {
      assert AllWhitespace(t[0..]);
      assert s == s[..|s| - |t|] + t;
    }
  }

  /** Trimming a trimmed string changes nothing. */
  lemma TrimIdempotent(s: string)
    ensures Trim(Trim(s)) == Trim(s)
  {
    var t := Trim(s);
    if t != "" {
      assert t[0] == TrimStart(s)[0];
      assert TrimStart(t) == t;
      assert TrimEnd(t) == t;
    }
  }

  lemma {:induction false} TrimStartOfBlank(s: string)
    requires AllWhitespace(s)
    ensures TrimStart(s) == ""
  {
    if |s| > 0 {
      TrimStartOfBlank(s[1..]);
    }
  }

  function ToLowerChar(c: char): char {
    if 'A' <= c <= 'Z' then (c as int + 32) as char else c
  }

  /** `s.toLowerCase()`, for the Latin capital letters A to Z. */
  function ToLowerCase(s: string): (r: string)
    ensures |r| == |s|
    ensures forall i :: 0 <= i < |s| ==> r[i] == ToLowerChar(s[i])
  {
    seq(|s|, i requires 0 <= i < |s| => ToLowerChar(s[i]))
  }

  /** Lower-casing twice is lower-casing once. */
  lemma ToLowerCaseIdempotent(s: string)
    ensures ToLowerCase(ToLowerCase(s)) == ToLowerCase(s)
  {
    assert forall i :: 0 <= i < |s| ==> ToLowerChar(ToLowerChar(s[i])) == ToLowerChar(s[i]);
  }

  /** Lower-casing leaves whitespace alone, so a string is blank iff its lower-cased copy is. */
  lemma ToLowerCaseBlank(s: string)
    ensures Trim(ToLowerCase(s)) == "" <==> Trim(s) == ""
  {
    var t := ToLowerCase(s);
    TrimEmptyIffBlank(s);
    TrimEmptyIffBlank(t);
    forall i | 0 <= i < |s| ensures IsWhitespace(t[i]) <==> IsWhitespace(s[i]) {
      LowerWhitespace(s[i]);
    }
  }

  lemma LowerWhitespace(c: char)
    ensures IsWhitespace(ToLowerChar(c)) <==> IsWhitespace(c)
  {
  }

  /** `s.includes(q)`: `q` occurs in `s` as a contiguous substring. */
  predicate Includes(s: string, q: string) {
    exists i | 0 <= i <= |s| :: OccursAt(s, q, i)
  }

  predicate OccursAt(s: string, q: string, i: int) {
    0 <= i <= |s| - |q| && s[i..i + |q|] == q
  }

  /**
   * `a.localeCompare(b)` taken as ordering by code point, lexicographically:
   * negative, zero or positive as `a` sorts before, with or after `b`.
   */
  function LocaleCompare(a: string, b: string): (r: int)
    ensures -1 <= r <= 1
    ensures r == 0 <==> a == b
  {
    if |a| == 0 && |b| == 0 then 0
    else if |a| == 0 then -1
    else if |b| == 0 then 1
    else if a[0] < b[0] then -1
    else if a[0] > b[0] then 1
    else LocaleCompare(a[1..], b[1..])
  }

  /** Swapping the two strings negates the comparison. */
  lemma {:induction false} LocaleCompareAntisymmetric(a: string, b: string)
    ensures LocaleCompare(b, a) == -LocaleCompare(a, b)
  {
    if |a| > 0 && |b| > 0 && a[0] == b[0] {
      LocaleCompareAntisymmetric(a[1..], b[1..]);
    }
  }

  predicate IsDigit(c: char) {
    '0' <= c <= '9'
  }

  predicate AllDigits(s: string) {
    forall i :: 0 <= i < |s| ==> IsDigit(s[i])
  }

  function DigitValue(c: char): nat {
    if IsDigit(c) then c as int - '0' as int else 0
  }

  /** The value of a string of decimal digits, most significant first. */
  function DigitsValue(s: string): nat {
    if |s| == 0 then 0 else DigitsValue(s[..|s| - 1]) * 10 + DigitValue(s[|s| - 1])
  }

  /** The decimal numeral of a natural number, most significant digit first. */
  function NatToString(n: nat): (s: string)
    ensures |s| > 0
    decreases n, 1
  {
    LastDigitAfter(n)
  }

  /** The numeral of `n` as the numeral of `n / 10` (when there is one) followed by the last digit. */
  function LastDigitAfter(n: nat): (s: string)
    ensures |s| > 0
    decreases n, 0
  {
    var last := ['0' + (n % 10) as char];
    if n < 10 then last else NatToString(n / 10) + last
  }

  /** The numeral is digits only, has no leading zero, and reading it back gives `n`. */
  lemma {:induction false} NatToStringSpec(n: nat)
    ensures AllDigits(NatToString(n))
    ensures NatToString(n)[0] == '0' ==> n == 0 && NatToString(n) == "0"
    ensures DigitsValue(NatToString(n)) == n
  {
    if n >= 10 {
      NatToStringSpec(n / 10);
      var front := NatToString(n / 10);
      var s := NatToString(n);
      assert s[..|s| - 1] == front;
    }
  }

  /** `String(n)` for a whole number: the numeral of `n`, or a minus sign before the string of `-n`. */
  function IntToString(n: int): (s: string)
    ensures |s| > 0
    decreases if n < 0 then 1 else 0
  {
    if n < 0 then "-" + IntToString(-n) else NatToString(n)
  }

  /** A JavaScript number: NaN, one of the infinities, or a finite value (rounding is not modelled). */
  datatype JsNumber = NaN | PosInf | NegInf | Finite(value: real)

  function Pow10(n: nat): (r: real)
    ensures r >= 1.0
  {
    if n == 0 then 1.0 else 10.0 * Pow10(n - 1)
  }

  /** The longest prefix of `s` made of decimal digits. */
  function LeadingDigits(s: string): (r: string)
    ensures |r| <= |s| && r == s[..|r|] && AllDigits(r)
    ensures |r| == |s| || !IsDigit(s[|r|])
  {
    if |s| > 0 && IsDigit(s[0]) then [s[0]] + LeadingDigits(s[1..]) else []
  }

  predicate StartsWith(s: string, prefix: string) {
    |prefix| <= |s| && s[..|prefix|] == prefix
  }

  /** The value of digits read after a decimal point: `FractionValue("25") == 0.25`. */
  function FractionValue(s: string): (r: real)
    ensures 0.0 <= r
  {
    if |s| == 0 then 0.0 else (DigitValue(s[0]) as real + FractionValue(s[1..])) / 10.0
  }

  /** `m` scaled by an exponent part (`e12`, `E+3`, `e-2`) at the head of `s`; `m` itself when there is none. */
  function ApplyExponent(m: real, s: string): real {
    if |s| == 0 || (s[0] != 'e' && s[0] != 'E') then m
    else
      var signed := |s| > 1 && (s[1] == '+' || s[1] == '-');
      var digits := LeadingDigits(if signed then s[2..] else s[1..]);
      if |digits| == 0 then m
      else if signed && s[1] == '-' then m / Pow10(DigitsValue(digits))
      else m * Pow10(DigitsValue(digits))
  }

  /**
   * `parseFloat(s)`: skip leading whitespace, read an optional sign, then the
   * longest prefix that is `Infinity` or a decimal literal; NaN when no digit
   * can be read.
   */
  function ParseFloat(s: string): JsNumber {
    ParseSigned(TrimStart(s))
  }

  /** `parseFloat` once the leading whitespace is gone: an optional sign, then the unsigned part. */
  function ParseSigned(t: string): JsNumber {
    var negative := |t| > 0 && t[0] == '-';
    var unsigned := ParseUnsigned(if |t| > 0 && (t[0] == '+' || t[0] == '-') then t[1..] else t);
    if !negative then unsigned
    else match unsigned
      case PosInf => NegInf
      case Finite(m) => Finite(-m)
      case _ => unsigned
  }

  /** The unsigned part of `parseFloat`: `Infinity`, or a decimal literal read as far as it goes. */
  function ParseUnsigned(body: string): (r: JsNumber)
    ensures r != NegInf
  {
    if StartsWith(body, "Infinity") then PosInf
    else
      var intDigits := LeadingDigits(body);
      ParseDecimal(intDigits, body[|intDigits|..])
  }

  /**
   * A decimal literal whose integer digits have been read and `rest` follows
   * them: an optional `.` and fraction digits, then an optional exponent.
   * NaN when there is no digit on either side of the point.
   */
  function ParseDecimal(intDigits: string, rest: string): (r: JsNumber)
    ensures r.NaN? || r.Finite?
  {
    var hasDot := |rest| > 0 && rest[0] == '.';
    var fracDigits := if hasDot then LeadingDigits(rest[1..]) else "";
    if |intDigits| == 0 && |fracDigits| == 0 then NaN
    else
      var afterFraction := if hasDot then rest[1 + |fracDigits|..] else rest;
      Finite(ApplyExponent(DigitsValue(intDigits) as real + FractionValue(fracDigits), afterFraction))
  }

  /** A numeral with no sign, dot or exponent reads as its digit value. */
  lemma ParseDigits(digits: string)
    requires |digits| > 0 && AllDigits(digits)
    ensures ParseUnsigned(digits) == Finite(DigitsValue(digits) as real)
  {
    ParseDigitsIsDecimal(digits);
    DecimalWithoutFraction(digits);
  }

  lemma DecimalWithoutFraction(digits: string)
    requires |digits| > 0
    ensures ParseDecimal(digits, []) == Finite(DigitsValue(digits) as real)
  {
    assert FractionValue("") == 0.0;
  }

  lemma ParseDigitsIsDecimal(digits: string)
    requires |digits| > 0 && AllDigits(digits)
    ensures ParseUnsigned(digits) == ParseDecimal(digits, [])
  {
    LeadingDigitsOfDigits(digits);
    assert !StartsWith(digits, "Infinity") by {
      assert IsDigit(digits[0]);
    }
    assert digits[|digits|..] == [];
  }

  /** Reading back the numeral of a whole number gives that number. */
  lemma ParseIntToString(n: int)
    ensures ParseFloat(IntToString(n)) == Finite(n as real)
  {
    if n < 0 {
      ParseNegativeToString(n);
    } else {
      ParseNatToString(n);
    }
  }

  lemma ParseNatToString(n: nat)
    ensures ParseFloat(IntToString(n)) == Finite(n as real)
  {
    var digits := NatToString(n);
    assert IntToString(n) == digits;
    NatToStringSpec(n);
    ParseDigits(digits);
    ParseUnsignedText(digits);
  }

  lemma ParseNegativeToString(n: int)
    requires n < 0
    ensures ParseFloat(IntToString(n)) == Finite(n as real)
  {
    var digits := NatToString(-n);
    NegativeToString(n);
    NatToStringSpec(-n);
    ParseDigits(digits);
    ParseNegated(digits);
  }

  /** A negative number's string is a minus sign before the numeral of its magnitude. */
  lemma NegativeToString(n: int)
    requires n < 0
    ensures IntToString(n) == "-" + NatToString(-n)
  {
  }

  lemma ParseUnsignedText(t: string)
    requires |t| > 0 && IsDigit(t[0])
    ensures ParseFloat(t) == ParseUnsigned(t)
  {
    TrimStartKeeps(t);
    assert ParseSigned(t) == ParseUnsigned(t);
  }

  /** Text that does not start with whitespace has nothing to trim. */
  lemma TrimStartKeeps(t: string)
    requires |t| > 0 && !IsWhitespace(t[0])
    ensures TrimStart(t) == t
  {
    assert |t| - |TrimStart(t)| == 0;
  }

  lemma ParseNegated(digits: string)
    requires |digits| > 0 && IsDigit(digits[0])
    requires ParseUnsigned(digits).Finite?
    ensures ParseFloat("-" + digits) == Finite(-ParseUnsigned(digits).value)
  {
    var t := "-" + digits;
    assert !IsWhitespace(t[0]);
    TrimStartKeeps(t);
    assert t[1..] == digits;
    assert ParseSigned(t) == Finite(-ParseUnsigned(digits).value);
  }

  lemma {:induction false} LeadingDigitsOfDigits(s: string)
    requires AllDigits(s)
    ensures LeadingDigits(s) == s
  {
    if |s| > 0 {
      LeadingDigitsOfDigits(s[1..]);
    }
  }
}
