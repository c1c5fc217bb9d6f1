/**
 * The test `dumpArg` applies to a number argument: `isNaN(text)` in
 * JavaScript converts the text with `Number(text)`, which accepts the
 * StringNumericLiteral grammar of ECMAScript (section 7.1.4.1 of ECMA-262):
 * optional surrounding white space around a decimal literal (with sign,
 * fraction, exponent or `Infinity`) or a 0b/0o/0x integer; white space
 * alone converts to 0. Anything else converts to NaN.
 */
module Numeric {

  predicate IsDigit(c: char) {
    '0' <= c <= '9'
  }

  predicate IsHexDigit(c: char) {
    IsDigit(c) || 'a' <= c <= 'f' || 'A' <= c <= 'F'
  }

  /** WhiteSpace and LineTerminator code points of ECMAScript. */
  predicate IsJsSpace(c: char) {
    || c == ' ' || c == '\t' || c == '\n' || c == '\r' || c == '\U{B}' || c == '\U{C}'
    || c == '\U{A0}' || c == '\U{1680}' || ('\U{2000}' <= c <= '\U{200A}') || c == '\U{2028}'
    || c == '\U{2029}' || c == '\U{202F}' || c == '\U{205F}' || c == '\U{3000}' || c == '\U{FEFF}'
  }

  predicate AllDigits(s: string) {
    forall k :: 0 <= k < |s| ==> IsDigit(s[k])
  }

  /** The number of decimal digits `s` starts with. */
  function DigitRun(s: string): (n: nat)
    ensures n <= |s|
  {
    if s != [] && IsDigit(s[0]) then 1 + DigitRun(s[1..]) else 0
  }

  /** `DigitRun` counts the whole leading run: digits up to it, and no digit right after it. */
  lemma {:induction false} DigitRunMaximal(s: string)
    ensures AllDigits(s[..DigitRun(s)])
    ensures DigitRun(s) < |s| ==> !IsDigit(s[DigitRun(s)])
  {
    if s != [] && IsDigit(s[0]) {
      DigitRunMaximal(s[1..]);
      assert s[..DigitRun(s)] == [s[0]] + s[1..][..DigitRun(s[1..])];
    }
  }

  /** `s` without its leading white space. */
  function TrimStart(s: string): string {
    if s != [] && IsJsSpace(s[0]) then TrimStart(s[1..]) else s
  }

  /** `s` without its trailing white space. */
  function TrimEnd(s: string): string {
    if s != [] && IsJsSpace(s[|s| - 1]) then TrimEnd(s[..|s| - 1]) else s
  }

  /** ExponentPart, or nothing. */
  predicate IsOptionalExponent(s: string) {
    s == [] ||
    (|s| >= 2 && (s[0] == 'e' || s[0] == 'E') &&
     var d := if s[1] == '+' || s[1] == '-' then s[2..] else s[1..];
     d != [] && AllDigits(d))
  }

  /** StrUnsignedDecimalLiteral. */
  predicate IsUnsignedDecimal(s: string) {
    if s == "Infinity" then true
    else
      var n := DigitRun(s);
      var rest := s[n..];
      if rest != [] && rest[0] == '.' then
        var f := DigitRun(rest[1..]);
        (n > 0 || f > 0) && IsOptionalExponent(rest[1..][f..])
      else
        n > 0 && IsOptionalExponent(rest)
  }

  /** NonDecimalIntegerLiteral without numeric separators. */
  predicate IsNonDecimalInteger(s: string) {
    |s| >= 3 && s[0] == '0' &&
    var body := s[2..];
    if s[1] == 'x' || s[1] == 'X' then forall k :: 0 <= k < |body| ==> IsHexDigit(body[k])
    else if s[1] == 'o' || s[1] == 'O' then forall k :: 0 <= k < |body| ==> '0' <= body[k] <= '7'
    else if s[1] == 'b' || s[1] == 'B' then forall k :: 0 <= k < |body| ==> body[k] == '0' || body[k] == '1'
    else false
  }

  /** StrNumericLiteral. */
  predicate IsNumericLiteral(s: string) {
    || IsNonDecimalInteger(s)
    || IsUnsignedDecimal(s)
    || (s != [] && (s[0] == '+' || s[0] == '-') && IsUnsignedDecimal(s[1..]))
  }

  /** `!isNaN(s)`: the text converts to a number. */
  predicate IsNumeric(s: string) {
    var t := TrimEnd(TrimStart(s));
    t == [] || IsNumericLiteral(t)
  }

  /** A run of decimal digits is always a valid number argument. */
  lemma DigitsAreNumeric(s: string)
    requires s != [] && AllDigits(s)
    ensures IsNumeric(s)
  {
    assert !IsJsSpace(s[0]) && !IsJsSpace(s[|s| - 1]);
    assert TrimStart(s) == s;
    assert TrimEnd(s) == s;
    DigitRunOfDigits(s);
  }

  lemma {:induction false} DigitRunOfDigits(s: string)
    requires AllDigits(s)
    ensures DigitRun(s) == |s|
  {
    if s != [] {
      DigitRunOfDigits(s[1..]);
    }
  }

  /** Text without white space at either end is a number exactly when it is a numeric literal. */
  lemma Untrimmed(s: string)
    requires s != [] && !IsJsSpace(s[0]) && !IsJsSpace(s[|s| - 1])
    ensures IsNumeric(s) <==> IsNumericLiteral(s)
  {
    assert TrimStart(s) == s;
    assert TrimEnd(s) == s;
  }

  /** Trailing spaces are accepted (`"1 "` converts to 1), inner ones are not. */
  lemma SpacesAroundNumbers()
    ensures IsNumeric("1 ")
    ensures !IsNumeric("1 2")
  {
    var one := "1 ";
    assert TrimStart(one) == one;
    assert one[..1] == "1";
    assert TrimEnd(one) == TrimEnd("1") == "1";
    assert DigitRun("1") == 1;
    var two := "1 2";
    Untrimmed(two);
    assert DigitRun(two) == 1;
    assert two[1..] == " 2";
    assert !IsUnsignedDecimal(two);
  }

  /** A second decimal point makes the text not a number. */
  lemma TwoDecimalPointsRejected(s: string)
    requires s == "1.2.3"
    ensures !IsNumeric(s)
  {
    Untrimmed(s);
    assert DigitRun(s) == 1;
    assert s[1..] == ".2.3";
    assert ".2.3"[1..] == "2.3";
    assert DigitRun("2.3") == 1;
    assert "2.3"[1..] == ".3";
    assert !IsOptionalExponent(".3");
    assert !IsUnsignedDecimal(s);
  }

  /** A fraction is accepted. */
  lemma FractionAccepted()
    ensures IsNumeric("1.5")
  {
    var s := "1.5";
    Untrimmed(s);
    assert DigitRun(s) == 1;
    assert s[1..] == ".5";
    assert DigitRun("5") == 1;
    assert IsUnsignedDecimal(s);
  }

  /** An exponent is accepted. */
  lemma ExponentAccepted()
    ensures IsNumeric("2e10")
  {
    var s := "2e10";
    Untrimmed(s);
    assert DigitRun(s) == 1;
    assert s[1..] == "e10";
    assert IsOptionalExponent("e10");
    assert IsUnsignedDecimal(s);
  }

  /** A hexadecimal integer is accepted. */
  lemma HexAccepted()
    ensures IsNumeric("0x1F")
  {
    var s := "0x1F";
    Untrimmed(s);
    assert s[2..] == "1F";
    assert IsNonDecimalInteger(s);
  }
}
