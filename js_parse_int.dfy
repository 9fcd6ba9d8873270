/**
 * JavaScript's `parseInt(s, 10)` (ECMAScript section 19.2.5, "parseInt ( string, radix )"):
 * skip leading white space, read one optional sign, then read the longest run of
 * decimal digits; with no digit the result is NaN, and anything after the digits is ignored.
 */
module JsParseInt {

  /** The numbers `parseInt` can return: NaN or an integer. */
  datatype JsNumber = NaN | Int(value: int)

  /** ECMAScript's WhiteSpace and LineTerminator code points (StrWhiteSpaceChar). */
  predicate IsWhiteSpace(c: char) {
    var n := c as int;
    n == 0x09 || n == 0x0A || n == 0x0B || n == 0x0C || n == 0x0D || n == 0x20 ||
    n == 0xA0 || n == 0x1680 || (0x2000 <= n <= 0x200A) || n == 0x2028 || n == 0x2029 ||
    n == 0x202F || n == 0x205F || n == 0x3000 || n == 0xFEFF
  }

  predicate IsDigit(c: char) {
    '0' <= c <= '9'
  }

  predicate AllDigits(s: string) {
    forall i :: 0 <= i < |s| ==> IsDigit(s[i])
  }

  /** `s` with its leading white space removed. */
  function TrimStart(s: string): (r: string)
    ensures |r| <= |s| && r == s[|s| - |r|..]
    ensures forall i :: 0 <= i < |s| - |r| ==> IsWhiteSpace(s[i])
    ensures r != [] ==> !IsWhiteSpace(r[0])
  {
    if s != [] && IsWhiteSpace(s[0]) then TrimStart(s[1..]) else s
  }

  /** The length of the run of digits that `s` starts with. */
  function DigitCount(s: string): (n: nat)
    ensures n <= |s| && AllDigits(s[..n])
    ensures n < |s| ==> !IsDigit(s[n])
  {
    if s != [] && IsDigit(s[0]) then 1 + DigitCount(s[1..]) else 0
  }

  /** The base-10 value of a string of digits. */
  function DigitsValue(digits: string): nat
    requires AllDigits(digits)
  {
    if digits == [] then 0
    else 10 * DigitsValue(digits[..|digits| - 1]) + (digits[|digits| - 1] as int - '0' as int)
  }

  /** `parseInt(s, 10)` */
  function ParseInt(s: string): JsNumber {
    var trimmed := TrimStart(s);
    var negative := trimmed != [] && trimmed[0] == '-';
    var unsigned := if trimmed != [] && (trimmed[0] == '+' || trimmed[0] == '-') then trimmed[1..] else trimmed;
    var digits := unsigned[..DigitCount(unsigned)];
    if digits == [] then NaN
    else if negative then Int(-(DigitsValue(digits) as int))
    else Int(DigitsValue(digits))
  }

  /** The decimal numeral of `n`, without leading zeros. */
  function Decimal(n: nat): (r: string)
    ensures r != [] && AllDigits(r)
    ensures r[0] == '0' ==> n == 0
  {
    (if n < 10 then [] else Decimal(n / 10)) + [('0' as int + n % 10) as char]
  }

  /** A string that starts with a digit has no white space or sign to skip. */
  lemma ParseIntOfDigitStart(s: string)
    requires s != [] && IsDigit(s[0])
    ensures ParseInt(s) == Int(DigitsValue(s[..DigitCount(s)]))
  {
    assert !IsWhiteSpace(s[0]);
    assert TrimStart(s) == s;
    assert s[0] != '-' && s[0] != '+';
  }

  /** The leading run of digits of `digits + rest` is exactly `digits`. */
  lemma {:induction false} DigitCountOfConcat(digits: string, rest: string)
    requires AllDigits(digits)
    requires rest != [] ==> !IsDigit(rest[0])
    ensures DigitCount(digits + rest) == |digits|
  {
    if digits != [] {
      assert (digits + rest)[1..] == digits[1..] + rest;
      DigitCountOfConcat(digits[1..], rest);
    } else {
      assert digits + rest == rest;
    }
  }

  /** A string made only of digits parses to its base-10 value. */
  lemma ParseIntOfDigits(s: string)
    requires s != [] && AllDigits(s)
    ensures ParseInt(s) == Int(DigitsValue(s))
  {
    ParseIntOfDigitStart(s);
    assert s[..|s|] == s;
  }

  /** Whatever follows the leading digits is ignored, as in `parseInt("12abc", 10) == 12`. */
  lemma ParseIntIgnoresSuffix(digits: string, rest: string)
    requires digits != [] && AllDigits(digits)
    requires rest != [] ==> !IsDigit(rest[0])
    ensures ParseInt(digits + rest) == ParseInt(digits)
  {
    var s := digits + rest;
    assert s[0] == digits[0];
    ParseIntOfDigitStart(s);
    DigitCountOfConcat(digits, rest);
    assert s[..|digits|] == digits;
    ParseIntOfDigits(digits);
  }

  /** Reading a numeral back gives the number, so digits-only parsing is the inverse of printing. */
  lemma {:induction false} DigitsValueOfDecimal(n: nat)
    ensures DigitsValue(Decimal(n)) == n
  {
    var r := Decimal(n);
    var last := r[|r| - 1];
    assert last as int - '0' as int == n % 10;
    if n >= 10 {
      DigitsValueOfDecimal(n / 10);
      assert r[..|r| - 1] == Decimal(n / 10);
    } else {
      assert r[..|r| - 1] == [];
    }
  }

  /** `parseInt` of the decimal numeral of `n` is `n`. */
  lemma ParseIntOfDecimal(n: nat)
    ensures ParseInt(Decimal(n)) == Int(n)
  {
    ParseIntOfDigits(Decimal(n));
    DigitsValueOfDecimal(n);
  }
}
