/** JavaScript's `parseInt`, `parseFloat` and the decimal rendering of an
    integer inside a template literal, for plain decimal text: an optional
    sign, digits, and (for `parseFloat`) an optional fraction. Parsing reads
    the longest prefix that forms a number and ignores the rest; text with
    no digit in that prefix is `NaN`, written `None`. */
module Numbers {
  import opened Common

  predicate IsDigit(c: char) {
    '0' <= c <= '9'
  }

  predicate AllDigits(s: string) {
    forall i :: 0 <= i < |s| ==> IsDigit(s[i])
  }

  function DigitValue(c: char): (d: nat)
    requires IsDigit(c)
    ensures d < 10
  {
    (c as int) - ('0' as int)
  }

  function DigitChar(d: nat): (c: char)
    requires d < 10
    ensures IsDigit(c) && DigitValue(c) == d
  {
    ('0' as int + d) as char
  }

  /** The length of the longest all-digit prefix of `s`. */
  function DigitRun(s: string): (n: nat)
    ensures n <= |s|
    ensures AllDigits(s[..n])
    ensures n < |s| ==> !IsDigit(s[n])
  {
    if |s| == 0 || !IsDigit(s[0]) then 0
    else
      var n := 1 + DigitRun(s[1..]);
      assert s[..n] == [s[0]] + s[1..][..n - 1];
      n
  }

  /** The value of a string of decimal digits, most significant first. */
  function DigitsValue(s: string): nat
    requires AllDigits(s)
  {
    if |s| == 0 then 0
    else DigitsValue(s[..|s| - 1]) * 10 + DigitValue(s[|s| - 1])
  }

  function Pow10(n: nat): (p: nat)
    ensures p >= 1
  {
    if n == 0 then 1 else 10 * Pow10(n - 1)
  }

  /** Splits off a leading '-' or '+'. */
  function Sign(s: string): (r: (bool, string))
    ensures r.1 == if |s| > 0 && (s[0] == '-' || s[0] == '+') then s[1..] else s
    ensures r.0 <==> |s| > 0 && s[0] == '-'
  {
    if |s| > 0 && s[0] == '-' then (true, s[1..])
    else if |s| > 0 && s[0] == '+' then (false, s[1..])
    else (false, s)
  }

  /** `parseInt(s)` (radix 10). */
  function ParseInt(s: string): Option<int> {
    var (negative, rest) := Sign(s);
    var n := DigitRun(rest);
    if n == 0 then None
    else
      var v: int := DigitsValue(rest[..n]);
      Some(if negative then -v else v)
  }

  /** The fraction digits after a leading '.', or none. */
  function FractionDigits(after: string): (f: string)
    ensures AllDigits(f)
    ensures after == [] ==> f == []
  {
    if |after| > 0 && after[0] == '.' then after[1..][..DigitRun(after[1..])] else ""
  }

  /** The value of `whole.fraction`. */
  function DecimalValue(whole: string, fraction: string): real
    requires AllDigits(whole) && AllDigits(fraction)
  {
    DigitsValue(whole) as real + DigitsValue(fraction) as real / Pow10(|fraction|) as real
  }

  /** `parseFloat(s)` without exponents: sign, integer digits, then an
      optional '.' and fraction digits; at least one digit is needed. */
  function ParseFloat(s: string): Option<real> {
    var (negative, rest) := Sign(s);
    var n := DigitRun(rest);
    var fraction := FractionDigits(rest[n..]);
    if n == 0 && |fraction| == 0 then None
    else
      var v := DecimalValue(rest[..n], fraction);
      Some(if negative then -v else v)
  }

  /** `parseFloat(v) || 0`: text that does not parse counts as zero. */
  function ParseFloatOrZero(s: string): (r: real)
    ensures ParseFloat(s).None? ==> r == 0.0
    ensures ParseFloat(s).Some? ==> r == ParseFloat(s).value
    // a non-zero result is always a number the text really spells
    ensures r != 0.0 ==> ParseFloat(s) == Some(r)
  {
    match ParseFloat(s)
    case Some(v) => v
    case None => 0.0
  }

  /** The decimal digits of `n`, without leading zeros. */
  function NatToString(n: nat): (s: string)
    ensures |s| > 0 && AllDigits(s)
  {
    if n < 10 then [DigitChar(n)]
    else NatToString(n / 10) + [DigitChar(n % 10)]
  }

  /** `${i}` for an integer `i`. */
  function IntToString(i: int): (s: string)
    ensures |s| > 0
  {
    if i < 0 then "-" + NatToString(-i) else NatToString(i)
  }

  lemma {:induction false} NatToStringValue(n: nat)
    ensures DigitsValue(NatToString(n)) == n
  {
    var s := NatToString(n);
    if n >= 10 {
      NatToStringValue(n / 10);
      assert s[..|s| - 1] == NatToString(n / 10);
    }
  }

  lemma DigitRunOfDigits(s: string)
    requires AllDigits(s)
    ensures DigitRun(s) == |s|
  {
  }

  /** Printing an integer and parsing it back gives the integer: a user id
      put into an option's `value` comes back out of `parseInt` unchanged. */
  lemma ParseIntOfIntToString(i: int)
    ensures ParseInt(IntToString(i)) == Some(i)
  {
    var s := NatToString(if i < 0 then -i else i);
    NatToStringValue(if i < 0 then -i else i);
    DigitRunOfDigits(s);
    assert s[..|s|] == s;
    if i < 0 {
      assert IntToString(i) == "-" + s;
      assert Sign(IntToString(i)) == (true, s);
    } else {
      assert !IsDigit('-') && !IsDigit('+');
      assert s[0] != '-' && s[0] != '+';
      assert Sign(IntToString(i)) == (false, s);
    }
  }

  /** Without fraction digits the value is the whole part's. */
  lemma WholeDecimal(s: string)
    requires AllDigits(s)
    ensures DecimalValue(s, "") == DigitsValue(s) as real
  {
    assert DigitsValue("") == 0 && Pow10(0) == 1;
  }

  /** Text whose unsigned part is all digits is read whole by `parseFloat`:
      nothing follows the digits, so there is no fraction. */
  lemma ParseFloatOfDigits(t: string, negative: bool, s: string)
    requires |s| > 0 && AllDigits(s) && Sign(t) == (negative, s)
    ensures ParseFloat(t) == Some(if negative then -(DigitsValue(s) as real) else DigitsValue(s) as real)
  {
    DigitRunOfDigits(s);
    assert s[..|s|] == s;
    assert s[|s|..] == [];
    assert FractionDigits(s[|s|..]) == [];
    WholeDecimal(s);
  }

  /** `parseFloat` reads the same integer `parseInt` does from the printed
      form of an integer. */
  lemma ParseFloatOfIntToString(i: int)
    ensures ParseFloat(IntToString(i)) == Some(i as real)
  {
    var m: nat := if i < 0 then -i else i;
    NatToStringValue(m);
    var s := NatToString(m);
    if i < 0 {
      assert IntToString(i)[1..] == s;
      ParseFloatOfDigits(IntToString(i), true, s);
    } else {
      assert !IsDigit('-') && !IsDigit('+');
      assert s[0] != '-' && s[0] != '+';
      ParseFloatOfDigits(IntToString(i), false, s);
    }
  }

  /** The decimal text of an integer reads back as that number under
      `parseFloat(value) || 0`. */
  lemma ParseFloatOrZeroOfIntToString(i: int)
    ensures ParseFloatOrZero(IntToString(i)) == i as real
  {
    ParseFloatOfIntToString(i);
  }

  /** The empty text is `NaN` to both parsers. */
  lemma EmptyDoesNotParse()
    ensures ParseInt("") == None && ParseFloat("") == None
  {
  }
}
