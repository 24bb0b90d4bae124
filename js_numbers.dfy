/** The three pieces of JavaScript number handling the listing endpoint
    relies on: the global `parseInt` called without a radix, the decimal
    text of an integer-valued Number (template-literal interpolation), and
    `Math.ceil` of a quotient. Numbers are modelled as unbounded integers;
    `None` stands for NaN. */
module JsNumbers {
  import opened Base

  /** The white space `parseInt` skips before the number: the ECMAScript
      WhiteSpace and LineTerminator characters. */
  predicate IsWhiteSpace(c: char)
  {
    c == '\t' || c == '\n' || c == '\U{B}' || c == '\U{C}' || c == '\r' || c == ' '
    || c == '\U{A0}' || c == '\U{1680}' || ('\U{2000}' <= c <= '\U{200A}')
    || c == '\U{2028}' || c == '\U{2029}' || c == '\U{202F}' || c == '\U{205F}'
    || c == '\U{3000}' || c == '\U{FEFF}'
  }

  /** `s` without its leading white space. */
  function TrimStart(s: string): (r: string)
    ensures |r| <= |s| && r == s[|s| - |r|..]
    ensures r == [] || !IsWhiteSpace(r[0])
    ensures forall i :: 0 <= i < |s| - |r| ==> IsWhiteSpace(s[i])
  {
    if |s| > 0 && IsWhiteSpace(s[0]) then TrimStart(s[1..]) else s
  }

  /** The value of `c` as a digit in base `radix` (at most 36), if it is one. */
  function DigitValue(c: char, radix: nat): (v: Option<nat>)
    ensures v.Some? ==> v.value < radix
    ensures radix == 10 ==> (v.Some? <==> '0' <= c <= '9')
  {
    var d := if '0' <= c <= '9' then c as int - '0' as int
             else if 'a' <= c <= 'z' then c as int - 'a' as int + 10
             else if 'A' <= c <= 'Z' then c as int - 'A' as int + 10
             else 36;
    if d < radix then Some(d) else None
  }

  predicate AllDigits(s: string, radix: nat)
  {
    forall i :: 0 <= i < |s| ==> DigitValue(s[i], radix).Some?
  }

  /** Length of the longest prefix of `s` made of base-`radix` digits. */
  function DigitRun(s: string, radix: nat): (n: nat)
    ensures n <= |s| && AllDigits(s[..n], radix)
    ensures n < |s| ==> DigitValue(s[n], radix).None?
  {
    if |s| > 0 && DigitValue(s[0], radix).Some? then
      var n := 1 + DigitRun(s[1..], radix);
      assert s[..n] == [s[0]] + s[1..][..n - 1];
      n
    else 0
  }

  /** Positional value of a digit string, most significant digit first. */
  function DigitsValue(s: string, radix: nat): (v: nat)
    requires AllDigits(s, radix)
  {
    if s == [] then 0
    else DigitsValue(s[..|s| - 1], radix) * radix + DigitValue(s[|s| - 1], radix).value
  }

  /** `parseInt(s)` without a radix: skip leading white space, take an
      optional sign, then read the unsigned part; no digit at all gives
      NaN (`None`). A negative zero is the integer 0 here. */
  function ParseInt(s: string): (n: Option<int>)
  {
    ParseSigned(TrimStart(s))
  }

  /** `parseInt` after the white space: an optional sign, then the
      unsigned part. */
  function ParseSigned(t: string): (n: Option<int>)
  {
    if |t| > 0 && t[0] == '-' then
      match ParseUnsigned(t[1..])
      case None => None
      case Some(v) => Some(-v)
    else if |t| > 0 && t[0] == '+' then ParseUnsigned(t[1..])
    else ParseUnsigned(t)
  }

  /** The unsigned part of `parseInt`: base 16 after a `0x`/`0X` prefix,
      base 10 otherwise, then the longest run of digits of that base. */
  function ParseUnsigned(u: string): (n: Option<int>)
  {
    var hex := |u| >= 2 && u[0] == '0' && (u[1] == 'x' || u[1] == 'X');
    var radix := if hex then 16 else 10;
    var digits := if hex then u[2..] else u;
    var n := DigitRun(digits, radix);
    if n == 0 then None else Some(DigitsValue(digits[..n], radix))
  }

  function DigitChar(d: nat): (c: char)
    requires d < 10
    ensures DigitValue(c, 10) == Some(d)
  {
    ('0' as int + d) as char
  }

  /** Decimal digits of `n`, without leading zeros. */
  function NatToDecimal(n: nat): (s: string)
    ensures |s| >= 1 && AllDigits(s, 10)
    ensures |s| > 1 ==> s[0] != '0'
  {
    if n < 10 then [DigitChar(n)] else NatToDecimal(n / 10) + [DigitChar(n % 10)]
  }

  /** The text of an integer-valued Number, as `${n}` produces it. */
  function IntToString(n: int): (s: string)
    ensures |s| >= 1 && (n < 0 <==> s[0] == '-')
  {
    if n < 0 then "-" + NatToDecimal(-n) else NatToDecimal(n)
  }

  /** `Math.ceil(a / b)` for a count `a` and a non-zero divisor `b`: the
      least integer not below the real quotient. */
  function CeilDiv(a: nat, b: int): (q: int)
    requires b != 0
    ensures b > 0 ==> (q - 1) * b < a <= q * b
    ensures b < 0 ==> q * b <= a < (q - 1) * b
  {
    if b > 0 then
      var q := (a + b - 1) / b;
      assert q * b <= a + b - 1 < q * b + b;
      q
    else
      var q := -(a / -b);
      assert a / -b * -b <= a < a / -b * -b - b;
      q
  }

  lemma {:induction false} DecimalValue(n: nat)
    ensures DigitsValue(NatToDecimal(n), 10) == n
  {
    if n >= 10 {
      var s := NatToDecimal(n);
      assert s[..|s| - 1] == NatToDecimal(n / 10);
      DecimalValue(n / 10);
    }
  }

  lemma {:induction false} DigitRunStops(d: string, rest: string, radix: nat)
    requires AllDigits(d, radix)
    requires rest == [] || DigitValue(rest[0], radix).None?
    ensures DigitRun(d + rest, radix) == |d|
  {
    if d != [] {
      assert (d + rest)[1..] == d[1..] + rest;
      DigitRunStops(d[1..], rest, radix);
    } else if rest != [] {
      assert (d + rest)[0] == rest[0];
    }
  }

  /** `parseInt` reads back the decimal text of any integer, and stops at
      the first character that cannot continue it (so `"2.5"` gives 2). */
  lemma ParseIntOfDecimalText(n: int, rest: string)
    requires rest == [] || (!('0' <= rest[0] <= '9') && !(n == 0 && (rest[0] == 'x' || rest[0] == 'X')))
    ensures ParseInt(IntToString(n) + rest) == Some(n)
  {
    var s := IntToString(n) + rest;
    if n < 0 {
      NegativeText(n, rest);
      NegativeParses(s, -n, rest);
    } else {
      PositiveParses(s, n, rest);
    }
  }

  /** The text of a negative integer is a minus sign before its magnitude. */
  lemma NegativeText(n: int, rest: string)
    requires n < 0
    ensures IntToString(n) + rest == "-" + (NatToDecimal(-n) + rest)
  {
    var d := NatToDecimal(-n);
    assert IntToString(n) == "-" + d;
    assert ("-" + d) + rest == "-" + (d + rest);
  }

  lemma PositiveParses(s: string, m: nat, rest: string)
    requires rest == [] || (!('0' <= rest[0] <= '9') && !(m == 0 && (rest[0] == 'x' || rest[0] == 'X')))
    requires s == NatToDecimal(m) + rest
    ensures ParseInt(s) == Some(m)
  {
    var d := NatToDecimal(m);
    ParseUnsignedOfDecimalText(m, rest);
    assert '0' <= d[0] <= '9' by {
      assert DigitValue(d[0], 10).Some?;
    }
    assert s[0] == d[0];
    SignedDigit(s);
    NoLeadingSpace(s);
  }

  lemma NegativeParses(s: string, m: nat, rest: string)
    requires rest == [] || (!('0' <= rest[0] <= '9') && !(m == 0 && (rest[0] == 'x' || rest[0] == 'X')))
    requires s == "-" + (NatToDecimal(m) + rest)
    ensures ParseInt(s).Some? && ParseInt(s).value == -(m as int)
  {
    var u := NatToDecimal(m) + rest;
    ParseUnsignedOfDecimalText(m, rest);
    SignedMinus(u, m);
    NoLeadingSpace(s);
  }

  lemma SignedMinus(u: string, v: nat)
    requires ParseUnsigned(u) == Some(v)
    ensures ParseSigned("-" + u).Some? && ParseSigned("-" + u).value == -(v as int)
  {
    assert ("-" + u)[1..] == u;
  }

  lemma SignedDigit(s: string)
    requires |s| > 0 && '0' <= s[0] <= '9'
    ensures ParseSigned(s) == ParseUnsigned(s)
  {
  }

  /** Text that starts with a sign or a digit has no white space to skip. */
  lemma NoLeadingSpace(s: string)
    requires |s| > 0 && (s[0] == '-' || '0' <= s[0] <= '9')
    ensures TrimStart(s) == s
  {
    assert !IsWhiteSpace(s[0]);
  }

  lemma ParseUnsignedOfDecimalText(m: nat, rest: string)
    requires rest == [] || (!('0' <= rest[0] <= '9') && !(m == 0 && (rest[0] == 'x' || rest[0] == 'X')))
    ensures ParseUnsigned(NatToDecimal(m) + rest) == Some(m)
  {
    var d := NatToDecimal(m);
    var u := d + rest;
    if |u| >= 2 && u[0] == '0' {
      assert |d| == 1 && u[1] == rest[0];
    }
    DigitRunStops(d, rest, 10);
    assert u[..|d|] == d;
    DecimalValue(m);
  }

  /** Distinct integers have distinct decimal texts. */
  lemma IntToStringInjective(m: int, n: int)
    requires IntToString(m) == IntToString(n)
    ensures m == n
  {
    ParseIntOfDecimalText(m, []);
    ParseIntOfDecimalText(n, []);
    assert IntToString(m) + [] == IntToString(n) + [];
  }
}
