/** The JavaScript numeric conversions the pages rely on: `parseInt(s)` with
    no radix argument, and `Number(s)` on a string. Values are exact: the
    rounding of a double is not modelled. */
module JsNumbers {
  import opened JsStrings
  import opened Options

  /** The value of a digit character in bases up to 16; 99 for any other
      character. */
  function DigitValue(c: char): (d: nat)
    ensures IsDigit(c) ==> d == c as int - '0' as int
    ensures d < 10 <==> IsDigit(c)
  {
    if '0' <= c <= '9' then c as int - '0' as int
    else if 'a' <= c <= 'f' then c as int - 'a' as int + 10
    else if 'A' <= c <= 'F' then c as int - 'A' as int + 10
    else 99
  }

  predicate IsRadixDigit(c: char, radix: nat) {
    DigitValue(c) < radix
  }

  predicate AllRadixDigits(s: string, radix: nat) {
    forall i :: 0 <= i < |s| ==> IsRadixDigit(s[i], radix)
  }

  /** The positional value of a string of digits, most significant first. */
  function Value(z: string, radix: nat): (v: nat)
  {
    if z == [] then 0 else Value(z[..|z| - 1], radix) * radix + DigitValue(z[|z| - 1])
  }

  /** Appending a digit shifts the value by one place. */
  lemma ValueSnoc(z: string, c: char, radix: nat)
    ensures Value(z + [c], radix) == Value(z, radix) * radix + DigitValue(c)
  {
    assert (z + [c])[..|z|] == z;
  }

  /** A run of `k` zero digits. */
  function Zeros(k: nat): string {
    if k == 0 then [] else Zeros(k - 1) + ['0']
  }

  function Power(b: nat, k: nat): nat {
    if k == 0 then 1 else Power(b, k - 1) * b
  }

  /** Trailing zeros multiply the value by a power of the radix. */
  lemma {:induction false} TrailingZerosValue(z: string, k: nat, radix: nat)
    ensures Value(z + Zeros(k), radix) == Value(z, radix) * Power(radix, k)
  {
    if k == 0 {
      assert z + Zeros(k) == z;
    } else {
      var y := z + Zeros(k - 1);
      ZerosSnoc(z, k);
      TrailingZerosValue(z, k - 1, radix);
      ShiftByZero(y, radix);
      Regroup(Value(z, radix), Power(radix, k - 1), radix);
    }
  }

  lemma ZerosSnoc(z: string, k: nat)
    requires k > 0
    ensures z + Zeros(k) == (z + Zeros(k - 1)) + ['0']
  {
  }

  /** A trailing zero digit multiplies the value by the radix. */
  lemma ShiftByZero(y: string, radix: nat)
    ensures Value(y + ['0'], radix) == Value(y, radix) * radix
  {
    ValueSnoc(y, '0', radix);
  }

  lemma Regroup(v: nat, p: nat, radix: nat)
    ensures v * p * radix == v * (p * radix)
  {
  }

  /** The value of a decimal digit string. */
  function DecimalValue(z: string): nat {
    Value(z, 10)
  }

  /** The longest prefix of `v` made of digits of the given radix. */
  function DigitPrefix(v: string, radix: nat): (r: string)
    ensures |r| <= |v|
  {
    if v != [] && IsRadixDigit(v[0], radix) then [v[0]] + DigitPrefix(v[1..], radix) else []
  }

  /** The digit run is a prefix, made of digits, and the character after it
      (if any) is not a digit. */
  lemma {:induction false} DigitPrefixSpec(v: string, radix: nat)
    ensures DigitPrefix(v, radix) == v[..|DigitPrefix(v, radix)|]
    ensures AllRadixDigits(DigitPrefix(v, radix), radix)
    ensures |DigitPrefix(v, radix)| < |v| ==> !IsRadixDigit(v[|DigitPrefix(v, radix)|], radix)
  {
    if v != [] && IsRadixDigit(v[0], radix) {
      DigitPrefixSpec(v[1..], radix);
      var r := DigitPrefix(v, radix);
      assert v[..|r|] == [v[0]] + v[1..][..|r| - 1];
    }
  }

  /** The digit run stops where the digits stop. */
  lemma {:induction false} DigitPrefixStops(d: string, rest: string, radix: nat)
    requires AllRadixDigits(d, radix)
    requires rest == [] || !IsRadixDigit(rest[0], radix)
    ensures DigitPrefix(d + rest, radix) == d
  {
    if d == [] {
      assert d + rest == rest;
    } else {
      assert (d + rest)[0] == d[0] && (d + rest)[1..] == d[1..] + rest;
      DigitPrefixStops(d[1..], rest, radix);
    }
  }

  /** A decimal digit string is a string of radix-10 digits. */
  lemma DecimalDigits(d: string)
    requires AllDigits(d)
    ensures AllRadixDigits(d, 10)
  {
    assert forall i :: 0 <= i < |d| ==> DigitValue(d[i]) < 10;
  }

  /** What `parseInt` reads after the sign: a `0x` or `0X` prefix switches
      to base 16, then the longest run of digits is taken; `None` is NaN. */
  function UnsignedParse(u: string): Option<nat> {
    var hex := |u| >= 2 && u[0] == '0' && (u[1] == 'x' || u[1] == 'X');
    var radix := if hex then 16 else 10;
    var z := DigitPrefix(if hex then u[2..] else u, radix);
    if z == [] then None else Some(Value(z, radix))
  }

  /** `parseInt` on text with no leading whitespace: an optional sign, then
      the unsigned part. */
  function ParseIntTrimmed(t: string): Option<int> {
    var negative := t != [] && t[0] == '-';
    var u := if t != [] && (t[0] == '-' || t[0] == '+') then t[1..] else t;
    match UnsignedParse(u)
    case None => None
    case Some(n) => Some(if negative then -(n as int) else n)
  }

  /** `parseInt(s)` as ECMAScript defines it for an absent radix: skip
      leading whitespace, then read a signed integer. JavaScript
      distinguishes -0 from 0; the model does not. */
  function ParseInt(s: string): Option<int> {
    ParseIntTrimmed(TrimStart(s))
  }

  /** A run of decimal digits followed by a non-digit is read as that run,
      unless it is a lone 0 followed by `x`, which starts a hexadecimal
      number. */
  lemma UnsignedParseStops(d: string, rest: string)
    requires d != [] && AllDigits(d)
    requires rest == [] || !IsDigit(rest[0])
    requires !(d == "0" && rest != [] && (rest[0] == 'x' || rest[0] == 'X'))
    ensures UnsignedParse(d + rest) == Some(DecimalValue(d))
  {
    var u := d + rest;
    assert u[0] == d[0];
    assert |d| >= 2 ==> u[1] == d[1];
    assert |d| == 1 && rest != [] ==> u[1] == rest[0];
    assert |d| == 1 && d[0] == '0' ==> d == "0";
    DecimalDigits(d);
    DigitPrefixStops(d, rest, 10);
  }

  /** Reading stops at the first character that is not a digit: `parseInt`
      of "4 orang" or "1.5" is the leading number. */
  lemma ParseIntStopsAtNonDigit(d: string, rest: string)
    requires d != [] && AllDigits(d)
    requires rest == [] || !IsDigit(rest[0])
    requires !(d == "0" && rest != [] && (rest[0] == 'x' || rest[0] == 'X'))
    ensures ParseInt(d + rest) == Some(DecimalValue(d))
  {
    var t := d + rest;
    assert t[0] == d[0] && !IsWhitespace(t[0]);
    assert TrimStart(t) == t;
    UnsignedParseStops(d, rest);
  }

  /** On a non-empty decimal digit string `parseInt` gives its value. */
  lemma ParseIntDigits(s: string)
    requires s != [] && AllDigits(s)
    ensures ParseInt(s) == Some(DecimalValue(s))
  {
    ParseIntStopsAtNonDigit(s, []);
    assert s + [] == s;
  }

  /** Leading whitespace is skipped. */
  lemma ParseIntSkipsWhitespace(w: string, s: string)
    requires AllWhitespace(w)
    ensures ParseInt(w + s) == ParseInt(s)
  {
    TrimStartSkips(w, s);
  }

  /** A leading minus sign negates the digits after it. */
  lemma ParseIntNegative(d: string)
    requires d != [] && AllDigits(d)
    ensures ParseInt(['-'] + d) == Some(-(DecimalValue(d) as int))
  {
    var t := ['-'] + d;
    assert TrimStart(t) == t;
    assert t[1..] == d;
    UnsignedParseStops(d, []);
    assert d + [] == d;
  }

  /** Text that starts with anything but whitespace, a sign or a digit is
      NaN; so is the empty string. */
  lemma ParseIntNaN(s: string)
    requires s != [] && !IsWhitespace(s[0]) && !IsDigit(s[0]) && s[0] != '-' && s[0] != '+'
    ensures ParseInt(s) == None
  {
    assert TrimStart(s) == s;
    assert DigitValue(s[0]) >= 10;
  }

  lemma ParseIntEmpty()
    ensures ParseInt("") == None
  {
  }

  /** The result of `Number(s)`; `Infinite` carries the sign. */
  datatype JsNumber = Finite(r: real) | Infinite(negative: bool) | NaN

  /** 10 raised to an integer power. */
  function Pow10(k: int): (p: real)
    ensures p > 0.0
    decreases if k < 0 then -k else k
  {
    if k == 0 then 1.0
    else if k > 0 then 10.0 * Pow10(k - 1)
    else Pow10(k + 1) / 10.0
  }

  /** An optionally signed decimal integer covering the whole string, as in
      the exponent of a numeric literal. */
  function SignedInteger(w: string): Option<int> {
    var negative := w != [] && w[0] == '-';
    var d := if w != [] && (w[0] == '-' || w[0] == '+') then w[1..] else w;
    var n: int := DecimalValue(d);
    if d != [] && AllRadixDigits(d, 10) then Some(if negative then -n else n)
    else None
  }

  /** The value of the digits before and after the decimal point. */
  function Mantissa(ip: string, fp: string): real {
    DecimalValue(ip) as real + DecimalValue(fp) as real / Pow10(|fp|)
  }

  /** What may follow the mantissa: nothing, or an exponent. */
  function WithExponent(m: real, r: string): Option<real> {
    if r == [] then Some(m)
    else if r[0] == 'e' || r[0] == 'E' then
      match SignedInteger(r[1..])
      case Some(k) => Some(m * Pow10(k))
      case None => None
    else None
  }

  /** An unsigned decimal literal covering the whole string: digits, an
      optional fraction after `.`, an optional exponent after `e` or `E`,
      with at least one digit before the exponent. */
  function UnsignedDecimal(u: string): Option<real> {
    var ip := DigitPrefix(u, 10);
    var r1 := u[|ip|..];
    var dot := r1 != [] && r1[0] == '.';
    var fp := if dot then DigitPrefix(r1[1..], 10) else [];
    var r2 := if dot then r1[1 + |fp|..] else r1;
    if ip == [] && fp == [] then None else WithExponent(Mantissa(ip, fp), r2)
  }

  /** The base a `0x`, `0o` or `0b` prefix selects; 0 for any other
      character. */
  function PrefixRadix(c: char): nat {
    if c == 'x' || c == 'X' then 16
    else if c == 'o' || c == 'O' then 8
    else if c == 'b' || c == 'B' then 2
    else 0
  }

  /** The digits after a `0x`, `0o` or `0b` prefix, which must all be digits
      of that base. */
  function NonDecimalInteger(rest: string, radix: nat): JsNumber {
    if rest != [] && AllRadixDigits(rest, radix) then Finite(Value(rest, radix) as real) else NaN
  }

  /** A signed decimal literal or `Infinity`. */
  function SignedDecimal(t: string): JsNumber
    requires t != []
  {
    var negative := t[0] == '-';
    var u := if t[0] == '-' || t[0] == '+' then t[1..] else t;
    if u == "Infinity" then Infinite(negative)
    else match UnsignedDecimal(u)
      case Some(m) => Finite(if negative then -m else m)
      case None => NaN
  }

  /** `Number` on text with no surrounding whitespace. */
  function TrimmedToNumber(t: string): JsNumber {
    if t == [] then Finite(0.0)
    else if |t| >= 2 && t[0] == '0' && PrefixRadix(t[1]) != 0 then NonDecimalInteger(t[2..], PrefixRadix(t[1]))
    else SignedDecimal(t)
  }

  /** `Number(s)` on a string, as ECMAScript's StringToNumber defines it:
      surrounding whitespace is ignored, the empty string is 0, `0x`, `0o`
      and `0b` introduce unsigned integers in bases 16, 8 and 2, and anything
      else must be a signed decimal literal or `Infinity`. */
  function ToNumber(s: string): JsNumber {
    TrimmedToNumber(Trim(s))
  }

  /** A whole decimal digit string is an unsigned literal with its own value. */
  lemma UnsignedDecimalDigits(s: string)
    requires s != [] && AllDigits(s)
    ensures UnsignedDecimal(s) == Some(DecimalValue(s) as real)
  {
    DecimalDigits(s);
    DigitPrefixStops(s, [], 10);
    assert s + [] == s;
    assert s[|s|..] == [];
  }

  /** Digits, a point and digits make a literal with that fraction. */
  lemma UnsignedDecimalFraction(d1: string, d2: string)
    requires d1 != [] && AllDigits(d1) && AllDigits(d2)
    ensures UnsignedDecimal(d1 + ['.'] + d2) == Some(Mantissa(d1, d2))
  {
    var u := d1 + ['.'] + d2;
    DecimalDigits(d1);
    DecimalDigits(d2);
    assert u == d1 + (['.'] + d2);
    DigitPrefixStops(d1, ['.'] + d2, 10);
    assert DigitPrefix(u, 10) == d1;
    var r1 := u[|d1|..];
    assert r1 == ['.'] + d2;
    assert r1[1..] == d2 + [];
    DigitPrefixStops(d2, [], 10);
    assert DigitPrefix(r1[1..], 10) == d2;
    assert r1[1 + |d2|..] == [];
  }

  /** `Number` on a non-empty decimal digit string gives its value. */
  lemma ToNumberDigits(s: string)
    requires s != [] && AllDigits(s)
    ensures ToNumber(s) == Finite(DecimalValue(s) as real)
  {
    TrimNonBlankEnds(s);
    assert |s| >= 2 ==> PrefixRadix(s[1]) == 0;
    assert s[0] != '-' && s[0] != '+' && s[0] != "Infinity"[0];
    UnsignedDecimalDigits(s);
  }

  /** `Number` reads a decimal fraction exactly. */
  lemma ToNumberFraction(d1: string, d2: string)
    requires d1 != [] && AllDigits(d1) && AllDigits(d2)
    ensures ToNumber(d1 + ['.'] + d2) == Finite(Mantissa(d1, d2))
  {
    var t := d1 + ['.'] + d2;
    assert t[0] == d1[0];
    assert t[|t| - 1] == if d2 == [] then '.' else d2[|d2| - 1];
    TrimNonBlankEnds(t);
    assert t[1] == if |d1| >= 2 then d1[1] else '.';
    assert t[0] != '-' && t[0] != '+' && t[0] != "Infinity"[0];
    UnsignedDecimalFraction(d1, d2);
  }

  /** A leading minus sign negates the number. */
  lemma ToNumberNegative(d: string)
    requires d != [] && AllDigits(d)
    ensures ToNumber(['-'] + d) == Finite(-(DecimalValue(d) as real))
  {
    var t := ['-'] + d;
    assert t[|t| - 1] == d[|d| - 1];
    TrimNonBlankEnds(t);
    assert t[1..] == d;
    assert d[0] != "Infinity"[0];
    UnsignedDecimalDigits(d);
  }

  /** Text after the digits that is not a fraction or an exponent makes the
      whole string NaN: `Number("12abc")` is NaN. */
  lemma ToNumberTrailingText(d: string, rest: string)
    requires d != [] && AllDigits(d)
    requires rest != [] && !IsDigit(rest[0]) && rest[0] != '.' && rest[0] != 'e' && rest[0] != 'E'
    requires PrefixRadix(rest[0]) == 0 && !IsWhitespace(rest[|rest| - 1])
    ensures ToNumber(d + rest) == NaN
  {
    var t := d + rest;
    assert t[0] == d[0] && t[|t| - 1] == rest[|rest| - 1];
    TrimNonBlankEnds(t);
    assert t[1] == if |d| >= 2 then d[1] else rest[0];
    assert t[0] != '-' && t[0] != '+' && t[0] != "Infinity"[0];
    DecimalDigits(d);
    DigitPrefixStops(d, rest, 10);
    assert t[|d|..] == rest;
  }

  /** Blank text, the empty string included, is 0. */
  lemma ToNumberBlank(s: string)
    requires AllWhitespace(s)
    ensures ToNumber(s) == Finite(0.0)
  {
    TrimEmptyIff(s);
  }

  /** Leading whitespace is ignored. */
  lemma ToNumberLeadingBlanks(w: string, s: string)
    requires AllWhitespace(w)
    ensures ToNumber(w + s) == ToNumber(s)
  {
    TrimStartSkips(w, s);
  }

  /** `0x` followed by hexadecimal digits reads them in base 16. */
  lemma ToNumberHex(h: string)
    requires h != [] && AllRadixDigits(h, 16)
    ensures ToNumber(['0', 'x'] + h) == Finite(Value(h, 16) as real)
  {
    var t := ['0', 'x'] + h;
    assert DigitValue(h[|h| - 1]) < 16;
    assert t[|t| - 1] == h[|h| - 1];
    TrimNonBlankEnds(t);
    assert t[2..] == h;
  }
}
