/** The global `parseInt` with no radix argument, as the model-page extractor
    applies it to the trimmed "complete-set" text. A result that is NaN is
    `None`. */
module JsNumber {
  import opened Wrappers
  import opened JsString

  /** The value of a letter or digit as a digit of radix up to 36, or -1. */
  function DigitValue(c: char): (v: int)
    ensures -1 <= v < 36
    ensures IsDecimalDigit(c) <==> 0 <= v < 10
  {
    if IsDecimalDigit(c) then c as int - '0' as int
    else if IsAsciiLower(c) then c as int - 'a' as int + 10
    else if IsAsciiUpper(c) then c as int - 'A' as int + 10
    else -1
  }

  predicate IsRadixDigit(c: char, radix: nat) {
    0 <= DigitValue(c) < radix
  }

  /** The length of the longest prefix of `s` made of radix digits. */
  function DigitRun(s: string, radix: nat): (n: nat)
    ensures n <= |s|
    ensures forall i :: 0 <= i < n ==> IsRadixDigit(s[i], radix)
    ensures n == |s| || !IsRadixDigit(s[n], radix)
  {
    if |s| == 0 || !IsRadixDigit(s[0], radix) then 0
    else 1 + DigitRun(s[1..], radix)
  }

  /** The number a digit string denotes, most significant digit first. */
  function DigitsValue(d: string, radix: nat): (v: nat)
    requires forall i :: 0 <= i < |d| ==> IsRadixDigit(d[i], radix)
  {
    if |d| == 0 then 0
    else
      var init := d[..|d| - 1];
      assert forall i :: 0 <= i < |init| ==> init[i] == d[i];
      var high: nat := DigitsValue(init, radix);
      var low := DigitValue(d[|d| - 1]);
      assert IsRadixDigit(d[|d| - 1], radix);
      assert 0 <= high * radix by { NatProduct(high, radix); }
      high * radix + low
  }

  lemma NatProduct(a: nat, b: nat)
    ensures 0 <= a * b
  {
  }

  /** The sign `parseInt` reads from the first character. */
  function SignOf(t: string): int {
    if |t| > 0 && t[0] == '-' then -1 else 1
  }

  /** The text after an optional `+` or `-`. */
  function AfterSign(t: string): (u: string)
    ensures |u| <= |t| && u == t[|t| - |u|..]
  {
    if |t| > 0 && (t[0] == '-' || t[0] == '+') then t[1..] else t
  }

  predicate HasHexPrefix(u: string) {
    |u| >= 2 && u[0] == '0' && (u[1] == 'x' || u[1] == 'X')
  }

  /** The magnitude read after the sign: radix 16 after `0x` or `0X`,
      radix 10 otherwise; no digit at all is NaN. */
  function Magnitude(u: string): (r: Option<nat>)
    ensures r.Some? ==> |u| > 0 && IsDecimalDigit(u[0])
  {
    var radix := if HasHexPrefix(u) then 16 else 10;
    var body := if HasHexPrefix(u) then u[2..] else u;
    var n := DigitRun(body, radix);
    if n == 0 then None else Some(DigitsValue(body[..n], radix))
  }

  /** `parseInt(s)`: skip leading white space, take one optional sign, then
      read the magnitude; whatever follows the digits is ignored. */
  function ParseInt(s: string): (r: Option<int>)
    ensures r.Some? ==> |AfterSign(TrimStart(s))| > 0 && IsDecimalDigit(AfterSign(TrimStart(s))[0])
    ensures r.Some? && r.value < 0 ==> |TrimStart(s)| > 0 && TrimStart(s)[0] == '-'
    ensures r.Some? ==> HasDigit(s)
  {
    var t := TrimStart(s);
    var u := AfterSign(t);
    assert u == s[|s| - |u|..];
    assert |u| > 0 ==> s[|s| - |u|] == u[0];
    match Magnitude(AfterSign(t))
    case Some(m) => Some(SignOf(t) * m)
    case None => None
  }

  /** Some character of `s` is a decimal digit. */
  predicate HasDigit(s: string) {
    exists i :: 0 <= i < |s| && IsDecimalDigit(s[i])
  }

  /** `trim` only removes white space, so it keeps every digit. */
  lemma TrimKeepsDigit(text: string)
    requires HasDigit(Trim(text))
    ensures HasDigit(text)
  {
    var ts := TrimStart(text);
    var t := TrimEnd(ts);
    assert t == Trim(text);
    var j :| 0 <= j < |t| && IsDecimalDigit(t[j]);
    var a := |text| - |ts|;
    assert t[j] == ts[j] == text[a + j];
  }

  /** The decimal numeral of `n`, without leading zeros. */
  function Decimal(n: nat): (d: string)
    ensures |d| > 0
    ensures forall i :: 0 <= i < |d| ==> IsDecimalDigit(d[i])
    ensures |d| > 1 ==> d[0] != '0'
  {
    if n < 10 then [('0' as int + n) as char]
    else Decimal(n / 10) + [('0' as int + n % 10) as char]
  }

  lemma {:induction false} DecimalValue(n: nat)
    ensures forall i :: 0 <= i < |Decimal(n)| ==> IsRadixDigit(Decimal(n)[i], 10)
    ensures DigitsValue(Decimal(n), 10) == n
  {
    var d := Decimal(n);
    if n >= 10 {
      DecimalValue(n / 10);
      assert d[..|d| - 1] == Decimal(n / 10);
    }
  }

  /** A decimal numeral is read as its value, whatever non-digit text
      follows it (except an `x` right after a lone `0`). */
  lemma MagnitudeOfDecimal(n: nat, rest: string)
    requires rest == [] || !IsDecimalDigit(rest[0])
    requires n == 0 && |rest| > 0 ==> rest[0] != 'x' && rest[0] != 'X'
    ensures Magnitude(Decimal(n) + rest) == Some(n)
  {
    var d := Decimal(n);
    var u := d + rest;
    assert !HasHexPrefix(u) by {
      if |d| > 1 {
        assert u[1] == d[1];
      } else if |u| >= 2 {
        assert u[1] == rest[0];
        assert d[0] == '0' ==> n == 0;
      }
    }
    DecimalValue(n);
    DigitRunOfDigits(d, rest, 10);
    assert u[..|d|] == d;
  }

  /** Leading white space and one sign character are skipped before the
      magnitude is read. */
  lemma {:induction false} ParseIntSkipsSpaceAndSign(ws: string, sign: string, u: string)
    requires AllSpace(ws)
    requires sign == "" || sign == "+" || sign == "-"
    requires sign == "" ==> u == [] || (!IsSpace(u[0]) && u[0] != '+' && u[0] != '-')
    ensures ParseInt(ws + sign + u) ==
      match Magnitude(u)
      case Some(m) => Some((if sign == "-" then -1 else 1) * m)
      case None => None
  {
    var t := sign + u;
    assert ws + sign + u == ws + t;
    SignedTextStartsTrimmed(sign, u);
    TrimStartSkips(ws, t);
    assert TrimStart(ws + sign + u) == t;
    SignIsRead(sign, u);
  }

  lemma SignedTextStartsTrimmed(sign: string, u: string)
    requires sign == "" || sign == "+" || sign == "-"
    requires sign == "" ==> u == [] || (!IsSpace(u[0]) && u[0] != '+' && u[0] != '-')
    ensures sign + u == [] || !IsSpace((sign + u)[0])
  {
    if sign != "" {
      assert (sign + u)[0] == sign[0];
    }
  }

  lemma SignIsRead(sign: string, u: string)
    requires sign == "" || sign == "+" || sign == "-"
    requires sign == "" ==> u == [] || (u[0] != '+' && u[0] != '-')
    ensures AfterSign(sign + u) == u
    ensures SignOf(sign + u) == if sign == "-" then -1 else 1
  {
    if sign != "" {
      assert (sign + u)[0] == sign[0];
      assert (sign + u)[1..] == u;
    } else {
      assert sign + u == u;
    }
  }

  /** A decimal numeral after optional white space and sign is read back,
      and whatever non-digit text follows the digits is ignored, except an
      `x` or `X` right after a lone `0`, which switches to radix 16. */
  lemma ParseIntReadsDecimal(ws: string, sign: string, n: nat, rest: string)
    requires AllSpace(ws)
    requires sign == "" || sign == "+" || sign == "-"
    requires rest == [] || !IsDecimalDigit(rest[0])
    requires n == 0 && |rest| > 0 ==> rest[0] != 'x' && rest[0] != 'X'
    ensures ParseInt(ws + sign + Decimal(n) + rest) == Some((if sign == "-" then -1 else 1) * n)
  {
    var u := Decimal(n) + rest;
    assert ws + sign + Decimal(n) + rest == ws + sign + u;
    assert u[0] == Decimal(n)[0];
    ParseIntSkipsSpaceAndSign(ws, sign, u);
    MagnitudeOfDecimal(n, rest);
  }

  /** A decimal numeral at the very start of the text is read back. */
  lemma ParseIntOfDecimal(n: nat, rest: string)
    requires rest == [] || !IsDecimalDigit(rest[0])
    requires n == 0 && |rest| > 0 ==> rest[0] != 'x' && rest[0] != 'X'
    ensures ParseInt(Decimal(n) + rest) == Some(n)
  {
    var u := Decimal(n) + rest;
    assert IsDecimalDigit(u[0]) by { assert u[0] == Decimal(n)[0]; }
    MagnitudeOfDecimal(n, rest);
    ParseIntOfUnsigned(u, n);
  }

  /** A text that starts with a digit has no blank and no sign to skip. */
  lemma ParseIntOfUnsigned(u: string, m: nat)
    requires |u| > 0 && IsDecimalDigit(u[0])
    requires Magnitude(u) == Some(m)
    ensures ParseInt(u) == Some(m)
  {
    assert !IsSpace(u[0]) && u[0] != '-' && u[0] != '+';
    assert TrimStart(u) == u;
    assert AfterSign(u) == u;
    assert SignOf(u) == 1;
  }

  /** The run of digits stops at the first character that is not one. */
  lemma {:induction false} DigitRunOfDigits(d: string, rest: string, radix: nat)
    requires forall i :: 0 <= i < |d| ==> IsRadixDigit(d[i], radix)
    requires rest == [] || !IsRadixDigit(rest[0], radix)
    ensures DigitRun(d + rest, radix) == |d|
    decreases |d|
  {
    if |d| > 0 {
      assert (d + rest)[1..] == d[1..] + rest;
      DigitRunOfDigits(d[1..], rest, radix);
    } else {
      assert d + rest == rest;
    }
  }

  /** No digit after the optional sign: the result is NaN, not a failure. */
  lemma ParseIntWithoutDigits(ws: string, sign: string, rest: string)
    requires AllSpace(ws)
    requires sign == "" || sign == "+" || sign == "-"
    requires rest == [] || !IsDecimalDigit(rest[0])
    requires sign == "" ==> rest == [] || (!IsSpace(rest[0]) && rest[0] != '+' && rest[0] != '-')
    ensures ParseInt(ws + sign + rest) == None
  {
    ParseIntSkipsSpaceAndSign(ws, sign, rest);
    assert !HasHexPrefix(rest);
  }

  /** A count followed by a unit, as in "12 шт", reads as the count. */
  lemma TrailingTextExample(n: nat, rest: string)
    requires n == 12 && rest == " шт"
    ensures ParseInt(Decimal(n) + rest) == Some(12)
  {
    ParseIntOfDecimal(n, rest);
  }

  lemma HexMagnitude()
    ensures Magnitude("0x1A") == Some(26)
  {
    var u := "0x1A";
    assert HasHexPrefix(u);
    assert u[2..] == "1A";
    DigitRunOfDigits("1A", "", 16);
    assert "1A" + "" == "1A";
    assert "1A"[..2] == "1A";
    assert DigitsValue("1A", 16) == 26 by {
      assert "1A"[..1] == "1";
      assert "1"[..0] == "";
    }
  }

  /** The `0x` prefix switches to radix 16. */
  lemma HexExample()
    ensures ParseInt("0x1A") == Some(26)
  {
    ParseIntSkipsSpaceAndSign("", "", "0x1A");
    assert "" + "" + "0x1A" == "0x1A";
    HexMagnitude();
  }
}
