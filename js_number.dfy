/** The JavaScript number conversions the program relies on: `Number(string)`,
    `parseInt(string)`, `String(n)` for integers, `Math.min`, `Math.round` of a
    non-negative ratio and the end index of `Array.prototype.slice(0, end)`. */
module JsNumber {
  import opened Wrappers
  import opened Text

  /** A JavaScript number: NaN, an infinity, or a finite value (modelled
      exactly, without rounding to a double). */
  datatype Num = NaN | Infinity(positive: bool) | Finite(v: real)

  predicate IsFinite(n: Num) {
    n.Finite?
  }

  predicate IsDigit(c: char) {
    '0' <= c <= '9'
  }

  predicate AllDigits(s: string) {
    forall i :: 0 <= i < |s| ==> IsDigit(s[i])
  }

  function DigitValue(c: char): nat
    requires IsDigit(c)
  {
    c as int - '0' as int
  }

  /** The value of a string of decimal digits, most significant first. */
  function DigitsValue(s: string): nat
    requires AllDigits(s)
  {
    if s == [] then 0 else DigitsValue(s[..|s| - 1]) * 10 + DigitValue(s[|s| - 1])
  }

  /** The value of the digits after a decimal point: `0.d1d2...`. */
  function FractionValue(s: string): real
    requires AllDigits(s)
  {
    if s == [] then 0.0 else (DigitValue(s[0]) as real + FractionValue(s[1..])) / 10.0
  }

  /** An unsigned decimal literal: digits, optionally a point and more digits,
      with at least one digit in all. */
  function UnsignedDecimal(u: string): Option<real> {
    match IndexOf(u, '.')
    case None =>
      if u != [] && AllDigits(u) then Some(DigitsValue(u) as real) else None
    case Some(i) =>
      var whole, frac := u[..i], u[i + 1..];
      if (whole != [] || frac != []) && AllDigits(whole) && AllDigits(frac)
      then Some(DigitsValue(whole) as real + FractionValue(frac))
      else None
  }

  /** JavaScript `Number(s)` for a string `s`: surrounding white space is
      ignored, the empty string is 0, `Infinity` may carry a sign, and a
      decimal literal may carry a sign. */
  function ToNumber(s: string): (r: Num)
    ensures AllWhite(s) ==> r == Finite(0.0)
  {
    TrimEnds(s);
    var t := Trim(s);
    if t == "" then Finite(0.0)
    else if t == "Infinity" || t == "+Infinity" then Infinity(true)
    else if t == "-Infinity" then Infinity(false)
    else
      var negative := t[0] == '-';
      var u := if t[0] == '-' || t[0] == '+' then t[1..] else t;
      match UnsignedDecimal(u)
      case None => NaN
      case Some(v) => Finite(if negative then -v else v)
  }

  /** The decimal digits of `n`, most significant first, without leading zeros. */
  function NatToString(n: nat): (r: string)
    ensures r != [] && AllDigits(r)
  {
    var d := ['0' + (n % 10) as char];
    if n < 10 then d else NatToString(n / 10) + d
  }

  /** JavaScript `String(n)` (and `n.toString()`) for an integer `n`. */
  function IntToString(n: int): string {
    if n < 0 then "-" + NatToString(-n) else NatToString(n)
  }

  lemma {:induction false} NatToStringValue(n: nat)
    ensures DigitsValue(NatToString(n)) == n
  {
    var s := NatToString(n);
    if n >= 10 {
      NatToStringValue(n / 10);
      assert s[..|s| - 1] == NatToString(n / 10);
    }
  }

  /** `Number` reads an unsigned or a minus-signed run of digits back. */
  lemma ToNumberOfDigits(negative: bool, digits: string)
    requires digits != [] && AllDigits(digits)
    ensures ToNumber((if negative then "-" else "") + digits)
         == Finite(if negative then -(DigitsValue(digits) as real) else DigitsValue(digits) as real)
  {
    UnsignedOfDigits(digits);
    var s := (if negative then "-" else "") + digits;
    SignedDigitsLiteral(negative, digits);
    ToNumberOfLiteral(s, negative, digits, DigitsValue(digits) as real);
  }

  /** A run of digits, signed or not, is trimmed, is not an infinity, and has
      the run after its sign. */
  lemma SignedDigitsLiteral(negative: bool, digits: string)
    requires digits != [] && AllDigits(digits)
    ensures var s := (if negative then "-" else "") + digits;
      s != [] && Trim(s) == s && s != "Infinity" && s != "+Infinity" && s != "-Infinity"
      && (s[0] == '-') == negative && (if s[0] == '-' || s[0] == '+' then s[1..] else s) == digits
  {
    var s := (if negative then "-" else "") + digits;
    assert s[|s| - 1] == digits[|digits| - 1];
    assert !IsWhite(s[0]) && !IsWhite(s[|s| - 1]) by {
      assert IsDigit(digits[0]) && IsDigit(digits[|digits| - 1]);
    }
    TrimKeeps(s);
    assert IsDigit(s[|s| - 1]);
    EndsDiffer(s, "Infinity");
    EndsDiffer(s, "+Infinity");
    EndsDiffer(s, "-Infinity");
    assert IsDigit(digits[0]);
  }

  lemma EndsDiffer(a: string, b: string)
    requires a != [] && b != [] && IsDigit(a[|a| - 1]) && !IsDigit(b[|b| - 1])
    ensures a != b
  {
  }

  /** `Number` of a trimmed literal that is not an infinity: the sign and the
      value of what follows it. */
  lemma ToNumberOfLiteral(s: string, negative: bool, u: string, v: real)
    requires s != [] && Trim(s) == s
    requires s != "Infinity" && s != "+Infinity" && s != "-Infinity"
    requires (s[0] == '-') == negative
    requires (if s[0] == '-' || s[0] == '+' then s[1..] else s) == u
    requires UnsignedDecimal(u) == Some(v)
    ensures ToNumber(s) == Finite(if negative then -v else v)
  {
  }

  /** A run of digits is an unsigned literal without a point. */
  lemma UnsignedOfDigits(digits: string)
    requires digits != [] && AllDigits(digits)
    ensures UnsignedDecimal(digits) == Some(DigitsValue(digits) as real)
  {
  }

  /** Turning an integer into text and back with `Number` gives the integer again. */
  lemma ToNumberOfIntToString(n: int)
    ensures ToNumber(IntToString(n)) == Finite(n as real)
  {
    var m: nat := if n < 0 then -n else n;
    NatToStringValue(m);
    ToNumberOfDigits(n < 0, NatToString(m));
    assert IntToString(n) == (if n < 0 then "-" else "") + NatToString(m);
  }

  predicate IsHexDigit(c: char) {
    IsDigit(c) || 'a' <= c <= 'f' || 'A' <= c <= 'F'
  }

  function HexDigitValue(c: char): nat
    requires IsHexDigit(c)
  {
    if IsDigit(c) then DigitValue(c)
    else if 'a' <= c <= 'f' then c as int - 'a' as int + 10
    else c as int - 'A' as int + 10
  }

  /** The length of the longest prefix of `s` whose characters satisfy `digit`. */
  function DigitRun(s: string, hex: bool): (r: nat)
    ensures r <= |s|
    ensures forall i :: 0 <= i < r ==> if hex then IsHexDigit(s[i]) else IsDigit(s[i])
    ensures r < |s| ==> !(if hex then IsHexDigit(s[r]) else IsDigit(s[r]))
  {
    if s == [] || !(if hex then IsHexDigit(s[0]) else IsDigit(s[0])) then 0
    else 1 + DigitRun(s[1..], hex)
  }

  /** The value of a string of digits in base 10 or 16, most significant first. */
  function RunValue(s: string, hex: bool): nat
    requires forall i :: 0 <= i < |s| ==> if hex then IsHexDigit(s[i]) else IsDigit(s[i])
  {
    if s == [] then 0
    else
      var last := s[|s| - 1];
      RunValue(s[..|s| - 1], hex) * (if hex then 16 else 10)
      + (if hex then HexDigitValue(last) else DigitValue(last))
  }

  /** The digits after the sign in `parseInt`: a `0x`/`0X` prefix selects base
      16, and the longest run of digits that follows is the value. */
  function ParseMagnitude(u: string): Option<nat> {
    var hex := |u| >= 2 && u[0] == '0' && (u[1] == 'x' || u[1] == 'X');
    var body := if hex then u[2..] else u;
    var n := DigitRun(body, hex);
    if n == 0 then None else Some(RunValue(body[..n], hex))
  }

  /** JavaScript `parseInt(s)` without a radix: leading white space is skipped
      and a sign is read before the digits; no digit at all gives NaN (`None`). */
  function ParseInt(s: string): (r: Option<int>)
  {
    var t := TrimStart(s);
    var negative := t != [] && t[0] == '-';
    var u := if t != [] && (t[0] == '-' || t[0] == '+') then t[1..] else t;
    match ParseMagnitude(u)
    case None => None
    case Some(v) => var w: int := v; Some(if negative then -w else w)
  }

  lemma {:induction false} RunValueIsDigitsValue(s: string)
    requires AllDigits(s)
    ensures RunValue(s, false) == DigitsValue(s)
  {
    if s != [] {
      RunValueIsDigitsValue(s[..|s| - 1]);
    }
  }

  lemma MagnitudeOfDigits(u: string)
    requires u != [] && AllDigits(u)
    ensures ParseMagnitude(u) == Some(DigitsValue(u))
  {
    RunCoversDigits(u);
    RunValueIsDigitsValue(u);
    assert u[..|u|] == u;
  }

  /** `parseInt` reads a run of digits back. */
  lemma ParseIntOfUnsigned(digits: string)
    requires digits != [] && AllDigits(digits)
    ensures ParseInt(digits) == Some(DigitsValue(digits))
  {
    MagnitudeOfDigits(digits);
    assert !IsWhite(digits[0]) by { assert IsDigit(digits[0]); }
    assert TrimStart(digits) == digits;
    assert digits[0] != '-' && digits[0] != '+' by { assert IsDigit(digits[0]); }
  }

  /** `parseInt` reads a minus sign and a run of digits back. */
  lemma ParseIntOfNegative(digits: string)
    requires digits != [] && AllDigits(digits)
    ensures ParseInt("-" + digits) == Some(-(DigitsValue(digits) as int))
  {
    MagnitudeOfDigits(digits);
    var s := "-" + digits;
    assert TrimStart(s) == s;
    assert s[1..] == digits;
  }

  /** Turning an integer into text and back with `parseInt` gives the integer again. */
  lemma ParseIntOfIntToString(n: int)
    ensures ParseInt(IntToString(n)) == Some(n)
  {
    var m: nat := if n < 0 then -n else n;
    NatToStringValue(m);
    if n < 0 {
      ParseIntOfNegative(NatToString(m));
    } else {
      ParseIntOfUnsigned(NatToString(m));
    }
  }

  lemma {:induction false} RunCoversDigits(s: string)
    requires AllDigits(s)
    ensures DigitRun(s, false) == |s|
  {
    if s != [] {
      RunCoversDigits(s[1..]);
    }
  }

  /** JavaScript `Math.min(a, b)` for a finite `b`. */
  function Min(a: Num, b: real): (r: Num)
    ensures a.NaN? <==> r.NaN?
    ensures r.Finite? ==> r.v <= b
  {
    match a
    case NaN => NaN
    case Infinity(positive) => if positive then Finite(b) else a
    case Finite(v) => Finite(if v <= b then v else b)
  }

  /** JavaScript `ToIntegerOrInfinity` of a finite value: truncation toward zero. */
  function Truncate(v: real): int {
    if v >= 0.0 then v.Floor else -((-v).Floor)
  }

  /** How many leading elements `slice(0, end)` keeps of an array of length `len`. */
  function SliceEnd(len: nat, end: Num): (r: nat)
    ensures r <= len
    ensures end.Finite? && end.v >= 0.0 ==> r <= Truncate(end.v)
    ensures end.Finite? && end.v >= len as real ==> r == len
  {
    match end
    case NaN => 0
    case Infinity(positive) => if positive then len else 0
    case Finite(v) =>
      var k := Truncate(v);
      if k < 0 then (if len + k > 0 then len + k else 0)
      else if k < len then k else len
  }

  /** `s.slice(0, end)`. */
  function Slice<T>(s: seq<T>, end: Num): (r: seq<T>)
    ensures r <= s && |r| == SliceEnd(|s|, end)
  {
    s[..SliceEnd(|s|, end)]
  }

  /** `Math.round(total / n)` for a non-negative `total` and a positive `n`:
      the nearest integer to the ratio, halves rounded up, stated without
      division as `r - 1/2 <= total / n < r + 1/2`. */
  function RoundRatio(total: nat, n: nat): (r: nat)
    requires n > 0
    ensures (2 * r - 1) * n <= 2 * total < (2 * r + 1) * n
  {
    var r := (2 * total + n) / (2 * n);
    assert 2 * total + n == r * (2 * n) + (2 * total + n) % (2 * n);
    r
  }
}
