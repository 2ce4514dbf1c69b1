/** Decimal text for integers: the `str()`/`String()` rendering both runtimes use
    for a whole number, and JavaScript's `parseInt` on strings. */
module Text {
  import opened Wrappers

  predicate IsDigit(c: char) {
    '0' <= c <= '9'
  }

  predicate AllDigits(s: string) {
    forall i :: 0 <= i < |s| ==> IsDigit(s[i])
  }

  function DigitChar(d: nat): (c: char)
    requires d < 10
    ensures IsDigit(c) && (c as int) - ('0' as int) == d
  {
    "0123456789"[d]
  }

  function DigitValue(c: char): (d: nat)
    requires IsDigit(c)
    ensures d < 10
  {
    (c as int) - ('0' as int)
  }

  /** Value of a string of decimal digits (most significant first). */
  function DigitsValue(s: string): nat
    requires AllDigits(s)
  {
    if |s| == 0 then 0 else DigitsValue(s[..|s| - 1]) * 10 + DigitValue(s[|s| - 1])
  }

  /** Shortest decimal rendering of a natural number: no leading zero except for 0 itself. */
  function NatToString(n: nat): (s: string)
    ensures |s| >= 1 && AllDigits(s)
    ensures n >= 10 ==> |s| >= 2
    ensures s[0] == '0' ==> n == 0
  {
    if n < 10 then [DigitChar(n)] else NatToString(n / 10) + [DigitChar(n % 10)]
  }

  /** Python `str(n)` and JavaScript `String(n)` of a whole number. */
  function IntToString(n: int): (s: string)
    ensures |s| >= 1
    ensures n < 0 <==> s[0] == '-'
  {
    if n < 0 then "-" + NatToString(-n) else NatToString(n)
  }

  lemma {:induction false} NatToStringValue(n: nat)
    ensures DigitsValue(NatToString(n)) == n
  {
    var s := NatToString(n);
    if n >= 10 {
      NatToStringValue(n / 10);
      assert s[..|s| - 1] == NatToString(n / 10);
    }
  }

  /** The canonical decimal form `str()` produces: an optional `-` and digits. */
  function ParseCanonical(s: string): Option<int> {
    if |s| >= 2 && s[0] == '-' && AllDigits(s[1..]) then Some(0 - DigitsValue(s[1..]))
    else if |s| >= 1 && AllDigits(s) then Some(DigitsValue(s))
    else None
  }

  /** Reading a rendered integer back gives the integer: the rendering loses nothing. */
  lemma IntToStringRoundTrip(n: int)
    ensures ParseCanonical(IntToString(n)) == Some(n)
  {
    if n < 0 {
      var t := NatToString(-n);
      NatToStringValue(-n);
      NegativeRendering(n, t);
      ParseCanonicalMinusDigits(IntToString(n), t, -n);
    } else {
      NatToStringValue(n);
    }
  }

  /** The rendering of a negative number is a minus sign before the digits of its magnitude. */
  lemma NegativeRendering(n: int, t: string)
    requires n < 0 && t == NatToString(-n)
    ensures IntToString(n) == "-" + t
  {
  }

  lemma ParseCanonicalMinusDigits(s: string, t: string, v: int)
    requires s == "-" + t && AllDigits(t) && |t| >= 1 && DigitsValue(t) == v
    ensures ParseCanonical(s) == Some(0 - v)
  {
    assert s[1..] == t;
  }

  lemma IntToStringInjective(m: int, n: int)
    ensures IntToString(m) == IntToString(n) ==> m == n
  {
    IntToStringRoundTrip(m);
    IntToStringRoundTrip(n);
  }

  // ---------------------------------------------------------------------------
  // JavaScript parseInt(string) with no radix argument

  /** The white space `parseInt` skips (the ASCII part of it). */
  predicate IsJsSpace(c: char) {
    c == ' ' || c == '\t' || c == '\n' || c == '\r' || c == '\U{B}' || c == '\U{C}'
  }

  function TrimStart(s: string): (r: string)
    ensures |r| <= |s| && r == s[|s| - |r|..]
    ensures |r| > 0 ==> !IsJsSpace(r[0])
  {
    if |s| > 0 && IsJsSpace(s[0]) then TrimStart(s[1..]) else s
  }

  predicate IsHexDigit(c: char) {
    IsDigit(c) || 'a' <= c <= 'f' || 'A' <= c <= 'F'
  }

  function HexValue(c: char): (d: nat)
    requires IsHexDigit(c)
    ensures d < 16
  {
    if IsDigit(c) then DigitValue(c)
    else if 'a' <= c <= 'f' then (c as int) - ('a' as int) + 10
    else (c as int) - ('A' as int) + 10
  }

  predicate IsRadixDigit(c: char, radix: nat) {
    if radix == 16 then IsHexDigit(c) else IsDigit(c)
  }

  /** Length of the longest prefix of `s` made of digits of the radix. */
  function DigitPrefix(s: string, radix: nat): (k: nat)
    ensures k <= |s|
    ensures forall i :: 0 <= i < k ==> IsRadixDigit(s[i], radix)
    ensures k < |s| ==> !IsRadixDigit(s[k], radix)
  {
    if |s| > 0 && IsRadixDigit(s[0], radix) then 1 + DigitPrefix(s[1..], radix) else 0
  }

  function RadixValue(s: string, radix: nat): nat
    requires forall i :: 0 <= i < |s| ==> IsRadixDigit(s[i], radix)
  {
    if |s| == 0 then 0
    else
      var c := s[|s| - 1];
      assert IsRadixDigit(c, radix);
      RadixValue(s[..|s| - 1], radix) * radix + (if radix == 16 then HexValue(c) else DigitValue(c))
  }

  /** Magnitude part of parseInt: `0x`/`0X` switches to hexadecimal; no digits is NaN. */
  function ParseMagnitude(s: string): (r: Option<int>)
    ensures r.Some? ==> r.value >= 0
  {
    var radix := if |s| >= 2 && s[0] == '0' && (s[1] == 'x' || s[1] == 'X') then 16 else 10;
    var body := if radix == 16 then s[2..] else s;
    var k := DigitPrefix(body, radix);
    if k == 0 then None else Some(RadixValue(body[..k], radix))
  }

  /** An optional sign followed by the magnitude. */
  function ParseSigned(t: string): Option<int> {
    var signed := |t| > 0 && (t[0] == '-' || t[0] == '+');
    var m := ParseMagnitude(if signed then t[1..] else t);
    if m.Some? && signed && t[0] == '-' then Some(0 - m.value) else m
  }

  /** JavaScript `parseInt(s)`: `None` stands for NaN. Leading white space and one sign
      are skipped, and parsing stops at the first character that is not a digit. */
  function JsParseInt(s: string): Option<int> {
    ParseSigned(TrimStart(s))
  }

  lemma {:induction false} RadixValueDecimal(s: string)
    requires AllDigits(s)
    ensures RadixValue(s, 10) == DigitsValue(s)
  {
    if |s| > 0 {
      RadixValueDecimal(s[..|s| - 1]);
    }
  }

  lemma DecimalMagnitude(s: string)
    requires AllDigits(s) && |s| >= 1
    ensures ParseMagnitude(s) == Some(DigitsValue(s))
  {
    assert !(|s| >= 2 && s[1] == 'x');
    assert DigitPrefix(s, 10) == |s|;
    assert s[..|s|] == s;
    RadixValueDecimal(s);
  }

  lemma TrimStartNoSpace(s: string)
    requires |s| > 0 && !IsJsSpace(s[0])
    ensures TrimStart(s) == s
  {
  }

  lemma JsParseIntDigits(t: string)
    requires AllDigits(t) && |t| >= 1
    ensures JsParseInt(t) == Some(DigitsValue(t))
  {
    assert IsDigit(t[0]);
    TrimStartNoSpace(t);
    DecimalMagnitude(t);
  }

  lemma ParseSignedMinus(s: string)
    requires |s| > 0 && s[0] == '-'
    ensures ParseSigned(s) == if ParseMagnitude(s[1..]).Some? then Some(0 - ParseMagnitude(s[1..]).value) else None
  {
  }

  lemma ParseSignedMinusDigits(s: string)
    requires |s| >= 2 && s[0] == '-' && AllDigits(s[1..])
    ensures ParseSigned(s) == Some(0 - DigitsValue(s[1..]))
  {
    ParseSignedMinus(s);
    DecimalMagnitude(s[1..]);
  }

  /** `parseInt(String(n)) == n`: the client reads back every number it writes into the page. */
  lemma JsParseIntRoundTrip(n: int)
    ensures JsParseInt(IntToString(n)) == Some(n)
  {
    if n < 0 {
      JsParseIntRoundTripNegative(n);
    } else {
      var t := NatToString(n);
      NatToStringValue(n);
      assert IntToString(n) == t;
      JsParseIntDigits(t);
    }
  }

  lemma JsParseIntRoundTripNegative(n: int)
    requires n < 0
    ensures JsParseInt(IntToString(n)) == Some(n)
  {
    var t := NatToString(-n);
    NatToStringValue(-n);
    NegativeRendering(n, t);
    JsParseIntMinusDigits(IntToString(n), t, -n);
  }

  lemma JsParseIntMinusDigits(s: string, t: string, v: int)
    requires s == "-" + t && AllDigits(t) && |t| >= 1 && DigitsValue(t) == v
    ensures JsParseInt(s) == Some(0 - v)
  {
    assert s[0] == '-' && s[1..] == t;
    TrimStartNoSpace(s);
    ParseSignedMinusDigits(s);
  }
}
