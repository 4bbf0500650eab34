/**
  Digit text on naturals: the decimal rendering a big integer's `Display`
  produces, the fixed-width lower-case hexadecimal rendering of a field
  element's `Debug`, and the digit parsers that read them back.
 */
module Digits {
  import opened Errors

  function Pow16(k: nat): nat {
    if k == 0 then 1 else 16 * Pow16(k - 1)
  }

  function DecimalChar(d: nat): char
    requires d < 10
  {
    ('0' as int + d) as char
  }

  function DecimalDigitValue(c: char): (r: Option<nat>)
    ensures r.Some? ==> r.value < 10 && DecimalChar(r.value) == c
  {
    if '0' <= c <= '9' then Some(c as int - '0' as int) else None
  }

  /** Lower-case hexadecimal digit, as `{:x}` writes it. */
  function HexChar(d: nat): char
    requires d < 16
  {
    if d < 10 then ('0' as int + d) as char else ('a' as int + (d - 10)) as char
  }

  /** A hexadecimal digit of either case, as a radix-16 parser accepts it. */
  function HexDigitValue(c: char): (r: Option<nat>)
    ensures r.Some? ==> r.value < 16
  {
    if '0' <= c <= '9' then Some(c as int - '0' as int)
    else if 'a' <= c <= 'f' then Some(c as int - 'a' as int + 10)
    else if 'A' <= c <= 'F' then Some(c as int - 'A' as int + 10)
    else None
  }

  /** `format!("{}", n)` on a big integer: decimal, most significant digit first, no leading zero. */
  function DecimalText(n: nat): (s: string)
    ensures |s| >= 1
    ensures s[0] == '0' <==> n == 0
    ensures n == 0 ==> s == "0"
    ensures forall i :: 0 <= i < |s| ==> '0' <= s[i] <= '9'
  {
    if n < 10 then [DecimalChar(n)] else DecimalText(n / 10) + [DecimalChar(n % 10)]
  }

  /** The value of a string of decimal digits (the empty string reads as 0); None on any other character. */
  function DecimalValue(s: string): (r: Option<nat>)
    ensures r.Some? <==> forall i :: 0 <= i < |s| ==> '0' <= s[i] <= '9'
  {
    if |s| == 0 then Some(0)
    else
      match DecimalValue(s[..|s| - 1])
      case None => None
      case Some(v) =>
        match DecimalDigitValue(s[|s| - 1])
        case None => None
        case Some(d) => Some(10 * v + d)
  }

  /** `n` written as exactly `width` lower-case hexadecimal digits, most significant first, zero padded. */
  function HexFixed(n: nat, width: nat): (s: string)
    ensures |s| == width
  {
    if width == 0 then "" else HexFixed(n / 16, width - 1) + [HexChar(n % 16)]
  }

  /** The value of a string of hexadecimal digits (the empty string reads as 0); None on any other character. */
  function HexValue(s: string): Option<nat> {
    if |s| == 0 then Some(0)
    else
      match HexValue(s[..|s| - 1])
      case None => None
      case Some(v) =>
        match HexDigitValue(s[|s| - 1])
        case None => None
        case Some(d) => Some(16 * v + d)
  }

  /** `BigInt::from_str_radix(s, 16)` on unsigned digit text: the empty string is refused, leading zeros are read. */
  function ParseHex(s: string): (r: Option<nat>)
    ensures r.Some? ==> |s| > 0
  {
    if |s| == 0 then None else HexValue(s)
  }

  /** Decimal rendering followed by decimal reading gives the number back. */
  lemma {:induction false} DecimalRoundTrip(n: nat)
    ensures DecimalValue(DecimalText(n)) == Some(n)
  {
    var s := DecimalText(n);
    if n >= 10 {
      DecimalRoundTrip(n / 10);
      assert s[..|s| - 1] == DecimalText(n / 10);
      assert DecimalDigitValue(s[|s| - 1]) == Some(n % 10);
    } else {
      assert s[..|s| - 1] == "";
      assert DecimalDigitValue(s[|s| - 1]) == Some(n);
    }
  }

  /** Fixed-width hexadecimal rendering followed by hexadecimal reading gives back any number that fits the width. */
  lemma {:induction false} HexRoundTrip(n: nat, width: nat)
    requires n < Pow16(width)
    ensures HexValue(HexFixed(n, width)) == Some(n)
  {
    if width > 0 {
      var s := HexFixed(n, width);
      HexRoundTrip(n / 16, width - 1);
      assert s[..|s| - 1] == HexFixed(n / 16, width - 1);
      assert HexDigitValue(s[|s| - 1]) == Some(n % 16);
    }
  }
}
