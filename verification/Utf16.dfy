/**
 UTF-16 strings as JavaScript and C# hold them, and the normalisation the
 protocol applies before encoding: U+0000 and lone surrogates become U+FFFD.
 */
module Utf16 {
  import opened Wire
  import Utf8

  type unit = n: int | 0 <= n < 0x1_0000

  predicate IsHigh(u: unit) { 0xD800 <= u <= 0xDBFF }

  predicate IsLow(u: unit) { 0xDC00 <= u <= 0xDFFF }

  const REPLACEMENT: char := '\U{FFFD}'

  /** The text a UTF-16 string holds on the wire. */
  function WireText(units: seq<unit>): string {
    if units == [] then ""
    else if |units| > 1 && IsHigh(units[0]) && IsLow(units[1]) then
      [(0x10000 + 0x400 * (units[0] as int - 0xD800) + (units[1] - 0xDC00)) as char] + WireText(units[2..])
    else if units[0] == 0 || IsHigh(units[0]) || IsLow(units[0]) then [REPLACEMENT] + WireText(units[1..])
    else [units[0] as char] + WireText(units[1..])
  }

  /** UTF-16 units a text takes: two for a supplementary character. */
  function Units(text: string): nat {
    if text == "" then 0 else (if text[0] as int < 0x10000 then 1 else 2) + Units(text[1..])
  }

  /** Normalising keeps the length in units, which is what the writer reserves by. */
  lemma {:induction false} WireTextLength(units: seq<unit>)
    ensures Units(WireText(units)) == |units|
    ensures '\0' !in WireText(units)
    decreases |units|
  {
    if units != [] {
      var text := WireText(units);
      if |units| > 1 && IsHigh(units[0]) && IsLow(units[1]) {
        WireTextLength(units[2..]);
        assert text[1..] == WireText(units[2..]);
      } else {
        WireTextLength(units[1..]);
        assert text[1..] == WireText(units[1..]);
      }
    }
  }

  /** At most three UTF-8 bytes per UTF-16 unit. */
  lemma {:induction false} Utf8Bound(text: string)
    ensures |Utf8.Encode(text)| <= 3 * Units(text)
  {
    if text != "" {
      Utf8Bound(text[1..]);
    }
  }
}
