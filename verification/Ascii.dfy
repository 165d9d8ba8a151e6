/** ASCII digits, decimal and hexadecimal. */
module Ascii {

  predicate IsDigit(b: nat) {
    0x30 <= b <= 0x39
  }

  predicate IsHex(b: nat) {
    IsDigit(b) || 0x41 <= b <= 0x46 || 0x61 <= b <= 0x66
  }

  function HexValue(b: nat): (d: nat)
    requires IsHex(b)
    ensures d < 16
  {
    if IsDigit(b) then b - 0x30 else if b <= 0x46 then b - 0x37 else b - 0x57
  }

  /** The lower-case digit of a value. */
  function HexDigit(d: nat): (b: nat)
    requires d < 16
    ensures b < 0x80 && IsHex(b) && HexValue(b) == d && !(0x41 <= b <= 0x46)
  {
    if d < 10 then 0x30 + d else 0x57 + d
  }

  const LOWER := "0123456789abcdef"
  const UPPER := "0123456789ABCDEF"

  /** The byte is the character of the digit `d`, in either case. */
  predicate IsDigitOf(b: nat, d: nat) {
    d < 16 && (b == LOWER[d] as int || b == UPPER[d] as int)
  }

  /** The digits are those of the tables and nothing else, and are read and written as they say. */
  lemma HexDigitsMean(b: nat, d: nat)
    ensures IsHex(b) <==> exists v :: IsDigitOf(b, v)
    ensures IsHex(b) ==> (HexValue(b) == d <==> IsDigitOf(b, d))
    ensures d < 16 ==> HexDigit(d) == LOWER[d] as int
  {
    if IsHex(b) { assert IsDigitOf(b, HexValue(b)); }
  }
}
