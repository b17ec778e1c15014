/**
 * `componentToHex` (src/code.ts): one colour channel, a number that the host
 * keeps in [0, 1], rendered as two upper-case hexadecimal digits.
 */
module Hex {
  import opened Text

  /** The digits `Number.prototype.toString(16)` writes. */
  const LowerDigits: string := "0123456789abcdef"

  predicate IsUpperHexDigit(c: char)
  {
    '0' <= c <= '9' || 'A' <= c <= 'F'
  }

  /** The value of one upper-case hexadecimal digit. */
  function DigitValue(c: char): (v: nat)
    requires IsUpperHexDigit(c)
    ensures v < 16
  {
    if '0' <= c <= '9' then c as int - '0' as int else c as int - 'A' as int + 10
  }

  /** The value of a two-digit upper-case hexadecimal string, most significant digit first. */
  function ByteValue(h: string): (v: nat)
    requires |h| == 2 && IsUpperHexDigit(h[0]) && IsUpperHexDigit(h[1])
    ensures v < 256
  {
    DigitValue(h[0]) * 16 + DigitValue(h[1])
  }

  /** `n.toString(16)` for a non-negative integer: its base-16 digits, lower case, no leading zero. */
  function Radix16(n: nat): (s: string)
    ensures 1 <= |s|
    ensures forall i :: 0 <= i < |s| ==> s[i] in LowerDigits
    ensures |s| == 1 <==> n < 16
    ensures n < 256 ==> |s| <= 2
    decreases n
  {
    if n < 16 then [LowerDigits[n]] else Radix16(n / 16) + [LowerDigits[n % 16]]
  }

  /** `n.toString(16)` for any integer: a negative number is written with a leading minus sign. */
  function IntToString16(n: int): string
  {
    if n < 0 then "-" + Radix16(-n) else Radix16(n)
  }

  /**
   * The integer a channel is scaled to: 255 from 1 upwards, otherwise
   * `Math.floor(c * 256)`. Within [0, 1] this is a byte.
   */
  function ChannelByte(c: real): (b: int)
    ensures c >= 1.0 ==> b == 255
    ensures c < 1.0 ==> b as real <= c * 256.0 < b as real + 1.0
    ensures 0.0 <= c ==> 0 <= b <= 255
  {
    if c >= 1.0 then 255 else (c * 256.0).Floor
  }

  /** `componentToHex(c)`: the scaled channel in base 16, upper case, padded to two characters. */
  function ComponentToHex(c: real): string
  {
    var hex := ToUpper(IntToString16(ChannelByte(c)));
    if |hex| == 1 then "0" + hex else hex
  }

  /** Upper-casing a lower-case digit gives the upper-case digit of the same value. */
  lemma UpperDigit(k: nat)
    requires k < 16
    ensures IsUpperHexDigit(UpperChar(LowerDigits[k]))
    ensures DigitValue(UpperChar(LowerDigits[k])) == k
  {
  }

  /**
   * For a channel of at least 0 the result is exactly two upper-case hex
   * digits, and reading them back gives the scaled channel, a byte.
   */
  lemma ComponentToHexIsByte(c: real)
    requires 0.0 <= c
    ensures var h := ComponentToHex(c);
      |h| == 2 && IsUpperHexDigit(h[0]) && IsUpperHexDigit(h[1]) &&
      ByteValue(h) == ChannelByte(c) && 0 <= ChannelByte(c) <= 255
  {
    var n := ChannelByte(c);
    var hex := ToUpper(IntToString16(n));
    if n < 16 {
      assert Radix16(n) == [LowerDigits[n]];
      UpperDigit(n);
      UpperDigit(0);
      assert ComponentToHex(c) == "0" + hex;
    } else {
      assert Radix16(n / 16) == [LowerDigits[n / 16]];
      assert Radix16(n) == [LowerDigits[n / 16], LowerDigits[n % 16]];
      UpperDigit(n / 16);
      UpperDigit(n % 16);
    }
  }

  /**
   * A channel the host stores as byte / 255 is written as that byte: scaling
   * by 256 and flooring undoes the division for every byte, 255 included.
   */
  lemma ByteRoundTrip(b: nat)
    requires b < 256
    ensures ChannelByte(b as real / 255.0) == b
    ensures var h := ComponentToHex(b as real / 255.0);
      |h| == 2 && IsUpperHexDigit(h[0]) && IsUpperHexDigit(h[1]) && ByteValue(h) == b
  {
    var c := b as real / 255.0;
    if b < 255 {
      assert c * 256.0 == b as real + b as real / 255.0;
    }
    ComponentToHexIsByte(c);
  }

  /** Every channel at or above 1 is written "FF". */
  lemma ComponentToHexSaturates(c: real)
    requires c >= 1.0
    ensures ComponentToHex(c) == "FF"
  {
    assert Radix16(255) == Radix16(15) + ['f'];
  }

  /**
   * Below 0 the result is not a colour byte: `toString(16)` of the negative
   * floor starts with a minus sign.
   */
  lemma ComponentToHexNegative(c: real)
    requires c < 0.0
    ensures var h := ComponentToHex(c); |h| >= 2 && h[0] == '-'
  {
    var n := ChannelByte(c);
    assert n < 0;
  }
}
