// Signed decimal and hexadecimal numbers as text.
module Numerals {
  import opened Wrappers
  import opened Text

  function Signed(n: int): string {
    if n < 0 then ['-'] + Decimal(-n) else Decimal(n)
  }

  function ParseI32(s: string): Option<int> {
    match ParseI64(s)
    case None => None
    case Some(n) => if -0x8000_0000 <= n < 0x8000_0000 then Some(n) else None
  }

  lemma {:induction false} SignedReadsBack(n: int)
    requires -0x8000_0000_0000_0000 <= n < 0x8000_0000_0000_0000
    ensures ParseI64(Signed(n)) == Some(n)
    ensures -0x8000_0000 <= n < 0x8000_0000 ==> ParseI32(Signed(n)) == Some(n)
  {
    if n < 0 {
      NegativeReadsBack(Decimal(-n), -n);
    } else {
      DecimalBack(n);
      ParseDigits(Decimal(n));
    }
  }

  lemma {:induction false} NegativeReadsBack(digits: string, n: nat)
    requires 0 < n <= 0x8000_0000_0000_0000 && digits == Decimal(n)
    ensures ParseI64(['-'] + digits) == Some(0 - n)
  {
    DecimalBack(n);
    assert (['-'] + digits)[1..] == digits;
  }

  function HexDigit(d: nat): (c: char)
    requires d < 16
  {
    "0123456789abcdef"[d]
  }

  function HexValue(c: char): Option<nat> {
    if '0' <= c <= '9' then Some((c as int) - ('0' as int))
    else if 'a' <= c <= 'f' then Some((c as int) - ('a' as int) + 10)
    else if 'A' <= c <= 'F' then Some((c as int) - ('A' as int) + 10)
    else None
  }

  // `{:0wx}` for numbers that fit the width.
  function Hex(n: nat, w: nat): (s: string)
    ensures |s| == w
  {
    if w == 0 then [] else Hex(n / 16, w - 1) + [HexDigit(n % 16)]
  }

  function ParseHexDigits(s: string): Option<nat> {
    if s == [] then Some(0)
    else
      match ParseHexDigits(s[..|s| - 1])
      case None => None
      case Some(n) => (match HexValue(s[|s| - 1]) case None => None case Some(d) => Some(n * 16 + d))
  }

  function Pow16(w: nat): nat { if w == 0 then 1 else 16 * Pow16(w - 1) }

  lemma {:induction false} HexReadsBack(n: nat, w: nat)
    requires n < Pow16(w)
    ensures ParseHexDigits(Hex(n, w)) == Some(n)
  {
    if w > 0 {
      HexReadsBack(n / 16, w - 1);
      var s := Hex(n, w);
      assert s[..w - 1] == Hex(n / 16, w - 1) && s[w - 1] == HexDigit(n % 16);
      HexDigitBack(n % 16);
    }
  }

  lemma {:induction false} HexDigitBack(d: nat)
    requires d < 16
    ensures HexValue(HexDigit(d)) == Some(d)
  {
  }

  // `from_str_radix(s, 16)` for 128 bits: an optional plus sign, then hexadecimal digits.
  function ParseHex(s: string): Option<nat> {
    var digits := if s != [] && s[0] == '+' then s[1..] else s;
    if digits == [] then None
    else match ParseHexDigits(digits)
      case None => None
      case Some(n) => if n < Pow16(32) then Some(n) else None
  }
}
