/**
  Bytes, the UTF-8 encoding of Swift strings (`String.data(using: .utf8)`), and decimal
  integers as Swift's `Int(String)` reads them and string interpolation writes them.
*/
module Encoding {
  import opened Outcomes

  type byte = x: int | 0 <= x < 256
  type Bytes = seq<byte>

  /** The UTF-8 encoding of one Unicode scalar value, as section 3 of RFC 3629 lays it out. */
  function EncodeChar(c: char): (r: Bytes)
    ensures 1 <= |r| <= 4
    ensures (c as int < 0x80) <==> |r| == 1
    ensures |r| == 1 ==> r[0] == c as int
  {
    var n := c as int;
    if n < 0x80 then [n]
    else if n < 0x800 then [0xC0 + n / 0x40, 0x80 + n % 0x40]
    else if n < 0x1_0000 then [0xE0 + n / 0x1000, 0x80 + (n / 0x40) % 0x40, 0x80 + n % 0x40]
    else [0xF0 + n / 0x4_0000, 0x80 + (n / 0x1000) % 0x40, 0x80 + (n / 0x40) % 0x40, 0x80 + n % 0x40]
  }

  /** The scalar value that a well-formed 1- to 4-byte sequence encodes. */
  function DecodeChar(b: Bytes): int
    requires 1 <= |b| <= 4
  {
    var b0, b1, b2, b3 := b[0] as int, if |b| > 1 then b[1] as int else 0,
      if |b| > 2 then b[2] as int else 0, if |b| > 3 then b[3] as int else 0;
    if |b| == 1 then b0
    else if |b| == 2 then (b0 - 0xC0) * 0x40 + (b1 - 0x80)
    else if |b| == 3 then (b0 - 0xE0) * 0x1000 + (b1 - 0x80) * 0x40 + (b2 - 0x80)
    else (b0 - 0xF0) * 0x4_0000 + (b1 - 0x80) * 0x1000 + (b2 - 0x80) * 0x40 + (b3 - 0x80)
  }

  /** Decoding inverts the encoding of every character. */
  lemma DecodeEncodeChar(c: char)
    ensures DecodeChar(EncodeChar(c)) == c as int
  {
    var n := c as int;
    if 0x80 <= n < 0x800 {
      DecodeTwo(n);
    } else if 0x800 <= n < 0x1_0000 {
      DecodeThree(n);
    } else if 0x1_0000 <= n {
      DecodeFour(n);
    }
  }

  lemma DecodeTwo(n: int)
    requires 0x80 <= n < 0x800
    ensures (0xC0 + n / 0x40 - 0xC0) * 0x40 + (0x80 + n % 0x40 - 0x80) == n
  {
    assert n == (n / 0x40) * 0x40 + n % 0x40;
  }

  lemma DecodeThree(n: int)
    requires 0x800 <= n < 0x1_0000
    ensures (n / 0x1000) * 0x1000 + ((n / 0x40) % 0x40) * 0x40 + n % 0x40 == n
  {
    assert n / 0x40 == (n / 0x1000) * 0x40 + (n / 0x40) % 0x40;
    assert n == (n / 0x40) * 0x40 + n % 0x40;
  }

  lemma DecodeFour(n: int)
    requires 0x1_0000 <= n
    ensures (n / 0x4_0000) * 0x4_0000 + ((n / 0x1000) % 0x40) * 0x1000 + ((n / 0x40) % 0x40) * 0x40 + n % 0x40 == n
  {
    assert n / 0x1000 == (n / 0x4_0000) * 0x40 + (n / 0x1000) % 0x40;
    assert n / 0x40 == (n / 0x1000) * 0x40 + (n / 0x40) % 0x40;
    assert n == (n / 0x40) * 0x40 + n % 0x40;
  }

  /** `s.data(using: .utf8)`: the characters' encodings, in order. */
  function Utf8(s: string): (r: Bytes)
    ensures |s| <= |r| <= 4 * |s|
    decreases |s|
  {
    if |s| == 0 then [] else Utf8(s[..|s| - 1]) + EncodeChar(s[|s| - 1])
  }

  predicate IsAscii(s: string) {
    forall i :: 0 <= i < |s| ==> s[i] as int < 0x80
  }

  /** ASCII text encodes to one byte per character, each its code. */
  lemma {:induction false} Utf8Ascii(s: string)
    requires IsAscii(s)
    ensures |Utf8(s)| == |s|
    ensures forall i :: 0 <= i < |s| ==> Utf8(s)[i] == s[i] as int
    decreases |s|
  {
    if |s| > 0 {
      var init := s[..|s| - 1];
      assert IsAscii(init) by {
        forall i | 0 <= i < |init| ensures init[i] as int < 0x80 {
          assert init[i] == s[i];
        }
      }
      Utf8Ascii(init);
    }
  }

  // Decimal integers.

  const Int64Min := -0x8000_0000_0000_0000
  const Int64Max := 0x7FFF_FFFF_FFFF_FFFF

  predicate IsDigit(c: char) {
    '0' <= c <= '9'
  }

  predicate AllDigits(s: string) {
    forall i :: 0 <= i < |s| ==> IsDigit(s[i])
  }

  /** The value of a string of decimal digits, leading zeros allowed. */
  function DigitsValue(s: string): nat
    requires AllDigits(s)
    decreases |s|
  {
    if |s| == 0 then 0 else DigitsValue(s[..|s| - 1]) * 10 + (s[|s| - 1] as int - '0' as int)
  }

  /** The strings `Int(String)` reads: an optional sign, then at least one decimal digit. */
  predicate IsIntSyntax(s: string) {
    if |s| > 0 && (s[0] == '+' || s[0] == '-') then |s| > 1 && AllDigits(s[1..])
    else |s| > 0 && AllDigits(s)
  }

  /** The value of a string of `IsIntSyntax`, before the range check. */
  function SignedValue(s: string): int
    requires IsIntSyntax(s)
  {
    if s[0] == '-' then -(DigitsValue(s[1..]) as int)
    else if s[0] == '+' then DigitsValue(s[1..])
    else DigitsValue(s)
  }

  /**
    Swift's `Int(String)` on a 64-bit platform: no whitespace, an optional sign, decimal digits,
    and nil when the value does not fit.
  */
  function ParseInt(s: string): Option<int> {
    if !IsIntSyntax(s) then None
    else
      var v := SignedValue(s);
      if Int64Min <= v <= Int64Max then Some(v) else None
  }

  function DigitChar(d: nat): (c: char)
    requires d < 10
    ensures IsDigit(c) && c as int - '0' as int == d
  {
    (d + '0' as int) as char
  }

  /** The digits of `n`, without leading zeros. */
  function NatDigits(n: nat): (s: string)
    ensures |s| > 0 && AllDigits(s)
    decreases n
  {
    if n < 10 then [DigitChar(n)] else NatDigits(n / 10) + [DigitChar(n % 10)]
  }

  /** How string interpolation writes an `Int`. */
  function ToDecimal(n: int): (s: string)
    ensures IsIntSyntax(s) && s[0] != '+'
  {
    if n < 0 then "-" + NatDigits(-n) else NatDigits(n)
  }

  lemma {:induction false} NatDigitsValue(n: nat)
    ensures DigitsValue(NatDigits(n)) == n
    decreases n
  {
    if n >= 10 {
      var s := NatDigits(n);
      assert s[..|s| - 1] == NatDigits(n / 10);
      NatDigitsValue(n / 10);
    }
  }

  /** Reading back what interpolation writes gives the same integer, across the whole `Int` range. */
  lemma ParseToDecimal(n: int)
    requires Int64Min <= n <= Int64Max
    ensures ParseInt(ToDecimal(n)) == Some(n)
  {
    var s := ToDecimal(n);
    if n < 0 {
      assert s[1..] == NatDigits(-n);
      NatDigitsValue(-n);
    } else {
      NatDigitsValue(n);
    }
  }

  /** The decimal text of an integer outside the `Int` range is refused. */
  lemma ParseOutOfRange(n: int)
    requires n < Int64Min || Int64Max < n
    ensures ParseInt(ToDecimal(n)) == None
  {
    var s := ToDecimal(n);
    if n < 0 {
      assert s[1..] == NatDigits(-n);
      NatDigitsValue(-n);
    } else {
      NatDigitsValue(n);
    }
  }

  /** Text that is not a signed decimal is not an `Int`: no blanks, no bare sign, no hex. */
  lemma ParseIntRejects()
    ensures ParseInt("") == None && ParseInt("+") == None && ParseInt("-") == None
    ensures ParseInt(" 1") == None && ParseInt("1 ") == None && ParseInt("0x1") == None
  {
    assert !IsDigit(" 1"[0]) && !IsDigit("1 "[1]) && !IsDigit("0x1"[1]);
  }

  /** A leading `+` and leading zeros are accepted, and `-0` is zero. */
  lemma ParseIntAccepts()
    ensures ParseInt("+7") == Some(7) && ParseInt("007") == Some(7) && ParseInt("-0") == Some(0)
  {
    assert "+7"[1..] == "7" && "-0"[1..] == "0";
    assert "007"[..2] == "00" && "00"[..1] == "0" && "0"[..0] == "";
    assert "7"[..0] == "";
  }
}
