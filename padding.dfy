/**
 * PHP's `str_pad($s, $width, $pad, STR_PAD_LEFT)` with a one-byte pad
 * character, and the decimal text PHP produces when an `int` is used as a
 * string. PHP strings are byte strings: a Dafny `string` here is the
 * sequence of code points whose UTF-8 encoding those bytes are, and the
 * width `str_pad` compares against is the UTF-8 byte length.
 */
module Padding {

  // ---------------------------------------------------------------------------
  // UTF-8 byte length

  /** The number of bytes UTF-8 uses to encode one code point. */
  function Utf8Width(ch: char): (n: nat)
    ensures 1 <= n <= 4
    ensures n == 1 <==> ch as int < 0x80
  {
    if ch as int < 0x80 then 1
    else if ch as int < 0x800 then 2
    else if ch as int < 0x10000 then 3
    else 4
  }

  /** The length in bytes of the UTF-8 encoding of `s`, which is what PHP's `strlen` reports. */
  function Utf8Length(s: string): (n: nat)
    ensures n >= |s|
    ensures n <= 4 * |s|
  {
    if s == [] then 0 else Utf8Width(s[0]) + Utf8Length(s[1..])
  }

  predicate IsAscii(s: string)
  {
    forall i :: 0 <= i < |s| ==> s[i] as int < 0x80
  }

  /** The byte length of a concatenation is the sum of the byte lengths. */
  lemma {:induction false} Utf8LengthConcat(a: string, b: string)
    ensures Utf8Length(a + b) == Utf8Length(a) + Utf8Length(b)
  {
    if a != [] {
      assert (a + b)[0] == a[0] && (a + b)[1..] == a[1..] + b;
      Utf8LengthConcat(a[1..], b);
    } else {
      assert a + b == b;
    }
  }

  /** On ASCII text bytes and characters coincide. */
  lemma {:induction false} AsciiUtf8Length(s: string)
    requires IsAscii(s)
    ensures Utf8Length(s) == |s|
  {
    if s != [] {
      AsciiUtf8Length(s[1..]);
    }
  }

  // ---------------------------------------------------------------------------
  // Left padding

  /** `n` copies of the character `c`. */
  function Repeat(c: char, n: nat): (r: string)
    ensures |r| == n
    ensures forall i :: 0 <= i < n ==> r[i] == c
  {
    if n == 0 then [] else [c] + Repeat(c, n - 1)
  }

  function Max(a: int, b: int): int { if a < b then b else a }

  /**
   * Left padding: when `s` takes fewer than `width` bytes, copies of the
   * one-byte character `c` are put in front of it until it takes exactly
   * `width` bytes; otherwise `s` comes back as is.
   */
  function PadLeft(s: string, width: int, c: char): (r: string)
    requires c as int < 0x80
    ensures Utf8Length(r) == Max(width, Utf8Length(s))
    ensures |r| == |s| + Max(0, width - Utf8Length(s))
    ensures r[|r| - |s|..] == s
    ensures forall i :: 0 <= i < |r| - |s| ==> r[i] == c
    ensures Utf8Length(s) >= width ==> r == s
  {
    if Utf8Length(s) >= width then s
    else
      var pad := Repeat(c, width - Utf8Length(s));
      AsciiUtf8Length(pad);
      Utf8LengthConcat(pad, s);
      pad + s
  }

  /** Padding a string that already has the width changes nothing, so padding twice is padding once. */
  lemma PadLeftIdempotent(s: string, width: int, c: char)
    requires c as int < 0x80
    ensures PadLeft(PadLeft(s, width, c), width, c) == PadLeft(s, width, c)
  {
  }

  /**
   * The padded text does not tell a short input from the same input with
   * a leading pad character: `"1"` and `"01"` both pad to `"0001"`.
   */
  lemma {:induction false} PadLeftAbsorbsLeadingPad(s: string, width: int, c: char)
    requires c as int < 0x80
    requires Utf8Length(s) < width
    ensures PadLeft([c] + s, width, c) == PadLeft(s, width, c)
  {
    assert ([c] + s)[1..] == s;
    var m := width - Utf8Length(s) - 1;
    assert Repeat(c, m + 1) == Repeat(c, m) + [c] by {
      assert forall i :: 0 <= i < m + 1 ==> Repeat(c, m + 1)[i] == (Repeat(c, m) + [c])[i];
    }
    assert Repeat(c, m) + ([c] + s) == (Repeat(c, m) + [c]) + s;
  }

  /** Any number of pad characters in front of a short input are absorbed by padding. */
  lemma {:induction false} PadLeftOfPaddedEqual(s: string, k: nat, width: int, c: char)
    requires c as int < 0x80
    requires Utf8Length(s) + k <= width
    ensures PadLeft(Repeat(c, k) + s, width, c) == PadLeft(s, width, c)
    decreases k
  {
    if k > 0 {
      var rest := Repeat(c, k - 1) + s;
      AsciiUtf8Length(Repeat(c, k - 1));
      Utf8LengthConcat(Repeat(c, k - 1), s);
      assert Repeat(c, k) + s == [c] + rest;
      PadLeftAbsorbsLeadingPad(rest, width, c);
      PadLeftOfPaddedEqual(s, k - 1, width, c);
    } else {
      assert Repeat(c, k) + s == s;
    }
  }

  // ---------------------------------------------------------------------------
  // Decimal text of an integer

  predicate IsDigit(ch: char) { '0' <= ch <= '9' }

  predicate AllDigits(s: string) { forall i :: 0 <= i < |s| ==> IsDigit(s[i]) }

  function DigitChar(d: nat): (ch: char)
    requires d < 10
    ensures IsDigit(ch) && ch as int - '0' as int == d
  {
    ['0', '1', '2', '3', '4', '5', '6', '7', '8', '9'][d]
  }

  /** The shortest decimal text of a natural number: no leading zero except for 0 itself. */
  function NatText(n: nat): (r: string)
    ensures |r| >= 1 && AllDigits(r)
    ensures r[0] == '0' ==> n == 0
  {
    if n < 10 then [DigitChar(n)] else NatText(n / 10) + [DigitChar(n % 10)]
  }

  /** The value of a string of decimal digits, most significant digit first; leading zeros add nothing. */
  function DigitsValue(s: string): (v: nat)
    requires AllDigits(s)
  {
    if s == [] then 0 else DigitsValue(s[..|s| - 1]) * 10 + (s[|s| - 1] as int - '0' as int)
  }

  /** Reading back the decimal text of `n` gives `n`. */
  lemma {:induction false} NatTextRoundTrip(n: nat)
    ensures DigitsValue(NatText(n)) == n
  {
    if n >= 10 {
      var t := NatText(n);
      assert t[..|t| - 1] == NatText(n / 10);
      NatTextRoundTrip(n / 10);
    }
  }

  /**
   * What PHP prints for an `int`: the digits of its value when it is not
   * negative, a minus sign followed by the digits of its magnitude when it is.
   * The text is plain ASCII, so its byte length is its length.
   */
  function IntText(n: int): (r: string)
    ensures IsAscii(r)
    ensures n >= 0 ==> AllDigits(r) && DigitsValue(r) == n
    ensures n < 0 ==> |r| >= 2 && r[0] == '-' && AllDigits(r[1..]) && DigitsValue(r[1..]) == -n
  {
    if n < 0 then
      var t := NatText(-n);
      NatTextRoundTrip(-n);
      assert ("-" + t)[1..] == t;
      "-" + t
    else
      NatTextRoundTrip(n);
      NatText(n)
  }

  /** Zeros put in front of a digit string do not change its value. */
  lemma {:induction false} LeadingZerosValue(k: nat, s: string)
    requires AllDigits(s)
    ensures AllDigits(Repeat('0', k) + s)
    ensures DigitsValue(Repeat('0', k) + s) == DigitsValue(s)
    decreases |s|
  {
    var z := Repeat('0', k) + s;
    assert AllDigits(z) by {
      forall i | 0 <= i < |z| ensures IsDigit(z[i]) {
        if i >= k { assert z[i] == s[i - k]; }
      }
    }
    if s == [] {
      ZerosValue(k);
      assert z == Repeat('0', k);
    } else {
      assert z[..|z| - 1] == Repeat('0', k) + s[..|s| - 1];
      LeadingZerosValue(k, s[..|s| - 1]);
    }
  }

  lemma {:induction false} ZerosValue(k: nat)
    ensures DigitsValue(Repeat('0', k)) == 0
  {
    if k > 0 {
      var z := Repeat('0', k);
      assert z[..k - 1] == Repeat('0', k - 1);
      ZerosValue(k - 1);
    }
  }

  function Pow10(k: nat): (p: nat)
    ensures p >= 1
  {
    if k == 0 then 1 else 10 * Pow10(k - 1)
  }

  /** The decimal text of `n` fits in `k` characters exactly when `n < 10^k`. */
  lemma {:induction false} NatTextLength(n: nat, k: nat)
    requires k >= 1
    ensures |NatText(n)| <= k <==> n < Pow10(k)
  {
    if n < 10 {
      PowAtLeastTen(k);
    } else if k == 1 {
    } else {
      NatTextLength(n / 10, k - 1);
      assert n / 10 < Pow10(k - 1) <==> n < 10 * Pow10(k - 1);
    }
  }

  lemma {:induction false} PowAtLeastTen(k: nat)
    requires k >= 1
    ensures Pow10(k) >= 10
  {
    if k > 1 { PowAtLeastTen(k - 1); }
  }
}
