/** The two text encodings the store's keys are built from: lowercase
    hexadecimal of a byte string (Go's `hex.EncodeToString`) and the
    base-10 form of an unsigned integer (Go's `strconv.FormatUint(n, 10)`),
    each with a decoder and round-trip lemmas in both directions. */
module Encoding {
  import opened Types

  const HexAlphabet: string := "0123456789abcdef"

  predicate IsHexChar(c: char) {
    c in HexAlphabet
  }

  predicate IsDigit(c: char) {
    '0' <= c <= '9'
  }

  /** The lowercase hex digit for a value below 16. */
  function HexChar(v: nat): (c: char)
    requires v < 16
    ensures IsHexChar(c)
  {
    HexAlphabet[v]
  }

  /** The value of a lowercase hex digit; None for any other character. */
  function HexValue(c: char): (r: Option<nat>)
    ensures r.Some? <==> IsHexChar(c)
    ensures r.Some? ==> r.value < 16 && HexChar(r.value) == c
  {
    if '0' <= c <= '9' then Some(c as int - '0' as int)
    else if 'a' <= c <= 'f' then Some(c as int - 'a' as int + 10)
    else None
  }

  lemma HexValueOfHexChar(v: nat)
    requires v < 16
    ensures HexValue(HexChar(v)) == Some(v)
  {
  }

  /** Two characters per byte, high nibble first. */
  function HexEncode(bs: Bytes): (s: string)
    ensures |s| == 2 * |bs|
    ensures forall i :: 0 <= i < |s| ==> IsHexChar(s[i])
    ensures forall i :: 0 <= i < |bs| ==> s[2 * i] == HexChar(bs[i] / 16) && s[2 * i + 1] == HexChar(bs[i] % 16)
  {
    if bs == [] then []
    else [HexChar(bs[0] / 16), HexChar(bs[0] % 16)] + HexEncode(bs[1..])
  }

  /** Decodes lowercase hex; None on an odd length or a character outside
      the lowercase hex alphabet. */
  function HexDecode(s: string): (r: Option<Bytes>)
    ensures r.Some? ==> |r.value| * 2 == |s|
    decreases |s|
  {
    if s == [] then Some([])
    else if |s| == 1 then None
    else
      match (HexValue(s[0]), HexValue(s[1]), HexDecode(s[2..]))
      case (Some(hi), Some(lo), Some(rest)) => Some([JoinNibbles(hi, lo)] + rest)
      case _ => None
  }

  /** The byte whose high and low nibbles are hi and lo. */
  function JoinNibbles(hi: nat, lo: nat): (b: byte)
    requires hi < 16 && lo < 16
    ensures b / 16 == hi && b % 16 == lo
  {
    hi * 16 + lo
  }

  lemma {:induction false} HexDecodeEncode(bs: Bytes)
    ensures HexDecode(HexEncode(bs)) == Some(bs)
  {
    if bs != [] {
      var s := HexEncode(bs);
      var hi, lo := bs[0] / 16, bs[0] % 16;
      HexValueOfHexChar(hi);
      HexValueOfHexChar(lo);
      assert s[0] == HexChar(hi) && s[1] == HexChar(lo);
      assert s[2..] == HexEncode(bs[1..]);
      HexDecodeEncode(bs[1..]);
      assert JoinNibbles(hi, lo) == bs[0];
      assert [bs[0]] + bs[1..] == bs;
    }
  }

  lemma {:induction false} HexEncodeDecode(s: string, bs: Bytes)
    requires HexDecode(s) == Some(bs)
    ensures HexEncode(bs) == s
    decreases |s|
  {
    if s != [] {
      var hi := HexValue(s[0]).value;
      var lo := HexValue(s[1]).value;
      var rest := HexDecode(s[2..]).value;
      var b := JoinNibbles(hi, lo);
      assert bs == [b] + rest;
      HexEncodeDecode(s[2..], rest);
      assert bs[1..] == rest;
      assert s == [s[0], s[1]] + s[2..];
    }
  }

  /** Hex encoding is injective, so distinct hashes give distinct keys. */
  lemma HexEncodeInjective(a: Bytes, b: Bytes)
    requires HexEncode(a) == HexEncode(b)
    ensures a == b
  {
    HexDecodeEncode(a);
    HexDecodeEncode(b);
  }

  function DigitChar(v: nat): (c: char)
    requires v < 10
    ensures IsDigit(c)
  {
    ('0' as int + v) as char
  }

  /** Base-10 text of n: "0" for zero, otherwise no leading zero. */
  function FormatUint(n: nat): (s: string)
    ensures |s| >= 1
    ensures forall i :: 0 <= i < |s| ==> IsDigit(s[i])
    decreases n
  {
    if n < 10 then [DigitChar(n)]
    else FormatUint(n / 10) + [DigitChar(n % 10)]
  }

  /** The strings FormatUint can produce: non-empty, all digits, and no
      leading zero unless the whole string is "0". */
  predicate IsCanonicalDecimal(s: string) {
    && |s| >= 1
    && (forall i :: 0 <= i < |s| ==> IsDigit(s[i]))
    && (|s| > 1 ==> s[0] != '0')
  }

  function DigitValue(c: char): (v: nat)
    requires IsDigit(c)
    ensures v < 10 && DigitChar(v) == c
  {
    c as int - '0' as int
  }

  /** The value of a string of digits (the least significant digit last). */
  function ParseDigits(s: string): (n: nat)
    requires forall i :: 0 <= i < |s| ==> IsDigit(s[i])
    decreases |s|
  {
    if s == [] then 0
    else ParseDigits(s[..|s| - 1]) * 10 + DigitValue(s[|s| - 1])
  }

  lemma FormatUintFirstDigit(n: nat)
    ensures FormatUint(n)[0] == '0' <==> n == 0
    decreases n
  {
    if n >= 10 {
      FormatUintFirstDigit(n / 10);
    }
  }

  lemma FormatUintCanonical(n: nat)
    ensures IsCanonicalDecimal(FormatUint(n))
  {
    FormatUintFirstDigit(n);
  }

  lemma {:induction false} ParseFormatUint(n: nat)
    ensures ParseDigits(FormatUint(n)) == n
    decreases n
  {
    var s := FormatUint(n);
    if n >= 10 {
      ParseFormatUint(n / 10);
      assert s[..|s| - 1] == FormatUint(n / 10);
    }
  }

  lemma {:induction false} ParseDigitsPositive(s: string)
    requires IsCanonicalDecimal(s) && s[0] != '0'
    ensures ParseDigits(s) > 0
    decreases |s|
  {
    if |s| > 1 {
      var p := s[..|s| - 1];
      assert p[0] == s[0];
      ParseDigitsPositive(p);
    }
  }

  lemma {:induction false} FormatParseDigits(s: string)
    requires IsCanonicalDecimal(s)
    ensures FormatUint(ParseDigits(s)) == s
    decreases |s|
  {
    if |s| > 1 {
      var p := s[..|s| - 1];
      assert p[0] == s[0];
      ParseDigitsPositive(p);
      FormatParseDigits(p);
      var n := ParseDigits(s);
      var d := DigitValue(s[|s| - 1]);
      assert n / 10 == ParseDigits(p) && n % 10 == d;
      assert s == p + [s[|s| - 1]];
    }
  }

  /** Decimal formatting is injective, so distinct heights give distinct keys. */
  lemma FormatUintInjective(a: nat, b: nat)
    requires FormatUint(a) == FormatUint(b)
    ensures a == b
  {
    ParseFormatUint(a);
    ParseFormatUint(b);
  }
}
