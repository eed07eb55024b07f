/** Hexadecimal text: the `toString("hex")` encoding of a byte buffer, and
    hex digit strings read as numbers (the digits of a uuid). */
module Hex {
  import opened Common

  newtype byte = x: int | 0 <= x < 256

  const LowerDigits: string := "0123456789abcdef"

  function DigitValue(c: char): (r: Option<nat>)
    ensures r.Some? ==> r.value < 16
  {
    if '0' <= c <= '9' then Some(c as int - '0' as int)
    else if 'a' <= c <= 'f' then Some(c as int - 'a' as int + 10)
    else if 'A' <= c <= 'F' then Some(c as int - 'A' as int + 10)
    else None
  }

  predicate IsHexDigit(c: char) {
    DigitValue(c).Some?
  }

  predicate IsLowerHexDigit(c: char) {
    '0' <= c <= '9' || 'a' <= c <= 'f'
  }

  function DigitChar(v: nat): (c: char)
    requires v < 16
    ensures IsLowerHexDigit(c)
    ensures DigitValue(c) == Some(v)
  {
    LowerDigits[v]
  }

  /** `buf.toString("hex")`: two lower-case digits per byte, high nibble first. */
  function Encode(bs: seq<byte>): (r: string)
    ensures |r| == 2 * |bs|
    ensures forall i :: 0 <= i < |r| ==> IsLowerHexDigit(r[i])
  {
    if |bs| == 0 then []
    else [DigitChar(bs[0] as nat / 16), DigitChar(bs[0] as nat % 16)] + Encode(bs[1..])
  }

  /** The inverse reading: pairs of hex digits back to bytes. */
  function Decode(s: string): Option<seq<byte>>
  {
    if |s| == 0 then Some([])
    else if |s| == 1 then None
    else match (DigitValue(s[0]), DigitValue(s[1]), Decode(s[2..]))
      case (Some(h), Some(l), Some(rest)) => Some([(h * 16 + l) as byte] + rest)
      case _ => None
  }

  /** The hex text of a buffer determines the buffer: no two buffers share a
      token, so the token carries all the randomness of its bytes. */
  lemma {:induction false} DecodeEncode(bs: seq<byte>)
    ensures Decode(Encode(bs)) == Some(bs)
  {
    if |bs| > 0 {
      var e := Encode(bs);
      var b := bs[0] as nat;
      assert e[2..] == Encode(bs[1..]);
      DecodeEncode(bs[1..]);
      ByteNibbles(bs[0]);
      DecodePair(e, b / 16, b % 16, bs[1..]);
      assert [bs[0]] + bs[1..] == bs;
    }
  }

  lemma ByteNibbles(x: byte)
    ensures x as nat / 16 < 16 && x as nat % 16 < 16
    ensures (x as nat / 16 * 16 + x as nat % 16) as byte == x
  {
  }

  lemma DecodePair(s: string, h: nat, l: nat, rest: seq<byte>)
    requires |s| >= 2 && DigitValue(s[0]) == Some(h) && DigitValue(s[1]) == Some(l)
    requires Decode(s[2..]) == Some(rest)
    ensures Decode(s) == Some([(h * 16 + l) as byte] + rest)
  {
  }

  lemma EncodeInjective(a: seq<byte>, b: seq<byte>)
    requires Encode(a) == Encode(b)
    ensures a == b
  {
    DecodeEncode(a);
    DecodeEncode(b);
  }

  function Pow16(n: nat): (r: nat)
    ensures r >= 1
  {
    if n == 0 then 1 else 16 * Pow16(n - 1)
  }

  /** The number a string of hex digits denotes, most significant digit first. */
  function Value(s: string): nat
    requires forall i :: 0 <= i < |s| ==> IsHexDigit(s[i])
  {
    if |s| == 0 then 0
    else
      assert IsHexDigit(s[|s| - 1]);
      Value(s[..|s| - 1]) * 16 + DigitValue(s[|s| - 1]).value
  }

  /** `n` written with exactly `width` lower-case hex digits. */
  function Digits(n: nat, width: nat): (r: string)
    ensures |r| == width
    ensures forall i :: 0 <= i < |r| ==> IsLowerHexDigit(r[i]) && IsHexDigit(r[i])
  {
    if width == 0 then ""
    else Digits(n / 16, width - 1) + [DigitChar(n % 16)]
  }

  lemma {:induction false} ValueDigits(n: nat, width: nat)
    requires n < Pow16(width)
    ensures Value(Digits(n, width)) == n
  {
    if width > 0 {
      var p := Digits(n / 16, width - 1);
      ValueSnoc(p, DigitChar(n % 16));
      SixteenthBound(n, Pow16(width - 1));
      ValueDigits(n / 16, width - 1);
    }
  }

  /** Appending a digit multiplies the value by sixteen and adds the digit. */
  lemma ValueSnoc(p: string, c: char)
    requires forall i :: 0 <= i < |p| ==> IsHexDigit(p[i])
    requires IsHexDigit(c)
    ensures Value(p + [c]) == Value(p) * 16 + DigitValue(c).value
  {
    assert (p + [c])[..|p|] == p;
  }

  lemma SixteenthBound(n: nat, m: nat)
    requires n < 16 * m
    ensures n / 16 < m
  {
  }

  lemma {:induction false} ValueBound(s: string)
    requires forall i :: 0 <= i < |s| ==> IsHexDigit(s[i])
    ensures Value(s) < Pow16(|s|)
  {
    if |s| > 0 {
      ValueBound(s[..|s| - 1]);
    }
  }

  function LowerHex(c: char): char
    requires IsHexDigit(c)
  {
    DigitChar(DigitValue(c).value)
  }

  /** Writing the value of a digit string back out gives the same digits in
      lower case. */
  lemma {:induction false} DigitsValue(s: string)
    requires forall i :: 0 <= i < |s| ==> IsHexDigit(s[i])
    ensures Digits(Value(s), |s|) == seq(|s|, i requires 0 <= i < |s| => LowerHex(s[i]))
  {
    if |s| > 0 {
      var p := s[..|s| - 1];
      var c := DigitValue(s[|s| - 1]).value;
      DigitsValue(p);
      assert (Value(p) * 16 + c) / 16 == Value(p);
      assert (Value(p) * 16 + c) % 16 == c;
    }
  }
}
