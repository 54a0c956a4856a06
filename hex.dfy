/**
 * Lower-case hexadecimal encoding of byte strings, two characters per byte,
 * as `encoding/hex.EncodeToString` produces it, and the decoding that undoes it.
 */
module Hex {
  import opened Wire

  /** The value of one hexadecimal digit of either case. */
  function DigitValue(c: char): (v: Option<int>)
    ensures v.Some? ==> 0 <= v.value < 16
  {
    if '0' <= c <= '9' then Some(c as int - '0' as int)
    else if 'a' <= c <= 'f' then Some(c as int - 'a' as int + 10)
    else if 'A' <= c <= 'F' then Some(c as int - 'A' as int + 10)
    else None
  }

  predicate IsLowerHexDigit(c: char) {
    '0' <= c <= '9' || 'a' <= c <= 'f'
  }

  /** The lower-case digit of a nibble: character `v` of "0123456789abcdef". */
  function Digit(v: int): (c: char)
    requires 0 <= v < 16
    ensures IsLowerHexDigit(c) && DigitValue(c) == Some(v)
  {
    if v < 10 then ('0' as int + v) as char else ('a' as int + v - 10) as char
  }

  /** The two lower-case digits of one byte, high nibble first. */
  function ByteDigits(b: Byte): (s: string)
    ensures |s| == 2 && IsLowerHexDigit(s[0]) && IsLowerHexDigit(s[1])
    ensures DigitValue(s[0]) == Some(b / 16) && DigitValue(s[1]) == Some(b % 16)
  {
    [Digit(b / 16), Digit(b % 16)]
  }

  /** Each byte becomes its two digits, in byte order; only lower-case digits appear. */
  function Encode(bytes: seq<Byte>): (s: string)
    ensures |s| == 2 * |bytes|
    ensures forall j :: 0 <= j < |s| ==> IsLowerHexDigit(s[j])
  {
    if |bytes| == 0 then [] else ByteDigits(bytes[0]) + Encode(bytes[1..])
  }

  /** Characters 2i and 2i+1 of the encoding are the digits of byte i. */
  lemma {:induction false} EncodeAt(bytes: seq<Byte>, i: nat)
    requires i < |bytes|
    ensures Encode(bytes)[2 * i..2 * i + 2] == ByteDigits(bytes[i])
  {
    if i > 0 {
      EncodeAt(bytes[1..], i - 1);
      assert Encode(bytes)[2 * i..2 * i + 2] == Encode(bytes[1..])[2 * (i - 1)..2 * (i - 1) + 2];
    }
  }

  /** `encoding/hex.DecodeString`: pairs of digits of either case, or `None`
      for an odd length or a non-digit. */
  function Decode(s: string): (r: Option<seq<Byte>>)
    ensures r.Some? ==> 2 * |r.value| == |s|
    decreases |s|
  {
    if |s| == 0 then Some([])
    else if |s| == 1 then None
    else
      var hi, lo, rest := DigitValue(s[0]), DigitValue(s[1]), Decode(s[2..]);
      if hi.Some? && lo.Some? && rest.Some? then Some([hi.value * 16 + lo.value] + rest.value)
      else None
  }

  /** Decoding two digits in front of a tail yields the byte they spell in
      front of the tail's decoding. */
  lemma DecodePair(c0: char, c1: char, tail: string)
    requires DigitValue(c0).Some? && DigitValue(c1).Some?
    ensures Decode([c0, c1] + tail)
            == if Decode(tail).Some? then Some([DigitValue(c0).value * 16 + DigitValue(c1).value] + Decode(tail).value) else None
  {
    var s := [c0, c1] + tail;
    assert s[0] == c0 && s[1] == c1 && s[2..] == tail;
  }

  /** Decoding a byte's two digits in front of a tail yields that byte in front
      of the tail's decoding. */
  lemma DecodeByteDigits(b: Byte, tail: string)
    ensures Decode(ByteDigits(b) + tail) == if Decode(tail).Some? then Some([b] + Decode(tail).value) else None
  {
    var digits := ByteDigits(b);
    DecodePair(digits[0], digits[1], tail);
    assert digits == [digits[0], digits[1]];
    Nibbles(b);
  }

  lemma Nibbles(b: Byte)
    ensures b / 16 * 16 + b % 16 == b
  {
  }

  /** The stored hash column gives back exactly the hash bytes. */
  lemma {:induction false} DecodeEncode(bytes: seq<Byte>)
    ensures Decode(Encode(bytes)) == Some(bytes)
  {
    if |bytes| > 0 {
      var b, rest := bytes[0], bytes[1..];
      assert Encode(bytes) == ByteDigits(b) + Encode(rest);
      DecodeByteDigits(b, Encode(rest));
      DecodeEncode(rest);
      assert [b] + rest == bytes;
    }
  }

  /** Distinct hashes are stored as distinct strings. */
  lemma EncodeInjective(a: seq<Byte>, b: seq<Byte>)
    requires Encode(a) == Encode(b)
    ensures a == b
  {
    DecodeEncode(a);
    DecodeEncode(b);
  }
}
