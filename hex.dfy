/**
 * Lower-case hexadecimal encoding of bytes, as written in both hashing helpers:
 * each byte becomes `b.toString(16).padStart(2, "0")` and the pieces are joined
 * with the empty separator.
 */
module Hex {
  import opened Bytes
  import opened Wrappers

  predicate IsHexDigit(c: char) {
    '0' <= c <= '9' || 'a' <= c <= 'f'
  }

  /** The digit for a value below 16, lower case as `toString(16)` writes it. */
  function Digit(d: int): (c: char)
    requires 0 <= d < 16
    ensures IsHexDigit(c)
  {
    if d < 10 then ('0' as int + d) as char else ('a' as int + d - 10) as char
  }

  /** The value of a hexadecimal digit. */
  function DigitValue(c: char): (d: int)
    requires IsHexDigit(c)
    ensures 0 <= d < 16
  {
    if c <= '9' then c as int - '0' as int else c as int - 'a' as int + 10
  }

  lemma DigitValueOfDigit(d: int)
    requires 0 <= d < 16
    ensures DigitValue(Digit(d)) == d
  {
  }

  /** `b.toString(16)`: base 16 without leading zeros. */
  function ToBase16(b: Byte): (r: string)
    ensures |r| == if b < 16 then 1 else 2
    ensures r[|r| - 1] == Digit(b % 16)
    ensures b >= 16 ==> r[0] == Digit(b / 16)
  {
    if b < 16 then [Digit(b)] else [Digit(b / 16), Digit(b % 16)]
  }

  /** `s.padStart(2, "0")`. */
  function PadStart2(s: string): (r: string)
    ensures |r| == if |s| < 2 then 2 else |s|
    ensures r[|r| - |s|..] == s
    ensures forall i :: 0 <= i < |r| - |s| ==> r[i] == '0'
  {
    if |s| < 2 then seq(2 - |s|, _ => '0') + s else s
  }

  /** One byte as exactly two digits, the high nibble first. */
  function ByteToHex(b: Byte): (r: string)
    ensures |r| == 2 && IsHexDigit(r[0]) && IsHexDigit(r[1])
    ensures DigitValue(r[0]) * 16 + DigitValue(r[1]) == b
  {
    [Digit(b / 16), Digit(b % 16)]
  }

  /** The two digits are what `b.toString(16).padStart(2, "0")` writes. */
  lemma ByteToHexIsPadStart(b: Byte)
    ensures ByteToHex(b) == PadStart2(ToBase16(b))
  {
    if b < 16 {
      assert PadStart2(ToBase16(b)) == ['0'] + [Digit(b)];
    }
  }

  /** `Array.from(bytes).map(b => b.toString(16).padStart(2, "0")).join("")`. */
  function Encode(bytes: seq<Byte>): (r: string)
    ensures |r| == 2 * |bytes|
    ensures forall i :: 0 <= i < |r| ==> IsHexDigit(r[i])
  {
    if bytes == [] then [] else ByteToHex(bytes[0]) + Encode(bytes[1..])
  }

  /** The inverse of `Encode`: pairs of lower-case digits back to bytes. */
  function Decode(s: string): Option<seq<Byte>>
    decreases |s|
  {
    if s == [] then Some([])
    else if |s| == 1 || !IsHexDigit(s[0]) || !IsHexDigit(s[1]) then None
    else
      match Decode(s[2..])
      case None => None
      case Some(rest) => Some([DigitValue(s[0]) * 16 + DigitValue(s[1])] + rest)
  }

  /** Decoding undoes encoding. */
  lemma {:induction false} DecodeEncode(bytes: seq<Byte>)
    ensures Decode(Encode(bytes)) == Some(bytes)
  {
    if bytes != [] {
      var b := bytes[0];
      var e := Encode(bytes);
      assert e == ByteToHex(b) + Encode(bytes[1..]);
      assert e[0] == Digit(b / 16) && e[1] == Digit(b % 16);
      assert e[2..] == Encode(bytes[1..]);
      DecodeEncode(bytes[1..]);
      DigitValueOfDigit(b / 16);
      DigitValueOfDigit(b % 16);
      assert bytes == [b] + bytes[1..];
    }
  }

  /** Distinct byte strings have distinct encodings. */
  lemma EncodeInjective(a: seq<Byte>, b: seq<Byte>)
    requires Encode(a) == Encode(b)
    ensures a == b
  {
    DecodeEncode(a);
    DecodeEncode(b);
  }

  /** The encoding of a concatenation is the concatenation of the encodings. */
  lemma {:induction false} EncodeAppend(a: seq<Byte>, b: seq<Byte>)
    ensures Encode(a + b) == Encode(a) + Encode(b)
  {
    if a != [] {
      assert (a + b)[0] == a[0] && (a + b)[1..] == a[1..] + b;
      EncodeAppend(a[1..], b);
      assert Encode(a + b) == ByteToHex(a[0]) + Encode(a[1..] + b);
      assert Encode(a) == ByteToHex(a[0]) + Encode(a[1..]);
    } else {
      assert a + b == b;
    }
  }

  /** The encoding of a prefix is the matching prefix of the encoding. */
  lemma EncodePrefix(bytes: seq<Byte>, k: nat)
    requires k <= |bytes|
    ensures Encode(bytes)[..2 * k] == Encode(bytes[..k])
  {
    assert bytes == bytes[..k] + bytes[k..];
    EncodeAppend(bytes[..k], bytes[k..]);
  }
}
