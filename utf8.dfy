/**
 * UTF-8 encoding of strings, as done by `new TextEncoder().encode(s)`, for
 * strings of Unicode scalar values only. Dafny characters are scalar values,
 * so every character has a well-formed encoding of one to four bytes. A
 * JavaScript string may also hold a lone surrogate, which `TextEncoder`
 * replaces by U+FFFD; such strings cannot be written here.
 */
module Utf8 {
  import opened Bytes

  /** The bytes of one character. */
  function EncodeChar(c: char): (r: seq<Byte>)
    ensures 1 <= |r| <= 4
    ensures LeadLength(r[0]) == |r|
    ensures forall i :: 1 <= i < |r| ==> 0x80 <= r[i] < 0xC0
  {
    var n := c as int;
    if n < 0x80 then [n]
    else if n < 0x800 then [0xC0 + n / 64, 0x80 + n % 64]
    else if n < 0x10000 then [0xE0 + n / 4096, 0x80 + (n / 64) % 64, 0x80 + n % 64]
    else [0xF0 + n / 262144, 0x80 + (n / 4096) % 64, 0x80 + (n / 64) % 64, 0x80 + n % 64]
  }

  /** How many bytes a character takes, read off its first byte (0 for a continuation byte). */
  function LeadLength(b: Byte): nat {
    if b < 0x80 then 1
    else if b < 0xC0 then 0
    else if b < 0xE0 then 2
    else if b < 0xF0 then 3
    else 4
  }

  /** The code point carried by the bytes of one character. */
  function DecodeChar(r: seq<Byte>): int
    requires 1 <= |r| <= 4
  {
    if |r| == 1 then r[0] as int
    else if |r| == 2 then (r[0] as int - 0xC0) * 64 + Low(r[1])
    else if |r| == 3 then (r[0] as int - 0xE0) * 4096 + Low(r[1]) * 64 + Low(r[2])
    else (r[0] as int - 0xF0) * 262144 + Low(r[1]) * 4096 + Low(r[2]) * 64 + Low(r[3])
  }

  /** The six payload bits of a continuation byte. */
  function Low(b: Byte): int {
    b as int - 0x80
  }

  /** The bytes of a whole string: the characters' encodings, in order. */
  function Encode(s: string): (r: seq<Byte>)
    ensures |r| >= |s|
    ensures r == [] <==> s == []
  {
    if s == [] then [] else EncodeChar(s[0]) + Encode(s[1..])
  }

  lemma DecodeEncodeChar(c: char)
    ensures DecodeChar(EncodeChar(c)) == c as int
  {
    var n := c as int;
    if n >= 0x10000 {
      var q := n / 64;
      var p := q / 64;
      assert n == q * 64 + n % 64;
      assert q == p * 64 + q % 64;
      assert p == (p / 64) * 64 + p % 64;
      assert n / 4096 == p;
      assert n / 262144 == p / 64;
    } else if n >= 0x800 {
      var q := n / 64;
      assert n == q * 64 + n % 64;
      assert q == (q / 64) * 64 + q % 64;
      assert n / 4096 == q / 64;
    }
  }

  lemma EncodeCharInjective(c: char, d: char)
    requires EncodeChar(c) == EncodeChar(d)
    ensures c == d
  {
    DecodeEncodeChar(c);
    DecodeEncodeChar(d);
  }

  /** Distinct strings have distinct encodings. */
  lemma {:induction false} EncodeInjective(s: string, t: string)
    requires Encode(s) == Encode(t)
    ensures s == t
  {
    if s != [] && t != [] {
      var a, b := EncodeChar(s[0]), EncodeChar(t[0]);
      var e := Encode(s);
      assert e == a + Encode(s[1..]);
      assert Encode(t) == b + Encode(t[1..]);
      assert |a| == LeadLength(e[0]) == |b|;
      assert a == e[..|a|] == b;
      EncodeCharInjective(s[0], t[0]);
      assert Encode(s[1..]) == e[|a|..] == Encode(t[1..]);
      EncodeInjective(s[1..], t[1..]);
      assert s == [s[0]] + s[1..];
      assert t == [t[0]] + t[1..];
    }
  }

  /** Encoding distributes over concatenation. */
  lemma {:induction false} EncodeAppend(s: string, t: string)
    ensures Encode(s + t) == Encode(s) + Encode(t)
  {
    if s != [] {
      assert (s + t)[0] == s[0];
      assert (s + t)[1..] == s[1..] + t;
      EncodeAppend(s[1..], t);
    } else {
      assert s + t == t;
    }
  }
}
