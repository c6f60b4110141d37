/** The bytes of a Rust string: UTF-8, section 3 of RFC 3629. */
module Utf8 {
  import opened Text

  function EncodeChar(c: char): (r: Bytes)
    ensures 1 <= |r| <= 4
  {
    var n := c as int;
    if n < 0x80 then [n]
    else if n < 0x800 then [0xc0 + n / 64, 0x80 + n % 64]
    else if n < 0x1_0000 then [0xe0 + n / 4096, 0x80 + n / 64 % 64, 0x80 + n % 64]
    else [0xf0 + n / 262144, 0x80 + n / 4096 % 64, 0x80 + n / 64 % 64, 0x80 + n % 64]
  }

  function Encode(s: string): Bytes {
    if s == [] then [] else EncodeChar(s[0]) + Encode(s[1..])
  }

  lemma Digits(n: nat)
    requires n < 0x20_0000
    ensures n == n / 64 * 64 + n % 64
    ensures n / 64 == n / 4096 * 64 + n / 64 % 64
    ensures n / 4096 == n / 262144 * 64 + n / 4096 % 64
    ensures n / 262144 < 8
  {
    assert n / 4096 == n / 64 / 64;
    assert n / 262144 == n / 4096 / 64;
  }

  /** The scalar value read back from the leading bytes of a sequence, with the number of bytes used. */
  function DecodeScalar(b: Bytes): Option<(int, nat)> {
    if b == [] then None
    else if b[0] < 0x80 then Some((b[0] as int, 1))
    else if b[0] < 0xe0 then if |b| < 2 then None else Some(((b[0] as int - 0xc0) * 64 + (b[1] as int - 0x80), 2))
    else if b[0] < 0xf0 then
      if |b| < 3 then None else Some((((b[0] as int - 0xe0) * 64 + (b[1] as int - 0x80)) * 64 + (b[2] as int - 0x80), 3))
    else
      if |b| < 4 then None
      else Some(((((b[0] as int - 0xf0) * 64 + (b[1] as int - 0x80)) * 64 + (b[2] as int - 0x80)) * 64 + (b[3] as int - 0x80), 4))
  }

  lemma DecodesChar(c: char, rest: Bytes)
    ensures DecodeScalar(EncodeChar(c) + rest) == Some((c as int, |EncodeChar(c)|))
  {
    var n := c as int;
    Digits(n);
    var e := EncodeChar(c);
    var b := e + rest;
    assert forall i :: 0 <= i < |e| ==> b[i] == e[i];
  }

  /** No encoded character is a prefix of another, so two encodings with tails split the same way. */
  lemma CharPrefixFree(c: char, d: char, r1: Bytes, r2: Bytes)
    requires EncodeChar(c) + r1 == EncodeChar(d) + r2
    ensures c == d && r1 == r2
  {
    DecodesChar(c, r1);
    DecodesChar(d, r2);
    assert r1 == (EncodeChar(c) + r1)[|EncodeChar(c)|..];
    assert r2 == (EncodeChar(d) + r2)[|EncodeChar(d)|..];
  }

  lemma {:induction false} Injective(s: string, t: string)
    requires Encode(s) == Encode(t)
    ensures s == t
  {
    if s != [] && t != [] {
      CharPrefixFree(s[0], t[0], Encode(s[1..]), Encode(t[1..]));
      Injective(s[1..], t[1..]);
      assert s == [s[0]] + s[1..] && t == [t[0]] + t[1..];
    }
  }

  lemma {:induction false} Concat(s: string, t: string)
    ensures Encode(s + t) == Encode(s) + Encode(t)
  {
    if s == [] {
      assert s + t == t;
    } else {
      Concat(s[1..], t);
      assert (s + t)[1..] == s[1..] + t;
      Append(EncodeChar(s[0]), Encode(s[1..]), Encode(t));
    }
  }

  /** An ASCII byte occurs in an encoding only as the character itself. */
  lemma {:induction false} AsciiOccurs(s: string, c: char)
    requires c as int < 0x80
    requires c !in s
    ensures c as int !in Encode(s)
  {
    if s == [] {
    } else {
      AsciiOccurs(s[1..], c);
      var e := EncodeChar(s[0]);
      Digits(s[0] as int);
      assert forall i :: 0 <= i < |e| ==> e[i] != c as int;
    }
  }

  lemma {:induction false} AtMostFour(s: string)
    ensures |Encode(s)| <= 4 * |s|
  {
    if s == [] {
    } else {
      AtMostFour(s[1..]);
    }
  }
}
