/**
 * UTF-8 encoding of text (`str.encode('utf-8')`), as RFC 3629 section 3 lays it out.
 * Dafny's `char` is a Unicode scalar value: text here holds no lone surrogate, the one case
 * on which Python's `encode('utf-8')` raises.
 */
module Utf8 {

  type byte = x: int | 0 <= x < 256

  /** The one to four bytes that encode one scalar value. */
  function EncodeChar(c: char): (r: seq<byte>)
    ensures 1 <= |r| <= 4
    ensures (c as int < 0x80) <==> (|r| == 1)
    ensures |r| == 1 ==> r[0] == c as int
    ensures |r| > 1 ==> forall k :: 1 <= k < |r| ==> 0x80 <= r[k] < 0xC0
    ensures |r| == 2 ==> 0xC0 <= r[0] < 0xE0
    ensures |r| == 3 ==> 0xE0 <= r[0] < 0xF0
    ensures |r| == 4 ==> 0xF0 <= r[0] < 0xF8
  {
    var n := c as int;
    if n < 0x80 then [n]
    else if n < 0x800 then [0xC0 + n / 64, 0x80 + n % 64]
    else if n < 0x10000 then [0xE0 + n / 4096, 0x80 + (n / 64) % 64, 0x80 + n % 64]
    else [0xF0 + n / 262144, 0x80 + (n / 4096) % 64, 0x80 + (n / 64) % 64, 0x80 + n % 64]
  }

  function Encode(s: string): (r: seq<byte>)
    ensures |s| <= |r| <= 4 * |s|
    ensures s == [] <==> r == []
  {
    if s == [] then [] else EncodeChar(s[0]) + Encode(s[1..])
  }

  /** The scalar value a (well-formed) encoding of one character stands for. */
  function DecodeChar(b: seq<byte>): int
    requires 1 <= |b| <= 4
  {
    var b0: int := b[0];
    if |b| == 1 then b0
    else if |b| == 2 then (b0 - 0xC0) * 64 + (b[1] as int - 0x80)
    else if |b| == 3 then (b0 - 0xE0) * 4096 + (b[1] as int - 0x80) * 64 + (b[2] as int - 0x80)
    else (b0 - 0xF0) * 262144 + (b[1] as int - 0x80) * 4096 + (b[2] as int - 0x80) * 64 + (b[3] as int - 0x80)
  }

  /** A number is its base-64 digits: the quotient by 64 and the remainder. */
  lemma Digits(n: nat)
    ensures n == (n / 4096) * 4096 + ((n / 64) % 64) * 64 + n % 64
    ensures n / 4096 == (n / 262144) * 64 + (n / 4096) % 64
  {
    var m := n / 64;
    assert n == m * 64 + n % 64;
    assert m == (m / 64) * 64 + m % 64;
    assert m / 64 == n / 4096;
    var k := n / 4096;
    assert k == (k / 64) * 64 + k % 64;
    assert k / 64 == n / 262144;
  }

  lemma DecodeEncodeChar(c: char)
    ensures DecodeChar(EncodeChar(c)) == c as int
  {
    var n := c as int;
    if n >= 0x800 {
      Digits(n);
    }
  }

  /** The lead byte fixes a character's length, so one encoding is never a proper prefix of another. */
  lemma EncodeCharPrefixFree(c: char, d: char, x: seq<byte>, y: seq<byte>)
    requires EncodeChar(c) + x == EncodeChar(d) + y
    ensures c == d && x == y
  {
    var ec, ed := EncodeChar(c), EncodeChar(d);
    assert ec[0] == (ec + x)[0] == (ed + y)[0] == ed[0];
    assert |ec| == |ed|;
    assert ec == (ec + x)[..|ec|] == (ed + y)[..|ed|] == ed;
    DecodeEncodeChar(c);
    DecodeEncodeChar(d);
    assert x == (ec + x)[|ec|..] == (ed + y)[|ed|..] == y;
  }

  /** Distinct texts have distinct UTF-8 encodings. */
  lemma {:induction false} EncodeInjective(s: string, t: string)
    requires Encode(s) == Encode(t)
    ensures s == t
  {
    if s != [] {
      assert t != [];
      EncodeCharPrefixFree(s[0], t[0], Encode(s[1..]), Encode(t[1..]));
      EncodeInjective(s[1..], t[1..]);
    }
  }
}
