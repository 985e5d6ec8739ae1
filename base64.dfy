/**
 * Base 64 encoding as section 4 of RFC 4648 defines it (`base64.b64encode`), with the
 * decoder that inverts it; the round trip makes the encoding injective on bytes.
 */
module Base64 {
  import opened Wrappers
  import opened Utf8

  type sextet = x: int | 0 <= x < 64

  /** The alphabet of Table 1 in section 4 of RFC 4648. */
  function Letter(i: sextet): (c: char)
    ensures c != '='
  {
    if i < 26 then ('A' as int + i) as char
    else if i < 52 then ('a' as int + i - 26) as char
    else if i < 62 then ('0' as int + i - 52) as char
    else if i == 62 then '+'
    else '/'
  }

  /** The value of an alphabet letter, or None for a character outside the alphabet. */
  function Value(c: char): (r: Option<sextet>)
    ensures r.Some? ==> Letter(r.value) == c
  {
    if 'A' <= c <= 'Z' then Some(c as int - 'A' as int)
    else if 'a' <= c <= 'z' then Some(c as int - 'a' as int + 26)
    else if '0' <= c <= '9' then Some(c as int - '0' as int + 52)
    else if c == '+' then Some(62)
    else if c == '/' then Some(63)
    else None
  }

  lemma ValueLetter(i: sextet)
    ensures Value(Letter(i)) == Some(i)
  {
  }

  /** Three bytes (24 bits) become four letters, most significant bits first. */
  function EncodeGroup(b0: byte, b1: byte, b2: byte): seq<char>
  {
    [Letter(b0 / 4), Letter((b0 % 4) * 16 + b1 / 16), Letter((b1 % 16) * 4 + b2 / 64), Letter(b2 % 64)]
  }

  function Encode(b: seq<byte>): (s: string)
    ensures |s| == (|b| + 2) / 3 * 4
  {
    if |b| == 0 then []
    else if |b| == 1 then [Letter(b[0] / 4), Letter((b[0] % 4) * 16), '=', '=']
    else if |b| == 2 then [Letter(b[0] / 4), Letter((b[0] % 4) * 16 + b[1] / 16), Letter((b[1] % 16) * 4), '=']
    else EncodeGroup(b[0], b[1], b[2]) + Encode(b[3..])
  }

  /** Decodes one quantum of four characters: three, two or one byte(s) depending on the padding. */
  function DecodeQuantum(q: seq<char>): (r: Option<seq<byte>>)
    requires |q| == 4
  {
    var v0, v1 := Value(q[0]), Value(q[1]);
    if v0.None? || v1.None? then None
    else
      var s0, s1 := v0.value, v1.value;
      var b0 := s0 * 4 + s1 / 16;
      if q[2] == '=' then
        if q[3] == '=' && s1 % 16 == 0 then Some([b0]) else None
      else
        var v2 := Value(q[2]);
        if v2.None? then None
        else
          var s2 := v2.value;
          var b1 := (s1 % 16) * 16 + s2 / 4;
          if q[3] == '=' then
            if s2 % 4 == 0 then Some([b0, b1]) else None
          else
            var v3 := Value(q[3]);
            if v3.None? then None
            else Some([b0, b1, (s2 % 4) * 64 + v3.value])
  }

  /** Decoding; None for text that is not a canonical encoding (padding only in the last quantum). */
  function Decode(s: string): (r: Option<seq<byte>>)
    decreases |s|
  {
    if |s| == 0 then Some([])
    else if |s| < 4 then None
    else
      var q := DecodeQuantum(s[..4]);
      if q.None? then None
      else if |q.value| < 3 then (if |s| == 4 then q else None)
      else
        var rest := Decode(s[4..]);
        if rest.None? then None else Some(q.value + rest.value)
  }

  lemma DecodeGroup(b0: byte, b1: byte, b2: byte)
    ensures DecodeQuantum(EncodeGroup(b0, b1, b2)) == Some([b0, b1, b2])
  {
    var s0, s1, s2, s3 := b0 / 4, (b0 % 4) * 16 + b1 / 16, (b1 % 16) * 4 + b2 / 64, b2 % 64;
    ValueLetter(s0);
    ValueLetter(s1);
    ValueLetter(s2);
    ValueLetter(s3);
    assert s1 / 16 == b0 % 4 && s1 % 16 == b1 / 16;
    assert s2 / 4 == b1 % 16 && s2 % 4 == b2 / 64;
    assert s0 * 4 + s1 / 16 == b0;
    assert (s1 % 16) * 16 + s2 / 4 == b1;
    assert (s2 % 4) * 64 + s3 == b2;
  }

  lemma DecodeOne(b0: byte)
    ensures DecodeQuantum(Encode([b0])) == Some([b0])
  {
    ValueLetter(b0 / 4);
    ValueLetter((b0 % 4) * 16);
  }

  lemma DecodeTwo(b0: byte, b1: byte)
    ensures DecodeQuantum(Encode([b0, b1])) == Some([b0, b1])
  {
    var s1, s2 := (b0 % 4) * 16 + b1 / 16, (b1 % 16) * 4;
    ValueLetter(b0 / 4);
    ValueLetter(s1);
    ValueLetter(s2);
    assert s1 / 16 == b0 % 4 && s1 % 16 == b1 / 16;
    assert s2 / 4 == b1 % 16 && s2 % 4 == 0;
  }

  lemma DecodeFinal(q: seq<char>)
    requires |q| == 4 && DecodeQuantum(q).Some? && |DecodeQuantum(q).value| < 3
    ensures Decode(q) == DecodeQuantum(q)
  {
    assert q[..4] == q;
  }

  lemma DecodeAppend(q: seq<char>, rest: string)
    requires |q| == 4 && DecodeQuantum(q).Some? && |DecodeQuantum(q).value| == 3
    requires Decode(rest).Some?
    ensures Decode(q + rest) == Some(DecodeQuantum(q).value + Decode(rest).value)
  {
    var s := q + rest;
    assert s[..4] == q && s[4..] == rest;
  }

  lemma DecodeEncodeOne(b: seq<byte>)
    requires |b| == 1
    ensures Decode(Encode(b)) == Some(b)
  {
    assert [b[0]] == b;
    DecodeOne(b[0]);
    DecodeFinal(Encode(b));
  }

  lemma DecodeEncodeTwo(b: seq<byte>)
    requires |b| == 2
    ensures Decode(Encode(b)) == Some(b)
  {
    assert [b[0], b[1]] == b;
    DecodeTwo(b[0], b[1]);
    DecodeFinal(Encode(b));
  }

  /** Decoding inverts encoding. */
  lemma {:induction false} DecodeEncode(b: seq<byte>)
    ensures Decode(Encode(b)) == Some(b)
    decreases |b|
  {
    if |b| == 1 {
      DecodeEncodeOne(b);
    } else if |b| == 2 {
      DecodeEncodeTwo(b);
    } else if |b| >= 3 {
      assert b == [b[0], b[1], b[2]] + b[3..];
      var q, rest := EncodeGroup(b[0], b[1], b[2]), Encode(b[3..]);
      assert Encode(b) == q + rest;
      DecodeGroup(b[0], b[1], b[2]);
      DecodeEncode(b[3..]);
      DecodeAppend(q, rest);
    }
  }

  /** Distinct byte strings have distinct encodings. */
  lemma EncodeInjective(a: seq<byte>, b: seq<byte>)
    requires Encode(a) == Encode(b)
    ensures a == b
  {
    DecodeEncode(a);
    DecodeEncode(b);
  }

  /** `b64encode(text.encode('utf-8')).decode('utf-8')`: the encoded form of a text. */
  function EncodeText(t: string): string
  {
    Encode(Utf8.Encode(t))
  }

  /** The encoded form of a text decodes to the text's UTF-8 bytes. */
  lemma DecodeEncodeText(t: string)
    ensures Decode(EncodeText(t)) == Some(Utf8.Encode(t))
  {
    DecodeEncode(Utf8.Encode(t));
  }

  /** Two texts share an encoded form exactly when they are equal. */
  lemma EncodeTextInjective(t: string, u: string)
    ensures EncodeText(t) == EncodeText(u) <==> t == u
  {
    if EncodeText(t) == EncodeText(u) {
      EncodeInjective(Utf8.Encode(t), Utf8.Encode(u));
      Utf8.EncodeInjective(t, u);
    }
  }
}
