/**
  Strict UTF-8, as Python's `bytes.decode("utf-8")` applies it to each uploaded line
  (debug.py:28). A byte sequence decodes exactly when it is a concatenation of the
  well-formed sequences of Table 3-7 of the Unicode Standard (no overlong forms, no
  surrogates, nothing above U+10FFFF, no truncated sequence); otherwise Python raises
  and the line is skipped, which the model returns as `None`.
*/
module Utf8 {
  import opened Basics

  newtype byte = x: int | 0 <= x < 256

  predicate IsContinuation(b: byte) {
    0x80 <= b <= 0xBF
  }

  /**
    The character encoded by the well-formed sequence at the head of `bs`, with its length
    in bytes, or `None` when `bs` does not start with one.
  */
  function DecodeFirst(bs: seq<byte>): (r: Option<(char, nat)>)
    requires |bs| > 0
    ensures r.Some? ==> 1 <= r.value.1 <= 4 && r.value.1 <= |bs|
  {
    var b0 := bs[0] as int;
    if b0 < 0x80 then Some((b0 as char, 1))
    else if 0xC2 <= b0 <= 0xDF then DecodeTwo(bs)
    else if 0xE0 <= b0 <= 0xEF then DecodeThree(bs)
    else if 0xF0 <= b0 <= 0xF4 then DecodeFour(bs)
    else None
  }

  /** A two-byte sequence: lead byte C2..DF, one continuation byte. */
  function DecodeTwo(bs: seq<byte>): (r: Option<(char, nat)>)
    requires |bs| > 0 && 0xC2 <= bs[0] <= 0xDF
    ensures r.Some? ==> r.value.1 == 2 <= |bs|
  {
    if |bs| >= 2 && IsContinuation(bs[1]) then
      var cp := (bs[0] as int - 0xC0) * 64 + (bs[1] as int - 0x80);
      Some((cp as char, 2))
    else None
  }

  /** A three-byte sequence: no overlong form after E0, no surrogate after ED. */
  function DecodeThree(bs: seq<byte>): (r: Option<(char, nat)>)
    requires |bs| > 0 && 0xE0 <= bs[0] <= 0xEF
    ensures r.Some? ==> r.value.1 == 3 <= |bs|
  {
    var lo := if bs[0] == 0xE0 then 0xA0 else 0x80;
    var hi := if bs[0] == 0xED then 0x9F else 0xBF;
    if |bs| >= 3 && lo <= bs[1] <= hi && IsContinuation(bs[2]) then
      var cp := (bs[0] as int - 0xE0) * 4096 + (bs[1] as int - 0x80) * 64 + (bs[2] as int - 0x80);
      Some((cp as char, 3))
    else None
  }

  /** A four-byte sequence: no overlong form after F0, nothing above U+10FFFF after F4. */
  function DecodeFour(bs: seq<byte>): (r: Option<(char, nat)>)
    requires |bs| > 0 && 0xF0 <= bs[0] <= 0xF4
    ensures r.Some? ==> r.value.1 == 4 <= |bs|
  {
    var lo := if bs[0] == 0xF0 then 0x90 else 0x80;
    var hi := if bs[0] == 0xF4 then 0x8F else 0xBF;
    if |bs| >= 4 && lo <= bs[1] <= hi && IsContinuation(bs[2]) && IsContinuation(bs[3]) then
      var cp := (bs[0] as int - 0xF0) * 262144 + (bs[1] as int - 0x80) * 4096
                + (bs[2] as int - 0x80) * 64 + (bs[3] as int - 0x80);
      Some((cp as char, 4))
    else None
  }

  /** `line.decode("utf-8")`: the decoded text, or `None` where Python raises. */
  function Decode(bs: seq<byte>): Option<string>
    decreases |bs|
  {
    if |bs| == 0 then Some([])
    else
      match DecodeFirst(bs)
      case None => None
      case Some((c, n)) =>
        match Decode(bs[n..])
        case None => None
        case Some(rest) => Some([c] + rest)
  }

  /** The UTF-8 encoding of one character: the reference the decoder is proved against. */
  function EncodeChar(c: char): (r: seq<byte>)
    ensures 1 <= |r| <= 4
  {
    var cp := c as int;
    if cp < 0x80 then
      [cp as byte]
    else if cp < 0x800 then
      [(0xC0 + cp / 64) as byte, (0x80 + cp % 64) as byte]
    else if cp < 0x1_0000 then
      [(0xE0 + cp / 4096) as byte, (0x80 + (cp / 64) % 64) as byte, (0x80 + cp % 64) as byte]
    else
      [(0xF0 + cp / 262144) as byte, (0x80 + (cp / 4096) % 64) as byte,
       (0x80 + (cp / 64) % 64) as byte, (0x80 + cp % 64) as byte]
  }

  function Encode(s: string): seq<byte>
  {
    if |s| == 0 then [] else EncodeChar(s[0]) + Encode(s[1..])
  }

  /** The decoder reads back every character the encoder writes, whatever follows it. */
  lemma DecodeFirstOfEncoded(c: char, rest: seq<byte>)
    ensures DecodeFirst(EncodeChar(c) + rest) == Some((c, |EncodeChar(c)|))
  {
    var cp := c as int;
    if cp < 0x80 {
    } else if cp < 0x800 {
      DecodeFirstOfEncoded2(c, rest);
    } else if cp < 0x1_0000 {
      DecodeFirstOfEncoded3(c, rest);
    } else {
      DecodeFirstOfEncoded4(c, rest);
    }
  }

  lemma DecodeFirstOfEncoded2(c: char, rest: seq<byte>)
    requires 0x80 <= c as int < 0x800
    ensures DecodeFirst(EncodeChar(c) + rest) == Some((c, 2))
  {
    var cp := c as int;
    var bs := EncodeChar(c) + rest;
    assert bs[0] as int == 0xC0 + cp / 64 && bs[1] as int == 0x80 + cp % 64;
    assert (cp / 64) * 64 + cp % 64 == cp;
  }

  lemma DecodeFirstOfEncoded3(c: char, rest: seq<byte>)
    requires 0x800 <= c as int < 0x1_0000
    ensures DecodeFirst(EncodeChar(c) + rest) == Some((c, 3))
  {
    var cp := c as int;
    var bs := EncodeChar(c) + rest;
    var q := cp / 64;
    var x0, x1, x2 := q / 64, q % 64, cp % 64;
    assert cp == q * 64 + x2;
    assert q == x0 * 64 + x1;
    assert cp / 4096 == x0;
    assert bs[0] as int == 0xE0 + x0 && bs[1] as int == 0x80 + x1 && bs[2] as int == 0x80 + x2;
    assert cp == x0 * 4096 + x1 * 64 + x2;
    assert x0 == 0 ==> x1 >= 32;
    assert x0 == 13 ==> x1 < 32;
  }

  lemma DecodeFirstOfEncoded4(c: char, rest: seq<byte>)
    requires 0x1_0000 <= c as int
    ensures DecodeFirst(EncodeChar(c) + rest) == Some((c, 4))
  {
    var cp := c as int;
    var bs := EncodeChar(c) + rest;
    var q := cp / 64;
    var q2 := q / 64;
    var x0, x1, x2, x3 := q2 / 64, q2 % 64, q % 64, cp % 64;
    assert cp == q * 64 + x3;
    assert q == q2 * 64 + x2;
    assert q2 == x0 * 64 + x1;
    assert cp / 4096 == q2;
    assert cp / 262144 == x0;
    assert bs[0] as int == 0xF0 + x0 && bs[1] as int == 0x80 + x1;
    assert bs[2] as int == 0x80 + x2 && bs[3] as int == 0x80 + x3;
    assert cp == x0 * 262144 + x1 * 4096 + x2 * 64 + x3;
    assert x0 == 0 ==> x1 >= 16;
    assert x0 == 4 ==> x1 < 16;
  }

  /** Whatever the decoder accepts at the head is exactly the encoding of the character it returns. */
  lemma EncodedOfDecodeFirst(bs: seq<byte>)
    requires |bs| > 0 && DecodeFirst(bs).Some?
    ensures EncodeChar(DecodeFirst(bs).value.0) == bs[..DecodeFirst(bs).value.1]
  {
    var b0 := bs[0];
    if b0 < 0x80 {
    } else if b0 <= 0xDF {
      EncodedOfDecodeTwo(bs);
    } else if b0 <= 0xEF {
      EncodedOfDecodeThree(bs);
    } else {
      EncodedOfDecodeFour(bs);
    }
  }

  lemma EncodedOfDecodeTwo(bs: seq<byte>)
    requires |bs| > 0 && 0xC2 <= bs[0] <= 0xDF && DecodeTwo(bs).Some?
    ensures EncodeChar(DecodeTwo(bs).value.0) == bs[..2]
  {
    var x0, x1 := bs[0] as int - 0xC0, bs[1] as int - 0x80;
    var cp := x0 * 64 + x1;
    assert DecodeTwo(bs).value.0 as int == cp;
    assert cp / 64 == x0 && cp % 64 == x1;
  }

  lemma EncodedOfDecodeThree(bs: seq<byte>)
    requires |bs| > 0 && 0xE0 <= bs[0] <= 0xEF && DecodeThree(bs).Some?
    ensures EncodeChar(DecodeThree(bs).value.0) == bs[..3]
  {
    var x0, x1, x2 := bs[0] as int - 0xE0, bs[1] as int - 0x80, bs[2] as int - 0x80;
    var q := x0 * 64 + x1;
    var cp := q * 64 + x2;
    assert DecodeThree(bs).value.0 as int == cp;
    assert cp / 64 == q && cp % 64 == x2;
    assert q / 64 == x0 && q % 64 == x1;
    assert cp / 4096 == x0;
  }

  lemma EncodedOfDecodeFour(bs: seq<byte>)
    requires |bs| > 0 && 0xF0 <= bs[0] <= 0xF4 && DecodeFour(bs).Some?
    ensures EncodeChar(DecodeFour(bs).value.0) == bs[..4]
  {
    var x0, x1, x2, x3 := bs[0] as int - 0xF0, bs[1] as int - 0x80, bs[2] as int - 0x80, bs[3] as int - 0x80;
    var q2 := x0 * 64 + x1;
    var q := q2 * 64 + x2;
    var cp := q * 64 + x3;
    assert DecodeFour(bs).value.0 as int == cp;
    assert cp / 64 == q && cp % 64 == x3;
    assert q / 64 == q2 && q % 64 == x2;
    assert q2 / 64 == x0 && q2 % 64 == x1;
    assert cp / 4096 == q2;
    assert cp / 262144 == x0;
  }

  /** One decoding step: the head character's encoding, then the decoding of the rest. */
  lemma DecodeStep(bs: seq<byte>)
    requires |bs| > 0 && Decode(bs).Some?
    ensures var s := Decode(bs).value;
      && |s| > 0
      && |EncodeChar(s[0])| <= |bs|
      && bs[..|EncodeChar(s[0])|] == EncodeChar(s[0])
      && Decode(bs[|EncodeChar(s[0])|..]) == Some(s[1..])
  {
    var (c, n) := DecodeFirst(bs).value;
    EncodedOfDecodeFirst(bs);
    var s := Decode(bs).value;
    assert s == [c] + Decode(bs[n..]).value;
  }

  /** Every string survives an encode/decode round trip. */
  lemma {:induction false} DecodeEncode(s: string)
    ensures Decode(Encode(s)) == Some(s)
  {
    if |s| > 0 {
      var bs := Encode(s);
      DecodeFirstOfEncoded(s[0], Encode(s[1..]));
      assert bs[|EncodeChar(s[0])|..] == Encode(s[1..]);
      DecodeEncode(s[1..]);
      assert [s[0]] + s[1..] == s;
    }
  }

  /** Decoding succeeds only on canonical encodings: the decoded text re-encodes to the very same bytes. */
  lemma {:induction false} EncodeDecode(bs: seq<byte>)
    requires Decode(bs).Some?
    ensures Encode(Decode(bs).value) == bs
    decreases |bs|
  {
    if |bs| > 0 {
      var s := Decode(bs).value;
      DecodeStep(bs);
      var n := |EncodeChar(s[0])|;
      EncodeDecode(bs[n..]);
      assert bs == bs[..n] + bs[n..];
    }
  }

  /** Together: a line decodes exactly when it is the UTF-8 encoding of some text, and then to that text. */
  lemma DecodeSucceedsIff(bs: seq<byte>, s: string)
    ensures Decode(bs) == Some(s) <==> bs == Encode(s)
  {
    if Decode(bs) == Some(s) {
      EncodeDecode(bs);
    }
    if bs == Encode(s) {
      DecodeEncode(s);
    }
  }
}
