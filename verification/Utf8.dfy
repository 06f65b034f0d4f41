/** Strict UTF-8: shortest forms only, no surrogates, nothing above U+10FFFF. */
module Utf8 {
  import opened Basics

  type Byte = x: int | 0 <= x < 256

  function EncodeChar(c: char): seq<Byte> {
    var n := c as int;
    if n < 0x80 then [n]
    else if n < 0x800 then [0xC0 + n / 64, 0x80 + n % 64]
    else if n < 0x10000 then [0xE0 + n / 4096, 0x80 + n / 64 % 64, 0x80 + n % 64]
    else [0xF0 + n / 262144, 0x80 + n / 4096 % 64, 0x80 + n / 64 % 64, 0x80 + n % 64]
  }

  /** The bytes of a character, bit field by bit field: its code is what their low bits spell. */
  lemma EncodeCharMeans(c: char)
    ensures var n, b := c as int, EncodeChar(c);
            && (n < 128 ==> b == [n])
            && (128 <= n < 2048 ==>
                  |b| == 2 && 192 <= b[0] < 224 && 128 <= b[1] < 192 && n == (b[0] as int - 192) * 64 + b[1] - 128)
            && (2048 <= n < 65536 ==>
                  |b| == 3 && 224 <= b[0] < 240 && 128 <= b[1] < 192 && 128 <= b[2] < 192
                  && n == ((b[0] as int - 224) * 64 + b[1] - 128) * 64 + b[2] - 128)
            && (65536 <= n ==>
                  |b| == 4 && 240 <= b[0] < 248 && 128 <= b[1] < 192 && 128 <= b[2] < 192 && 128 <= b[3] < 192
                  && n == (((b[0] as int - 240) * 64 + b[1] - 128) * 64 + b[2] - 128) * 64 + b[3] - 128)
  {
    var n := c as int;
    assert n / 4096 / 64 == n / 262144 && n / 64 / 64 == n / 4096;
  }

  predicate IsContinuation(b: Byte) { 0x80 <= b < 0xC0 }

  /** The number written by up to four six-bit digits, most significant first. */
  function Join(w: nat, x: nat, y: nat, z: nat): nat {
    w * 262144 + x * 4096 + y * 64 + z
  }

  /** The first character of `b` and the number of bytes it takes. */
  function DecodeChar(b: seq<Byte>): (r: Option<(char, nat)>)
    ensures r.Some? ==> 1 <= r.value.1 <= |b|
  {
    if b == [] then None
    else if b[0] < 0x80 then Some((b[0] as char, 1))
    else if 0xC2 <= b[0] < 0xE0 && |b| >= 2 && IsContinuation(b[1]) then
      Some((Join(0, 0, b[0] - 0xC0, b[1] - 0x80) as char, 2))
    else if 0xE0 <= b[0] < 0xF0 && |b| >= 3 && IsContinuation(b[1]) && IsContinuation(b[2]) then
      var n := Join(0, b[0] - 0xE0, b[1] - 0x80, b[2] - 0x80);
      if n < 0x800 || 0xD800 <= n < 0xE000 then None else Some((n as char, 3))
    else if 0xF0 <= b[0] < 0xF5 && |b| >= 4
            && IsContinuation(b[1]) && IsContinuation(b[2]) && IsContinuation(b[3]) then
      var n := Join(b[0] - 0xF0, b[1] - 0x80, b[2] - 0x80, b[3] - 0x80);
      if n < 0x10000 || n >= 0x110000 then None else Some((n as char, 4))
    else None
  }

  function Encode(s: string): seq<Byte> {
    if s == [] then [] else EncodeChar(s[0]) + Encode(s[1..])
  }

  function Decode(b: seq<Byte>): Option<string>
    decreases |b|
  {
    if b == [] then Some("")
    else match DecodeChar(b)
      case None => None
      case Some((c, n)) =>
        match Decode(b[n..])
        case None => None
        case Some(rest) => Some([c] + rest)
  }

  lemma {:induction false} JoinSplits(w: nat, x: nat, y: nat, z: nat)
    requires x < 64 && y < 64 && z < 64
    ensures var n := Join(w, x, y, z);
            n / 262144 == w && n / 4096 % 64 == x && n / 64 % 64 == y && n % 64 == z
            && n / 4096 == w * 64 + x && n / 64 == w * 4096 + x * 64 + y
  {
    var n := Join(w, x, y, z);
    assert n / 64 == w * 4096 + x * 64 + y;
    assert n / 4096 == w * 64 + x;
    assert n / 262144 == w;
  }

  lemma {:induction false} DecodeEncodeChar(c: char, rest: seq<Byte>)
    ensures DecodeChar(EncodeChar(c) + rest) == Some((c, |EncodeChar(c)|))
  {
    hide EncodeChar;
    EncodeCharMeans(c);
    var b := EncodeChar(c) + rest;
    assert forall i :: 0 <= i < |EncodeChar(c)| ==> b[i] == EncodeChar(c)[i];
  }

  lemma {:induction false} EncodeDecodeChar(b: seq<Byte>)
    requires DecodeChar(b).Some?
    ensures b[..DecodeChar(b).value.1] == EncodeChar(DecodeChar(b).value.0)
  {
    if b[0] < 0x80 {
    } else if b[0] < 0xE0 {
      JoinSplits(0, 0, b[0] - 0xC0, b[1] - 0x80);
    } else if b[0] < 0xF0 {
      JoinSplits(0, b[0] - 0xE0, b[1] - 0x80, b[2] - 0x80);
    } else {
      JoinSplits(b[0] - 0xF0, b[1] - 0x80, b[2] - 0x80, b[3] - 0x80);
    }
  }

  /** Decoding the encoding of any text gives the text back. */
  lemma {:induction false} DecodeEncode(s: string)
    ensures Decode(Encode(s)) == Some(s)
  {
    hide EncodeChar, DecodeChar;
    if s != [] {
      DecodeEncodeChar(s[0], Encode(s[1..]));
      assert Encode(s)[|EncodeChar(s[0])|..] == Encode(s[1..]);
      DecodeEncode(s[1..]);
      assert s == [s[0]] + s[1..];
    }
  }

  /** Every accepted byte sequence is the encoding of the text it decodes to. */
  lemma {:induction false} EncodeDecode(b: seq<Byte>)
    requires Decode(b).Some?
    ensures Encode(Decode(b).value) == b
    decreases |b|
  {
    hide EncodeChar, DecodeChar;
    if b != [] {
      var (c, n) := DecodeChar(b).value;
      EncodeDecodeChar(b);
      EncodeDecode(b[n..]);
      assert ([c] + Decode(b[n..]).value)[1..] == Decode(b[n..]).value;
      assert b == b[..n] + b[n..];
    }
  }

  /** A text is encoded character by character, in order. */
  lemma {:induction false} EncodeJoined(s: string, t: string)
    ensures Encode(s + t) == Encode(s) + Encode(t)
    ensures forall c :: Encode([c]) == EncodeChar(c)
  {
    hide EncodeChar;
    forall c ensures Encode([c]) == EncodeChar(c) {
      assert [c][1..] == [] && EncodeChar(c) + [] == EncodeChar(c);
    }
    if s == [] {
      assert s + t == t;
    } else {
      EncodeJoined(s[1..], t);
      assert (s + t)[1..] == s[1..] + t;
      assert EncodeChar(s[0]) + (Encode(s[1..]) + Encode(t)) == (EncodeChar(s[0]) + Encode(s[1..])) + Encode(t);
    }
  }

  lemma {:induction false} EncodeLength(s: string)
    ensures |s| <= |Encode(s)| <= 4 * |s|
  {
    if s != [] { EncodeLength(s[1..]); }
  }

  // ---- ASCII ----

  predicate IsAscii(s: string) { forall i :: 0 <= i < |s| ==> s[i] < '\U{0080}' }

  type Ascii = s: string | IsAscii(s)

  /** One byte for each character. */
  function AsciiBytes(s: Ascii): seq<Byte> {
    seq(|s|, i requires 0 <= i < |s| => s[i] as int)
  }

  lemma {:induction false} EncodeAscii(s: Ascii)
    ensures Encode(s) == AsciiBytes(s)
  {
    if s != [] { EncodeAscii(s[1..]); }
  }
}
