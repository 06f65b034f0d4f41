/** The wire form of a user certificate written out byte by byte, without the table of fields
    that the parser and the encoder share: what the bytes of an accepted message are, and what
    becomes of a message whose bytes are exchanged. */
module WireBytes {
  import opened Basics
  import opened Wire
  import opened Certificates
  import Utf8

  // ---- numbers and strings ----

  /** Four bytes, the most significant first. */
  function Four(n: nat): (b: Bytes)
    requires n < 0x1_0000_0000
    ensures |b| == 4
  {
    [n / 0x100_0000, n / 0x1_0000 % 0x100, n / 0x100 % 0x100, n % 0x100]
  }

  function Eight(n: nat): (b: Bytes)
    requires n < 0x1_0000_0000_0000_0000
    ensures |b| == 8
  {
    Four(n / 0x1_0000_0000) + Four(n % 0x1_0000_0000)
  }

  ghost predicate Short(b: Bytes) { |b| < 0x1_0000_0000 }

  /** A string: its length in four bytes, then its bytes. */
  function Block(b: Bytes): Bytes
    requires Short(b)
  {
    Four(|b|) + b
  }

  ghost predicate ShortNames(names: seq<string>) {
    forall i :: 0 <= i < |names| ==> Short(Utf8.Encode(names[i]))
  }

  function Blocks(names: seq<string>): Bytes
    requires ShortNames(names)
  {
    if names == [] then [] else Block(Utf8.Encode(names[0])) + Blocks(names[1..])
  }

  /** What more bytes make of a number. */
  lemma {:induction false} FourMore(b: Bytes, w: Byte, x: Byte, y: Byte, z: Byte)
    ensures Number(b + [w, x, y, z]) == Number(b) * 0x1_0000_0000 + w * 0x100_0000 + x * 0x1_0000 + y * 0x100 + z
  {
    NumberSnoc(b + [w, x, y], z);
    NumberSnoc(b + [w, x], y);
    NumberSnoc(b + [w], x);
    NumberSnoc(b, w);
    assert (b + [w, x, y]) + [z] == b + [w, x, y, z] && (b + [w, x]) + [y] == b + [w, x, y];
    assert (b + [w]) + [x] == b + [w, x];
  }

  lemma {:induction false} NumberSnoc(b: Bytes, x: Byte)
    ensures Number(b + [x]) == Number(b) * 256 + x
  {
    assert (b + [x])[..|b|] == b;
  }

  /** What the four or eight bytes of a number are, and what four or eight bytes are as a number. */
  lemma {:induction false} FourMeans(n: nat)
    requires n < 0x1_0000_0000
    ensures NumberBytes(n, 4) == Four(n) && Number(Four(n)) == n
  {
    var b := Four(n);
    assert n / 0x100 / 0x100 == n / 0x1_0000 && n / 0x1_0000 / 0x100 == n / 0x100_0000;
    FourMore([], b[0], b[1], b[2], b[3]);
    assert [] + [b[0], b[1], b[2], b[3]] == b;
    BytesOfNumber(b);
  }

  lemma {:induction false} EightMeans(n: nat)
    requires n < 0x1_0000_0000_0000_0000
    ensures NumberBytes(n, 8) == Eight(n) && Number(Eight(n)) == n
  {
    var high, b := Four(n / 0x1_0000_0000), Four(n % 0x1_0000_0000);
    FourMeans(n / 0x1_0000_0000);
    FourMeans(n % 0x1_0000_0000);
    FourMore(high, b[0], b[1], b[2], b[3]);
    FourMore([], b[0], b[1], b[2], b[3]);
    assert [] + [b[0], b[1], b[2], b[3]] == b && [b[0], b[1], b[2], b[3]] == b;
    BytesOfNumber(high + b);
  }

  lemma {:induction false} EightBytes()
    ensures Power256(4) == 0x1_0000_0000 && Power256(8) == 0x1_0000_0000_0000_0000
  {
    FourBytes();
    assert Power256(6) == 0x1_0000_0000_0000;
  }

  lemma BlockMeans(b: Bytes)
    requires Short(b)
    ensures StringBytes(b) == Block(b)
  {
    FourMeans(|b|);
  }

  lemma {:induction false} BlocksMean(names: seq<string>)
    ensures Short(NamesBytes(names)) ==> ShortNames(names)
    ensures ShortNames(names) ==> NamesBytes(names) == Blocks(names)
  {
    hide Utf8.Encode, Block;
    if names != [] {
      var b := Utf8.Encode(names[0]);
      StringLength(b);
      if Short(b) { BlockMeans(b); }
      BlocksMean(names[1..]);
      assert forall i :: 1 <= i < |names| ==> names[i] == names[1..][i - 1];
      if ShortNames(names) {
        forall i | 0 <= i < |names[1..]| ensures Short(Utf8.Encode(names[1..][i])) {
          assert Short(Utf8.Encode(names[i + 1]));
        }
      }
    }
  }

  // ---- messages ----

  /** The ASCII codes of the certificate algorithm's name. */
  const NAME: Bytes := [115, 115, 104, 45, 101, 100, 50, 53, 53, 49, 57, 45, 99, 101, 114, 116,
                        45, 118, 48, 49, 64, 111, 112, 101, 110, 115, 115, 104, 46, 99, 111, 109]

  /** Numbers fit eight bytes, and lengths four. */
  ghost predicate Sized(c: UserCertificate) {
    && Short(c.nonce) && Short(c.userKey) && Short(c.criticalOptions) && Short(c.extensions)
    && Short(c.reserved) && Short(c.signatureKey) && Short(c.signature) && Short(Utf8.Encode(c.keyId))
    && ShortNames(c.principals) && Short(Blocks(c.principals))
    && c.serial < 0x1_0000_0000_0000_0000 && c.validAfter < 0x1_0000_0000_0000_0000
    && c.validBefore < 0x1_0000_0000_0000_0000
  }

  /** What precedes the certificate type: 32 bytes of name, nonce, user key and serial. */
  function Opening(c: UserCertificate): Bytes
    requires Sized(c)
  {
    [0, 0, 0, 32] + NAME + Block(c.nonce) + Block(c.userKey) + Eight(c.serial)
  }

  /** What lies between the certificate type and the validity window. */
  function Attributes(c: UserCertificate): Bytes
    requires Sized(c)
  {
    Block(Utf8.Encode(c.keyId)) + Block(Blocks(c.principals))
  }

  function Closing(c: UserCertificate): Bytes
    requires Sized(c)
  {
    Block(c.criticalOptions) + Block(c.extensions) + Block(c.reserved) + Block(c.signatureKey) + Block(c.signature)
  }

  /** The whole message of a user certificate, whose type is 1. */
  function Message(c: UserCertificate): Bytes
    requires Sized(c)
  {
    Opening(c) + [0, 0, 0, 1] + Attributes(c) + Eight(c.validAfter) + Eight(c.validBefore) + Closing(c)
  }

  lemma NameMeans()
    ensures Utf8.AsciiBytes(ALGORITHM) == NAME
  {
    assert |ALGORITHM| == 32;
  }

  lemma SizedMeans(c: UserCertificate)
    ensures WellFormed(c) <==> Sized(c)
  {
    hide Utf8.Encode, NamesBytes, Blocks, ShortNames, Power256;
    EightBytes();
    BlocksMean(c.principals);
  }

  // ---- the encoder writes messages ----

  lemma WrittenFrom(c: UserCertificate, k: nat)
    requires WellFormed(c) && k < 14
    ensures AllFit(LAYOUT[k..], Values(c)[k..]) && AllFit(LAYOUT[k + 1..], Values(c)[k + 1..])
    ensures Fits(LAYOUT[k], Values(c)[k])
    ensures Write(LAYOUT[k..], Values(c)[k..]) ==
            FieldBytes(LAYOUT[k], Values(c)[k]) + Write(LAYOUT[k + 1..], Values(c)[k + 1..])
  {
    hide Fits, FieldBytes, WellFormed, Values;
    WellFormedFits(c);
    WriteSplit(LAYOUT, Values(c), k);
    assert LAYOUT[k..][0] == LAYOUT[k] && Values(c)[k..][0] == Values(c)[k];
    assert LAYOUT[k..][1..] == LAYOUT[k + 1..] && Values(c)[k..][1..] == Values(c)[k + 1..];
  }

  lemma OpaqueWritten(c: UserCertificate, k: nat, b: Bytes)
    requires WellFormed(c) && k < 14 && LAYOUT[k] == Str(Opaque) && Values(c)[k] == Raw(b) && Short(b)
    ensures AllFit(LAYOUT[k..], Values(c)[k..]) && AllFit(LAYOUT[k + 1..], Values(c)[k + 1..])
    ensures Write(LAYOUT[k..], Values(c)[k..]) == Block(b) + Write(LAYOUT[k + 1..], Values(c)[k + 1..])
  {
    hide AllFit, Write, WellFormed, Values;
    WrittenFrom(c, k);
    BlockMeans(b);
  }

  lemma LongWritten(c: UserCertificate, k: nat, n: nat)
    requires WellFormed(c) && k < 14 && LAYOUT[k] == Long && Values(c)[k] == Count(n)
    requires n < 0x1_0000_0000_0000_0000
    ensures AllFit(LAYOUT[k..], Values(c)[k..]) && AllFit(LAYOUT[k + 1..], Values(c)[k + 1..])
    ensures Write(LAYOUT[k..], Values(c)[k..]) == Eight(n) + Write(LAYOUT[k + 1..], Values(c)[k + 1..])
  {
    hide AllFit, Write, WellFormed, Values;
    WrittenFrom(c, k);
    EightMeans(n);
  }

  lemma NothingWritten(c: UserCertificate)
    ensures |Values(c)| == 14 && AllFit(LAYOUT[14..], Values(c)[14..]) && Write(LAYOUT[14..], Values(c)[14..]) == []
  {
  }

  lemma ClosingWritten(c: UserCertificate)
    requires WellFormed(c) && Sized(c)
    ensures AllFit(LAYOUT[9..], Values(c)[9..]) && Write(LAYOUT[9..], Values(c)[9..]) == Closing(c)
  {
    hide AllFit, WellFormed, Block, Write, Eight, Blocks, ShortNames, Utf8.Encode;
    OpaqueWritten(c, 9, c.criticalOptions);
    OpaqueWritten(c, 10, c.extensions);
    OpaqueWritten(c, 11, c.reserved);
    OpaqueWritten(c, 12, c.signatureKey);
    OpaqueWritten(c, 13, c.signature);
    NothingWritten(c);
    Regrouped(Block(c.criticalOptions), Block(c.extensions), Block(c.reserved), Block(c.signatureKey),
              Block(c.signature) + []);
    assert Block(c.signature) + [] == Block(c.signature);
  }

  lemma Regrouped(a: Bytes, b: Bytes, c: Bytes, d: Bytes, e: Bytes)
    ensures a + (b + (c + (d + e))) == a + b + c + d + e
  {
  }

  lemma AttributesWritten(c: UserCertificate)
    requires WellFormed(c) && Sized(c)
    ensures AllFit(LAYOUT[5..], Values(c)[5..])
    ensures Write(LAYOUT[5..], Values(c)[5..]) ==
            Attributes(c) + Eight(c.validAfter) + Eight(c.validBefore) + Closing(c)
  {
    hide AllFit, Write, WellFormed, Block, Blocks, NamesBytes, Utf8.Encode, Closing;
    WrittenFrom(c, 5);
    BlockMeans(Utf8.Encode(c.keyId));
    WrittenFrom(c, 6);
    BlocksMean(c.principals);
    BlockMeans(Blocks(c.principals));
    LongWritten(c, 7, c.validAfter);
    LongWritten(c, 8, c.validBefore);
    ClosingWritten(c);
    Regrouped(Block(Utf8.Encode(c.keyId)), Block(Blocks(c.principals)), Eight(c.validAfter), Eight(c.validBefore),
              Closing(c));
  }

  lemma WholeWritten(c: UserCertificate)
    requires WellFormed(c)
    ensures LAYOUT[0..] == LAYOUT && Values(c)[0..] == Values(c)
    ensures AllFit(LAYOUT, Values(c)) && Encode(c) == Write(LAYOUT, Values(c))
  {
    hide AllFit, Write, WellFormed, Values;
    WellFormedFits(c);
  }

  lemma NameWritten(c: UserCertificate)
    requires WellFormed(c)
    ensures AllFit(LAYOUT[0..], Values(c)[0..]) && AllFit(LAYOUT[1..], Values(c)[1..])
    ensures Write(LAYOUT[0..], Values(c)[0..]) == [0, 0, 0, 32] + NAME + Write(LAYOUT[1..], Values(c)[1..])
  {
    hide AllFit, Write, WellFormed, Block;
    WrittenFrom(c, 0);
    NameMeans();
    NameBlock();
    BlockMeans(NAME);
  }

  lemma OpeningWritten(c: UserCertificate)
    requires WellFormed(c) && Sized(c)
    ensures AllFit(LAYOUT[4..], Values(c)[4..])
    ensures Encode(c) == Opening(c) + Write(LAYOUT[4..], Values(c)[4..])
  {
    hide AllFit, Write, WellFormed, Block, Eight, Blocks, ShortNames, Utf8.Encode, NAME;
    NameWritten(c);
    WholeWritten(c);
    OpaqueWritten(c, 1, c.nonce);
    OpaqueWritten(c, 2, c.userKey);
    LongWritten(c, 3, c.serial);
    Regrouped([0, 0, 0, 32] + NAME, Block(c.nonce), Block(c.userKey), Eight(c.serial),
              Write(LAYOUT[4..], Values(c)[4..]));
  }

  lemma NameBlock()
    ensures Short(NAME) && Block(NAME) == [0, 0, 0, 32] + NAME
  {
  }

  lemma TypeWritten(c: UserCertificate)
    requires WellFormed(c)
    ensures AllFit(LAYOUT[4..], Values(c)[4..]) && AllFit(LAYOUT[5..], Values(c)[5..])
    ensures Write(LAYOUT[4..], Values(c)[4..]) == [0, 0, 0, 1] + Write(LAYOUT[5..], Values(c)[5..])
  {
    hide AllFit, Write, WellFormed;
    WrittenFrom(c, 4);
    FourMeans(1);
  }

  /** The encoder writes exactly these bytes. */
  lemma EncodeMeans(c: UserCertificate)
    ensures WellFormed(c) <==> Sized(c)
    ensures Sized(c) ==> Encode(c) == Message(c)
  {
    hide AllFit, Write, WellFormed, Encode, Values, Attributes, Closing, Opening, Eight, Blocks, ShortNames;
    hide Utf8.Encode;
    SizedMeans(c);
    if Sized(c) {
      OpeningWritten(c);
      TypeWritten(c);
      AttributesWritten(c);
      Assembled(Opening(c), [0, 0, 0, 1], Attributes(c), Eight(c.validAfter), Eight(c.validBefore), Closing(c));
    }
  }

  lemma Assembled(o: Bytes, t: Bytes, a: Bytes, x: Bytes, y: Bytes, z: Bytes)
    ensures o + (t + (a + x + y + z)) == o + t + a + x + y + z
  {
  }

  // ---- what an accepted message is, and what exchanging its bytes does ----

  /** A message is accepted as the certificate `c` exactly when it is these bytes. */
  lemma AcceptedMeans(data: Bytes, c: UserCertificate)
    ensures Parse(data) == Ok(c) <==> Sized(c) && data == Message(c)
  {
    hide Encode, Parse, WellFormed, Sized, Message;
    EncodeMeans(c);
    if Parse(data) == Ok(c) { EncodeParse(data); }
    if Sized(c) { ParseEncode(c); }
  }

  /** Where the certificate type lies: after 36 bytes of name, two strings and the serial. */
  function TypeAt(c: UserCertificate): nat { 36 + (4 + |c.nonce|) + (4 + |c.userKey|) + 8 }

  /** Where the validity window lies: after the type, the key ID and the principal list. */
  function WindowAt(c: UserCertificate): nat
    requires Sized(c)
  {
    TypeAt(c) + 4 + (4 + |Utf8.Encode(c.keyId)|) + (4 + |Blocks(c.principals)|)
  }

  /** The bytes of every accepted message: the algorithm's name in the 32 bytes from the fourth
      on, the serial before the type, the type 1, and the two times after the principals. */
  lemma AcceptedBytes(data: Bytes)
    requires Parse(data).Ok?
    ensures var c := Parse(data).value;
            && Sized(c) && TypeAt(c) + 4 <= WindowAt(c) && WindowAt(c) + 16 <= |data|
            && data[..4] == [0, 0, 0, 32] && data[4..36] == NAME
            && data[TypeAt(c) - 8..TypeAt(c)] == Eight(c.serial)
            && data[TypeAt(c)..TypeAt(c) + 4] == [0, 0, 0, 1]
            && data[WindowAt(c)..WindowAt(c) + 8] == Eight(c.validAfter)
            && data[WindowAt(c) + 8..WindowAt(c) + 16] == Eight(c.validBefore)
  {
    hide Parse, Blocks, ShortNames, Utf8.Encode, Eight;
    var c := Parse(data).value;
    AcceptedMeans(data, c);
    var t, w := TypeAt(c), WindowAt(c);
    assert |Opening(c)| == t && |Attributes(c)| == w - t - 4;
  }

  /** Other bytes in place of `|piece|` bytes of a message. */
  function Exchanged(data: Bytes, offset: nat, piece: Bytes): Bytes
    requires offset + |piece| <= |data|
  {
    data[..offset] + piece + data[offset + |piece|..]
  }

  /** The fields before the type are read from any message that opens like an accepted one. */
  lemma OpeningFits(c: UserCertificate)
    requires WellFormed(c) && Sized(c)
    ensures |Values(c)| == 14 && AllFit(LAYOUT[..4], Values(c)[..4])
    ensures Write(LAYOUT[..4], Values(c)[..4]) == Opening(c) && |Opening(c)| == TypeAt(c)
  {
    hide AllFit, Write, WellFormed, Opening;
    WellFormedFits(c);
    OpeningWritten(c);
    WriteSplit(LAYOUT, Values(c), 4);
    var front, rest := Write(LAYOUT[..4], Values(c)[..4]), Write(LAYOUT[4..], Values(c)[4..]);
    assert front + rest == Opening(c) + rest;
    assert front == (front + rest)[..|front|] && Opening(c) == (Opening(c) + rest)[..|Opening(c)|];
    OpeningLength(c);
  }

  lemma OpeningLength(c: UserCertificate)
    requires Sized(c)
    ensures |Opening(c)| == TypeAt(c) && Opening(c) <= Message(c)
  {
    hide Blocks, ShortNames, Utf8.Encode, Eight;
  }

  /** A message whose certificate type is anything but 0, 0, 0, 1 is no user certificate. */
  lemma {:induction false} OtherTypeRejected(data: Bytes, other: Bytes)
    requires Parse(data).Ok? && |other| == 4 && other != [0, 0, 0, 1]
    ensures TypeAt(Parse(data).value) + 4 <= |data|
    ensures Parse(Exchanged(data, TypeAt(Parse(data).value), other)) == Err(NotUserCertificate)
  {
    hide AllFit, Write, WellFormed, Sized, Opening, Message, ReadFields, Values;
    var c := Parse(data).value;
    AcceptedBytes(data);
    AcceptedMeans(data, c);
    EncodeMeans(c);
    OpeningFits(c);
    OpeningLength(c);
    var t := TypeAt(c);
    var changed := Exchanged(data, t, other);
    assert changed[0..0 + t] == data[..t] == Opening(c);
    assert changed[t..t + 4] == other;
    FourMeans(1);
    BytesOfNumber(other);
    assert Number(other) != 1;
    assert ReadField(LAYOUT[4], changed, t) == Err(NotUserCertificate);
    ReadFieldsFails(LAYOUT, Values(c)[..4], changed, 0, NotUserCertificate);
  }

  lemma NameRead(data: Bytes)
    requires 36 <= |data| && data[..4] == [0, 0, 0, 32]
    ensures ReadString(data, 0) == Ok((data[4..36], 36))
  {
    hide Number;
    FourMeans(32);
    assert Four(32) == [0, 0, 0, 32];
  }

  lemma OtherNameRead(other: Bytes)
    requires other != NAME && Utf8.Decode(other).Some?
    ensures Utf8.Decode(other).value != ALGORITHM
  {
    hide Utf8.Encode, Utf8.Decode, Utf8.AsciiBytes;
    Utf8.EncodeDecode(other);
    Utf8.EncodeAscii(ALGORITHM);
    NameMeans();
  }

  lemma FirstField(data: Bytes)
    requires 36 <= |data| && data[..4] == [0, 0, 0, 32] && data[4..36] != NAME
    ensures ReadField(LAYOUT[0], data, 0) ==
            Err(if Utf8.Decode(data[4..36]).Some? then AlgorithmUnsupported else NotText)
  {
    hide ReadString, Utf8.Decode, NAME;
    NameRead(data);
    if Utf8.Decode(data[4..36]).Some? { OtherNameRead(data[4..36]); }
  }

  /** A message with any other 32 bytes in place of the algorithm's name is refused for that. */
  lemma {:induction false} OtherNameRejected(data: Bytes, other: Bytes)
    requires Parse(data).Ok? && |other| == 32 && other != NAME
    ensures 36 <= |data|
    ensures Parse(Exchanged(data, 4, other)) ==
            Err(if Utf8.Decode(other).Some? then AlgorithmUnsupported else NotText)
  {
    hide AllFit, Write, ReadFields, ReadField, Utf8.Decode, Utf8.Encode, Sized, NAME;
    AcceptedBytes(data);
    var changed := Exchanged(data, 4, other);
    assert changed[..4] == data[..4] && changed[4..36] == other;
    FirstField(changed);
    NothingFits();
    ReadFieldsFails(LAYOUT, [], changed, 0, if Utf8.Decode(other).Some? then AlgorithmUnsupported else NotText);
  }

  lemma NothingFits()
    ensures AllFit(LAYOUT[..0], []) && Write(LAYOUT[..0], []) == []
  {
  }

  /** Exchanging the sixteen bytes of the validity window changes the window, to the numbers
      that the new bytes are, and nothing else. */
  lemma OtherWindowAccepted(data: Bytes, from: nat, until: nat)
    requires Parse(data).Ok? && from < 0x1_0000_0000_0000_0000 && until < 0x1_0000_0000_0000_0000
    ensures var c := Parse(data).value;
            Sized(c) && WindowAt(c) + 16 <= |data|
            && Parse(Exchanged(data, WindowAt(c), Eight(from) + Eight(until)))
               == Ok(c.(validAfter := from, validBefore := until))
  {
    hide Parse, Blocks, ShortNames, Utf8.Encode, Eight;
    var c := Parse(data).value;
    var other := c.(validAfter := from, validBefore := until);
    AcceptedBytes(data);
    AcceptedMeans(data, c);
    AcceptedMeans(Message(other), other);
    var front := Opening(c) + [0, 0, 0, 1] + Attributes(c);
    assert |front| == WindowAt(c);
    assert data == front + Eight(c.validAfter) + Eight(c.validBefore) + Closing(c);
    assert Exchanged(data, |front|, Eight(from) + Eight(until)) == front + Eight(from) + Eight(until) + Closing(c);
  }
}
