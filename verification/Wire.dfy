/** The public wire form of an Ed25519 user certificate: string, uint32 and uint64 as in
    section 5 of RFC 4251, in the field order of OpenSSH's PROTOCOL.certkeys. */
module Wire {
  import opened Basics
  import Utf8

  type Byte = Utf8.Byte

  type Bytes = seq<Byte>

  const ALGORITHM: Utf8.Ascii := "ssh-ed25519-cert-v01@openssh.com"

  const USER_CERTIFICATE := 1

  datatype WireError =
    | Truncated
    | NotText
    | AlgorithmUnsupported
    | NotUserCertificate
    | PrincipalsMalformed
    | TrailingBytes

  // ---- big-endian numbers ----

  function Power256(k: nat): (r: nat)
    ensures r > 0
  {
    if k == 0 then 1 else 256 * Power256(k - 1)
  }

  function Number(b: Bytes): nat {
    if b == [] then 0 else Number(b[..|b| - 1]) * 256 + b[|b| - 1]
  }

  function NumberBytes(n: nat, size: nat): (b: Bytes)
    ensures |b| == size
  {
    if size == 0 then [] else NumberBytes(n / 256, size - 1) + [n % 256]
  }

  lemma {:induction false} NumberOfBytes(n: nat, size: nat)
    requires n < Power256(size)
    ensures Number(NumberBytes(n, size)) == n
  {
    if size > 0 {
      NumberOfBytes(n / 256, size - 1);
      assert NumberBytes(n, size)[..size - 1] == NumberBytes(n / 256, size - 1);
    }
  }

  lemma {:induction false} BytesOfNumber(b: Bytes)
    ensures Number(b) < Power256(|b|)
    ensures NumberBytes(Number(b), |b|) == b
  {
    if b != [] {
      var front := b[..|b| - 1];
      BytesOfNumber(front);
      assert Number(b) / 256 == Number(front) && Number(b) % 256 == b[|b| - 1];
      assert b == front + [b[|b| - 1]];
    }
  }

  // ---- reading primitives ----

  function ReadNumber(data: Bytes, offset: nat, size: nat): Result<(nat, nat), WireError> {
    if offset + size > |data| then Err(Truncated)
    else Ok((Number(data[offset..offset + size]), offset + size))
  }

  function ReadString(data: Bytes, offset: nat): (r: Result<(Bytes, nat), WireError>)
    ensures r.Ok? ==> offset + 4 <= r.value.1 <= |data|
  {
    if offset + 4 > |data| then Err(Truncated)
    else
      var end := offset + 4 + Number(data[offset..offset + 4]);
      if end > |data| then Err(Truncated) else Ok((data[offset + 4..end], end))
  }

  function StringBytes(b: Bytes): Bytes { NumberBytes(|b|, 4) + b }

  lemma StringLength(b: Bytes)
    ensures |StringBytes(b)| == 4 + |b|
  {
  }

  function ReadText(b: Bytes): Result<string, WireError> {
    match Utf8.Decode(b)
    case None => Err(NotText)
    case Some(s) => Ok(s)
  }

  /** `data` holds `piece` at `offset`. */
  ghost predicate Holds(data: Bytes, offset: nat, piece: Bytes) {
    offset + |piece| <= |data| && data[offset..offset + |piece|] == piece
  }

  lemma HoldsParts(data: Bytes, offset: nat, a: Bytes, b: Bytes)
    ensures Holds(data, offset, a + b) <==> Holds(data, offset, a) && Holds(data, offset + |a|, b)
  {
    if offset + |a| + |b| <= |data| {
      var whole := data[offset..offset + |a| + |b|];
      assert whole == data[offset..offset + |a|] + data[offset + |a|..offset + |a| + |b|];
      assert (a + b)[..|a|] == a && (a + b)[|a|..] == b;
      assert whole[..|a|] == data[offset..offset + |a|];
      assert whole[|a|..] == data[offset + |a|..offset + |a| + |b|];
    }
  }

  lemma ReadNumberWritten(data: Bytes, offset: nat, size: nat, n: nat)
    requires n < Power256(size) && Holds(data, offset, NumberBytes(n, size))
    ensures ReadNumber(data, offset, size) == Ok((n, offset + size))
  {
    NumberOfBytes(n, size);
  }

  lemma WrittenNumberRead(data: Bytes, offset: nat, size: nat)
    requires ReadNumber(data, offset, size).Ok?
    ensures var (n, end) := ReadNumber(data, offset, size).value;
            n < Power256(size) && Holds(data, offset, NumberBytes(n, size)) && end == offset + size
  {
    BytesOfNumber(data[offset..offset + size]);
  }

  lemma FourBytes()
    ensures Power256(4) == 0x1_0000_0000
  {
    assert Power256(2) == 65536;
  }

  lemma ReadStringWritten(data: Bytes, offset: nat, b: Bytes)
    requires |b| < Power256(4) && Holds(data, offset, StringBytes(b))
    ensures ReadString(data, offset) == Ok((b, offset + 4 + |b|))
  {
    NumberOfBytes(|b|, 4);
    HoldsParts(data, offset, NumberBytes(|b|, 4), b);
  }

  lemma WrittenStringRead(data: Bytes, offset: nat)
    requires ReadString(data, offset).Ok?
    ensures var (b, end) := ReadString(data, offset).value;
            |b| < Power256(4) && Holds(data, offset, StringBytes(b)) && end == offset + 4 + |b|
  {
    var (b, end) := ReadString(data, offset).value;
    BytesOfNumber(data[offset..offset + 4]);
    HoldsParts(data, offset, NumberBytes(|b|, 4), b);
  }

  // ---- nested principal list ----

  /** Reads strings from `offset` to the end of `data`. */
  function ReadNames(data: Bytes, offset: nat): Result<seq<string>, WireError>
    requires offset <= |data|
    decreases |data| - offset
  {
    if offset == |data| then Ok([])
    else
      var (b, end) :- ReadString(data, offset);
      var name :- ReadText(b);
      var rest :- ReadNames(data, end);
      Ok([name] + rest)
  }

  function NamesBytes(names: seq<string>): Bytes {
    if names == [] then [] else StringBytes(Utf8.Encode(names[0])) + NamesBytes(names[1..])
  }

  lemma {:induction false} ReadNamesWritten(data: Bytes, offset: nat, names: seq<string>)
    requires offset <= |data| && data[offset..] == NamesBytes(names) && |data| < Power256(4)
    ensures ReadNames(data, offset) == Ok(names)
    decreases |names|
  {
    hide ReadString, StringBytes, Utf8.Encode, Utf8.Decode, Power256;
    if names != [] {
      var b := Utf8.Encode(names[0]);
      var piece := StringBytes(b);
      assert |piece| == 4 + |b| by { StringLength(b); }
      var rest := data[offset..];
      assert rest[..|piece|] == piece && rest[|piece|..] == NamesBytes(names[1..]);
      var next := offset + |piece|;
      assert data[offset..next] == rest[..|piece|] && data[next..] == rest[|piece|..];
      ReadStringWritten(data, offset, b);
      Utf8.DecodeEncode(names[0]);
      ReadNamesWritten(data, next, names[1..]);
      assert names == [names[0]] + names[1..];
    }
  }

  lemma {:induction false} WrittenNamesRead(data: Bytes, offset: nat)
    requires offset <= |data| && ReadNames(data, offset).Ok?
    ensures data[offset..] == NamesBytes(ReadNames(data, offset).value)
    decreases |data| - offset
  {
    hide ReadString, StringBytes, Utf8.Encode, Utf8.Decode, Power256;
    if offset < |data| {
      var (b, end) := ReadString(data, offset).value;
      WrittenStringRead(data, offset);
      StringLength(b);
      Utf8.EncodeDecode(b);
      WrittenNamesRead(data, end);
      var names := ReadNames(data, offset).value;
      assert names[0] == ReadText(b).value && names[1..] == ReadNames(data, end).value;
      assert data[offset..] == data[offset..end] + data[end..];
    }
  }

  lemma ShortNameFits(name: string)
    requires |name| <= 0x1000_0000
    ensures |Utf8.Encode(name)| < Power256(4)
  {
    Utf8.EncodeLength(name);
    FourBytes();
  }

  // ---- fields ----

  /** What the bytes of a string field hold. */
  datatype Content = Algorithm(name: Utf8.Ascii) | Opaque | Label | Names

  datatype Kind = Str(content: Content) | Long | UserType

  datatype Value = Raw(bytes: Bytes) | Count(n: nat) | Text(text: string) | Words(words: seq<string>)

  predicate Suits(content: Content, v: Value) {
    match content
    case Algorithm(name) => v == Text(name)
    case Opaque => v.Raw?
    case Label => v.Text?
    case Names => v.Words?
  }

  function ContentBytes(content: Content, v: Value): Bytes
    requires Suits(content, v)
  {
    match content
    case Algorithm(name) => Utf8.AsciiBytes(name)
    case Opaque => v.bytes
    case Label => Utf8.Encode(v.text)
    case Names => NamesBytes(v.words)
  }

  function ReadContent(content: Content, b: Bytes): Result<Value, WireError> {
    match content
    case Algorithm(name) =>
      var s :- ReadText(b);
      if s != name then Err(AlgorithmUnsupported) else Ok(Text(s))
    case Opaque => Ok(Raw(b))
    case Label =>
      var s :- ReadText(b);
      Ok(Text(s))
    case Names =>
      var words :- ReadNames(b, 0);
      Ok(Words(words))
  }

  lemma ReadContentWritten(content: Content, v: Value)
    requires Suits(content, v) && |ContentBytes(content, v)| < Power256(4)
    ensures ReadContent(content, ContentBytes(content, v)) == Ok(v)
  {
    var b := ContentBytes(content, v);
    match content
    case Algorithm(name) =>
      Utf8.EncodeAscii(name);
      Utf8.DecodeEncode(name);
    case Opaque =>
    case Label => Utf8.DecodeEncode(v.text);
    case Names =>
      assert b[0..] == b;
      ReadNamesWritten(b, 0, v.words);
  }

  lemma WrittenContentRead(content: Content, b: Bytes)
    requires ReadContent(content, b).Ok?
    ensures Suits(content, ReadContent(content, b).value)
    ensures ContentBytes(content, ReadContent(content, b).value) == b
  {
    match content
    case Algorithm(name) =>
      Utf8.EncodeAscii(name);
      Utf8.EncodeDecode(b);
    case Opaque =>
    case Label => Utf8.EncodeDecode(b);
    case Names =>
      WrittenNamesRead(b, 0);
      assert b[0..] == b;
  }

  predicate Fits(kind: Kind, v: Value) {
    match kind
    case Str(content) => Suits(content, v) && |ContentBytes(content, v)| < Power256(4)
    case Long => v.Count? && v.n < Power256(8)
    case UserType => v == Count(USER_CERTIFICATE)
  }

  function FieldBytes(kind: Kind, v: Value): Bytes
    requires Fits(kind, v)
  {
    match kind
    case Str(content) => StringBytes(ContentBytes(content, v))
    case Long => NumberBytes(v.n, 8)
    case UserType => NumberBytes(v.n, 4)
  }

  /** Reads one field and applies the check that follows its reading. */
  function ReadField(kind: Kind, data: Bytes, offset: nat): Result<(Value, nat), WireError> {
    match kind
    case Str(content) =>
      var (b, end) :- ReadString(data, offset);
      var v :- ReadContent(content, b);
      Ok((v, end))
    case Long =>
      var (n, end) :- ReadNumber(data, offset, 8);
      Ok((Count(n), end))
    case UserType =>
      var (n, end) :- ReadNumber(data, offset, 4);
      if n != USER_CERTIFICATE then Err(NotUserCertificate) else Ok((Count(n), end))
  }

  lemma ReadFieldWritten(kind: Kind, v: Value, data: Bytes, offset: nat)
    requires Fits(kind, v) && Holds(data, offset, FieldBytes(kind, v))
    ensures ReadField(kind, data, offset) == Ok((v, offset + |FieldBytes(kind, v)|))
  {
    match kind
    case Str(content) =>
      ReadStringWritten(data, offset, ContentBytes(content, v));
      ReadContentWritten(content, v);
    case Long => ReadNumberWritten(data, offset, 8, v.n);
    case UserType =>
      FourBytes();
      ReadNumberWritten(data, offset, 4, v.n);
  }

  lemma WrittenFieldRead(kind: Kind, data: Bytes, offset: nat)
    requires ReadField(kind, data, offset).Ok?
    ensures var (v, end) := ReadField(kind, data, offset).value;
            Fits(kind, v) && Holds(data, offset, FieldBytes(kind, v))
            && end == offset + |FieldBytes(kind, v)| && offset < end
  {
    match kind
    case Str(content) =>
      WrittenStringRead(data, offset);
      WrittenContentRead(content, ReadString(data, offset).value.0);
    case Long => WrittenNumberRead(data, offset, 8);
    case UserType => WrittenNumberRead(data, offset, 4);
  }

  lemma CutStringTruncated(data: Bytes, offset: nat, cut: nat)
    requires ReadString(data, offset).Ok? && cut < ReadString(data, offset).value.1
    ensures ReadString(data[..cut], offset) == Err(Truncated)
  {
    if offset + 4 <= cut {
      assert data[..cut][offset..offset + 4] == data[offset..offset + 4];
    }
  }

  /** A field cut short anywhere is reported as truncated. */
  lemma CutFieldTruncated(kind: Kind, data: Bytes, offset: nat, cut: nat)
    requires ReadField(kind, data, offset).Ok?
    requires cut < ReadField(kind, data, offset).value.1
    ensures ReadField(kind, data[..cut], offset) == Err(Truncated)
  {
    if kind.Str? { CutStringTruncated(data, offset, cut); }
  }

  // ---- whole messages ----

  const LAYOUT: seq<Kind> :=
    [Str(Algorithm(ALGORITHM)), Str(Opaque), Str(Opaque), Long, UserType, Str(Label), Str(Names), Long, Long,
     Str(Opaque), Str(Opaque), Str(Opaque), Str(Opaque), Str(Opaque)]

  ghost predicate AllFit(kinds: seq<Kind>, values: seq<Value>) {
    |kinds| == |values| && (kinds == [] || (Fits(kinds[0], values[0]) && AllFit(kinds[1..], values[1..])))
  }

  function Write(kinds: seq<Kind>, values: seq<Value>): Bytes
    requires AllFit(kinds, values)
  {
    if kinds == [] then [] else FieldBytes(kinds[0], values[0]) + Write(kinds[1..], values[1..])
  }

  function ReadFields(kinds: seq<Kind>, data: Bytes, offset: nat): Result<(seq<Value>, nat), WireError> {
    if kinds == [] then Ok(([], offset))
    else
      var (v, end) :- ReadField(kinds[0], data, offset);
      var (rest, last) :- ReadFields(kinds[1..], data, end);
      Ok(([v] + rest, last))
  }

  lemma ReadFieldsStep(kinds: seq<Kind>, data: Bytes, offset: nat, v: Value, next: nat, rest: seq<Value>, last: nat)
    requires kinds != [] && ReadField(kinds[0], data, offset) == Ok((v, next))
    requires ReadFields(kinds[1..], data, next) == Ok((rest, last))
    ensures ReadFields(kinds, data, offset) == Ok(([v] + rest, last))
  {
  }

  lemma {:induction false} ReadFieldsWritten(kinds: seq<Kind>, values: seq<Value>, data: Bytes, offset: nat)
    requires AllFit(kinds, values) && Holds(data, offset, Write(kinds, values))
    ensures ReadFields(kinds, data, offset) == Ok((values, offset + |Write(kinds, values)|))
    decreases |kinds|
  {
    hide ReadField, FieldBytes, Fits;
    if kinds == [] {
      assert values == [] && Write(kinds, values) == [];
    } else {
      var first, rest := FieldBytes(kinds[0], values[0]), Write(kinds[1..], values[1..]);
      var next := offset + |first|;
      assert Write(kinds, values) == first + rest;
      HoldsParts(data, offset, first, rest);
      ReadFieldWritten(kinds[0], values[0], data, offset);
      ReadFieldsWritten(kinds[1..], values[1..], data, next);
      ReadFieldsStep(kinds, data, offset, values[0], next, values[1..], next + |rest|);
      assert values == [values[0]] + values[1..];
    }
  }

  lemma {:induction false} WrittenFieldsRead(kinds: seq<Kind>, data: Bytes, offset: nat)
    requires offset <= |data| && ReadFields(kinds, data, offset).Ok?
    ensures var (values, end) := ReadFields(kinds, data, offset).value;
            AllFit(kinds, values) && Holds(data, offset, Write(kinds, values))
            && end == offset + |Write(kinds, values)|
    decreases |kinds|
  {
    hide ReadField, FieldBytes, Fits;
    if kinds != [] {
      var (v, next) := ReadField(kinds[0], data, offset).value;
      WrittenFieldRead(kinds[0], data, offset);
      WrittenFieldsRead(kinds[1..], data, next);
      var (values, end) := ReadFields(kinds, data, offset).value;
      assert values[0] == v && values[1..] == ReadFields(kinds[1..], data, next).value.0;
      HoldsParts(data, offset, FieldBytes(kinds[0], v), Write(kinds[1..], values[1..]));
    }
  }

  /** After fields that can be read, a field that cannot be read decides. */
  lemma {:induction false} ReadFieldsFails(kinds: seq<Kind>, values: seq<Value>, data: Bytes, offset: nat, e: WireError)
    requires |values| < |kinds| && AllFit(kinds[..|values|], values)
    requires Holds(data, offset, Write(kinds[..|values|], values))
    requires ReadField(kinds[|values|], data, offset + |Write(kinds[..|values|], values)|) == Err(e)
    ensures ReadFields(kinds, data, offset) == Err(e)
    decreases |values|
  {
    hide ReadField, FieldBytes, Fits;
    if values != [] {
      var front := kinds[..|values|];
      assert front[0] == kinds[0] && front[1..] == kinds[1..][..|values| - 1];
      var first, rest := FieldBytes(kinds[0], values[0]), Write(front[1..], values[1..]);
      HoldsParts(data, offset, first, rest);
      ReadFieldWritten(kinds[0], values[0], data, offset);
      ReadFieldsFails(kinds[1..], values[1..], data, offset + |first|, e);
    }
  }

  /** Writing may stop after some fields and resume with the rest. */
  lemma {:induction false} WriteSplit(kinds: seq<Kind>, values: seq<Value>, n: nat)
    requires AllFit(kinds, values) && n <= |kinds|
    ensures AllFit(kinds[..n], values[..n]) && AllFit(kinds[n..], values[n..])
    ensures Write(kinds, values) == Write(kinds[..n], values[..n]) + Write(kinds[n..], values[n..])
    decreases n
  {
    hide FieldBytes, Fits;
    if n == 0 {
      assert kinds[0..] == kinds && values[0..] == values;
    } else {
      WriteSplit(kinds[1..], values[1..], n - 1);
      assert kinds[..n][0] == kinds[0] && values[..n][0] == values[0];
      assert kinds[..n][1..] == kinds[1..][..n - 1] && values[..n][1..] == values[1..][..n - 1];
      assert kinds[n..] == kinds[1..][n - 1..] && values[n..] == values[1..][n - 1..];
    }
  }

  lemma {:induction false} CutFieldsTruncated(kinds: seq<Kind>, data: Bytes, offset: nat, cut: nat)
    requires offset <= cut <= |data| && ReadFields(kinds, data, offset).Ok?
    requires cut < ReadFields(kinds, data, offset).value.1
    ensures ReadFields(kinds, data[..cut], offset) == Err(Truncated)
    decreases |kinds|
  {
    hide ReadField, FieldBytes, Fits;
    var (v, next) := ReadField(kinds[0], data, offset).value;
    WrittenFieldRead(kinds[0], data, offset);
    if cut < next {
      CutFieldTruncated(kinds[0], data, offset, cut);
    } else {
      assert data[..cut][offset..next] == data[offset..next];
      ReadFieldWritten(kinds[0], v, data[..cut], offset);
      CutFieldsTruncated(kinds[1..], data, next, cut);
    }
  }
}
