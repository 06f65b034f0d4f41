/** Parsing of offered certificates on the host
    (`packages/ski-authorize/src/ski_authorize/certificate.py`). */
module Certificates {
  import opened Basics
  import opened Wire
  import Utf8

  /** Every field of a user certificate, in wire order after the algorithm name. */
  datatype UserCertificate = UserCertificate(
    nonce: Bytes, userKey: Bytes, serial: nat, keyId: string, principals: seq<string>,
    validAfter: nat, validBefore: nat,
    criticalOptions: Bytes, extensions: Bytes, reserved: Bytes, signatureKey: Bytes, signature: Bytes)

  ghost predicate ShortBytes(b: Bytes) { |b| < Power256(4) }

  ghost predicate WellFormed(c: UserCertificate) {
    && ShortBytes(c.nonce) && ShortBytes(c.userKey) && ShortBytes(c.criticalOptions) && ShortBytes(c.extensions)
    && ShortBytes(c.reserved) && ShortBytes(c.signatureKey) && ShortBytes(c.signature)
    && ShortBytes(Utf8.Encode(c.keyId)) && ShortBytes(NamesBytes(c.principals))
    && c.serial < Power256(8) && c.validAfter < Power256(8) && c.validBefore < Power256(8)
  }

  function Values(c: UserCertificate): seq<Value> {
    [Text(ALGORITHM), Raw(c.nonce), Raw(c.userKey), Count(c.serial), Count(USER_CERTIFICATE), Text(c.keyId),
     Words(c.principals), Count(c.validAfter), Count(c.validBefore), Raw(c.criticalOptions), Raw(c.extensions),
     Raw(c.reserved), Raw(c.signatureKey), Raw(c.signature)]
  }

  predicate HasShape(v: seq<Value>) {
    |v| == 14 && v[0].Text? && v[1].Raw? && v[2].Raw? && v[3].Count? && v[4].Count? && v[5].Text? && v[6].Words?
    && v[7].Count? && v[8].Count? && forall i :: 9 <= i < 14 ==> v[i].Raw?
  }

  function FromValues(v: seq<Value>): UserCertificate
    requires HasShape(v)
  {
    UserCertificate(v[1].bytes, v[2].bytes, v[3].n, v[5].text, v[6].words, v[7].n, v[8].n,
                    v[9].bytes, v[10].bytes, v[11].bytes, v[12].bytes, v[13].bytes)
  }

  lemma {:induction false} AllFitEach(kinds: seq<Kind>, values: seq<Value>)
    ensures AllFit(kinds, values) <==>
            |kinds| == |values| && forall i :: 0 <= i < |kinds| ==> Fits(kinds[i], values[i])
    decreases |kinds|
  {
    if |kinds| == |values| && kinds != [] {
      AllFitEach(kinds[1..], values[1..]);
      assert forall i :: 0 <= i < |kinds| - 1 ==> kinds[1..][i] == kinds[i + 1] && values[1..][i] == values[i + 1];
      if AllFit(kinds, values) {
        forall i | 0 <= i < |kinds| ensures Fits(kinds[i], values[i]) {
          if i > 0 { assert Fits(kinds[1..][i - 1], values[1..][i - 1]); }
        }
      }
    }
  }

  /** The encoding is defined exactly for well-formed certificates. */
  lemma WellFormedFits(c: UserCertificate)
    ensures WellFormed(c) <==> AllFit(LAYOUT, Values(c))
  {
    hide AllFit, Utf8.Encode, NamesBytes, Power256;
    AllFitEach(LAYOUT, Values(c));
    FourBytes();
    var v := Values(c);
    assert Fits(LAYOUT[0], v[0]);
    if forall i :: 0 <= i < 14 ==> Fits(LAYOUT[i], v[i]) {
      assert Fits(LAYOUT[1], v[1]) && Fits(LAYOUT[2], v[2]) && Fits(LAYOUT[3], v[3]) && Fits(LAYOUT[5], v[5]);
      assert Fits(LAYOUT[6], v[6]) && Fits(LAYOUT[7], v[7]) && Fits(LAYOUT[8], v[8]) && Fits(LAYOUT[9], v[9]);
      assert Fits(LAYOUT[10], v[10]) && Fits(LAYOUT[11], v[11]) && Fits(LAYOUT[12], v[12]) && Fits(LAYOUT[13], v[13]);
    }
  }

  lemma FittingShape(v: seq<Value>)
    requires AllFit(LAYOUT, v)
    ensures HasShape(v) && Values(FromValues(v)) == v
  {
    hide AllFit, Utf8.Encode, NamesBytes, Power256;
    AllFitEach(LAYOUT, v);
    assert Fits(LAYOUT[0], v[0]) && Fits(LAYOUT[1], v[1]) && Fits(LAYOUT[2], v[2]) && Fits(LAYOUT[3], v[3]);
    assert Fits(LAYOUT[4], v[4]) && Fits(LAYOUT[5], v[5]) && Fits(LAYOUT[6], v[6]) && Fits(LAYOUT[7], v[7]);
    assert Fits(LAYOUT[8], v[8]) && Fits(LAYOUT[9], v[9]) && Fits(LAYOUT[10], v[10]) && Fits(LAYOUT[11], v[11]);
    assert Fits(LAYOUT[12], v[12]) && Fits(LAYOUT[13], v[13]);
  }

  function Encode(c: UserCertificate): Bytes
    requires WellFormed(c)
  {
    WellFormedFits(c);
    Write(LAYOUT, Values(c))
  }

  lemma FieldsShaped(data: Bytes)
    ensures ReadFields(LAYOUT, data, 0).Ok? ==> HasShape(ReadFields(LAYOUT, data, 0).value.0)
  {
    hide ReadFields, AllFit, Write;
    if ReadFields(LAYOUT, data, 0).Ok? {
      WrittenFieldsRead(LAYOUT, data, 0);
      FittingShape(ReadFields(LAYOUT, data, 0).value.0);
    }
  }

  function Assemble(fields: Result<(seq<Value>, nat), WireError>, size: nat): Result<UserCertificate, WireError>
    requires fields.Ok? ==> HasShape(fields.value.0)
  {
    var (values, end) :- fields;
    if end != size then Err(TrailingBytes) else Ok(FromValues(values))
  }

  /** All fields of a complete message, or the first failure met while reading it. */
  function Parse(data: Bytes): Result<UserCertificate, WireError> {
    FieldsShaped(data);
    Assemble(ReadFields(LAYOUT, data, 0), |data|)
  }

  /** What the host keeps of a certificate. */
  datatype PublicData = PublicData(
    algorithm: string, keyId: string, serial: nat, principals: seq<string>, validAfter: nat, validBefore: nat)

  function Public(c: UserCertificate): PublicData {
    PublicData(ALGORITHM, c.keyId, c.serial, c.principals, c.validAfter, c.validBefore)
  }

  function PublicResult(r: Result<UserCertificate, WireError>): Result<PublicData, WireError> {
    match r
    case Err(e) => Err(e)
    case Ok(c) => Ok(Public(c))
  }

  // ---- the accepted language ----

  /** Parsing the encoding of any well-formed certificate returns all its fields. */
  lemma ParseEncode(c: UserCertificate)
    requires WellFormed(c)
    ensures Parse(Encode(c)) == Ok(c)
  {
    hide AllFit, Write, ReadFields, WellFormed;
    WellFormedFits(c);
    var data := Encode(c);
    assert data[0..0 + |data|] == data;
    ReadFieldsWritten(LAYOUT, Values(c), data, 0);
  }

  /** Any accepted message is the encoding of what was parsed from it, byte for byte. */
  lemma EncodeParse(data: Bytes)
    requires Parse(data).Ok?
    ensures var c := Parse(data).value; WellFormed(c) && Encode(c) == data
  {
    hide AllFit, Write, ReadFields, WellFormed, HasShape;
    FieldsShaped(data);
    var (values, end) := ReadFields(LAYOUT, data, 0).value;
    WrittenFieldsRead(LAYOUT, data, 0);
    FittingShape(values);
    WellFormedFits(FromValues(values));
    assert data[0..0 + |data|] == data;
  }

  /** `data` is the wire form of the well-formed certificate `c`. */
  ghost predicate Written(c: UserCertificate, data: Bytes) {
    WellFormed(c) && Encode(c) == data
  }

  /** Acceptance means being an encoding, and two accepted messages with equal fields are equal. */
  lemma ParseDecides(data: Bytes)
    ensures Parse(data).Ok? <==> exists c :: Written(c, data)
    ensures forall other :: Parse(data).Ok? && Parse(other) == Parse(data) ==> other == data
  {
    if Parse(data).Ok? {
      EncodeParse(data);
      assert Written(Parse(data).value, data);
    }
    forall c | Written(c, data) ensures Parse(data).Ok? {
      ParseEncode(c);
    }
    forall other | Parse(data).Ok? && Parse(other) == Parse(data) ensures other == data {
      EncodeParse(data);
      EncodeParse(other);
    }
  }

  /** The accepted language is prefix-free: a strict prefix of an accepted message is
      truncated, a proper extension has trailing bytes. */
  lemma PrefixFree(data: Bytes, cut: nat, more: Bytes)
    requires Parse(data).Ok? && cut < |data| && more != []
    ensures Parse(data[..cut]) == Err(Truncated)
    ensures Parse(data + more) == Err(TrailingBytes)
  {
    CutFieldsTruncated(LAYOUT, data, 0, cut);
    var (values, end) := ReadFields(LAYOUT, data, 0).value;
    WrittenFieldsRead(LAYOUT, data, 0);
    assert (data + more)[0..0 + |data|] == data[0..0 + |data|];
    ReadFieldsWritten(LAYOUT, values, data + more, 0);
  }

  // ---- the parser as it runs ----

  /** Reading may stop after some fields and resume with the rest. */
  ghost function Resume(values: seq<Value>, kinds: seq<Kind>, data: Bytes, offset: nat):
      Result<(seq<Value>, nat), WireError>
  {
    var (rest, last) :- ReadFields(kinds, data, offset);
    Ok((values + rest, last))
  }

  lemma Advance(k: nat, values: seq<Value>, data: Bytes, offset: nat)
    requires k < 14
    ensures Resume(values, LAYOUT[k..], data, offset) ==
            match ReadField(LAYOUT[k], data, offset)
            case Err(e) => Err(e)
            case Ok((v, end)) => Resume(values + [v], LAYOUT[k + 1..], data, end)
  {
    hide ReadField;
    assert LAYOUT[k..][1..] == LAYOUT[k + 1..];
    match ReadField(LAYOUT[k], data, offset)
    case Err(_) =>
    case Ok((v, end)) =>
      match ReadFields(LAYOUT[k + 1..], data, end)
      case Err(_) =>
      case Ok((rest, _)) => assert (values + [v]) + rest == values + ([v] + rest);
  }

  lemma AdvanceString(k: nat, values: seq<Value>, data: Bytes, offset: nat)
    requires k < 14 && LAYOUT[k].Str?
    ensures Resume(values, LAYOUT[k..], data, offset) ==
            match ReadString(data, offset)
            case Err(e) => Err(e)
            case Ok((b, end)) =>
              match ReadContent(LAYOUT[k].content, b)
              case Err(e) => Err(e)
              case Ok(v) => Resume(values + [v], LAYOUT[k + 1..], data, end)
  {
    hide ReadContent, ReadString, Resume;
    Advance(k, values, data, offset);
  }

  lemma AdvanceLong(k: nat, values: seq<Value>, data: Bytes, offset: nat)
    requires k < 14 && LAYOUT[k].Long?
    ensures Resume(values, LAYOUT[k..], data, offset) ==
            match ReadNumber(data, offset, 8)
            case Err(e) => Err(e)
            case Ok((n, end)) => Resume(values + [Count(n)], LAYOUT[k + 1..], data, end)
  {
    hide ReadNumber, Resume;
    Advance(k, values, data, offset);
  }

  lemma AdvanceType(k: nat, values: seq<Value>, data: Bytes, offset: nat)
    requires k < 14 && LAYOUT[k].UserType?
    ensures Resume(values, LAYOUT[k..], data, offset) ==
            match ReadNumber(data, offset, 4)
            case Err(e) => Err(e)
            case Ok((n, end)) =>
              if n != USER_CERTIFICATE then Err(NotUserCertificate)
              else Resume(values + [Count(n)], LAYOUT[k + 1..], data, end)
  {
    hide ReadNumber, Resume;
    Advance(k, values, data, offset);
  }

  lemma ResumeWhole(data: Bytes)
    ensures Resume([], LAYOUT[0..], data, 0) == ReadFields(LAYOUT, data, 0)
  {
    hide ReadFields;
    assert LAYOUT[0..] == LAYOUT;
    if ReadFields(LAYOUT, data, 0).Ok? {
      var rest := ReadFields(LAYOUT, data, 0).value.0;
      assert [] + rest == rest;
    }
  }

  lemma ResumeDone(values: seq<Value>, data: Bytes, offset: nat)
    ensures Resume(values, LAYOUT[14..], data, offset) == Ok((values, offset))
  {
    assert values + [] == values;
  }

  /** The loop over the nested principal list. The check after it never fails. */
  method ParsePrincipals(principalData: Bytes) returns (r: Result<seq<string>, WireError>)
    ensures r == ReadNames(principalData, 0)
  {
    var principals: seq<string> := [];
    var principalOffset := 0;
    assert forall rest: seq<string> :: principals + rest == rest;
    while principalOffset < |principalData|
      invariant principalOffset <= |principalData|
      invariant ReadNames(principalData, 0) ==
                match ReadNames(principalData, principalOffset)
                case Err(e) => Err(e)
                case Ok(rest) => Ok(principals + rest)
    {
      var read :- ReadString(principalData, principalOffset);
      var name :- ReadText(read.0);
      assert forall rest: seq<string> :: (principals + [name]) + rest == principals + ([name] + rest);
      principalOffset := read.1;
      principals := principals + [name];
    }
    if principalOffset != |principalData| {
      assert false;
    }
    assert principals + [] == principals;
    return Ok(principals);
  }

  /** What the first six fields tell, and the offset after them. */
  datatype Head = Head(serial: nat, keyId: string, offset: nat)

  /** Reads the fields up to and including the key ID. */
  method ParseHead(data: Bytes) returns (r: Result<Head, WireError>, ghost values: seq<Value>)
    ensures r.Err? ==> Resume([], LAYOUT[0..], data, 0) == Err(r.error)
    ensures r.Ok? ==>
              && Resume([], LAYOUT[0..], data, 0) == Resume(values, LAYOUT[6..], data, r.value.offset)
              && |values| == 6 && values[0].Text? && values[1].Raw? && values[2].Raw? && values[4].Count?
              && values[3] == Count(r.value.serial) && values[5] == Text(r.value.keyId)
  {
    hide ReadString, ReadNumber, ReadText, ReadNames, Resume;
    values := [];
    var offset := 0;

    AdvanceString(0, values, data, offset);
    var algorithmRead :- ReadString(data, offset);
    var algorithm :- ReadText(algorithmRead.0);
    if algorithm != ALGORITHM { r := Err(AlgorithmUnsupported); return; }
    values, offset := values + [Text(algorithm)], algorithmRead.1;

    AdvanceString(1, values, data, offset);
    var nonce :- ReadString(data, offset);
    values, offset := values + [Raw(nonce.0)], nonce.1;

    AdvanceString(2, values, data, offset);
    var userPublicKey :- ReadString(data, offset);
    values, offset := values + [Raw(userPublicKey.0)], userPublicKey.1;

    AdvanceLong(3, values, data, offset);
    var serial :- ReadNumber(data, offset, 8);
    values, offset := values + [Count(serial.0)], serial.1;

    AdvanceType(4, values, data, offset);
    var certificateType :- ReadNumber(data, offset, 4);
    if certificateType.0 != USER_CERTIFICATE { r := Err(NotUserCertificate); return; }
    values, offset := values + [Count(certificateType.0)], certificateType.1;

    AdvanceString(5, values, data, offset);
    var keyIdRead :- ReadString(data, offset);
    var keyId :- ReadText(keyIdRead.0);
    values, offset := values + [Text(keyId)], keyIdRead.1;

    r := Ok(Head(serial.0, keyId, offset));
  }

  method ParsePublicData(data: Bytes) returns (r: Result<PublicData, WireError>)
    ensures r == PublicResult(Parse(data))
    ensures r.Ok? ==> r.value.algorithm == "ssh-ed25519-cert-v01@openssh.com"
  {
    hide ReadString, ReadNumber, ReadText, ReadNames, Resume, ReadFields;
    ResumeWhole(data);
    FieldsShaped(data);
    var head, values := ParseHead(data);
    if head.Err? { return Err(head.error); }
    var offset := head.value.offset;

    AdvanceString(6, values, data, offset);
    var principalData :- ReadString(data, offset);
    var principals :- ParsePrincipals(principalData.0);
    values, offset := values + [Words(principals)], principalData.1;

    AdvanceLong(7, values, data, offset);
    var validAfter :- ReadNumber(data, offset, 8);
    values, offset := values + [Count(validAfter.0)], validAfter.1;

    AdvanceLong(8, values, data, offset);
    var validBefore :- ReadNumber(data, offset, 8);
    values, offset := values + [Count(validBefore.0)], validBefore.1;

    AdvanceString(9, values, data, offset);
    var criticalOptions :- ReadString(data, offset);
    values, offset := values + [Raw(criticalOptions.0)], criticalOptions.1;

    AdvanceString(10, values, data, offset);
    var extensions :- ReadString(data, offset);
    values, offset := values + [Raw(extensions.0)], extensions.1;

    AdvanceString(11, values, data, offset);
    var reserved :- ReadString(data, offset);
    values, offset := values + [Raw(reserved.0)], reserved.1;

    AdvanceString(12, values, data, offset);
    var signatureKey :- ReadString(data, offset);
    values, offset := values + [Raw(signatureKey.0)], signatureKey.1;

    AdvanceString(13, values, data, offset);
    var signature :- ReadString(data, offset);
    values, offset := values + [Raw(signature.0)], signature.1;

    ResumeDone(values, data, offset);
    if offset != |data| { return Err(TrailingBytes); }
    return Ok(PublicData(ALGORITHM, head.value.keyId, head.value.serial, principals,
                         validAfter.0, validBefore.0));
  }

  // ---- intake of an offered certificate ----

  datatype CertificateError =
    | TypeUnsupported
    | BodyMalformed
    | AttributesMalformed
    | CaAlgorithmUnsupported
    | NotTimeValid

  /** What the SSH library reports about the key that signed an offered certificate. */
  datatype SigningKey = SigningKey(algorithm: string, fingerprint: string)

  /** An offered body: the bytes behind its base64 text, and the signing key found by the
      SSH library, or nothing when either decoding rejects it. */
  datatype Offer = Rejected | Decoded(data: Bytes, signingKey: SigningKey)

  datatype CertificateAttributes = CertificateAttributes(
    caFingerprint: string, keyId: string, principals: seq<string>, serial: nat, validAfter: nat, validBefore: nat)

  const CA_ALGORITHM := "ssh-ed25519"

  function ParseCertificate(certificateType: string, offer: Offer, now: int):
      Result<CertificateAttributes, CertificateError>
  {
    if certificateType != ALGORITHM then Err(TypeUnsupported)
    else if offer.Rejected? then Err(BodyMalformed)
    else match Parse(offer.data)
      case Err(_) => Err(AttributesMalformed)
      case Ok(c) =>
        if offer.signingKey.algorithm != CA_ALGORITHM then Err(CaAlgorithmUnsupported)
        else if now < c.validAfter || now >= c.validBefore then Err(NotTimeValid)
        else Ok(CertificateAttributes(offer.signingKey.fingerprint, c.keyId, c.principals, c.serial,
                                      c.validAfter, c.validBefore))
  }

  /** Exactly the wire forms of well-formed certificates, signed with an Ed25519 key, are taken
      in, from the start of their validity until just before its end; what is taken in are the
      attributes that were written. What is refused is refused for the first thing wrong. */
  lemma ParseCertificateDecides(certificateType: string, offer: Offer, now: int)
    ensures var r := ParseCertificate(certificateType, offer, now);
            var named := certificateType == "ssh-ed25519-cert-v01@openssh.com";
            && (r.Ok? <==> named && offer.Decoded? && offer.signingKey.algorithm == "ssh-ed25519"
                           && exists c :: Written(c, offer.data) && c.validAfter <= now < c.validBefore)
            && (r.Ok? ==>
                  forall c :: Written(c, offer.data) ==>
                    r.value == CertificateAttributes(offer.signingKey.fingerprint, c.keyId, c.principals, c.serial,
                                                     c.validAfter, c.validBefore))
            && (r == Err(TypeUnsupported) <==> !named)
            && (r == Err(BodyMalformed) <==> named && offer.Rejected?)
            && (r == Err(AttributesMalformed) <==>
                  named && offer.Decoded? && !exists c :: Written(c, offer.data))
            && (r == Err(CaAlgorithmUnsupported) <==>
                  && named && offer.Decoded? && offer.signingKey.algorithm != "ssh-ed25519"
                  && exists c :: Written(c, offer.data))
  {
    hide WellFormed, Values, Encode, Parse, AllFit;
    if offer.Decoded? {
      forall c | Written(c, offer.data) ensures Parse(offer.data) == Ok(c) { ParseEncode(c); }
      if Parse(offer.data).Ok? {
        EncodeParse(offer.data);
        assert Written(Parse(offer.data).value, offer.data);
      }
    }
  }
}
