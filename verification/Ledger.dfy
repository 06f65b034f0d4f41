/** The CA ledger as a value: its tables, the operations that append to them, and the
    decoding of stored rows (`src/ski/state.py`, `src/ski/ca_persistence.py`,
    `src/ski/migrations.py`). */
module Ledger {
  import opened Basics
  import opened IssuerPolicy
  import opened StoredText
  import Decimal

  const SERIAL_LIMIT: nat := 0x1_0000_0000_0000_0000

  const ALGORITHM := "ssh-ed25519"

  // ---- tables ----

  /** What importing the stored public-key bytes yields. */
  datatype PublicKey = Unreadable | PublicKey(algorithm: string, fingerprint: string)

  datatype Path = Path(directory: string, name: string)

  datatype CaRow = CaRow(
    caId: int, algorithm: string, publicKey: PublicKey, fingerprint: string, privateKeyPath: Path,
    activatedAt: int, status: string)

  datatype CertificateRow = CertificateRow(
    certificateId: int, caId: int, serial: string, identity: string, publicKeyFingerprint: string,
    principals: string, validAfter: int, validBefore: int, requestId: string, outcome: string)

  datatype EventRow = EventRow(
    eventId: int, occurredAt: int, kind: string, decision: string, requestId: string,
    identity: Option<string>, caId: Option<int>, serial: Option<string>)

  /** Rows are kept in the order of their integer keys. */
  datatype Tables = Tables(ca: seq<CaRow>, certificates: seq<CertificateRow>, events: seq<EventRow>)

  const EMPTY := Tables([], [], [])

  // ---- records ----

  datatype CaRecord = CaRecord(
    caId: int, algorithm: string, publicKey: PublicKey, fingerprint: string, privateKeyPath: Path,
    activatedAt: int, status: string)

  datatype CertificateRecord = CertificateRecord(
    certificateId: int, caId: int, serial: nat, identity: string, publicKeyFingerprint: string,
    principals: seq<string>, validAfter: int, validBefore: int, requestId: string, outcome: string)

  datatype EventRecord = EventRecord(
    eventId: int, occurredAt: int, kind: string, decision: string, requestId: string,
    identity: Option<string>, caId: Option<int>, serial: Option<nat>)

  datatype StateError =
    | IdMalformed
    | SerialMalformed
    | IdentityNotCanonical
    | TextMalformed
    | PrincipalsRejected
    | IntervalNot25Hours
    | OutcomeMalformed
    | TimestampMalformed
    | KeyRejected
    | PathMalformed
    | StatusMalformed
    | AlreadyActive
    | DuplicateSerial
    | EventNotRecorded
    | Unavailable
    | SeveralActive
    | UnknownCa
    | UnknownCertificate
    | SuccessEventMissing
    | DuplicateCertificate

  // ---- validation shared by writing and reading ----

  function CheckText(s: string): Result<(), StateError> {
    if ValidText(s) then Ok(()) else Err(TextMalformed)
  }

  function CheckId(id: int): Result<(), StateError> {
    if id > 0 then Ok(()) else Err(IdMalformed)
  }

  function CheckSerial(n: int): Result<nat, StateError> {
    if 0 <= n < SERIAL_LIMIT then Ok(n) else Err(SerialMalformed)
  }

  function CheckIdentity(s: string): Result<(), StateError> {
    if CanonicalUsername(s) then Ok(()) else Err(IdentityNotCanonical)
  }

  function CheckPrincipals(value: seq<string>): Result<(), StateError> {
    if ValidatePrincipals(value).Ok? then Ok(()) else Err(PrincipalsRejected)
  }

  function CheckOutcome(s: string): Result<(), StateError> {
    if s == "success" || s == "failed" then Ok(()) else Err(OutcomeMalformed)
  }

  function CheckInterval(validAfter: int, validBefore: int): Result<(), StateError> {
    if validBefore - validAfter == CERTIFICATE_LIFETIME then Ok(()) else Err(IntervalNot25Hours)
  }

  function CheckKey(key: PublicKey, fingerprint: string): Result<(), StateError> {
    if key.Unreadable? || fingerprint == "" || key.algorithm != ALGORITHM || key.fingerprint != fingerprint then
      Err(KeyRejected)
    else Ok(())
  }

  function CheckPath(path: Path): Result<(), StateError> {
    if path.name == "" || path.name == "." || path.name == ".." then Err(PathMalformed) else Ok(())
  }

  // ---- times ----

  /** A caller's time: the clock, a number of seconds, or a date with or without a zone. */
  datatype Moment = Now(clock: real) | Seconds(value: real) | Zoned(seconds: real) | Zoneless

  function Truncate(r: real): int {
    if r >= 0.0 then r.Floor else -((-r).Floor)
  }

  function Timestamp(m: Moment): Result<int, StateError> {
    match m
    case Now(clock) => Ok(Truncate(clock))
    case Seconds(value) => if Truncate(value) < 0 then Err(TimestampMalformed) else Ok(Truncate(value))
    case Zoned(seconds) => Ok(Truncate(seconds))
    case Zoneless => Err(TimestampMalformed)
  }

  // ---- constraints of the schema ----

  predicate FitsColumn(n: int) { -0x8000_0000_0000_0000 <= n < 0x8000_0000_0000_0000 }

  predicate HasCa(t: Tables, caId: int) {
    exists i :: 0 <= i < |t.ca| && t.ca[i].caId == caId
  }

  predicate HasSerial(t: Tables, caId: int, serial: string) {
    exists i :: 0 <= i < |t.certificates| && t.certificates[i].caId == caId && t.certificates[i].serial == serial
  }

  function NextCaId(t: Tables): int {
    if t.ca == [] then 1 else t.ca[|t.ca| - 1].caId + 1
  }

  function NextCertificateId(t: Tables): int {
    if t.certificates == [] then 1 else t.certificates[|t.certificates| - 1].certificateId + 1
  }

  function NextEventId(t: Tables): int {
    if t.events == [] then 1 else t.events[|t.events| - 1].eventId + 1
  }

  // ---- CA registration ----

  /** A CA to register; a request identifier asks for an initialization event too. */
  datatype NewCa = NewCa(key: PublicKey, fingerprint: string, path: Path, at: Moment, requestId: Option<string>)

  function CheckCa(c: NewCa): Result<int, StateError> {
    var _ :- CheckKey(c.key, c.fingerprint);
    var _ :- CheckPath(c.path);
    var at :- Timestamp(c.at);
    if c.requestId.Some? && !ValidText(c.requestId.value) then Err(TextMalformed) else Ok(at)
  }

  function NewCaRow(t: Tables, c: NewCa, at: int): CaRow {
    CaRow(NextCaId(t), ALGORITHM, c.key, c.fingerprint, c.path, at, "active")
  }

  predicate CaConflict(t: Tables, c: NewCa) {
    exists i :: 0 <= i < |t.ca| && (t.ca[i].status == "active" || t.ca[i].fingerprint == c.fingerprint)
  }

  function CaEvent(t: Tables, caId: int, at: int, requestId: string): EventRow {
    EventRow(NextEventId(t), at, "ca_initialized", "allow", requestId, None, Some(caId), None)
  }

  function WithCa(t: Tables, c: NewCa, at: int): Tables {
    var row := NewCaRow(t, c, at);
    t.(ca := t.ca + [row],
       events := if c.requestId.None? then t.events
                 else t.events + [CaEvent(t, row.caId, at, c.requestId.value)])
  }

  function RegisterCa(t: Tables, c: NewCa): Result<(Tables, CaRecord), StateError> {
    var at :- CheckCa(c);
    if !FitsColumn(at) then Err(Unavailable)
    else if CaConflict(t, c) then Err(AlreadyActive)
    else Ok((WithCa(t, c, at),
             CaRecord(NextCaId(t), ALGORITHM, c.key, c.fingerprint, c.path, at, "active")))
  }

  // ---- certificates ----

  datatype NewCertificate = NewCertificate(
    caId: int, serial: int, identity: string, publicKeyFingerprint: string, principals: seq<string>,
    validAfter: int, validBefore: int, requestId: string)

  function CheckCertificate(c: NewCertificate, outcome: string): Result<nat, StateError> {
    var _ :- CheckId(c.caId);
    var serial :- CheckSerial(c.serial);
    var _ :- CheckIdentity(c.identity);
    var _ :- CheckText(c.publicKeyFingerprint);
    var _ :- CheckPrincipals(c.principals);
    var _ :- CheckInterval(c.validAfter, c.validBefore);
    var _ :- CheckText(c.requestId);
    var _ :- CheckOutcome(outcome);
    Ok(serial)
  }

  predicate CertificateFitsColumns(c: NewCertificate) {
    FitsColumn(c.caId) && FitsColumn(c.validAfter) && FitsColumn(c.validBefore)
  }

  predicate CertificateConflict(t: Tables, c: NewCertificate)
    requires c.serial >= 0
  {
    !HasCa(t, c.caId) || HasSerial(t, c.caId, Decimal.Show(c.serial))
  }

  function NewCertificateRow(t: Tables, c: NewCertificate, outcome: string): CertificateRow
    requires c.serial >= 0
  {
    CertificateRow(NextCertificateId(t), c.caId, Decimal.Show(c.serial), c.identity, c.publicKeyFingerprint,
                   EncodePrincipals(c.principals), c.validAfter, c.validBefore, c.requestId, outcome)
  }

  function IssuedEvent(t: Tables, c: NewCertificate): EventRow
    requires c.serial >= 0
  {
    EventRow(NextEventId(t), c.validAfter, "certificate_issued", "allow", c.requestId,
             Some(c.identity), Some(c.caId), Some(Decimal.Show(c.serial)))
  }

  function WithCertificate(t: Tables, c: NewCertificate, outcome: string, recordEvent: bool): Tables
    requires c.serial >= 0
  {
    t.(certificates := t.certificates + [NewCertificateRow(t, c, outcome)],
       events := if recordEvent then t.events + [IssuedEvent(t, c)] else t.events)
  }

  function CertificateRecordOf(t: Tables, c: NewCertificate, outcome: string): CertificateRecord
    requires c.serial >= 0
  {
    CertificateRecord(NextCertificateId(t), c.caId, c.serial, c.identity, c.publicKeyFingerprint, c.principals,
                      c.validAfter, c.validBefore, c.requestId, outcome)
  }

  /** Appends one certificate, and with `recordEvent` its event, or changes nothing. A
      missing CA and a recorded serial are reported alike. */
  function RecordCertificate(t: Tables, c: NewCertificate, outcome: string, recordEvent: bool):
      Result<(Tables, CertificateRecord), StateError>
  {
    var serial :- CheckCertificate(c, outcome);
    if !CertificateFitsColumns(c) then Err(Unavailable)
    else if CertificateConflict(t, c) then Err(DuplicateSerial)
    else Ok((WithCertificate(t, c, outcome, recordEvent), CertificateRecordOf(t, c, outcome)))
  }

  // ---- events ----

  datatype NewEvent = NewEvent(
    kind: string, decision: string, requestId: string, at: Moment, identity: Option<string>,
    caId: Option<int>, serial: Option<int>)

  function CheckEvent(e: NewEvent): Result<int, StateError> {
    var _ :- CheckText(e.kind);
    var _ :- CheckText(e.decision);
    var _ :- CheckText(e.requestId);
    var _ :- if e.identity.Some? then CheckIdentity(e.identity.value) else Ok(());
    var _ :- if e.caId.Some? then CheckId(e.caId.value) else Ok(());
    var _ :- if e.serial.Some? then CheckSerial(e.serial.value) else Ok(0);
    Timestamp(e.at)
  }

  function SerialText(serial: Option<int>): Option<string>
    requires serial.Some? ==> serial.value >= 0
  {
    if serial.Some? then Some(Decimal.Show(serial.value)) else None
  }

  function NewEventRow(t: Tables, e: NewEvent, at: int): EventRow
    requires e.serial.Some? ==> e.serial.value >= 0
  {
    EventRow(NextEventId(t), at, e.kind, e.decision, e.requestId, e.identity, e.caId, SerialText(e.serial))
  }

  function RecordEvent(t: Tables, e: NewEvent): Result<(Tables, EventRecord), StateError> {
    var at :- CheckEvent(e);
    if !FitsColumn(at) || (e.caId.Some? && !FitsColumn(e.caId.value)) then Err(Unavailable)
    else if e.caId.Some? && !HasCa(t, e.caId.value) then Err(EventNotRecorded)
    else Ok((t.(events := t.events + [NewEventRow(t, e, at)]),
             EventRecord(NextEventId(t), at, e.kind, e.decision, e.requestId, e.identity, e.caId,
                         if e.serial.Some? then Some(e.serial.value) else None)))
  }

  // ---- decoding of stored rows ----

  function DecodeSerial(text: string): Result<nat, StateError> {
    match Decimal.Read(text)
    case None => Err(SerialMalformed)
    case Some(n) => CheckSerial(n)
  }

  function DecodeCa(row: CaRow): Result<CaRecord, StateError> {
    var _ :- CheckId(row.caId);
    if row.algorithm != ALGORITHM then Err(KeyRejected)
    else if row.activatedAt < 0 then Err(TimestampMalformed)
    else if row.status != "active" && row.status != "retired" then Err(StatusMalformed)
    else
      var _ :- CheckKey(row.publicKey, row.fingerprint);
      var _ :- CheckPath(row.privateKeyPath);
      Ok(CaRecord(row.caId, row.algorithm, row.publicKey, row.fingerprint, row.privateKeyPath,
                  row.activatedAt, row.status))
  }

  function DecodeCertificate(row: CertificateRow): Result<CertificateRecord, StateError> {
    var _ :- CheckId(row.certificateId);
    var _ :- CheckId(row.caId);
    var serial :- DecodeSerial(row.serial);
    var _ :- CheckIdentity(row.identity);
    var _ :- CheckText(row.publicKeyFingerprint);
    match DecodePrincipals(row.principals)
    case None => Err(PrincipalsRejected)
    case Some(principals) =>
      var _ :- CheckPrincipals(principals);
      var _ :- CheckInterval(row.validAfter, row.validBefore);
      var _ :- CheckText(row.requestId);
      var _ :- CheckOutcome(row.outcome);
      Ok(CertificateRecord(row.certificateId, row.caId, serial, row.identity, row.publicKeyFingerprint,
                           principals, row.validAfter, row.validBefore, row.requestId, row.outcome))
  }

  function DecodeEvent(row: EventRow): Result<EventRecord, StateError> {
    var _ :- CheckId(row.eventId);
    if row.occurredAt < 0 then Err(TimestampMalformed)
    else
      var _ :- CheckText(row.kind);
      var _ :- CheckText(row.decision);
      var _ :- CheckText(row.requestId);
      var _ :- if row.identity.Some? then CheckIdentity(row.identity.value) else Ok(());
      var _ :- if row.caId.Some? then CheckId(row.caId.value) else Ok(());
      var serial :- if row.serial.None? then Ok(None)
                    else (var n :- DecodeSerial(row.serial.value); Ok(Some(n)));
      Ok(EventRecord(row.eventId, row.occurredAt, row.kind, row.decision, row.requestId, row.identity,
                     row.caId, serial))
  }

  /** Decodes rows in order, stopping at the first malformed one. */
  function DecodeAll<R, T>(rows: seq<R>, decode: R -> Result<T, StateError>): Result<seq<T>, StateError> {
    if rows == [] then Ok([])
    else
      var first :- decode(rows[0]);
      var rest :- DecodeAll(rows[1..], decode);
      Ok([first] + rest)
  }

  function ListCas(t: Tables): Result<seq<CaRecord>, StateError> { DecodeAll(t.ca, DecodeCa) }

  function ListCertificates(t: Tables): Result<seq<CertificateRecord>, StateError> {
    DecodeAll(t.certificates, DecodeCertificate)
  }

  function ListEvents(t: Tables): Result<seq<EventRecord>, StateError> { DecodeAll(t.events, DecodeEvent) }

  /** A listing exists exactly when every row decodes, and holds the decoded rows in order. */
  lemma {:induction false} DecodeAllEach<R, T>(rows: seq<R>, decode: R -> Result<T, StateError>)
    ensures DecodeAll(rows, decode).Ok? <==> forall i :: 0 <= i < |rows| ==> decode(rows[i]).Ok?
    ensures DecodeAll(rows, decode).Ok? ==>
              var values := DecodeAll(rows, decode).value;
              |values| == |rows| && forall i :: 0 <= i < |rows| ==> decode(rows[i]) == Ok(values[i])
  {
    if rows != [] {
      DecodeAllEach(rows[1..], decode);
      assert forall i :: 1 <= i < |rows| ==> rows[i] == rows[1..][i - 1];
      if DecodeAll(rows, decode).Ok? {
        forall i | 0 <= i < |rows| ensures decode(rows[i]).Ok? {
          if i > 0 { assert decode(rows[1..][i - 1]).Ok?; }
        }
      }
    }
  }

  /** Adding a row that decodes adds its record at the end of the listing. */
  lemma DecodeAllAppend<R, T>(rows: seq<R>, row: R, decode: R -> Result<T, StateError>)
    requires DecodeAll(rows, decode).Ok? && decode(row).Ok?
    ensures DecodeAll(rows + [row], decode) == Ok(DecodeAll(rows, decode).value + [decode(row).value])
  {
    DecodeAllEach(rows, decode);
    DecodeAllEach(rows + [row], decode);
    var before, after := DecodeAll(rows, decode).value, DecodeAll(rows + [row], decode).value;
    forall i | 0 <= i < |rows| ensures after[i] == before[i] {
      assert (rows + [row])[i] == rows[i];
    }
    assert (rows + [row])[|rows|] == row;
    assert after == before + [decode(row).value];
  }
}
