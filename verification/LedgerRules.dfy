/** The ledger's rules in full: exactly what may be recorded and what a stored row may hold, as
    the source checks it, what is then written or read, and what is refused
    (`src/ski/state.py`, `src/ski/ca_persistence.py`, `src/ski/migrations.py`). */
module LedgerRules {
  import opened Basics
  import opened IssuerPolicy
  import opened StoredText
  import opened Ledger
  import opened LedgerChecks
  import Decimal

  // ---- times ----

  /** Truncation is toward zero. */
  lemma TruncateMeans(r: real)
    ensures r >= 0.0 ==> 0 <= Truncate(r) && Truncate(r) as real <= r < Truncate(r) as real + 1.0
    ensures r <= 0.0 ==> Truncate(r) <= 0 && Truncate(r) as real - 1.0 < r <= Truncate(r) as real
  {
  }

  /** A number of seconds is refused exactly when it is before 1970 by a whole second; a date
      needs a zone, but may be before 1970. */
  lemma TimestampMeans(clock: real)
    ensures Timestamp(Now(clock)) == Ok(Truncate(clock)) && Timestamp(Zoned(clock)) == Ok(Truncate(clock))
    ensures Timestamp(Seconds(clock)) == if clock > -1.0 then Ok(Truncate(clock)) else Err(TimestampMalformed)
    ensures Timestamp(Zoneless) == Err(TimestampMalformed)
  {
    TruncateMeans(clock);
  }

  /** Whole numbers of 64 bits with a sign, which is what a column holds. */
  lemma ColumnMeans(n: int)
    ensures FitsColumn(n) <==> -0x7FFF_FFFF_FFFF_FFFF - 1 <= n <= 0x7FFF_FFFF_FFFF_FFFF
  {
  }

  // ---- certificates ----

  /** A certificate is recorded exactly when all of this holds, and then as it was given; its
      event, if asked for, repeats it. */
  lemma {:induction false} CertificateAccepted(t: Tables, c: NewCertificate, outcome: string, recordEvent: bool)
    ensures var r := RecordCertificate(t, c, outcome, recordEvent);
            r.Ok? <==>
            && c.caId > 0 && FitsColumn(c.caId) && HasCa(t, c.caId)
            && 0 <= c.serial < 0x1_0000_0000_0000_0000 && !HasSerial(t, c.caId, Decimal.Show(c.serial))
            && CanonicalUsername(c.identity) && AreCanonicalPrincipals(c.principals)
            && ValidText(c.publicKeyFingerprint) && ValidText(c.requestId)
            && c.validBefore - c.validAfter == 90000 && FitsColumn(c.validAfter) && FitsColumn(c.validBefore)
            && outcome in ["success", "failed"]
    ensures var r := RecordCertificate(t, c, outcome, recordEvent);
            r.Ok? ==>
              var (after, record) := r.value;
              var id := record.certificateId;
              && id == (if t.certificates == [] then 1 else t.certificates[|t.certificates| - 1].certificateId + 1)
              && record == CertificateRecord(id, c.caId, c.serial, c.identity, c.publicKeyFingerprint, c.principals,
                                             c.validAfter, c.validBefore, c.requestId, outcome)
              && after.ca == t.ca
              && after.certificates == t.certificates + [
                   CertificateRow(id, c.caId, Decimal.Show(c.serial), c.identity, c.publicKeyFingerprint,
                                  EncodePrincipals(c.principals), c.validAfter, c.validBefore, c.requestId, outcome)]
              && after.events == t.events + if !recordEvent then [] else [
                   EventRow(if t.events == [] then 1 else t.events[|t.events| - 1].eventId + 1, c.validAfter,
                            "certificate_issued", "allow", c.requestId, Some(c.identity), Some(c.caId),
                            Some(Decimal.Show(c.serial)))]
  {
    hide CanonicalUsername, AreCanonicalPrincipals, ValidatePrincipals, ValidText, Decimal.Show, EncodePrincipals;
    hide HasCa, HasSerial;
    ValidateAccepts(c.principals);
    assert t.events + [] == t.events;
  }

  /** Of a certificate that would be recorded, any other end of validity is refused for that. */
  lemma {:induction false} OtherIntervalRefused(t: Tables, c: NewCertificate, outcome: string, recordEvent: bool,
                                                validBefore: int)
    requires RecordCertificate(t, c, outcome, recordEvent).Ok?
    ensures RecordCertificate(t, c.(validBefore := validBefore), outcome, recordEvent) == Err(IntervalNot25Hours) <==>
            validBefore - c.validAfter != 90000
  {
    hide CanonicalUsername, AreCanonicalPrincipals, ValidatePrincipals, ValidText, Decimal.Show, EncodePrincipals;
    hide HasCa, HasSerial;
  }

  /** A stored certificate is read exactly when all of this holds, and then as it is stored. */
  lemma {:induction false} StoredCertificateRead(row: CertificateRow)
    ensures var r := DecodeCertificate(row);
            r.Ok? <==>
            && row.certificateId > 0 && row.caId > 0
            && Decimal.Read(row.serial).Some? && 0 <= Decimal.Read(row.serial).value < 0x1_0000_0000_0000_0000
            && CanonicalUsername(row.identity) && ValidText(row.publicKeyFingerprint) && ValidText(row.requestId)
            && DecodePrincipals(row.principals).Some?
            && AreCanonicalPrincipals(DecodePrincipals(row.principals).value)
            && row.validBefore - row.validAfter == 90000 && row.outcome in ["success", "failed"]
    ensures var r := DecodeCertificate(row);
            r.Ok? ==>
              var serial, principals := Decimal.Read(row.serial).value, DecodePrincipals(row.principals).value;
              r.value == CertificateRecord(row.certificateId, row.caId, serial, row.identity,
                                           row.publicKeyFingerprint, principals, row.validAfter, row.validBefore,
                                           row.requestId, row.outcome)
  {
    hide CanonicalUsername, AreCanonicalPrincipals, ValidatePrincipals, ValidText, Decimal.Read, DecodePrincipals;
    if DecodePrincipals(row.principals).Some? { ValidateAccepts(DecodePrincipals(row.principals).value); }
  }

  /** Of a stored certificate that can be read, any other end of validity is refused for that. */
  lemma {:induction false} OtherStoredIntervalRefused(row: CertificateRow, validBefore: int)
    requires DecodeCertificate(row).Ok?
    ensures DecodeCertificate(row.(validBefore := validBefore)) == Err(IntervalNot25Hours) <==>
            validBefore - row.validAfter != 90000
  {
    hide CanonicalUsername, AreCanonicalPrincipals, ValidatePrincipals, ValidText, Decimal.Read, DecodePrincipals;
  }

  // ---- events ----

  /** An event is recorded exactly when all of this holds, and then as it was given. */
  lemma {:induction false} EventAccepted(t: Tables, e: NewEvent)
    ensures var r := RecordEvent(t, e);
            r.Ok? <==>
            && ValidText(e.kind) && ValidText(e.decision) && ValidText(e.requestId)
            && (e.identity.Some? ==> CanonicalUsername(e.identity.value))
            && (e.caId.Some? ==> e.caId.value > 0 && FitsColumn(e.caId.value) && HasCa(t, e.caId.value))
            && (e.serial.Some? ==> 0 <= e.serial.value < 0x1_0000_0000_0000_0000)
            && Timestamp(e.at).Ok? && FitsColumn(Timestamp(e.at).value)
    ensures var r := RecordEvent(t, e);
            r.Ok? ==>
              var (after, record) := r.value;
              var at, id := Timestamp(e.at).value, record.eventId;
              && id == (if t.events == [] then 1 else t.events[|t.events| - 1].eventId + 1)
              && after.ca == t.ca && after.certificates == t.certificates
              && after.events == t.events + [
                   EventRow(id, at, e.kind, e.decision, e.requestId, e.identity, e.caId,
                            if e.serial.Some? then Some(Decimal.Show(e.serial.value)) else None)]
              && record == EventRecord(id, at, e.kind, e.decision, e.requestId, e.identity, e.caId, record.serial)
              && (if e.serial.Some? then record.serial.Some? && record.serial.value == e.serial.value
                  else record.serial.None?)
  {
    hide CanonicalUsername, ValidText, Decimal.Show, HasCa, Timestamp;
  }

  /** A stored event is read exactly when all of this holds, and then as it is stored. */
  lemma {:induction false} StoredEventRead(row: EventRow)
    ensures var r := DecodeEvent(row);
            r.Ok? <==>
            && row.eventId > 0 && row.occurredAt >= 0
            && ValidText(row.kind) && ValidText(row.decision) && ValidText(row.requestId)
            && (row.identity.Some? ==> CanonicalUsername(row.identity.value))
            && (row.caId.Some? ==> row.caId.value > 0)
            && (row.serial.Some? ==>
                  Decimal.Read(row.serial.value).Some?
                  && 0 <= Decimal.Read(row.serial.value).value < 0x1_0000_0000_0000_0000)
    ensures var r := DecodeEvent(row);
            r.Ok? ==>
              && r.value == EventRecord(row.eventId, row.occurredAt, row.kind, row.decision, row.requestId,
                                        row.identity, row.caId, r.value.serial)
              && (if row.serial.None? then r.value.serial.None?
                  else r.value.serial.Some? && Decimal.Read(row.serial.value) == Some(r.value.serial.value))
  {
    hide CanonicalUsername, ValidText, Decimal.Read;
  }

  // ---- CAs ----

  /** A CA is registered exactly when all of this holds, and then as it was given, active; its
      initialization event, if asked for, is an allowance that names it and its time. */
  lemma {:induction false} CaAccepted(t: Tables, c: NewCa)
    ensures var r := RegisterCa(t, c);
            r.Ok? <==>
            && c.key == PublicKey("ssh-ed25519", c.fingerprint) && c.fingerprint != ""
            && c.path.name !in ["", ".", ".."]
            && Timestamp(c.at).Ok? && FitsColumn(Timestamp(c.at).value)
            && (c.requestId.Some? ==> ValidText(c.requestId.value))
            && forall i :: 0 <= i < |t.ca| ==> t.ca[i].status != "active" && t.ca[i].fingerprint != c.fingerprint
    ensures var r := RegisterCa(t, c);
            r.Ok? ==>
              var (after, record) := r.value;
              var at, id := Timestamp(c.at).value, record.caId;
              && id == (if t.ca == [] then 1 else t.ca[|t.ca| - 1].caId + 1)
              && record == CaRecord(id, "ssh-ed25519", c.key, c.fingerprint, c.path, at, "active")
              && after.ca == t.ca + [CaRow(id, "ssh-ed25519", c.key, c.fingerprint, c.path, at, "active")]
              && after.certificates == t.certificates
              && after.events == t.events + if c.requestId.None? then [] else [
                   EventRow(if t.events == [] then 1 else t.events[|t.events| - 1].eventId + 1, at,
                            "ca_initialized", "allow", c.requestId.value, None, Some(id), None)]
    ensures c.key.PublicKey? && c.key.fingerprint != c.fingerprint ==> RegisterCa(t, c) == Err(KeyRejected)
  {
    hide ValidText, Timestamp;
    assert t.events + [] == t.events;
  }

  /** A stored CA is read exactly when all of this holds, and then as it is stored. */
  lemma {:induction false} StoredCaRead(row: CaRow)
    ensures DecodeCa(row).Ok? <==>
            && row.caId > 0 && row.algorithm == "ssh-ed25519" && row.activatedAt >= 0
            && row.status in ["active", "retired"]
            && row.publicKey == PublicKey("ssh-ed25519", row.fingerprint) && row.fingerprint != ""
            && row.privateKeyPath.name !in ["", ".", ".."]
    ensures DecodeCa(row).Ok? ==>
              DecodeCa(row).value == CaRecord(row.caId, row.algorithm, row.publicKey, row.fingerprint,
                                              row.privateKeyPath, row.activatedAt, row.status)
  {
  }

  // ---- the consistency check, row by row ----

  /** An issuance event about this very certificate, serials compared as numbers. */
  ghost predicate Vouches(e: EventRow, c: CertificateRow) {
    && e.kind == "certificate_issued" && e.decision == "allow"
    && e.caId == Some(c.caId) && e.requestId == c.requestId && e.identity == Some(c.identity)
    && e.serial.Some? && Decimal.Read(e.serial.value) == Decimal.Read(c.serial)
  }

  ghost predicate Names(e: EventRow, c: CertificateRow) {
    e.caId == Some(c.caId) && e.serial.Some? && Decimal.Read(e.serial.value) == Decimal.Read(c.serial)
  }

  ghost predicate EventInOrder(t: Tables, e: EventRow) {
    && (e.caId.Some? ==> exists k :: 0 <= k < |t.ca| && t.ca[k].caId == e.caId.value)
    && (e.serial.Some? ==> exists k :: 0 <= k < |t.certificates| && Names(e, t.certificates[k]))
  }

  ghost predicate CertificateInOrder(t: Tables, c: CertificateRow) {
    && (exists k :: 0 <= k < |t.ca| && t.ca[k].caId == c.caId)
    && (c.outcome == "success" ==> exists k :: 0 <= k < |t.events| && Vouches(t.events[k], c))
  }

  ghost predicate Twins(c: CertificateRow, d: CertificateRow) {
    && c.caId == d.caId && Decimal.Read(c.serial) == Decimal.Read(d.serial)
    && c.requestId == d.requestId && c.identity == d.identity
  }

  ghost predicate Readable(t: Tables) {
    && (forall i :: 0 <= i < |t.ca| ==> DecodeCa(t.ca[i]).Ok?)
    && (forall i :: 0 <= i < |t.certificates| ==> DecodeCertificate(t.certificates[i]).Ok?)
    && (forall i :: 0 <= i < |t.events| ==> DecodeEvent(t.events[i]).Ok?)
  }

  /** Of any tables, whoever wrote them, the check accepts exactly those whose rows can all be
      read, that have at most one active CA, whose events name only CAs and certificates that
      exist, whose certificates belong to CAs that exist, are vouched for if they succeeded, and
      are not recorded twice. */
  lemma {:induction false} AcceptedMeans(t: Tables)
    ensures Accepted(t) <==>
            && Readable(t)
            && (forall i, j :: 0 <= i < j < |t.ca| ==> !(t.ca[i].status == "active" && t.ca[j].status == "active"))
            && (forall i :: 0 <= i < |t.events| ==> EventInOrder(t, t.events[i]))
            && (forall i :: 0 <= i < |t.certificates| ==> CertificateInOrder(t, t.certificates[i]))
            && (forall i, j :: 0 <= i < j < |t.certificates| ==> !Twins(t.certificates[i], t.certificates[j]))
  {
    hide DecodeCa, DecodeCertificate, DecodeEvent, EventInOrder, CertificateInOrder, Consistent, Twins;
    DecodeAllEach(t.ca, DecodeCa);
    DecodeAllEach(t.certificates, DecodeCertificate);
    DecodeAllEach(t.events, DecodeEvent);
    if Readable(t) {
      ConsistentMeans(t, ListCas(t).value, ListCertificates(t).value, ListEvents(t).value);
    }
  }

  lemma {:induction false} ConsistentMeans(t: Tables, cas: seq<CaRecord>, certificates: seq<CertificateRecord>,
                                           events: seq<EventRecord>)
    requires |cas| == |t.ca| && forall i :: 0 <= i < |cas| ==> DecodeCa(t.ca[i]) == Ok(cas[i])
    requires |certificates| == |t.certificates|
             && forall i :: 0 <= i < |certificates| ==> DecodeCertificate(t.certificates[i]) == Ok(certificates[i])
    requires |events| == |t.events| && forall i :: 0 <= i < |events| ==> DecodeEvent(t.events[i]) == Ok(events[i])
    ensures Consistent(cas, certificates, events) <==>
            && (forall i, j :: 0 <= i < j < |t.ca| ==> !(t.ca[i].status == "active" && t.ca[j].status == "active"))
            && (forall i :: 0 <= i < |t.events| ==> EventInOrder(t, t.events[i]))
            && (forall i :: 0 <= i < |t.certificates| ==> CertificateInOrder(t, t.certificates[i]))
            && (forall i, j :: 0 <= i < j < |t.certificates| ==> !Twins(t.certificates[i], t.certificates[j]))
  {
    hide DecodeCa, DecodeCertificate, DecodeEvent, Names, Vouches, Witnesses, SameKey, Twins;
    forall i | 0 <= i < |cas| ensures cas[i].caId == t.ca[i].caId && cas[i].status == t.ca[i].status {
      StoredCaRead(t.ca[i]);
    }
    forall k, i | 0 <= k < |events| && 0 <= i < |certificates|
      ensures Witnesses(events[k], certificates[i]) <==> Vouches(t.events[k], t.certificates[i])
      ensures Names(t.events[k], t.certificates[i]) <==>
              && events[k].serial == Some(certificates[i].serial) && events[k].caId == Some(certificates[i].caId)
    {
      PairRead(t.events[k], events[k], t.certificates[i], certificates[i]);
    }
    forall i, j | 0 <= i < |certificates| && 0 <= j < |certificates|
      ensures SameKey(certificates[i], certificates[j]) <==> Twins(t.certificates[i], t.certificates[j])
    {
      TwinsRead(t.certificates[i], certificates[i], t.certificates[j], certificates[j]);
    }
    forall k | 0 <= k < |events|
      ensures EventResolves(cas, certificates, events[k]) <==> EventInOrder(t, t.events[k])
    {
      StoredEventRead(t.events[k]);
    }
    forall i | 0 <= i < |certificates|
      ensures CertificateResolves(cas, events, certificates[i]) <==> CertificateInOrder(t, t.certificates[i])
    {
      StoredCertificateRead(t.certificates[i]);
    }
  }

  lemma {:induction false} PairRead(row: EventRow, e: EventRecord, cRow: CertificateRow, c: CertificateRecord)
    requires DecodeEvent(row) == Ok(e) && DecodeCertificate(cRow) == Ok(c)
    ensures Witnesses(e, c) <==> Vouches(row, cRow)
    ensures Names(row, cRow) <==> e.serial == Some(c.serial) && e.caId == Some(c.caId)
  {
    hide DecodeEvent, DecodeCertificate, Decimal.Read, CanonicalUsername, ValidText, AreCanonicalPrincipals;
    hide DecodePrincipals;
    StoredEventRead(row);
    StoredCertificateRead(cRow);
  }

  lemma {:induction false} TwinsRead(row: CertificateRow, c: CertificateRecord, row': CertificateRow,
                                     d: CertificateRecord)
    requires DecodeCertificate(row) == Ok(c) && DecodeCertificate(row') == Ok(d)
    ensures SameKey(c, d) <==> Twins(row, row')
  {
    hide DecodeCertificate, Decimal.Read, CanonicalUsername, ValidText, AreCanonicalPrincipals, DecodePrincipals;
    StoredCertificateRead(row);
    StoredCertificateRead(row');
  }
}
