/** Ledger histories: what every sequence of operations keeps, what listings return after
    it, and exactly when the consistency check accepts the result. */
module LedgerRuns {
  import opened Basics
  import opened IssuerPolicy
  import opened StoredText
  import opened Ledger
  import opened LedgerChecks
  import Decimal

  /** One attempt on the ledger. `RolledBack` is any attempt undone before its commit. */
  datatype Operation =
    | OpCa(ca: NewCa)
    | OpCertificate(certificate: NewCertificate, outcome: string)
    | OpIssue(certificate: NewCertificate)
    | OpEvent(event: NewEvent)
    | RolledBack

  /** The tables after an attempt; a rejected attempt changes nothing. */
  function Apply(t: Tables, op: Operation): Tables {
    match op
    case OpCa(ca) => (match RegisterCa(t, ca) case Ok((after, _)) => after case Err(_) => t)
    case OpCertificate(c, outcome) =>
      (match RecordCertificate(t, c, outcome, false) case Ok((after, _)) => after case Err(_) => t)
    case OpIssue(c) =>
      (match RecordCertificate(t, c, "success", true) case Ok((after, _)) => after case Err(_) => t)
    case OpEvent(e) => (match RecordEvent(t, e) case Ok((after, _)) => after case Err(_) => t)
    case RolledBack => t
  }

  /** The certificate record an attempt returns, if it succeeds and returns one. */
  function Returned(t: Tables, op: Operation): seq<CertificateRecord> {
    match op
    case OpCertificate(c, outcome) =>
      (match RecordCertificate(t, c, outcome, false) case Ok((_, record)) => [record] case Err(_) => [])
    case OpIssue(c) =>
      (match RecordCertificate(t, c, "success", true) case Ok((_, record)) => [record] case Err(_) => [])
    case _ => []
  }

  function Run(ops: seq<Operation>): Tables {
    if ops == [] then EMPTY else Apply(Run(ops[..|ops| - 1]), ops[|ops| - 1])
  }

  function AllReturned(ops: seq<Operation>): seq<CertificateRecord> {
    if ops == [] then []
    else AllReturned(ops[..|ops| - 1]) + Returned(Run(ops[..|ops| - 1]), ops[|ops| - 1])
  }

  // ---- what every history keeps ----

  /** Rows read back up to the sign of their times, which writing does not always check. */
  ghost predicate CaStored(row: CaRow) { DecodeCa(row.(activatedAt := 0)).Ok? && row.status == "active" }

  ghost predicate EventStored(row: EventRow) {
    DecodeEvent(row.(occurredAt := 0)).Ok?
    && (row.serial.Some? ==> exists n: nat :: n < SERIAL_LIMIT && row.serial.value == Decimal.Show(n))
  }

  ghost predicate CertificateStored(row: CertificateRow) {
    DecodeCertificate(row).Ok? && row.serial == Decimal.Show(DecodeCertificate(row).value.serial)
  }

  ghost predicate CertificateKept(t: Tables, row: CertificateRow) {
    CertificateStored(row) && row.certificateId > 0 && HasCa(t, row.caId)
  }

  ghost predicate EventKept(t: Tables, row: EventRow) {
    EventStored(row) && row.eventId > 0 && (row.caId.Some? ==> HasCa(t, row.caId.value))
  }

  ghost predicate SerialsUnique(t: Tables) {
    forall i, j :: 0 <= i < j < |t.certificates| ==>
      t.certificates[i].caId != t.certificates[j].caId || t.certificates[i].serial != t.certificates[j].serial
  }

  ghost predicate Sound(t: Tables) {
    && |t.ca| <= 1
    && (forall i :: 0 <= i < |t.ca| ==> CaStored(t.ca[i]))
    && (forall i :: 0 <= i < |t.certificates| ==> CertificateKept(t, t.certificates[i]))
    && SerialsUnique(t)
    && (forall i :: 0 <= i < |t.events| ==> EventKept(t, t.events[i]))
  }

  lemma {:induction false} StoredSerial(n: int)
    requires 0 <= n < SERIAL_LIMIT
    ensures DecodeSerial(Decimal.Show(n)) == Ok(n)
  {
    Decimal.ReadShow(n);
  }

  /** A written certificate row decodes to the record that the write returned. */
  lemma CertificateRowDecodes(t: Tables, c: NewCertificate, outcome: string)
    requires CheckCertificate(c, outcome).Ok? && NextCertificateId(t) > 0
    ensures var row := NewCertificateRow(t, c, outcome);
            DecodeCertificate(row) == Ok(CertificateRecordOf(t, c, outcome)) && CertificateStored(row)
  {
    StoredSerial(c.serial);
    ValidateAccepts(c.principals);
    DecodeEncodePrincipals(c.principals);
  }

  lemma NextIds(t: Tables)
    requires Sound(t)
    ensures NextCaId(t) > 0 && NextCertificateId(t) > 0 && NextEventId(t) > 0
  {
    if t.ca != [] { assert CaStored(t.ca[|t.ca| - 1]); }
  }

  lemma GrowCa(t: Tables, row: CaRow)
    requires Sound(t) && t.ca == [] && CaStored(row)
    ensures Sound(t.(ca := [row]))
  {
    hide CertificateStored, EventStored;
    assert forall i :: 0 <= i < |t.certificates| ==> HasCa(t, t.certificates[i].caId);
  }

  lemma GrowCertificate(t: Tables, row: CertificateRow)
    requires Sound(t) && CertificateKept(t, row) && !HasSerial(t, row.caId, row.serial)
    ensures Sound(t.(certificates := t.certificates + [row]))
  {
    hide CaStored, CertificateStored, EventStored;
    var after := t.(certificates := t.certificates + [row]);
    assert forall caId :: HasCa(t, caId) <==> HasCa(after, caId);
  }

  lemma GrowEvent(t: Tables, row: EventRow)
    requires Sound(t) && EventKept(t, row)
    ensures Sound(t.(events := t.events + [row]))
  {
    hide CaStored, CertificateStored, EventStored;
    var after := t.(events := t.events + [row]);
    assert forall caId :: HasCa(t, caId) <==> HasCa(after, caId);
  }

  /** A registered CA stays active, so a second one always conflicts. */
  lemma SecondCaConflicts(t: Tables, c: NewCa)
    requires Sound(t)
    ensures t.ca != [] <==> CaConflict(t, c)
  {
    if t.ca != [] {
      assert CaStored(t.ca[0]);
      assert t.ca[0].status == "active";
    }
  }

  lemma CaRowsStored(t: Tables, c: NewCa, at: int)
    requires CheckCa(c) == Ok(at) && NextCaId(t) > 0 && NextEventId(t) > 0
    ensures CaStored(NewCaRow(t, c, at))
    ensures c.requestId.Some? ==> EventStored(CaEvent(t, NextCaId(t), at, c.requestId.value))
  {
  }

  lemma WithCaSound(t: Tables, c: NewCa)
    requires Sound(t) && RegisterCa(t, c).Ok?
    ensures t.ca == [] && Sound(RegisterCa(t, c).value.0)
  {
    hide Sound, CaStored, EventStored;
    NextIds(t);
    SecondCaConflicts(t, c);
    var at := CheckCa(c).value;
    CaRowsStored(t, c, at);
    var row := NewCaRow(t, c, at);
    GrowCa(t, row);
    var middle := t.(ca := [row]);
    assert t.ca + [row] == [row];
    if c.requestId.Some? {
      assert HasCa(middle, row.caId) by { assert middle.ca[0] == row; }
      GrowEvent(middle, CaEvent(t, row.caId, at, c.requestId.value));
    }
  }

  lemma IssuedEventStored(t: Tables, c: NewCertificate, outcome: string)
    requires CheckCertificate(c, outcome).Ok? && NextEventId(t) > 0
    ensures EventStored(IssuedEvent(t, c))
  {
    StoredSerial(c.serial);
  }

  lemma {:induction false} WithCertificateSound(t: Tables, c: NewCertificate, outcome: string, recordEvent: bool)
    requires Sound(t) && RecordCertificate(t, c, outcome, recordEvent).Ok?
    ensures Sound(RecordCertificate(t, c, outcome, recordEvent).value.0)
  {
    hide Sound, CertificateStored, EventStored, DecodeCertificate;
    NextIds(t);
    CertificateRowDecodes(t, c, outcome);
    var row := NewCertificateRow(t, c, outcome);
    GrowCertificate(t, row);
    var middle := t.(certificates := t.certificates + [row]);
    if recordEvent {
      IssuedEventStored(t, c, outcome);
      assert forall caId :: HasCa(t, caId) <==> HasCa(middle, caId);
      GrowEvent(middle, IssuedEvent(t, c));
    }
  }

  lemma NewEventStored(t: Tables, e: NewEvent, at: int)
    requires CheckEvent(e).Ok? && NextEventId(t) > 0
    ensures EventStored(NewEventRow(t, e, at))
  {
    if e.serial.Some? { StoredSerial(e.serial.value); }
  }

  lemma {:induction false} WithEventSound(t: Tables, e: NewEvent)
    requires Sound(t) && RecordEvent(t, e).Ok?
    ensures Sound(RecordEvent(t, e).value.0)
  {
    hide Sound, EventStored;
    NextIds(t);
    var at := CheckEvent(e).value;
    NewEventStored(t, e, at);
    GrowEvent(t, NewEventRow(t, e, at));
  }

  lemma {:induction false} ApplySound(t: Tables, op: Operation)
    requires Sound(t)
    ensures Sound(Apply(t, op))
  {
    hide Sound, RegisterCa, RecordCertificate, RecordEvent;
    match op
    case OpCa(ca) => if RegisterCa(t, ca).Ok? { WithCaSound(t, ca); }
    case OpCertificate(c, outcome) =>
      if RecordCertificate(t, c, outcome, false).Ok? { WithCertificateSound(t, c, outcome, false); }
    case OpIssue(c) =>
      if RecordCertificate(t, c, "success", true).Ok? { WithCertificateSound(t, c, "success", true); }
    case OpEvent(e) => if RecordEvent(t, e).Ok? { WithEventSound(t, e); }
    case RolledBack =>
  }

  /** Every history keeps at most one CA, active; resolvable references; unique serials. */
  lemma {:induction false} RunSound(ops: seq<Operation>)
    ensures Sound(Run(ops))
  {
    if ops != [] {
      RunSound(ops[..|ops| - 1]);
      ApplySound(Run(ops[..|ops| - 1]), ops[|ops| - 1]);
    }
  }

  /** Events and certificates are append-only. */
  lemma ApplyAppends(t: Tables, op: Operation)
    ensures t.ca <= Apply(t, op).ca && t.certificates <= Apply(t, op).certificates
    ensures t.events <= Apply(t, op).events
  {
  }

  /** Keys count the rows of each table from one, so reading by key is reading in order of
      insertion. */
  ghost predicate KeysCount(t: Tables) {
    && (forall i :: 0 <= i < |t.ca| ==> t.ca[i].caId == i + 1)
    && (forall i :: 0 <= i < |t.certificates| ==> t.certificates[i].certificateId == i + 1)
    && (forall i :: 0 <= i < |t.events| ==> t.events[i].eventId == i + 1)
  }

  lemma ApplyKeysCount(t: Tables, op: Operation)
    requires KeysCount(t)
    ensures KeysCount(Apply(t, op))
  {
    hide CheckCa, CheckCertificate, CheckEvent, CaConflict, CertificateConflict, EncodePrincipals, Decimal.Show;
  }

  lemma {:induction false} RunKeysCount(ops: seq<Operation>)
    ensures KeysCount(Run(ops))
  {
    hide Apply, KeysCount;
    if ops == [] {
      EmptyKeysCount();
    } else {
      RunKeysCount(ops[..|ops| - 1]);
      ApplyKeysCount(Run(ops[..|ops| - 1]), ops[|ops| - 1]);
    }
  }

  lemma EmptyKeysCount()
    ensures KeysCount(EMPTY)
  {
  }

  // ---- listings ----

  lemma SoundListable(t: Tables)
    requires Sound(t)
    ensures ListCertificates(t).Ok?
  {
    DecodeAllEach(t.certificates, DecodeCertificate);
    assert forall i :: 0 <= i < |t.certificates| ==> CertificateStored(t.certificates[i]);
  }

  /** An attempt adds to the listing exactly the record it returns. */
  lemma ApplyLists(t: Tables, op: Operation)
    requires Sound(t)
    ensures ListCertificates(t).Ok?
    ensures ListCertificates(Apply(t, op)) == Ok(ListCertificates(t).value + Returned(t, op))
  {
    hide Sound, DecodeCertificate, CertificateStored, NewCertificateRow, CertificateRecordOf;
    SoundListable(t);
    NextIds(t);
    var listed := ListCertificates(t).value;
    assert listed + [] == listed;
    match op
    case OpCertificate(c, outcome) =>
      if RecordCertificate(t, c, outcome, false).Ok? {
        CertificateRowDecodes(t, c, outcome);
        DecodeAllAppend(t.certificates, NewCertificateRow(t, c, outcome), DecodeCertificate);
      }
    case OpIssue(c) =>
      if RecordCertificate(t, c, "success", true).Ok? {
        CertificateRowDecodes(t, c, "success");
        DecodeAllAppend(t.certificates, NewCertificateRow(t, c, "success"), DecodeCertificate);
      }
    case _ =>
  }

  /** A recorded event with a time since 1970 reads back as the record that was returned,
      which repeats what the caller gave. */
  lemma EventRowDecodes(t: Tables, e: NewEvent)
    requires Sound(t) && RecordEvent(t, e).Ok? && Timestamp(e.at).value >= 0
    ensures var (after, record) := RecordEvent(t, e).value;
            && after.events == t.events + [after.events[|t.events|]]
            && DecodeEvent(after.events[|t.events|]) == Ok(record)
            && record.kind == e.kind && record.decision == e.decision && record.requestId == e.requestId
            && record.identity == e.identity && record.caId == e.caId && record.occurredAt == Timestamp(e.at).value
            && (record.serial.Some? <==> e.serial.Some?) && (e.serial.Some? ==> record.serial.value == e.serial.value)
  {
    hide Sound;
    NextIds(t);
    if e.serial.Some? { StoredSerial(e.serial.value); }
  }

  /** So does a registered CA. */
  lemma CaRowDecodes(t: Tables, c: NewCa)
    requires Sound(t) && RegisterCa(t, c).Ok? && Timestamp(c.at).value >= 0
    ensures var (after, record) := RegisterCa(t, c).value;
            && ListCas(after) == Ok([record])
            && record.publicKey == c.key && record.fingerprint == c.fingerprint && record.privateKeyPath == c.path
            && record.activatedAt == Timestamp(c.at).value && record.status == "active"
  {
    NextIds(t);
    SecondCaConflicts(t, c);
    var (after, record) := RegisterCa(t, c).value;
    assert after.ca[0] == NewCaRow(t, c, record.activatedAt) && after.ca[1..] == [];
    assert DecodeCa(after.ca[0]) == Ok(record);
    assert DecodeAll(after.ca[1..], DecodeCa) == Ok([]);
    assert [record] + [] == [record];
  }

  /** Storage round trip: after any history the listing is, in order, the records that the
      successful attempts returned. */
  lemma {:induction false} RunLists(ops: seq<Operation>)
    ensures ListCertificates(Run(ops)) == Ok(AllReturned(ops))
  {
    hide Apply, Returned, DecodeCertificate, Sound;
    if ops != [] {
      var before := ops[..|ops| - 1];
      RunSound(before);
      RunLists(before);
      ApplyLists(Run(before), ops[|ops| - 1]);
    }
  }

  /** Earlier listings are prefixes of later ones. */
  lemma {:induction false} ListingsGrow(ops: seq<Operation>, more: seq<Operation>)
    ensures ListCertificates(Run(ops)).Ok? && ListCertificates(Run(ops + more)).Ok?
    ensures ListCertificates(Run(ops)).value <= ListCertificates(Run(ops + more)).value
    decreases |more|
  {
    hide Apply, Returned, ListCertificates;
    RunLists(ops);
    RunLists(ops + more);
    if more == [] {
      assert ops + more == ops;
    } else {
      var front := more[..|more| - 1];
      assert (ops + more)[..|ops + more| - 1] == ops + front;
      ListingsGrow(ops, front);
      RunLists(ops + front);
    }
  }

  /** The text constraint on serials is numeric uniqueness over the whole serial range. */
  lemma {:induction false} RunSerialsUnique(ops: seq<Operation>)
    ensures ListCertificates(Run(ops)).Ok?
    ensures var records := ListCertificates(Run(ops)).value;
            forall i, j :: 0 <= i < j < |records| ==>
              records[i].caId != records[j].caId || records[i].serial != records[j].serial
  {
    hide DecodeCertificate, Run;
    var t := Run(ops);
    RunSound(ops);
    SoundListable(t);
    DecodeAllEach(t.certificates, DecodeCertificate);
    var records := ListCertificates(t).value;
    forall i, j | 0 <= i < j < |records|
      ensures records[i].caId != records[j].caId || records[i].serial != records[j].serial
    {
      assert CertificateKept(t, t.certificates[i]) && CertificateKept(t, t.certificates[j]);
      DecodeKeepsKey(t.certificates[i]);
      DecodeKeepsKey(t.certificates[j]);
    }
  }

  /** A row of a readable listing, and its record, have the same serial when the text is the
      one that writing that serial yields. */
  ghost predicate CanonicalSerial(row: CertificateRow) { exists n: nat :: row.serial == Decimal.Show(n) }

  lemma CanonicalRead(row: CertificateRow)
    requires CanonicalSerial(row) && DecodeCertificate(row).Ok?
    ensures row.serial == Decimal.Show(DecodeCertificate(row).value.serial)
  {
    hide DecodePrincipals;
    var n: nat :| row.serial == Decimal.Show(n);
    Decimal.ReadShow(n);
  }

  /** In any tables, whoever wrote them, whose certificates can be read and whose serials are
      written as the service writes them, uniqueness as text is uniqueness as numbers. */
  lemma CanonicalTextsUnique(t: Tables)
    requires ListCertificates(t).Ok? && forall i :: 0 <= i < |t.certificates| ==> CanonicalSerial(t.certificates[i])
    ensures SerialsUnique(t) <==>
            var records := ListCertificates(t).value;
            forall i, j :: 0 <= i < j < |records| ==>
              records[i].caId != records[j].caId || records[i].serial != records[j].serial
  {
    hide DecodeCertificate, CanonicalSerial;
    var rows, records := t.certificates, ListCertificates(t).value;
    DecodeAllEach(rows, DecodeCertificate);
    forall i | 0 <= i < |rows|
      ensures rows[i].caId == records[i].caId && rows[i].serial == Decimal.Show(records[i].serial)
    {
      CanonicalRead(rows[i]);
      DecodeKeepsKey(rows[i]);
    }
    forall i, j | 0 <= i < |rows| && 0 <= j < |rows|
      ensures rows[i].serial == rows[j].serial <==> records[i].serial == records[j].serial
    {
      Decimal.ShowInjective(records[i].serial, records[j].serial);
    }
  }

  /** A serial is in the listing exactly when its text is in the table. */
  lemma ListedSerial(t: Tables, caId: int, serial: nat)
    requires Sound(t)
    ensures ListCertificates(t).Ok?
    ensures KnownSerial(ListCertificates(t).value, caId, serial) <==> HasSerial(t, caId, Decimal.Show(serial))
  {
    hide DecodeCertificate;
    var rows := t.certificates;
    SoundListable(t);
    DecodeAllEach(rows, DecodeCertificate);
    var records := ListCertificates(t).value;
    forall i | 0 <= i < |rows|
      ensures rows[i].caId == records[i].caId
      ensures rows[i].serial == Decimal.Show(serial) <==> records[i].serial == serial
    {
      assert CertificateKept(t, rows[i]);
      DecodeKeepsKey(rows[i]);
      Decimal.ShowInjective(records[i].serial, serial);
    }
  }

  /** On a reachable ledger a reported duplicate is a recorded serial exactly when the CA
      exists; recording a valid certificate with a recorded serial is always reported so. */
  lemma {:induction false} DuplicateMeans(t: Tables, c: NewCertificate, outcome: string, recordEvent: bool)
    requires Sound(t) && c.serial >= 0
    ensures ListCertificates(t).Ok?
    ensures var known := KnownSerial(ListCertificates(t).value, c.caId, c.serial);
            var r := RecordCertificate(t, c, outcome, recordEvent);
            && (r == Err(DuplicateSerial) ==> (known <==> HasCa(t, c.caId)))
            && (known && CheckCertificate(c, outcome).Ok? && CertificateFitsColumns(c) ==> r == Err(DuplicateSerial))
            && (!known && HasCa(t, c.caId) ==> r != Err(DuplicateSerial))
  {
    hide Sound, CheckId, CheckIdentity, CheckText, CheckPrincipals, CheckInterval, CheckOutcome;
    hide CheckCertificate, KnownSerial, HasSerial, HasCa, ListCertificates;
    ListedSerial(t, c.caId, c.serial);
    SerialHasCa(t, c.caId, Decimal.Show(c.serial));
    CheckIsNoDuplicate(c, outcome);
  }

  lemma SerialHasCa(t: Tables, caId: int, serial: string)
    requires Sound(t)
    ensures HasSerial(t, caId, serial) ==> HasCa(t, caId)
  {
    if i: nat :| i < |t.certificates| && t.certificates[i].caId == caId && t.certificates[i].serial == serial {
      assert CertificateKept(t, t.certificates[i]);
    }
  }

  lemma CheckIsNoDuplicate(c: NewCertificate, outcome: string)
    ensures CheckCertificate(c, outcome) != Err(DuplicateSerial)
  {
  }

  lemma DecodeKeepsKey(row: CertificateRow)
    requires DecodeCertificate(row).Ok?
    ensures var c := DecodeCertificate(row).value;
            c.caId == row.caId && c.requestId == row.requestId && c.identity == row.identity
            && c.outcome == row.outcome && DecodeSerial(row.serial) == Ok(c.serial)
  {
  }

  // ---- acceptance by the consistency check ----

  ghost predicate RowWitnesses(e: EventRow, c: CertificateRow) {
    e.kind == "certificate_issued" && e.decision == "allow" && e.caId == Some(c.caId)
    && e.serial == Some(c.serial) && e.requestId == c.requestId && e.identity == Some(c.identity)
  }

  ghost predicate SerialRecorded(t: Tables, e: EventRow) {
    e.serial.Some? ==> e.caId.Some? && HasSerial(t, e.caId.value, e.serial.value)
  }

  ghost predicate EventRegular(t: Tables, e: EventRow) { e.occurredAt >= 0 && SerialRecorded(t, e) }

  ghost predicate CertificateRegular(t: Tables, c: CertificateRow) {
    c.outcome == "success" ==> exists i :: 0 <= i < |t.events| && RowWitnesses(t.events[i], c)
  }

  /** What a history can still get wrong: times before 1970, events naming certificates
      that are not recorded, and successes without their event. */
  ghost predicate Regular(t: Tables) {
    && (forall i :: 0 <= i < |t.ca| ==> t.ca[i].activatedAt >= 0)
    && (forall i :: 0 <= i < |t.events| ==> EventRegular(t, t.events[i]))
    && (forall i :: 0 <= i < |t.certificates| ==> CertificateRegular(t, t.certificates[i]))
  }

  lemma CaDecodes(row: CaRow)
    requires CaStored(row)
    ensures DecodeCa(row).Ok? <==> row.activatedAt >= 0
    ensures DecodeCa(row).Ok? ==>
              DecodeCa(row).value.caId == row.caId && DecodeCa(row).value.status == row.status
  {
  }

  lemma EventDecodes(row: EventRow)
    requires EventStored(row)
    ensures DecodeEvent(row).Ok? <==> row.occurredAt >= 0
    ensures DecodeEvent(row).Ok? ==>
              var e := DecodeEvent(row).value;
              e.kind == row.kind && e.decision == row.decision && e.requestId == row.requestId
              && e.identity == row.identity && e.caId == row.caId && (e.serial.Some? <==> row.serial.Some?)
              && (e.serial.Some? ==> row.serial == Some(Decimal.Show(e.serial.value)))
  {
    if row.serial.Some? {
      var n: nat :| n < SERIAL_LIMIT && row.serial.value == Decimal.Show(n);
      StoredSerial(n);
    }
  }

  ghost predicate Decoded(t: Tables, cas: seq<CaRecord>, certificates: seq<CertificateRecord>,
                          events: seq<EventRecord>)
  {
    && ListCas(t) == Ok(cas) && ListCertificates(t) == Ok(certificates) && ListEvents(t) == Ok(events)
    && |cas| == |t.ca| && |certificates| == |t.certificates| && |events| == |t.events|
    && (forall i :: 0 <= i < |cas| ==> cas[i].caId == t.ca[i].caId && cas[i].status == t.ca[i].status)
    && (forall i :: 0 <= i < |certificates| ==> Mirrors(t.certificates[i], certificates[i]))
    && (forall i :: 0 <= i < |events| ==> EventMirrors(t.events[i], events[i]))
  }

  ghost predicate Mirrors(row: CertificateRow, c: CertificateRecord) {
    row.caId == c.caId && row.serial == Decimal.Show(c.serial) && row.requestId == c.requestId
    && row.identity == c.identity && row.outcome == c.outcome
  }

  ghost predicate EventMirrors(row: EventRow, e: EventRecord) {
    row.kind == e.kind && row.decision == e.decision && row.requestId == e.requestId && row.identity == e.identity
    && row.caId == e.caId && row.serial == SerialTextOf(e.serial)
  }

  ghost function SerialTextOf(serial: Option<nat>): Option<string> {
    if serial.Some? then Some(Decimal.Show(serial.value)) else None
  }

  /** With non-negative times every row of a sound ledger decodes, and only then. */
  lemma SoundDecodes(t: Tables)
    requires Sound(t)
    ensures (ListCas(t).Ok? && ListEvents(t).Ok?) <==>
            (forall i :: 0 <= i < |t.ca| ==> t.ca[i].activatedAt >= 0)
            && (forall i :: 0 <= i < |t.events| ==> t.events[i].occurredAt >= 0)
    ensures ListCertificates(t).Ok?
    ensures ListCas(t).Ok? && ListEvents(t).Ok? ==>
              Decoded(t, ListCas(t).value, ListCertificates(t).value, ListEvents(t).value)
  {
    hide DecodeCertificate, DecodeEvent, DecodeCa, EventStored, CaStored;
    DecodeAllEach(t.ca, DecodeCa);
    DecodeAllEach(t.certificates, DecodeCertificate);
    DecodeAllEach(t.events, DecodeEvent);
    forall i | 0 <= i < |t.ca|
      ensures DecodeCa(t.ca[i]).Ok? <==> t.ca[i].activatedAt >= 0
      ensures DecodeCa(t.ca[i]).Ok? ==> DecodeCa(t.ca[i]).value.caId == t.ca[i].caId
      ensures DecodeCa(t.ca[i]).Ok? ==> DecodeCa(t.ca[i]).value.status == t.ca[i].status
    {
      CaDecodes(t.ca[i]);
    }
    forall i | 0 <= i < |t.certificates|
      ensures DecodeCertificate(t.certificates[i]).Ok?
              && Mirrors(t.certificates[i], DecodeCertificate(t.certificates[i]).value)
    {
      assert CertificateKept(t, t.certificates[i]);
      DecodeKeepsKey(t.certificates[i]);
    }
    forall i | 0 <= i < |t.events|
      ensures DecodeEvent(t.events[i]).Ok? <==> t.events[i].occurredAt >= 0
      ensures DecodeEvent(t.events[i]).Ok? ==> EventMirrors(t.events[i], DecodeEvent(t.events[i]).value)
    {
      assert EventKept(t, t.events[i]);
      EventDecodes(t.events[i]);
    }
  }

  lemma SameReferences(t: Tables, cas: seq<CaRecord>, certificates: seq<CertificateRecord>, events: seq<EventRecord>)
    requires Decoded(t, cas, certificates, events)
    ensures forall caId :: KnownCa(cas, caId) <==> HasCa(t, caId)
    ensures forall caId, serial: nat ::
              KnownSerial(certificates, caId, serial) <==> HasSerial(t, caId, Decimal.Show(serial))
  {
    hide ListCas, ListCertificates, ListEvents;
    forall caId, serial: nat
      ensures KnownSerial(certificates, caId, serial) <==> HasSerial(t, caId, Decimal.Show(serial))
    {
      if HasSerial(t, caId, Decimal.Show(serial)) {
        var i :| 0 <= i < |t.certificates| && t.certificates[i].caId == caId
                 && t.certificates[i].serial == Decimal.Show(serial);
        assert Mirrors(t.certificates[i], certificates[i]);
        Decimal.ShowInjective(serial, certificates[i].serial);
      }
      if KnownSerial(certificates, caId, serial) {
        var i :| 0 <= i < |certificates| && certificates[i].caId == caId && certificates[i].serial == serial;
        assert Mirrors(t.certificates[i], certificates[i]);
      }
    }
  }

  lemma SameWitness(row: EventRow, e: EventRecord, cRow: CertificateRow, c: CertificateRecord)
    requires EventMirrors(row, e) && Mirrors(cRow, c)
    ensures Witnesses(e, c) <==> RowWitnesses(row, cRow)
  {
    if e.serial.Some? { Decimal.ShowInjective(e.serial.value, c.serial); }
  }

  lemma {:induction false} ConsistentIff(t: Tables, cas: seq<CaRecord>, certificates: seq<CertificateRecord>,
                                         events: seq<EventRecord>)
    requires Sound(t) && Decoded(t, cas, certificates, events)
    ensures Consistent(cas, certificates, events) <==>
            (forall i :: 0 <= i < |t.events| ==> SerialRecorded(t, t.events[i]))
            && (forall i :: 0 <= i < |t.certificates| ==> CertificateRegular(t, t.certificates[i]))
  {
    hide ListCas, ListCertificates, ListEvents, CertificateStored, EventStored, CaStored, RowWitnesses, Witnesses;
    SameReferences(t, cas, certificates, events);
    forall i | 0 <= i < |events|
      ensures EventResolves(cas, certificates, events[i]) <==> SerialRecorded(t, t.events[i])
    {
      assert EventMirrors(t.events[i], events[i]) && EventKept(t, t.events[i]);
    }
    forall i | 0 <= i < |certificates|
      ensures CertificateResolves(cas, events, certificates[i]) <==> CertificateRegular(t, t.certificates[i])
    {
      assert Mirrors(t.certificates[i], certificates[i]) && CertificateKept(t, t.certificates[i]);
      forall k | 0 <= k < |events|
        ensures Witnesses(events[k], certificates[i]) <==> RowWitnesses(t.events[k], t.certificates[i])
      {
        assert EventMirrors(t.events[k], events[k]);
        SameWitness(t.events[k], events[k], t.certificates[i], certificates[i]);
      }
    }
    forall i, j | 0 <= i < j < |certificates| ensures !SameKey(certificates[i], certificates[j]) {
      assert Mirrors(t.certificates[i], certificates[i]) && Mirrors(t.certificates[j], certificates[j]);
    }
  }

  /** On a sound ledger the check accepts exactly the regular tables. */
  lemma AcceptedIff(t: Tables)
    requires Sound(t)
    ensures Accepted(t) <==> Regular(t)
  {
    hide Sound, ListCas, ListCertificates, ListEvents, Consistent, CertificateRegular;
    SoundDecodes(t);
    if ListCas(t).Ok? && ListEvents(t).Ok? {
      ConsistentIff(t, ListCas(t).value, ListCertificates(t).value, ListEvents(t).value);
    }
  }

  // ---- one attempt at a time ----

  predicate Rejects(t: Tables, op: Operation) {
    match op
    case OpCa(ca) => RegisterCa(t, ca).Err?
    case OpCertificate(c, outcome) => RecordCertificate(t, c, outcome, false).Err?
    case OpIssue(c) => RecordCertificate(t, c, "success", true).Err?
    case OpEvent(e) => RecordEvent(t, e).Err?
    case RolledBack => true
  }

  /** The condition, checkable before an attempt, under which the ledger stays acceptable. */
  predicate Fitting(t: Tables, op: Operation) {
    match op
    case OpCa(ca) => Timestamp(ca.at).Ok? ==> Timestamp(ca.at).value >= 0
    case OpCertificate(_, outcome) => outcome != "success"
    case OpIssue(c) => c.validAfter >= 0
    case OpEvent(e) =>
      (Timestamp(e.at).Ok? ==> Timestamp(e.at).value >= 0)
      && (e.serial.Some? ==>
            e.caId.Some? && e.serial.value >= 0 && HasSerial(t, e.caId.value, Decimal.Show(e.serial.value)))
    case RolledBack => true
  }

  lemma RegularCa(t: Tables, c: NewCa)
    requires Sound(t) && Regular(t) && RegisterCa(t, c).Ok?
    ensures Regular(RegisterCa(t, c).value.0) <==> Timestamp(c.at).value >= 0
  {
    hide Sound, CertificateRegular, RowWitnesses, CheckKey, CheckPath;
    SecondCaConflicts(t, c);
    var after := RegisterCa(t, c).value.0;
    assert after.ca[0].activatedAt == Timestamp(c.at).value;
    forall i | 0 <= i < |t.certificates| ensures CertificateRegular(after, after.certificates[i]) {
      assert CertificateRegular(t, t.certificates[i]);
      WitnessKept(t, after, t.certificates[i]);
    }
    forall i | 0 <= i < |t.events| ensures EventRegular(after, after.events[i]) {
      assert after.events[i] == t.events[i] && EventRegular(t, t.events[i]);
    }
  }

  lemma WitnessKept(t: Tables, after: Tables, c: CertificateRow)
    requires t.events <= after.events && CertificateRegular(t, c)
    ensures CertificateRegular(after, c)
  {
    if c.outcome == "success" {
      var i :| 0 <= i < |t.events| && RowWitnesses(t.events[i], c);
      assert after.events[i] == t.events[i];
    }
  }

  lemma SerialKept(t: Tables, after: Tables, e: EventRow)
    requires t.certificates <= after.certificates && EventRegular(t, e)
    ensures EventRegular(after, e)
  {
    if e.serial.Some? {
      var i :| 0 <= i < |t.certificates| && t.certificates[i].caId == e.caId.value
               && t.certificates[i].serial == e.serial.value;
      assert after.certificates[i] == t.certificates[i];
    }
  }

  lemma RegularCertificate(t: Tables, c: NewCertificate, outcome: string, recordEvent: bool)
    requires Sound(t) && Regular(t) && RecordCertificate(t, c, outcome, recordEvent).Ok?
    ensures Regular(RecordCertificate(t, c, outcome, recordEvent).value.0) <==>
            if recordEvent then c.validAfter >= 0 else outcome != "success"
  {
    hide Sound, RowWitnesses, EncodePrincipals, CheckPrincipals, EventRegular;
    var after := RecordCertificate(t, c, outcome, recordEvent).value.0;
    var row, n := NewCertificateRow(t, c, outcome), |t.certificates|;
    assert after.certificates[n] == row;
    forall i | 0 <= i < n ensures CertificateRegular(after, after.certificates[i]) {
      assert CertificateRegular(t, t.certificates[i]);
      WitnessKept(t, after, t.certificates[i]);
    }
    forall i | 0 <= i < |t.events| ensures EventRegular(after, after.events[i]) {
      assert after.events[i] == t.events[i];
      SerialKept(t, after, t.events[i]);
    }
    if recordEvent {
      NewIssueRegular(t, c, outcome, after);
    } else if outcome == "success" {
      NoStrayWitness(t, c, row);
    }
  }

  lemma NewIssueRegular(t: Tables, c: NewCertificate, outcome: string, after: Tables)
    requires c.serial >= 0 && after == WithCertificate(t, c, outcome, true)
    ensures CertificateRegular(after, NewCertificateRow(t, c, outcome))
    ensures EventRegular(after, IssuedEvent(t, c)) <==> c.validAfter >= 0
    ensures after.events[|t.events|] == IssuedEvent(t, c)
  {
    hide EncodePrincipals, Decimal.Show;
    assert after.events[|t.events|] == IssuedEvent(t, c);
    assert RowWitnesses(after.events[|t.events|], NewCertificateRow(t, c, outcome));
    assert after.certificates[|t.certificates|] == NewCertificateRow(t, c, outcome);
  }

  /** No event can already vouch for a serial that is not recorded. */
  lemma NoStrayWitness(t: Tables, c: NewCertificate, row: CertificateRow)
    requires Regular(t) && c.serial >= 0 && !CertificateConflict(t, c)
    requires row.caId == c.caId && row.serial == Decimal.Show(c.serial)
    ensures forall i :: 0 <= i < |t.events| ==> !RowWitnesses(t.events[i], row)
  {
    forall i | 0 <= i < |t.events| ensures !RowWitnesses(t.events[i], row) {
      assert EventRegular(t, t.events[i]);
    }
  }

  lemma RegularEvent(t: Tables, e: NewEvent)
    requires Sound(t) && Regular(t) && RecordEvent(t, e).Ok?
    ensures Regular(RecordEvent(t, e).value.0) <==> Fitting(t, OpEvent(e))
  {
    hide Sound, RowWitnesses, Decimal.Show;
    var after := RecordEvent(t, e).value.0;
    assert forall caId, serial :: HasSerial(t, caId, serial) <==> HasSerial(after, caId, serial);
    var at := Timestamp(e.at).value;
    assert after.events[|t.events|] == NewEventRow(t, e, at);
    forall i | 0 <= i < |t.certificates| ensures CertificateRegular(after, after.certificates[i]) {
      assert CertificateRegular(t, t.certificates[i]);
      WitnessKept(t, after, t.certificates[i]);
    }
    forall i | 0 <= i < |t.events| ensures EventRegular(after, after.events[i]) {
      assert after.events[i] == t.events[i] && EventRegular(t, t.events[i]);
    }
  }

  /** An attempt on an accepted ledger leaves it accepted exactly when the attempt is
      rejected or fitting. */
  lemma {:induction false} ApplyAccepted(t: Tables, op: Operation)
    requires Sound(t) && Accepted(t)
    ensures Accepted(Apply(t, op)) <==> Rejects(t, op) || Fitting(t, op)
  {
    hide Sound, Accepted, Regular, RegisterCa, RecordCertificate, RecordEvent;
    AcceptedIff(t);
    ApplySound(t, op);
    AcceptedIff(Apply(t, op));
    if !Rejects(t, op) {
      match op
      case OpCa(ca) => RegularCa(t, ca); RegisteredInTime(t, ca);
      case OpCertificate(c, outcome) => RegularCertificate(t, c, outcome, false);
      case OpIssue(c) => RegularCertificate(t, c, "success", true);
      case OpEvent(e) => RegularEvent(t, e);
    }
  }

  lemma RegisteredInTime(t: Tables, c: NewCa)
    requires RegisterCa(t, c).Ok?
    ensures Timestamp(c.at).Ok?
  {
  }

  /** Histories of fitting attempts, and of attempts that come to nothing, are accepted. */
  lemma {:induction false} RunAccepted(ops: seq<Operation>)
    requires forall k :: 0 <= k < |ops| ==> Rejects(Run(ops[..k]), ops[k]) || Fitting(Run(ops[..k]), ops[k])
    ensures Accepted(Run(ops))
  {
    hide Accepted, Apply, Rejects, Fitting;
    if ops == [] {
      EmptyAccepted();
    } else {
      var before := ops[..|ops| - 1];
      forall k | 0 <= k < |before|
        ensures Rejects(Run(before[..k]), before[k]) || Fitting(Run(before[..k]), before[k])
      {
        assert before[..k] == ops[..k] && before[k] == ops[k];
      }
      RunAccepted(before);
      RunSound(before);
      ApplyAccepted(Run(before), ops[|ops| - 1]);
    }
  }

  lemma EmptyAccepted()
    ensures Accepted(EMPTY)
  {
  }

  /** The attempts the issuer itself makes: registering a CA, committing a certificate with
      its event, noting an event about no particular certificate, and being rolled back. */
  predicate Ordinary(op: Operation) {
    match op
    case OpCa(ca) => Timestamp(ca.at).Ok? ==> Timestamp(ca.at).value >= 0
    case OpCertificate(_, outcome) => outcome != "success"
    case OpIssue(c) => c.validAfter >= 0
    case OpEvent(e) => e.serial.None? && (Timestamp(e.at).Ok? ==> Timestamp(e.at).value >= 0)
    case RolledBack => true
  }

  /** Any order of ordinary attempts yields a ledger that the check accepts. */
  lemma {:induction false} OrdinaryRunAccepted(ops: seq<Operation>)
    requires forall k :: 0 <= k < |ops| ==> Ordinary(ops[k])
    ensures Accepted(Run(ops))
  {
    hide Accepted, Run, Rejects;
    RunAccepted(ops);
  }

  // ---- from any ledger onward ----

  function RunFrom(t: Tables, ops: seq<Operation>): Tables {
    if ops == [] then t else Apply(RunFrom(t, ops[..|ops| - 1]), ops[|ops| - 1])
  }

  function ReturnedFrom(t: Tables, ops: seq<Operation>): seq<CertificateRecord> {
    if ops == [] then []
    else ReturnedFrom(t, ops[..|ops| - 1]) + Returned(RunFrom(t, ops[..|ops| - 1]), ops[|ops| - 1])
  }

  ghost predicate AllOrdinary(ops: seq<Operation>) { forall i :: 0 <= i < |ops| ==> Ordinary(ops[i]) }

  lemma OrdinaryFits(t: Tables, op: Operation)
    requires Ordinary(op)
    ensures Rejects(t, op) || Fitting(t, op)
  {
  }

  /** However ordinary attempts of any number of parties interleave, an acceptable ledger stays
      acceptable, and its listing grows by the records of the commits, in their order. */
  lemma {:induction false} InterleavedAccepted(t: Tables, ops: seq<Operation>)
    requires Sound(t) && Accepted(t) && AllOrdinary(ops)
    ensures Sound(RunFrom(t, ops)) && Accepted(RunFrom(t, ops)) && ListCertificates(t).Ok?
    ensures ListCertificates(RunFrom(t, ops)) == Ok(ListCertificates(t).value + ReturnedFrom(t, ops))
  {
    hide Sound, Accepted, Apply, ListCertificates, Returned, Rejects, Ordinary, Fitting;
    if ops == [] {
      SoundListable(t);
      assert ListCertificates(t).value + [] == ListCertificates(t).value;
    } else {
      var front, op := ops[..|ops| - 1], ops[|ops| - 1];
      InterleavedAccepted(t, front);
      var at := RunFrom(t, front);
      OrdinaryFits(at, op);
      ApplySound(at, op);
      ApplyAccepted(at, op);
      ApplyLists(at, op);
      var listed, early, late := ListCertificates(t).value, ReturnedFrom(t, front), Returned(at, op);
      assert (listed + early) + late == listed + (early + late);
    }
  }

  lemma {:induction false} RunFromJoined(t: Tables, ops: seq<Operation>, more: seq<Operation>)
    ensures RunFrom(t, ops + more) == RunFrom(RunFrom(t, ops), more)
    decreases |more|
  {
    hide Apply;
    if more == [] {
      assert ops + more == ops;
    } else {
      var front := more[..|more| - 1];
      assert (ops + more)[..|ops + more| - 1] == ops + front;
      RunFromJoined(t, ops, front);
    }
  }

  /** What other parties may make of a ledger by ordinary attempts; nothing if there are none. */
  ghost predicate Drift(alone: bool, before: Tables, after: Tables) {
    exists ops :: (alone ==> ops == []) && AllOrdinary(ops) && after == RunFrom(before, ops)
  }

  lemma DriftRan(alone: bool, t: Tables, ops: seq<Operation>)
    requires (alone ==> ops == []) && AllOrdinary(ops)
    ensures Drift(alone, t, RunFrom(t, ops))
  {
  }

  lemma NoDrift(alone: bool, t: Tables)
    ensures Drift(alone, t, t)
  {
    DriftRan(alone, t, []);
  }

  lemma DriftAlone(before: Tables, after: Tables)
    ensures Drift(true, before, after) <==> before == after
  {
    NoDrift(true, before);
  }

  lemma DriftAgain(alone: bool, a: Tables, b: Tables, c: Tables)
    requires Drift(alone, a, b) && Drift(alone, b, c)
    ensures Drift(alone, a, c)
  {
    hide RunFrom, Ordinary;
    var ops :| (alone ==> ops == []) && AllOrdinary(ops) && b == RunFrom(a, ops);
    var more :| (alone ==> more == []) && AllOrdinary(more) && c == RunFrom(b, more);
    RunFromJoined(a, ops, more);
    DriftRan(alone, a, ops + more);
  }

  /** Written by another program, two texts of one serial pass the check as two certificates. */
  lemma TextualTwinsAccepted()
    ensures exists t :: Accepted(t) && ListCertificates(t).Ok? && |ListCertificates(t).value| == 2
                        && ListCertificates(t).value[0].caId == ListCertificates(t).value[1].caId
                        && ListCertificates(t).value[0].serial == ListCertificates(t).value[1].serial
  {
    hide DecodeCertificate, DecodeCa, DecodePrincipals, Decimal.Read;
    var ca := CaRow(1, ALGORITHM, PublicKey(ALGORITHM, "f"), "f", Path("d", "k"), 0, "active");
    var t := Tables([ca], [Twin(1, "7", "r"), Twin(2, "07", "s")], []);
    TwinDecodes(1, "7", "r");
    TwinDecodes(2, "07", "s");
    CaDecodes(ca) by { TwinCaStored(ca); }
    DecodeAllEach(t.ca, DecodeCa);
    DecodeAllEach(t.certificates, DecodeCertificate);
    assert ListCas(t).value[0].caId == 1;
    assert Accepted(t);
  }

  function Twin(id: int, serial: string, requestId: string): CertificateRow {
    CertificateRow(id, 1, serial, "u", "p", "[\"u\"]", 0, 90000, requestId, "failed")
  }

  lemma TwinCaStored(ca: CaRow)
    requires ca == CaRow(1, ALGORITHM, PublicKey(ALGORITHM, "f"), "f", Path("d", "k"), 0, "active")
    ensures CaStored(ca)
  {
  }

  lemma TwinDecodes(id: int, serial: string, requestId: string)
    requires id > 0 && (serial == "7" || serial == "07") && ValidText(requestId)
    ensures DecodeCertificate(Twin(id, serial, requestId)) ==
            Ok(CertificateRecord(id, 1, 7, "u", "p", ["u"], 0, 90000, requestId, "failed"))
  {
    Decimal.ReadIsNotInjective();
    StoredTwin();
    assert CanonicalUsername("u") && ValidText("p");
  }

  lemma StoredTwin()
    ensures DecodePrincipals("[\"u\"]") == Some(["u"]) && ValidatePrincipals(["u"]).Ok?
  {
    ValidateAccepts(["u"]);
    DecodeEncodePrincipals(["u"]);
    assert EncodePrincipals(["u"]) == "[\"u\"]";
  }
}
