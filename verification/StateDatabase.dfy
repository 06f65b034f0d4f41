/** The state database as the service holds it: one connection whose transactions commit
    or roll back, under failures of any statement (`src/ski/state.py`,
    `src/ski/ca_persistence.py`). */
module StateDatabases {
  import opened Basics
  import opened Ledger
  import opened LedgerChecks
  import opened LedgerRuns

  datatype SqlError = Integrity | Failure

  /** How a call relates to the operation it attempts: success has its whole effect, failure
      none, and any failure other than unavailability is the operation's own. */
  ghost predicate Attempted<T>(before: Tables, after: Tables, spec: Result<(Tables, T), StateError>,
                               r: Result<T, StateError>)
  {
    match r
    case Ok(v) => spec == Ok((after, v))
    case Err(e) => after == before && (e != Unavailable ==> spec == Err(e))
  }

  ghost predicate Exact<T>(spec: Result<(Tables, T), StateError>, r: Result<T, StateError>) {
    match r
    case Ok(_) => spec.Ok?
    case Err(e) => spec == Err(e)
  }

  class StateDatabase {
    /** When set, no statement fails by itself. */
    const reliable: bool

    /** What other connections, and this one after reopening, would see. */
    var durable: Tables

    /** What this connection sees. */
    var working: Tables

    var inTransaction: bool

    /** How many statements have failed by themselves so far. */
    ghost var faults: nat

    ghost predicate Valid()
      reads this
    {
      (!inTransaction ==> working == durable) && (reliable ==> faults == 0)
    }

    /** No transaction has been left open. */
    ghost predicate Ready()
      reads this
    {
      Valid() && !inTransaction
    }

    constructor (tables: Tables, reliable: bool)
      ensures Valid() && !inTransaction && durable == tables && this.reliable == reliable
    {
      this.reliable := reliable;
      durable, working, inTransaction, faults := tables, tables, false, 0;
    }

    method Faults() returns (fault: bool)
      requires Valid()
      modifies this`faults
      ensures Valid() && faults == old(faults) + (if fault then 1 else 0)
    {
      fault := *;
      if reliable { fault := false; }
      if fault { faults := faults + 1; }
    }

    // ---- transactions ----

    /** Fails while an earlier transaction is still open. */
    method Begin() returns (ok: bool)
      requires Valid()
      modifies this`inTransaction, this`faults
      ensures Valid() && (ok ==> !old(inTransaction) && inTransaction)
      ensures !ok ==> inTransaction == old(inTransaction)
      ensures old(faults) <= faults && (faults == old(faults) ==> ok == !old(inTransaction))
    {
      var fault := Faults();
      ok := !inTransaction && !fault;
      if ok { inTransaction := true; }
    }

    /** A rollback that itself fails leaves the transaction open. */
    method Rollback() returns (ok: bool)
      requires Valid()
      modifies this`working, this`inTransaction, this`faults
      ensures Valid() && (ok ==> !inTransaction)
      ensures !ok ==> inTransaction == old(inTransaction) && working == old(working)
      ensures faults == old(faults) + (if ok then 0 else 1)
    {
      var fault := Faults();
      ok := !fault;
      if ok { working, inTransaction := durable, false; }
    }

    /** A commit that fails either undoes the transaction or leaves it open. */
    method Commit() returns (ok: bool)
      requires Valid() && inTransaction
      modifies this
      ensures Valid()
      ensures if ok then durable == working == old(working) && !inTransaction else durable == old(durable)
      ensures faults == old(faults) + (if ok then 0 else 1)
    {
      var fault := Faults();
      ok := !fault;
      if ok {
        durable, inTransaction := working, false;
      } else {
        var undone := *;
        if undone { working, inTransaction := durable, false; }
      }
    }

    /** Leaves a transaction because of an error; a failing rollback hides what it was. */
    method Abandon(error: SqlError) returns (raised: SqlError)
      requires Valid() && inTransaction
      modifies this`working, this`inTransaction, this`faults
      ensures Valid() && (raised == Integrity ==> error == Integrity)
      ensures old(faults) <= faults && (faults == old(faults) ==> raised == error && !inTransaction)
    {
      var undone := Rollback();
      raised := if undone then error else Failure;
    }

    /** Other parties commit between two of this one's calls; not while a transaction is open. */
    method Interleave(ops: seq<Operation>)
      requires Valid()
      modifies this`durable, this`working
      ensures Valid()
      ensures durable == if inTransaction then old(durable) else RunFrom(old(durable), ops)
    {
      if !inTransaction {
        durable := RunFrom(durable, ops);
        working := durable;
      }
    }

    // ---- statements of one transaction ----

    method InsertCertificate(c: NewCertificate, outcome: string, recordEvent: bool) returns (r: Result<int, SqlError>)
      requires Valid() && c.serial >= 0
      modifies this
      ensures Valid()
      ensures r.Ok? ==> r.value == NextCertificateId(old(durable))
                        && durable == WithCertificate(old(durable), c, outcome, recordEvent)
                        && CertificateFitsColumns(c) && !CertificateConflict(old(durable), c)
      ensures r.Err? ==> durable == old(durable)
      ensures r == Err(Integrity) ==> CertificateFitsColumns(c) && CertificateConflict(old(durable), c)
      ensures old(faults) <= faults
      ensures old(Ready()) && faults == old(faults) ==>
                && Ready()
                && (r.Ok? <==> CertificateFitsColumns(c) && !CertificateConflict(old(durable), c))
                && (r == Err(Integrity) <==> CertificateFitsColumns(c) && CertificateConflict(old(durable), c))
    {
      var begun := Begin();
      if !begun { return Err(Failure); }
      var fault := Faults();
      if fault || !CertificateFitsColumns(c) {
        var raised := Abandon(Failure);
        return Err(raised);
      }
      if CertificateConflict(working, c) {
        var raised := Abandon(Integrity);
        return Err(raised);
      }
      var certificateId := NextCertificateId(working);
      working := working.(certificates := working.certificates + [NewCertificateRow(working, c, outcome)]);
      if recordEvent {
        fault := Faults();
        if fault {
          var raised := Abandon(Failure);
          return Err(raised);
        }
        working := working.(events := working.events + [IssuedEvent(working, c)]);
      }
      var committed := Commit();
      return if committed then Ok(certificateId) else Err(Failure);
    }

    method InsertCa(c: NewCa, at: int) returns (r: Result<int, SqlError>)
      requires Valid()
      modifies this
      ensures Valid()
      ensures r.Ok? ==> r.value == NextCaId(old(durable)) && durable == WithCa(old(durable), c, at)
                        && FitsColumn(at) && !CaConflict(old(durable), c)
      ensures r.Err? ==> durable == old(durable)
      ensures r == Err(Integrity) ==> FitsColumn(at) && CaConflict(old(durable), c)
      ensures old(faults) <= faults
      ensures old(Ready()) && faults == old(faults) ==>
                && Ready()
                && (r.Ok? <==> FitsColumn(at) && !CaConflict(old(durable), c))
                && (r == Err(Integrity) <==> FitsColumn(at) && CaConflict(old(durable), c))
    {
      var begun := Begin();
      if !begun { return Err(Failure); }
      var fault := Faults();
      if fault || !FitsColumn(at) {
        var raised := Abandon(Failure);
        return Err(raised);
      }
      if CaConflict(working, c) {
        var raised := Abandon(Integrity);
        return Err(raised);
      }
      var caId := NextCaId(working);
      working := working.(ca := working.ca + [NewCaRow(working, c, at)]);
      if c.requestId.Some? {
        fault := Faults();
        if fault {
          var raised := Abandon(Failure);
          return Err(raised);
        }
        working := working.(events := working.events + [CaEvent(working, caId, at, c.requestId.value)]);
      }
      var committed := Commit();
      return if committed then Ok(caId) else Err(Failure);
    }

    method InsertEvent(e: NewEvent, at: int) returns (r: Result<int, SqlError>)
      requires Valid() && (e.serial.Some? ==> e.serial.value >= 0)
      modifies this
      ensures Valid()
      ensures var fits := FitsColumn(at) && (e.caId.Some? ==> FitsColumn(e.caId.value));
              var known := e.caId.Some? ==> HasCa(old(durable), e.caId.value);
              (r.Ok? ==> fits && known && r.value == NextEventId(old(durable))
                         && durable == old(durable).(events :=
                                         old(durable).events + [NewEventRow(old(durable), e, at)]))
              && (r.Err? ==> durable == old(durable))
              && (r == Err(Integrity) ==> fits && !known)
              && (old(Ready()) && faults == old(faults) ==>
                    Ready() && (r.Ok? <==> fits && known) && (r == Err(Integrity) <==> fits && !known))
      ensures old(faults) <= faults
    {
      var begun := Begin();
      if !begun { return Err(Failure); }
      var fault := Faults();
      if fault || !FitsColumn(at) || (e.caId.Some? && !FitsColumn(e.caId.value)) {
        var raised := Abandon(Failure);
        return Err(raised);
      }
      if e.caId.Some? && !HasCa(working, e.caId.value) {
        var raised := Abandon(Integrity);
        return Err(raised);
      }
      var eventId := NextEventId(working);
      working := working.(events := working.events + [NewEventRow(working, e, at)]);
      var committed := Commit();
      return if committed then Ok(eventId) else Err(Failure);
    }

    // ---- operations ----

    method RegisterActiveCa(c: NewCa) returns (r: Result<CaRecord, StateError>)
      requires Valid()
      modifies this
      ensures Valid()
      ensures Attempted(old(durable), durable, RegisterCa(old(durable), c), r)
      ensures durable == Apply(old(durable), if r.Ok? then OpCa(c) else RolledBack)
      ensures old(faults) <= faults
      ensures old(Ready()) && faults == old(faults) ==> Ready() && Exact(RegisterCa(old(durable), c), r)
    {
      var at :- CheckCa(c);
      var inserted := InsertCa(c, at);
      match inserted
      case Ok(caId) => return Ok(CaRecord(caId, ALGORITHM, c.key, c.fingerprint, c.path, at, "active"));
      case Err(Integrity) => return Err(AlreadyActive);
      case Err(Failure) => return Err(Unavailable);
    }

    method RecordCertificate(c: NewCertificate, outcome: string) returns (r: Result<CertificateRecord, StateError>)
      requires Valid()
      modifies this
      ensures Valid()
      ensures Attempted(old(durable), durable, Ledger.RecordCertificate(old(durable), c, outcome, false), r)
      ensures durable == Apply(old(durable), if r.Ok? then OpCertificate(c, outcome) else RolledBack)
      ensures old(faults) <= faults
      ensures old(Ready()) && faults == old(faults) ==>
                Ready() && Exact(Ledger.RecordCertificate(old(durable), c, outcome, false), r)
    {
      var serial :- CheckCertificate(c, outcome);
      var inserted := InsertCertificate(c, outcome, false);
      match inserted
      case Ok(certificateId) =>
        return Ok(CertificateRecord(certificateId, c.caId, serial, c.identity, c.publicKeyFingerprint, c.principals,
                                    c.validAfter, c.validBefore, c.requestId, outcome));
      case Err(Integrity) => return Err(DuplicateSerial);
      case Err(Failure) => return Err(Unavailable);
    }

    method RecordCertificateWithEvent(c: NewCertificate) returns (r: Result<CertificateRecord, StateError>)
      requires Valid()
      modifies this
      ensures Valid()
      ensures Attempted(old(durable), durable, Ledger.RecordCertificate(old(durable), c, "success", true), r)
      ensures durable == Apply(old(durable), if r.Ok? then OpIssue(c) else RolledBack)
      ensures old(faults) <= faults
      ensures old(Ready()) && faults == old(faults) ==>
                Ready() && Exact(Ledger.RecordCertificate(old(durable), c, "success", true), r)
    {
      var serial :- CheckCertificate(c, "success");
      var inserted := InsertCertificate(c, "success", true);
      match inserted
      case Ok(certificateId) =>
        return Ok(CertificateRecord(certificateId, c.caId, serial, c.identity, c.publicKeyFingerprint, c.principals,
                                    c.validAfter, c.validBefore, c.requestId, "success"));
      case Err(Integrity) => return Err(DuplicateSerial);
      case Err(Failure) => return Err(Unavailable);
    }

    method RecordEvent(e: NewEvent) returns (r: Result<EventRecord, StateError>)
      requires Valid()
      modifies this
      ensures Valid()
      ensures Attempted(old(durable), durable, Ledger.RecordEvent(old(durable), e), r)
      ensures durable == Apply(old(durable), if r.Ok? then OpEvent(e) else RolledBack)
      ensures old(faults) <= faults
      ensures old(Ready()) && faults == old(faults) ==> Ready() && Exact(Ledger.RecordEvent(old(durable), e), r)
    {
      var at :- CheckEvent(e);
      var inserted := InsertEvent(e, at);
      match inserted
      case Ok(eventId) =>
        return Ok(EventRecord(eventId, at, e.kind, e.decision, e.requestId, e.identity, e.caId,
                              if e.serial.Some? then Some(e.serial.value) else None));
      case Err(Integrity) => return Err(EventNotRecorded);
      case Err(Failure) => return Err(Unavailable);
    }

    // ---- reading ----

    /** The validated active CA, if one is registered. */
    method GetActiveCa() returns (r: Result<Option<CaRecord>, StateError>)
      requires Valid()
      modifies this`faults
      ensures Valid() && old(faults) <= faults
      ensures r.Ok? && r.value.None? ==> forall i :: 0 <= i < |working.ca| ==> working.ca[i].status != "active"
      ensures r.Ok? && r.value.Some? ==>
                exists i :: 0 <= i < |working.ca| && working.ca[i].status == "active"
                            && DecodeCa(working.ca[i]) == Ok(r.value.value)
      ensures faults == old(faults) && r.Err? ==>
                exists i :: 0 <= i < |working.ca| && working.ca[i].status == "active"
                            && DecodeCa(working.ca[i]) == Err(r.error)
    {
      var fault := Faults();
      if fault { return Err(Unavailable); }
      for i := 0 to |working.ca|
        invariant forall k :: 0 <= k < i ==> working.ca[k].status != "active"
      {
        if working.ca[i].status == "active" {
          var record :- DecodeCa(working.ca[i]);
          return Ok(Some(record));
        }
      }
      return Ok(None);
    }

    /** Checks integrity and every relationship between the stored records. */
    method VerifyCaState() returns (r: Result<(), StateError>)
      requires Valid()
      modifies this`faults
      ensures Valid() && old(faults) <= faults
      ensures r.Ok? ==> Accepted(working)
      ensures faults == old(faults) ==> (r.Ok? <==> Accepted(working))
    {
      var fault := Faults();
      if fault { return Err(Unavailable); }
      var cas :- ListCas(working);
      r := VerifyRecords(cas, ListCertificates(working), ListEvents(working));
    }
  }
}
