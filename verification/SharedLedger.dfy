/** Requests that share the ledger: while one is suspended, other requests and programs record
    certificates and events. What a request may count on then, stated by the tables that it
    finds at each of its own operations. */
module SharedLedger {
  import opened Basics
  import opened Ledger
  import opened LedgerChecks
  import opened LedgerRules
  import opened LedgerRuns
  import opened Injection
  import opened IssuanceRuns
  import opened StoredText
  import Decimal

  // ---- what drifting keeps ----

  /** Whatever others do by ordinary attempts, rows and records stay, and acceptable ledgers
      stay acceptable. */
  lemma DriftKeeps(alone: bool, before: Tables, after: Tables)
    requires Drift(alone, before, after) && Sound(before) && Accepted(before)
    ensures Sound(after) && Accepted(after) && before.certificates <= after.certificates
    ensures ListCertificates(before).Ok? && ListCertificates(after).Ok?
    ensures ListCertificates(before).value <= ListCertificates(after).value
  {
    hide Sound, Accepted, ListCertificates, ReturnedFrom, Ordinary;
    var ops :| (alone ==> ops == []) && AllOrdinary(ops) && after == RunFrom(before, ops);
    InterleavedAccepted(before, ops);
    RunFromAppends(before, ops);
  }

  lemma {:induction false} RunFromAppends(t: Tables, ops: seq<Operation>)
    ensures t.certificates <= RunFrom(t, ops).certificates && t.ca <= RunFrom(t, ops).ca
  {
    hide Apply;
    if ops != [] {
      RunFromAppends(t, ops[..|ops| - 1]);
      ApplyAppends(RunFrom(t, ops[..|ops| - 1]), ops[|ops| - 1]);
    }
  }

  /** Others cannot make a note impossible. */
  lemma NotableAfterDrift(alone: bool, before: Tables, after: Tables, e: NewEvent)
    requires Drift(alone, before, after) && RecordEvent(before, e).Ok?
    ensures RecordEvent(after, e).Ok?
  {
    hide Ordinary, RunFrom, CheckEvent;
    var ops :| (alone ==> ops == []) && AllOrdinary(ops) && after == RunFrom(before, ops);
    RunFromAppends(before, ops);
    if e.caId.Some? {
      var i :| 0 <= i < |before.ca| && before.ca[i].caId == e.caId.value;
      assert after.ca[i] == before.ca[i];
    }
  }

  /** So a failure that the ledger would accept at the start of a request, it accepts where the
      request comes to note it. */
  lemma NotableWhereNoted(alone: bool, before: Tables, after: Tables, ca: ActiveCa, identity: Identity,
                          requestId: string, clocks: Clocks, trace: Trace, work: Option<Body>, o: Outcome,
                          exitRaises: bool, e: NewEvent)
    requires WorkedLedger(alone, before, after, ca, identity, requestId, clocks, trace, work, o, exitRaises)
    requires RecordEvent(before, e).Ok?
    ensures RecordEvent(NotePoint(trace, work, exitRaises), e).Ok?
  {
    hide Drift, Drifts, BodyLedger, RecordEvent, Noted;
    DriftsWhole(alone, before, trace.views, trace.inside);
    NotableAfterDrift(alone, before, trace.inside, e);
    if NotedOutside(work, exitRaises) {
      if work.Some? {
        BodyKeepsCa(trace.inside, trace.left, ca, identity, requestId, clocks.inside, work.value);
      }
      NotableStill(trace.inside, trace.left, e);
      NotableAfterDrift(alone, trace.left, trace.outside, e);
    }
  }

  /** One operation of a request, made in the tables it finds. */
  lemma OperationKeeps(at: Tables, op: Operation)
    requires Sound(at) && Accepted(at) && Ordinary(op)
    ensures Sound(Apply(at, op)) && Accepted(Apply(at, op)) && ListCertificates(at).Ok?
    ensures ListCertificates(Apply(at, op)) == Ok(ListCertificates(at).value + LedgerRuns.Returned(at, op))
    ensures at.certificates <= Apply(at, op).certificates
  {
    hide Sound, Accepted, Apply, ListCertificates, LedgerRuns.Returned, Rejects, Fitting, Ordinary;
    OrdinaryFits(at, op);
    ApplySound(at, op);
    ApplyAccepted(at, op);
    ApplyLists(at, op);
    ApplyAppends(at, op);
  }

  // ---- a request's own operations ----

  /** The operation that the work makes last inside the agent context. */
  ghost function WorkOperation(ca: ActiveCa, identity: Identity, requestId: string, clock: real, work: Option<Body>):
      Operation
  {
    match work
    case None => RolledBack
    case Some(Returned(c, _)) => OpIssue(Evidence(ca, c, requestId))
    case Some(WorkflowFailure(o)) =>
      if o.Failed? && o.audited then OpEvent(FailureEvent(ca, identity, requestId, clock)) else RolledBack
    case Some(_) => RolledBack
  }

  lemma WorkApplies(inside: Tables, left: Tables, ca: ActiveCa, identity: Identity, requestId: string, clock: real,
                    work: Option<Body>)
    requires if work.Some? then BodyLedger(inside, left, ca, identity, requestId, clock, work.value) else left == inside
    ensures left == Apply(inside, WorkOperation(ca, identity, requestId, clock, work))
    ensures LedgerRuns.Returned(inside, WorkOperation(ca, identity, requestId, clock, work)) ==
            if work.Some? && work.value.Returned? then [work.value.record] else []
  {
    hide RecordEvent, FailureEvent, Evidence, RecordCertificate;
  }

  /** What every request, with any failures, and with any others at work on the ledger, keeps and
      adds: acceptability, all earlier records, and, if the work committed, its record at the
      very place where it found the listing to end. */
  lemma RequestAmongOthers(alone: bool, before: Tables, after: Tables, ca: ActiveCa, identity: Identity,
                           requestId: string, clocks: Clocks, trace: Trace, work: Option<Body>, o: Outcome,
                           exitRaises: bool)
    requires WorkedLedger(alone, before, after, ca, identity, requestId, clocks, trace, work, o, exitRaises)
    requires Sound(before) && Accepted(before) && NonNegative(clocks)
    requires work.Some? && work.value.Returned? ==> work.value.credential.validAfter >= 0
    ensures Sound(after) && Accepted(after) && before.certificates <= after.certificates
    ensures ListCertificates(before).Ok? && ListCertificates(trace.inside).Ok? && ListCertificates(after).Ok?
    ensures ListCertificates(before).value <= ListCertificates(trace.inside).value <= ListCertificates(after).value
    ensures work.Some? && work.value.Returned? ==>
              ListCertificates(trace.inside).value + [work.value.record] <= ListCertificates(after).value
  {
    hide Sound, Accepted, ListCertificates, Apply, LedgerRuns.Returned, Drift, Drifts, BodyLedger, Noted, FailureEvent;
    DriftsWhole(alone, before, trace.views, trace.inside);
    DriftKeeps(alone, before, trace.inside);
    var op := WorkOperation(ca, identity, requestId, clocks.inside, work);
    WorkApplies(trace.inside, trace.left, ca, identity, requestId, clocks.inside, work);
    WorkOrdinary(ca, identity, requestId, clocks, work);
    OperationKeeps(trace.inside, op);
    if NotedOutside(work, exitRaises) {
      var e := FailureEvent(ca, identity, requestId, clocks.outside);
      DriftKeeps(alone, trace.left, trace.outside);
      NotedApplies(trace.outside, after, e, o.audited);
      NoteOrdinary(ca, identity, requestId, clocks.outside);
      OperationKeeps(trace.outside, if o.audited then OpEvent(e) else RolledBack);
    }
  }

  lemma WorkOrdinary(ca: ActiveCa, identity: Identity, requestId: string, clocks: Clocks, work: Option<Body>)
    requires NonNegative(clocks)
    requires work.Some? && work.value.Returned? ==> work.value.credential.validAfter >= 0
    ensures Ordinary(WorkOperation(ca, identity, requestId, clocks.inside, work))
  {
  }

  lemma NoteOrdinary(ca: ActiveCa, identity: Identity, requestId: string, clock: real)
    requires Truncate(clock) >= 0
    ensures Ordinary(OpEvent(FailureEvent(ca, identity, requestId, clock))) && Ordinary(RolledBack)
  {
  }

  /** Whoever else records meanwhile, a success is recorded once, with its event, in the tables
      it found; and another party's certificate with the same serial is why a draw collides. */
  lemma SuccessAmongOthers(alone: bool, before: Tables, after: Tables, ca: ActiveCa, identity: Identity,
                           requestId: string, clocks: Clocks, trace: Trace, work: Option<Body>, o: Outcome,
                           exitRaises: bool)
    requires WorkedLedger(alone, before, after, ca, identity, requestId, clocks, trace, work, o, exitRaises)
    requires Answers(work, o, identity, exitRaises) && o.Issued?
    ensures Drift(alone, before, trace.inside)
    ensures after.ca == trace.inside.ca
    ensures |after.events| == |trace.inside.events| + 1
    ensures var c, serial := o.credential, Decimal.Show(o.credential.serial);
            && after.certificates == trace.inside.certificates + [
                 CertificateRow(o.record.certificateId, ca.caId, serial, c.keyId, c.key.fingerprint,
                                EncodePrincipals(c.principals), c.validAfter, c.validAfter + 90000, requestId,
                                "success")]
            && after.events == trace.inside.events + [
                 EventRow(after.events[|trace.inside.events|].eventId, c.validAfter, "certificate_issued", "allow",
                          requestId, Some(c.keyId), Some(ca.caId), Some(serial))]
  {
    hide Drift, Drifts, RecordCertificate, Decimal.Show, EncodePrincipals;
    DriftsWhole(alone, before, trace.views, trace.inside);
    CertificateAccepted(trace.inside, Evidence(ca, o.credential, requestId), "success", true);
  }
}
