/** Where the ledger's own rules let it be driven into a state that its consistency check rejects,
    and where they answer misleadingly (`src/ski/state.py`). */
module LedgerLimits {
  import opened Basics
  import opened IssuerPolicy
  import opened Ledger
  import opened LedgerChecks
  import opened LedgerRuns
  import Decimal

  // ---- attempts that succeed and spoil an acceptable ledger ----

  /** Any certificate recorded as a success without its event. */
  lemma UnvouchedSuccessRejected(t: Tables, c: NewCertificate)
    requires Sound(t) && Accepted(t)
    requires CheckCertificate(c, "success").Ok? && CertificateFitsColumns(c) && !CertificateConflict(t, c)
    ensures RecordCertificate(t, c, "success", false).Ok? && !Accepted(Apply(t, OpCertificate(c, "success")))
  {
    hide Sound, Accepted, CheckCertificate, CertificateConflict, CertificateFitsColumns;
    ApplyAccepted(t, OpCertificate(c, "success"));
  }

  /** Any certificate recorded with its event, but valid from before 1970. */
  lemma EarlyIssueRejected(t: Tables, c: NewCertificate)
    requires Sound(t) && Accepted(t) && c.validAfter < 0
    requires CheckCertificate(c, "success").Ok? && CertificateFitsColumns(c) && !CertificateConflict(t, c)
    ensures RecordCertificate(t, c, "success", true).Ok? && !Accepted(Apply(t, OpIssue(c)))
  {
    hide Sound, Accepted, CheckCertificate, CertificateConflict, CertificateFitsColumns;
    ApplyAccepted(t, OpIssue(c));
  }

  predicate EventFits(t: Tables, e: NewEvent) {
    CheckEvent(e).Ok? && FitsColumn(CheckEvent(e).value)
    && (e.caId.Some? ==> FitsColumn(e.caId.value) && HasCa(t, e.caId.value))
  }

  /** Any event that names a serial which is not recorded for the CA it names, or names no CA. */
  lemma StrayEventRejected(t: Tables, e: NewEvent)
    requires Sound(t) && Accepted(t) && EventFits(t, e)
    requires e.serial.Some? && e.serial.value >= 0
    requires e.caId.Some? ==> !HasSerial(t, e.caId.value, Decimal.Show(e.serial.value))
    ensures RecordEvent(t, e).Ok? && !Accepted(Apply(t, OpEvent(e)))
  {
    hide Sound, Accepted, CheckEvent, HasSerial;
    ApplyAccepted(t, OpEvent(e));
  }

  /** Any event dated before 1970. */
  lemma EarlyEventRejected(t: Tables, e: NewEvent)
    requires Sound(t) && Accepted(t) && EventFits(t, e) && Timestamp(e.at).value < 0
    ensures RecordEvent(t, e).Ok? && !Accepted(Apply(t, OpEvent(e)))
  {
    hide Sound, Accepted, HasSerial;
    ApplyAccepted(t, OpEvent(e));
  }

  /** A CA registered with a date before 1970. */
  lemma EarlyCaRejected(t: Tables, c: NewCa)
    requires Sound(t) && Accepted(t) && t.ca == []
    requires CheckCa(c).Ok? && FitsColumn(CheckCa(c).value) && CheckCa(c).value < 0
    ensures RegisterCa(t, c).Ok? && !Accepted(Apply(t, OpCa(c)))
  {
    hide Sound, Accepted;
    SecondCaConflicts(t, c);
    ApplyAccepted(t, OpCa(c));
  }

  // ---- a history for each ----

  const CA_KEY := NewCa(PublicKey(ALGORITHM, "f"), "f", Path("d", "k"), Seconds(0.0), None)

  const USUAL := NewCertificate(1, 7, "u", "p", ["u"], 0, 90000, "r")

  function EventAt(seconds: real, serial: Option<int>): NewEvent {
    NewEvent("k", "d", "r", Zoned(seconds), None, Some(1), serial)
  }

  lemma UsualChecks(validAfter: int)
    ensures var c := USUAL.(validAfter := validAfter, validBefore := validAfter + 90000);
            CheckCertificate(c, "success").Ok?
  {
    ValidateAccepts(["u"]);
    assert CanonicalUsername("u") && ValidText("p") && ValidText("r");
  }

  /** A ledger holding nothing but a registered CA. */
  lemma RegisteredHistory()
    ensures var t := Run([OpCa(CA_KEY)]);
            && Sound(t) && Accepted(t) && t.certificates == [] && HasCa(t, 1)
  {
    hide Accepted;
    var ops := [OpCa(CA_KEY)];
    RunSound(ops);
    OrdinaryRunAccepted(ops);
    assert ops[..0] == [] && Run([]) == EMPTY;
    var t := Run(ops);
    assert t == Apply(EMPTY, OpCa(CA_KEY));
    assert t.ca == [NewCaRow(EMPTY, CA_KEY, 0)] && t.certificates == [];
    assert t.ca[0].caId == 1;
  }

  /** A registered CA is followed by each kind of attempt, or is itself registered too early; each
      attempt succeeds, and leaves a ledger that the check rejects. */
  lemma SpoiledHistories()
    ensures Accepted(Run([OpCa(CA_KEY)]))
    ensures !Accepted(Run([OpCa(CA_KEY), OpCertificate(USUAL, "success")]))
    ensures !Accepted(Run([OpCa(CA_KEY), OpIssue(USUAL.(validAfter := -1, validBefore := 89999))]))
    ensures !Accepted(Run([OpCa(CA_KEY), OpEvent(EventAt(0.0, Some(7)))]))
    ensures !Accepted(Run([OpCa(CA_KEY), OpEvent(EventAt(-1.0, None))]))
    ensures Accepted(Run([])) && !Accepted(Run([OpCa(CA_KEY.(at := Zoned(-1.0)))]))
  {
    hide Sound, Accepted, Apply, CheckCertificate;
    RegisteredHistory();
    var t := Run([OpCa(CA_KEY)]);
    var early := USUAL.(validAfter := -1, validBefore := 89999);
    UsualChecks(0);
    UsualChecks(-1);
    UnvouchedSuccessRejected(t, USUAL);
    EarlyIssueRejected(t, early);
    assert ValidText("k") && ValidText("d") && ValidText("r");
    StrayEventRejected(t, EventAt(0.0, Some(7)));
    EarlyEventRejected(t, EventAt(-1.0, None));
    Second(OpCa(CA_KEY), OpCertificate(USUAL, "success"));
    Second(OpCa(CA_KEY), OpIssue(early));
    Second(OpCa(CA_KEY), OpEvent(EventAt(0.0, Some(7))));
    Second(OpCa(CA_KEY), OpEvent(EventAt(-1.0, None)));
    EarlyHistory();
  }

  lemma EarlyHistory()
    ensures Accepted(Run([])) && !Accepted(Run([OpCa(CA_KEY.(at := Zoned(-1.0)))]))
  {
    hide Accepted, Apply;
    var early := CA_KEY.(at := Zoned(-1.0));
    OrdinaryRunAccepted([]);
    RunSound([]);
    assert Run([]) == EMPTY && [OpCa(early)][..0] == [];
    EarlyCaRejected(EMPTY, early);
  }

  lemma Second(first: Operation, second: Operation)
    ensures Run([first, second]) == Apply(Run([first]), second)
  {
    assert [first, second][..1] == [first];
  }

  // ---- an answer that misleads ----

  /** Recording any valid certificate for a CA that is not registered is reported as a duplicate
      serial, although no certificate has that serial. */
  lemma MissingCaReportedDuplicate(t: Tables, c: NewCertificate, outcome: string, recordEvent: bool)
    requires Sound(t) && !HasCa(t, c.caId)
    requires CheckCertificate(c, outcome).Ok? && CertificateFitsColumns(c)
    ensures RecordCertificate(t, c, outcome, recordEvent) == Err(DuplicateSerial)
    ensures ListCertificates(t).Ok? && !KnownSerial(ListCertificates(t).value, c.caId, c.serial)
  {
    hide Sound, ListCertificates, KnownSerial, HasCa;
    DuplicateMeans(t, c, outcome, recordEvent);
  }
}
