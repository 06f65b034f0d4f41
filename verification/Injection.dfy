/** Issuance of an ordinary credential into a forwarded agent, with compensation across the
    agent and the ledger (`src/ski/injection.py`, `src/ski/credentials.py`). */
module Injection {
  import opened Basics
  import opened IssuerPolicy
  import opened StoredText
  import opened Ledger
  import opened LedgerRuns
  import opened StateDatabases
  import Decimal

  // ---- identities, keys, certificates ----

  datatype Identity = Identity(username: string, groups: seq<string>)

  /** The validated active CA used for signing. */
  datatype ActiveCa = ActiveCa(caId: int, fingerprint: string)

  /** A freshly generated user key, known by its material and its fingerprint. */
  datatype UserKey = UserKey(material: nat, fingerprint: string)

  /** What an agent entry's certificate shows; foreign certificates may lack parts. */
  datatype CertificateInfo = CertificateInfo(
    serial: Option<nat>, keyId: Option<string>, signer: Option<string>, principals: seq<string>)

  datatype Credential = Credential(
    key: UserKey, certificate: CertificateInfo, keyId: string, principals: seq<string>, serial: nat,
    validAfter: int, validBefore: int, comment: string)

  /** Chance inputs of one attempt: allocated serial, clock reading, generated key. */
  datatype Draw = Draw(serial: int, clock: int, key: UserKey)

  datatype IssueError = IdentityMalformed | SerialRejected | GenerationFailed

  /** Builds and signs one credential. */
  function Issue(ca: ActiveCa, identity: Identity, draw: Draw): Result<Credential, IssueError> {
    match BuildPrincipals(identity.username, identity.groups)
    case Err(_) => Err(IdentityMalformed)
    case Ok(principals) =>
      if draw.serial < 0 || draw.serial >= SERIAL_LIMIT then Err(SerialRejected)
      else
        var certificate :=
          CertificateInfo(Some(draw.serial), Some(identity.username), Some(ca.fingerprint), principals);
        Ok(Credential(draw.key, certificate, identity.username, principals, draw.serial, draw.clock,
                      draw.clock + CERTIFICATE_LIFETIME, Marker(identity.username, ca.fingerprint, draw.serial)))
  }

  /** The ledger row a credential asks for. */
  function Evidence(ca: ActiveCa, c: Credential, requestId: string): NewCertificate {
    NewCertificate(ca.caId, c.serial, c.keyId, c.key.fingerprint, c.principals, c.validAfter, c.validBefore, requestId)
  }

  function FailureEvent(ca: ActiveCa, identity: Identity, requestId: string, clock: real): NewEvent {
    NewEvent("certificate_failed", "deny", requestId, Now(clock), Some(identity.username), Some(ca.caId), None)
  }

  // ---- the forwarded agent ----

  /** Public data of an entry; distinct keys and certificates have distinct public data. */
  datatype Blob = KeyBlob(material: nat) | CertificateBlob(material: nat, certificate: CertificateInfo)

  datatype Entry = Entry(blob: Blob, comment: Option<string>)

  /** An issued credential is held as a certificate entry and a plain key entry. */
  function CertificateEntry(c: Credential): Entry {
    Entry(CertificateBlob(c.key.material, c.certificate), Some(c.comment))
  }

  function KeyEntry(c: Credential): Entry {
    Entry(KeyBlob(c.key.material), Some(c.comment))
  }

  function EntriesOf(c: Credential): set<Entry> { {CertificateEntry(c), KeyEntry(c)} }

  predicate IsOwned(e: Entry, username: string, caFingerprint: string) {
    e.blob.CertificateBlob? && e.comment.Some?
    && var cert := e.blob.certificate;
       ValidatePrincipals(cert.principals).Ok?
       && cert.serial.Some?
       && cert.keyId == Some(username)
       && cert.signer == Some(caFingerprint)
       && cert.principals[0] == username
       && e.comment.value == Marker(username, caFingerprint, cert.serial.value)
  }

  function Owned(entries: set<Entry>, username: string, caFingerprint: string): set<Entry> {
    set e | e in entries && IsOwned(e, username, caFingerprint)
  }

  /** What the issuer asks of an entry before it removes it for a user, in full: a certificate
      that it signed for the user, with canonical principals that name the user first, and a
      comment made of the user, the CA's fingerprint and that certificate's own serial. */
  ghost predicate Marked(e: Entry, username: string, caFingerprint: string) {
    && e.blob.CertificateBlob? && e.comment.Some? && e.blob.certificate.serial.Some?
    && e.comment.value ==
       "ski:" + username + ":" + caFingerprint + ":" + Decimal.Show(e.blob.certificate.serial.value)
    && e.blob.certificate.keyId == Some(username) && e.blob.certificate.signer == Some(caFingerprint)
    && AreCanonicalPrincipals(e.blob.certificate.principals) && e.blob.certificate.principals[0] == username
  }

  lemma OwnedMeans(entries: set<Entry>, e: Entry, username: string, caFingerprint: string)
    ensures e in Owned(entries, username, caFingerprint) <==> e in entries && Marked(e, username, caFingerprint)
  {
    hide Decimal.Show, AreCanonicalPrincipals;
    if e.blob.CertificateBlob? { ValidateAccepts(e.blob.certificate.principals); }
  }

  /** What a request does to the entries that it finds, by their marks: whatever happens, only
      marked entries go; a success leaves exactly the others and its credential's two. */
  ghost predicate Renewed(before: set<Entry>, after: set<Entry>, username: string, caFingerprint: string, o: Outcome) {
    && (forall e :: e in before && e !in after ==> Marked(e, username, caFingerprint))
    && (o.Issued? ==>
          var c := o.credential;
          forall e :: e in after <==>
            || (e in before && !Marked(e, username, caFingerprint))
            || e == Entry(CertificateBlob(c.key.material, c.certificate), Some(c.comment))
            || e == Entry(KeyBlob(c.key.material), Some(c.comment)))
  }

  ghost predicate FreshKey(entries: set<Entry>, key: UserKey) {
    forall e :: e in entries ==> e.blob.material != key.material
  }

  datatype Cleanup = Cleanup(removed: nat, failures: nat) {
    predicate Complete() { failures == 0 }
  }

  /** With no failures nothing is new, with one at most one entry is. */
  ghost predicate FewFresh(before: set<Entry>, after: set<Entry>, failures: nat) {
    (failures == 0 ==> after <= before) && (failures == 1 ==> exists e :: after <= before + {e})
  }

  lemma FewerFresh(before: set<Entry>, base: set<Entry>, after: set<Entry>, failures: nat)
    requires base <= before && FewFresh(base, after, failures)
    ensures FewFresh(before, after, failures)
  {
    if failures == 1 {
      var e :| after <= base + {e};
      assert after <= before + {e};
    }
  }

  lemma LeftOver(c: Credential, after: set<Entry>, base: set<Entry>, failures: nat)
    requires base <= after <= base + EntriesOf(c)
    requires (if KeyEntry(c) in after then 1 else 0) + (if CertificateEntry(c) in after then 1 else 0) <= failures
    ensures FewFresh(base, after, failures) && (failures == 0 ==> after == base)
  {
    if failures == 1 {
      if KeyEntry(c) in after {
        assert after <= base + {KeyEntry(c)};
      } else {
        assert after <= base + {CertificateEntry(c)};
      }
    }
  }

  /** A cleanup never claims more removals than happened, and without failures counts them all. */
  ghost predicate Counted(before: set<Entry>, after: set<Entry>, r: Cleanup) {
    r.removed <= |before - after| && (r.failures == 0 ==> r.removed == |before - after|)
  }

  lemma FewerCounted(s: set<Entry>, t: set<Entry>)
    requires s <= t
    ensures |s| <= |t|
  {
    assert t == s + (t - s);
  }

  class ForwardedAgent {
    /** When set, no call fails by itself. */
    const reliable: bool

    var entries: set<Entry>

    /** How many calls have failed by themselves so far. */
    ghost var faults: nat

    ghost predicate Valid()
      reads this
    {
      reliable ==> faults == 0
    }

    constructor (entries: set<Entry>, reliable: bool)
      ensures Valid() && this.entries == entries && this.reliable == reliable
    {
      this.entries, this.reliable, faults := entries, reliable, 0;
    }

    method Faults() returns (fault: bool)
      requires Valid()
      modifies this`faults
      ensures Valid() && faults == old(faults) + (if fault then 1 else 0)
    {
      fault := *;
      if reliable { fault := false; }
      if fault { faults := faults + 1; }
    }

    /** An arbitrary part of a set: what an interrupted batch got done. */
    method AnyPart(s: set<Entry>) returns (part: set<Entry>)
      ensures part <= s
    {
      part := {};
      var rest := s;
      while rest != {}
        invariant part <= s && rest <= s
        decreases |rest|
      {
        var e :| e in rest;
        rest := rest - {e};
        var taken := *;
        if taken { part := part + {e}; }
      }
    }

    method OwnedKeys(username: string, caFingerprint: string) returns (r: Option<set<Entry>>)
      requires Valid()
      modifies this`faults
      ensures Valid() && faults == old(faults) + (if r.Some? then 0 else 1)
      ensures r.Some? ==> r.value == Owned(entries, username, caFingerprint)
    {
      var fault := Faults();
      return if fault then None else Some(Owned(entries, username, caFingerprint));
    }

    method RemoveKeys(keys: set<Entry>) returns (ok: bool)
      requires Valid()
      modifies this
      ensures Valid() && faults == old(faults) + (if ok then 0 else 1)
      ensures if ok then entries == old(entries) - keys else old(entries) - keys <= entries <= old(entries)
    {
      var fault := Faults();
      if fault {
        var part := AnyPart(keys);
        entries := entries - part;
      } else {
        entries := entries - keys;
      }
      ok := !fault;
    }

    method AddCredential(c: Credential) returns (ok: bool)
      requires Valid() && FreshKey(entries, c.key)
      modifies this
      ensures Valid() && faults == old(faults) + (if ok then 0 else 1)
      ensures if ok then entries == old(entries) + EntriesOf(c)
              else old(entries) <= entries <= old(entries) + EntriesOf(c)
    {
      var fault := Faults();
      if fault {
        var part := AnyPart(EntriesOf(c));
        entries := entries + part;
      } else {
        entries := entries + EntriesOf(c);
      }
      ok := !fault;
    }

    /** Removes both entries of a credential, one public datum at a time. The failures it
        notes are exactly those that happened, and each leaves at most one entry behind. */
    method RemoveCredential(c: Credential, ghost base: set<Entry>) returns (r: Cleanup)
      requires Valid() && base <= entries <= base + EntriesOf(c) && FreshKey(base, c.key)
      modifies this
      ensures Valid() && faults == old(faults) + r.failures && r.failures <= 2
      ensures base <= entries <= old(entries)
      ensures FewFresh(base, entries, r.failures) && (r.failures == 0 ==> entries == base)
      ensures Counted(old(entries), entries, r)
    {
      hide FewFresh;
      r := Cleanup(0, 0);
      ghost var counted: set<Entry> := {};
      var blobs := [KeyEntry(c).blob, CertificateEntry(c).blob];
      assert forall e :: e in base ==> e.blob != blobs[0] && e.blob != blobs[1];
      for i := 0 to 2
        invariant Valid() && faults == old(faults) + r.failures && r.failures <= i
        invariant base <= entries <= old(entries)
        invariant (if i > 0 && KeyEntry(c) in entries then 1 else 0)
                  + (if i > 1 && CertificateEntry(c) in entries then 1 else 0)
                  <= r.failures
        invariant r.removed == |counted| && counted <= old(entries) - entries
        invariant r.failures == 0 ==> counted == old(entries) - entries
      {
        var listing := Faults();
        if listing {
          r := r.(failures := r.failures + 1);
        } else {
          var added := set e | e in entries && e.blob == blobs[i];
          ghost var target := if i == 0 then KeyEntry(c) else CertificateEntry(c);
          assert target in entries <==> target in added;
          if added != {} {
            ghost var present := entries;
            var removed := RemoveKeys(added);
            if removed {
              assert entries == present - added && counted !! added;
              assert |counted + added| == |counted| + |added|;
              counted := counted + added;
            }
            r := if removed then r.(removed := r.removed + |added|) else r.(failures := r.failures + 1);
          }
        }
      }
      LeftOver(c, entries, base, r.failures);
      FewerCounted(counted, old(entries) - entries);
    }
  }

  // ---- issuance service ----

  class OrdinaryIssuanceService {
    const database: StateDatabase
    const ca: ActiveCa

    /** When set, key generation and signing do not fail by themselves. */
    const reliable: bool

    /** How often they have failed so far. */
    ghost var faults: nat

    ghost predicate Valid()
      reads this, database
    {
      database.Valid() && (reliable ==> faults == 0)
    }

    /** When set, nobody else uses the ledger meanwhile. */
    const alone: bool

    constructor (database: StateDatabase, ca: ActiveCa, reliable: bool, alone: bool)
      requires database.Valid()
      ensures Valid() && this.database == database && this.ca == ca && this.reliable == reliable && this.alone == alone
    {
      this.database, this.ca, this.reliable, this.alone, faults := database, ca, reliable, alone, 0;
    }

    /** While this request was suspended, other requests and programs used the ledger. */
    method Others()
      requires Valid()
      modifies database`durable, database`working
      ensures Valid() && Drift(alone, old(database.durable), database.durable)
    {
      NoDrift(alone, database.durable);
      var ops: seq<Operation> := *;
      if !alone && !database.inTransaction && forall i :: 0 <= i < |ops| ==> Ordinary(ops[i]) {
        DriftRan(alone, database.durable, ops);
        database.Interleave(ops);
      }
    }

    method Prepare(identity: Identity, draw: Draw) returns (r: Result<Credential, IssueError>)
      requires Valid()
      modifies this`faults
      ensures Valid()
      ensures if faults == old(faults) then r == Issue(ca, identity, draw)
              else faults == old(faults) + 1 && r == Err(GenerationFailed)
    {
      r := Issue(ca, identity, draw);
      var fault := *;
      if fault && !reliable {
        r := Err(GenerationFailed);
        faults := faults + 1;
      }
    }

    /** Records a credential as issued in the tables it then finds: `at`. */
    method Commit(c: Credential, requestId: string) returns (r: Result<CertificateRecord, StateError>, ghost at: Tables)
      requires Valid()
      modifies database
      ensures Valid() && Drift(alone, old(database.durable), at)
      ensures Attempted(at, database.durable, Recording(at, ca, c, requestId), r)
      ensures old(database.faults) <= database.faults
      ensures old(database.Ready()) && database.faults == old(database.faults) ==>
                database.Ready() && Exact(Recording(at, ca, c, requestId), r)
    {
      Others();
      at := database.durable;
      r := database.RecordCertificateWithEvent(Evidence(ca, c, requestId));
    }

    /** Notes a failed request in the tables it then finds; reports whether the note was made. */
    method RecordFailure(identity: Identity, requestId: string, clock: real) returns (recorded: bool, ghost at: Tables)
      requires Valid()
      modifies database
      ensures Valid() && Drift(alone, old(database.durable), at)
      ensures Noted(at, database.durable, FailureEvent(ca, identity, requestId, clock), recorded)
      ensures old(database.faults) <= database.faults
      ensures old(database.Ready()) && database.faults == old(database.faults) ==>
                && database.Ready()
                && (recorded <==> RecordEvent(at, FailureEvent(ca, identity, requestId, clock)).Ok?)
    {
      Others();
      at := database.durable;
      var r := database.RecordEvent(FailureEvent(ca, identity, requestId, clock));
      recorded := r.Ok?;
    }
  }

  /** Recording a credential as successfully issued. */
  function Recording(t: Tables, ca: ActiveCa, c: Credential, requestId: string):
      Result<(Tables, CertificateRecord), StateError>
  {
    RecordCertificate(t, Evidence(ca, c, requestId), "success", true)
  }

  /** Either the event was appended, or nothing changed. */
  ghost predicate Noted(before: Tables, after: Tables, e: NewEvent, recorded: bool) {
    if recorded then RecordEvent(before, e).Ok? && after == RecordEvent(before, e).value.0 else after == before
  }

  // ---- the request ----

  datatype Cause =
    | AgentUnavailable
    | NotPrepared(issueError: IssueError)
    | NotCommitted(stateError: StateError)
    | CleanupIncomplete
    | SerialsExhausted
    | ContextNotClosed

  datatype Outcome =
    | Issued(credential: Credential, record: CertificateRecord, groups: seq<string>)
    | Failed(cause: Cause, cleanup: Option<Cleanup>, audited: bool)

  /** How the work inside the agent context ends. */
  datatype Body =
    | Returned(credential: Credential, record: CertificateRecord)
    | Exhausted
    | Raised(cause: Cause)
    | WorkflowFailure(outcome: Outcome)

  const ATTEMPTS := 5

  ghost function EntriesOfLast(last: Option<Credential>): set<Entry> {
    if last.Some? then EntriesOf(last.value) else {}
  }

  /** The first attempt, if any, that neither collides nor is rejected decides the request. */
  ghost predicate Collides(t: Tables, ca: ActiveCa, identity: Identity, requestId: string, draw: Draw) {
    Issue(ca, identity, draw).Ok?
    && Recording(t, ca, Issue(ca, identity, draw).value, requestId) == Err(DuplicateSerial)
  }

  ghost predicate Commits(t: Tables, ca: ActiveCa, identity: Identity, requestId: string, draw: Draw) {
    Issue(ca, identity, draw).Ok? && Recording(t, ca, Issue(ca, identity, draw).value, requestId).Ok?
  }

  ghost predicate DecidedAt(t: Tables, ca: ActiveCa, identity: Identity, requestId: string, draws: seq<Draw>, k: nat) {
    k < |draws| && Commits(t, ca, identity, requestId, draws[k])
    && forall j :: 0 <= j < k ==> Collides(t, ca, identity, requestId, draws[j])
  }

  ghost predicate Decided(t: Tables, ca: ActiveCa, identity: Identity, requestId: string, draws: seq<Draw>) {
    exists k: nat :: DecidedAt(t, ca, identity, requestId, draws, k)
  }

  ghost predicate AllCollide(t: Tables, ca: ActiveCa, identity: Identity, requestId: string, draws: seq<Draw>) {
    forall k :: 0 <= k < |draws| ==> Collides(t, ca, identity, requestId, draws[k])
  }

  /** How one pass of the issuing loop ends. */
  datatype Step =
    | Committed(credential: Credential, record: CertificateRecord)
    | Collided
    | Stopped(outcome: Outcome)

  /** How the part of a pass after preparation ends. */
  datatype Trial =
    | Recorded(record: CertificateRecord)
    | Clashed
    | Broken(cause: Cause)

  /** What that part does to the agent; `base` are the entries to go back to. */
  ghost predicate TrialAgent(before: set<Entry>, pending: set<Entry>, base: set<Entry>, after: set<Entry>,
                             c: Credential, r: Trial)
  {
    && before - pending <= base <= before
    && match r
       case Recorded(_) => after == before - pending + EntriesOf(c)
       case Clashed => after == before - pending
       case Broken(_) => base <= after <= base + EntriesOf(c)
  }

  ghost predicate TrialLedger(before: Tables, after: Tables, ca: ActiveCa, c: Credential, requestId: string, r: Trial) {
    match r
    case Recorded(record) => Recording(before, ca, c, requestId) == Ok((after, record))
    case Clashed => after == before
    case Broken(_) => after == before
  }

  ghost predicate TrialAccounted(r: Trial, failures: int) {
    if r.Broken? then
      match r.cause
      case AgentUnavailable => failures == 1
      case NotCommitted(_) => failures == 0
      case CleanupIncomplete => 0 < failures <= 2
      case _ => false
    else failures == 0
  }

  /** The failures that the cleanup of a failed request reports. */
  function Reported(o: Outcome): nat {
    if o.Failed? && o.cleanup.Some? then o.cleanup.value.failures else 0
  }

  /** Of the agent failures met, one ended the work if the agent is the cause, at least one left
      a collision uncleaned if that is the cause, and the cleanup that followed reports the rest. */
  ghost predicate Accounted(o: Outcome, failures: int) {
    o.Failed?
    && match o.cause
       case AgentUnavailable => failures == Reported(o) + 1
       case CleanupIncomplete => Reported(o) < failures <= Reported(o) + 2
       case _ => failures == Reported(o)
  }

  ghost predicate StepAccounted(s: Step, failures: int) {
    if s.Stopped? then Accounted(s.outcome, failures) else failures == 0
  }

  ghost predicate BodyAccounted(b: Body, failures: int) {
    match b
    case Returned(_, _) => failures == 0
    case Exhausted => failures == 0
    case Raised(cause) => Accounted(Failed(cause, None, false), failures)
    case WorkflowFailure(o) => Accounted(o, failures)
  }

  // ---- what a request leaves when nothing fails ----

  /** The tables after noting a failed request, where that is possible. */
  ghost function AfterNote(t: Tables, e: NewEvent): Tables {
    if RecordEvent(t, e).Ok? then RecordEvent(t, e).value.0 else t
  }

  /** What the agent context leaves in the ledger, noting a failure as `inside`. */
  ghost function LeftLedger(t: Tables, ca: ActiveCa, identity: Identity, requestId: string, draws: seq<Draw>,
                            inside: NewEvent): Tables
  {
    if Decided(t, ca, identity, requestId, draws) then
      var k: nat :| DecidedAt(t, ca, identity, requestId, draws, k);
      Recording(t, ca, Issue(ca, identity, draws[k]).value, requestId).value.0
    else if AllCollide(t, ca, identity, requestId, draws) then t
    else AfterNote(t, inside)
  }

  /** What the whole request leaves there, noting a failure of its own as `outside`. */
  ghost function SettledLedger(t: Tables, ca: ActiveCa, identity: Identity, requestId: string, draws: seq<Draw>,
                               inside: NewEvent, outside: NewEvent, exitRaises: bool): Tables
  {
    var left := LeftLedger(t, ca, identity, requestId, draws, inside);
    if exitRaises || AllCollide(t, ca, identity, requestId, draws) then AfterNote(left, outside) else left
  }

  /** What it leaves in the agent. */
  ghost function SettledAgent(entries: set<Entry>, owned: set<Entry>, t: Tables, ca: ActiveCa, identity: Identity,
                              requestId: string, draws: seq<Draw>): set<Entry>
  {
    if Decided(t, ca, identity, requestId, draws) then
      var k: nat :| DecidedAt(t, ca, identity, requestId, draws, k);
      entries - owned + EntriesOf(Issue(ca, identity, draws[k]).value)
    else if draws != [] && Issue(ca, identity, draws[0]).Ok? then entries - owned
    else entries
  }

  /** What one pass does to the agent. */
  ghost predicate Stepped(before: set<Entry>, pending: set<Entry>, after: set<Entry>, s: Step,
                          last: Option<Credential>)
  {
    match s
    case Committed(c, _) => after == before - pending + EntriesOf(c)
    case Collided => after == before - pending
    case Stopped(o) =>
      o.Failed? && before - pending <= after <= before + EntriesOfLast(last) && FewFresh(before, after, Reported(o))
  }

  /** What one pass does to the ledger. */
  ghost predicate Kept(before: Tables, after: Tables, ca: ActiveCa, identity: Identity, requestId: string, clock: real,
                       s: Step)
  {
    match s
    case Committed(c, record) => Recording(before, ca, c, requestId) == Ok((after, record))
    case Collided => after == before
    case Stopped(o) => o.Failed? && Noted(before, after, FailureEvent(ca, identity, requestId, clock), o.audited)
  }

  /** What the work inside the agent context does to the agent. */
  ghost predicate BodyAgent(before: set<Entry>, owned: set<Entry>, after: set<Entry>, b: Body,
                            last: Option<Credential>)
  {
    match b
    case Returned(c, _) => after == before - owned + EntriesOf(c) && last == Some(c)
    case Exhausted => after == before - owned
    case Raised(_) => after == before
    case WorkflowFailure(o) =>
      before - owned <= after <= before + EntriesOfLast(last) && FewFresh(before, after, Reported(o))
  }

  /** What it does to the ledger. */
  ghost predicate BodyLedger(before: Tables, after: Tables, ca: ActiveCa, identity: Identity, requestId: string,
                             clock: real, b: Body)
  {
    match b
    case Returned(c, record) => Recording(before, ca, c, requestId) == Ok((after, record))
    case Exhausted => after == before
    case Raised(_) => after == before
    case WorkflowFailure(o) =>
      o.Failed? && Noted(before, after, FailureEvent(ca, identity, requestId, clock), o.audited)
  }

  // ---- the whole request ----

  /** The times read for noting a failure, inside the agent context and outside it. */
  datatype Clocks = Clocks(inside: real, outside: real)

  /** How the work, if the agent was reached at all, becomes the answer. When closing the agent
      context raises, that is what the answer tells. */
  predicate Answers(work: Option<Body>, o: Outcome, identity: Identity, exitRaises: bool) {
    match work
    case None => o.Failed? && o.cause == AgentUnavailable && o.cleanup.None?
    case Some(b) =>
      if exitRaises then o.Failed? && o.cause == ContextNotClosed && o.cleanup.None?
      else match b
        case Returned(credential, record) => o == Issued(credential, record, identity.groups)
        case WorkflowFailure(failed) => o.Failed? && o == failed
        case Raised(cause) => o.Failed? && o.cause == cause && o.cleanup.None?
        case Exhausted => o.Failed? && o.cause == SerialsExhausted && o.cleanup.None?
  }

  ghost predicate WorkedAgent(before: set<Entry>, owned: set<Entry>, after: set<Entry>, work: Option<Body>,
                              last: Option<Credential>)
  {
    match work
    case None => after == before && last.None?
    case Some(b) => BodyAgent(before, owned, after, b, last)
  }

  /** The tables a request found: at each commit it tried, at its last ledger operation inside
      the agent context, when it left the context, and at its note outside it. */
  datatype Trace = Trace(views: seq<Tables>, inside: Tables, left: Tables, outside: Tables)

  /** Between its own operations a request's tables only drift. */
  ghost predicate Drifts(alone: bool, before: Tables, views: seq<Tables>, last: Tables) {
    if views == [] then Drift(alone, before, last)
    else Drifts(alone, before, views[..|views| - 1], views[|views| - 1]) && Drift(alone, views[|views| - 1], last)
  }

  lemma DriftsAppend(alone: bool, before: Tables, views: seq<Tables>, view: Tables, last: Tables)
    requires Drifts(alone, before, views, view) && Drift(alone, view, last)
    ensures Drifts(alone, before, views + [view], last)
  {
    hide Drift;
    assert (views + [view])[..|views|] == views;
  }

  lemma DriftsLonger(alone: bool, before: Tables, views: seq<Tables>, last: Tables, later: Tables)
    requires Drifts(alone, before, views, last) && Drift(alone, last, later)
    ensures Drifts(alone, before, views, later)
  {
    hide Drift;
    DriftAgain(alone, if views == [] then before else views[|views| - 1], last, later);
  }

  lemma {:induction false} DriftsWhole(alone: bool, before: Tables, views: seq<Tables>, last: Tables)
    requires Drifts(alone, before, views, last)
    ensures Drift(alone, before, last)
  {
    hide Drift;
    if views != [] {
      DriftsWhole(alone, before, views[..|views| - 1], views[|views| - 1]);
      DriftAgain(alone, before, views[|views| - 1], last);
    }
  }

  lemma {:induction false} DriftsAlone(before: Tables, views: seq<Tables>, last: Tables)
    requires Drifts(true, before, views, last)
    ensures last == before && forall i :: 0 <= i < |views| ==> views[i] == before
  {
    hide Drift;
    if views == [] {
      DriftAlone(before, last);
    } else {
      DriftsAlone(before, views[..|views| - 1], views[|views| - 1]);
      DriftAlone(views[|views| - 1], last);
    }
  }

  /** The `k`-th commit tried succeeds in the tables it finds, and all before it collide in theirs. */
  ghost predicate DecidedIn(views: seq<Tables>, ca: ActiveCa, identity: Identity, requestId: string, draws: seq<Draw>,
                            k: nat)
  {
    k < |views| <= |draws| && Commits(views[k], ca, identity, requestId, draws[k])
    && forall j :: 0 <= j < k ==> Collides(views[j], ca, identity, requestId, draws[j])
  }

  ghost predicate AllCollideIn(views: seq<Tables>, ca: ActiveCa, identity: Identity, requestId: string,
                               draws: seq<Draw>)
  {
    |views| == |draws| && forall j :: 0 <= j < |draws| ==> Collides(views[j], ca, identity, requestId, draws[j])
  }

  /** After collisions the `k`-th draw cannot be issued, or is rejected in the tables it finds. */
  ghost predicate StoppedIn(views: seq<Tables>, ca: ActiveCa, identity: Identity, requestId: string, draws: seq<Draw>,
                            k: nat)
  {
    && k < |draws| && k <= |views| <= k + 1
    && (forall j :: 0 <= j < k ==> Collides(views[j], ca, identity, requestId, draws[j]))
    && (if |views| == k then Issue(ca, identity, draws[k]).Err?
        else !Commits(views[k], ca, identity, requestId, draws[k])
             && !Collides(views[k], ca, identity, requestId, draws[k]))
  }

  /** The draws, and the tables found at each commit, account for how the work ended. */
  ghost predicate Explained(b: Body, views: seq<Tables>, ca: ActiveCa, identity: Identity, requestId: string,
                            draws: seq<Draw>)
  {
    match b
    case Returned(c, _) =>
      exists k: nat :: DecidedIn(views, ca, identity, requestId, draws, k) && Issue(ca, identity, draws[k]) == Ok(c)
    case Exhausted => AllCollideIn(views, ca, identity, requestId, draws)
    case WorkflowFailure(_) => exists k: nat :: StoppedIn(views, ca, identity, requestId, draws, k)
    case Raised(_) => false
  }

  ghost predicate WorkAccounted(work: Option<Body>, failures: int) {
    match work
    case None => failures == 1
    case Some(b) => BodyAccounted(b, failures)
  }

  /** The failure is noted outside the agent context unless the work noted it and was heard. */
  predicate NotedOutside(work: Option<Body>, exitRaises: bool) {
    work.None? || exitRaises || work.value.Raised? || work.value.Exhausted?
  }

  ghost predicate WorkedLedger(alone: bool, before: Tables, after: Tables, ca: ActiveCa, identity: Identity,
                               requestId: string, clocks: Clocks, trace: Trace, work: Option<Body>, o: Outcome,
                               exitRaises: bool)
  {
    && Drifts(alone, before, trace.views, trace.inside)
    && (if work.Some? then
          && BodyLedger(trace.inside, trace.left, ca, identity, requestId, clocks.inside, work.value)
          && (work.value.Returned? || work.value.Exhausted? ==>
                trace.views != [] && trace.views[|trace.views| - 1] == trace.inside)
        else trace.left == trace.inside && trace.views == [])
    && (if NotedOutside(work, exitRaises) then
          && o.Failed? && Drift(alone, trace.left, trace.outside)
          && Noted(trace.outside, after, FailureEvent(ca, identity, requestId, clocks.outside), o.audited)
        else after == trace.left)
  }

  /** The tables in which the failure that the answer tells is noted. */
  function NotePoint(trace: Trace, work: Option<Body>, exitRaises: bool): Tables {
    if NotedOutside(work, exitRaises) then trace.outside else trace.inside
  }

  function NoteClock(clocks: Clocks, work: Option<Body>, exitRaises: bool): real {
    if NotedOutside(work, exitRaises) then clocks.outside else clocks.inside
  }

  /** An event can be noted after a certificate was recorded, or another event noted, exactly
      when it could be noted before. */
  lemma NotableStill(t: Tables, after: Tables, e: NewEvent)
    requires after.ca == t.ca
    ensures RecordEvent(after, e).Ok? <==> RecordEvent(t, e).Ok?
    ensures after.events <= AfterNote(after, e).events
    ensures |AfterNote(after, e).events| == |after.events| + NoteCount(t, e)
    ensures AfterNote(after, e).certificates == after.certificates && AfterNote(after, e).ca == after.ca
  {
    if e.caId.Some? { assert HasCa(after, e.caId.value) <==> HasCa(t, e.caId.value); }
  }

  function NoteCount(t: Tables, e: NewEvent): nat {
    if RecordEvent(t, e).Ok? then 1 else 0
  }

  /** The work inside the agent context registers no CA. */
  lemma BodyKeepsCa(before: Tables, after: Tables, ca: ActiveCa, identity: Identity, requestId: string, clock: real,
                    b: Body)
    requires BodyLedger(before, after, ca, identity, requestId, clock, b)
    ensures after.ca == before.ca
  {
    hide CheckCertificate, CertificateConflict, CheckEvent;
  }

  /** `last` is a credential issued for one of the draws. */
  ghost predicate DrawnFrom(ca: ActiveCa, identity: Identity, draws: seq<Draw>, last: Option<Credential>) {
    last.Some? ==> exists k :: 0 <= k < |draws| && Issue(ca, identity, draws[k]) == Ok(last.value)
  }

  lemma IssuedKey(ca: ActiveCa, identity: Identity, draw: Draw)
    ensures Issue(ca, identity, draw).Ok? ==> Issue(ca, identity, draw).value.key == draw.key
  {
  }

  class OrdinaryAgentInjector {
    const issuance: OrdinaryIssuanceService

    constructor (issuance: OrdinaryIssuanceService)
      ensures this.issuance == issuance
    {
      this.issuance := issuance;
    }

    ghost predicate Valid(agent: ForwardedAgent)
      reads agent, issuance, issuance.database
    {
      && agent as object != issuance && agent as object != issuance.database && issuance as object != issuance.database
      && agent.Valid() && issuance.Valid()
    }

    twostate predicate FaultsOnlyGrow(agent: ForwardedAgent)
      reads agent, issuance, issuance.database
    {
      old(agent.faults) <= agent.faults && old(issuance.faults) <= issuance.faults
      && old(issuance.database.faults) <= issuance.database.faults
    }

    /** The database has not failed by itself since, and had nothing left open before. */
    twostate predicate DatabaseUndisturbed()
      reads issuance.database
    {
      issuance.database.faults == old(issuance.database.faults) && old(issuance.database.Ready())
    }

    /** Nothing has failed by itself since. */
    twostate predicate Undisturbed(agent: ForwardedAgent)
      reads agent, issuance, issuance.database
    {
      agent.faults == old(agent.faults) && issuance.faults == old(issuance.faults) && DatabaseUndisturbed()
    }

    /** The ledger accepts the note of a failure. */
    ghost predicate Notable(t: Tables, identity: Identity, requestId: string, clock: real) {
      RecordEvent(t, FailureEvent(issuance.ca, identity, requestId, clock)).Ok?
    }

    /** Ends a request as failed, noting it in the ledger when that is possible. */
    method RaiseWorkflowFailure(cause: Cause, cleanup: Option<Cleanup>, identity: Identity, requestId: string,
                                clock: real)
      returns (o: Outcome, ghost at: Tables)
      requires issuance.Valid()
      modifies issuance.database
      ensures issuance.Valid()
      ensures o.Failed? && o.cause == cause && o.cleanup == cleanup
      ensures Drift(issuance.alone, old(issuance.database.durable), at)
      ensures Noted(at, issuance.database.durable, FailureEvent(issuance.ca, identity, requestId, clock), o.audited)
      ensures old(issuance.database.faults) <= issuance.database.faults
      ensures DatabaseUndisturbed() ==>
                issuance.database.Ready() && (o.audited <==> Notable(at, identity, requestId, clock))
    {
      var recorded;
      recorded, at := issuance.RecordFailure(identity, requestId, clock);
      o := Failed(cause, cleanup, recorded);
    }

    /** Undoes the last attempt's agent entries, then ends the request as failed. The cleanup is
        made whenever there is something to clean up, and reports exactly its own failures. */
    method Compensate(agent: ForwardedAgent, cause: Cause, credential: Option<Credential>, identity: Identity,
                      requestId: string, clock: real, ghost base: set<Entry>)
      returns (o: Outcome, ghost at: Tables)
      requires Valid(agent)
      requires base <= agent.entries <= base + EntriesOfLast(credential)
      requires credential.Some? ==> FreshKey(base, credential.value.key)
      modifies agent, issuance.database
      ensures Valid(agent) && FaultsOnlyGrow(agent)
      ensures o.Failed? && o.cause == cause
      ensures o.cleanup.Some? <==> credential.Some?
      ensures agent.faults == old(agent.faults) + Reported(o)
      ensures base <= agent.entries <= old(agent.entries) && FewFresh(base, agent.entries, Reported(o))
      ensures Reported(o) == 0 ==> agent.entries == base
      ensures o.cleanup.Some? ==> Counted(old(agent.entries), agent.entries, o.cleanup.value)
      ensures Drift(issuance.alone, old(issuance.database.durable), at)
      ensures Noted(at, issuance.database.durable, FailureEvent(issuance.ca, identity, requestId, clock), o.audited)
      ensures DatabaseUndisturbed() ==>
                issuance.database.Ready() && (o.audited <==> Notable(at, identity, requestId, clock))
    {
      hide Drift, Counted;
      var cleanup: Option<Cleanup> := None;
      if credential.Some? {
        var done := agent.RemoveCredential(credential.value, base);
        cleanup := Some(done);
      }
      o, at := RaiseWorkflowFailure(cause, cleanup, identity, requestId, clock);
    }

    /** Puts a prepared credential into the agent in place of `pending` and records it, in the
        tables `at` if it comes to that. */
    method TryCredential(agent: ForwardedAgent, pending: set<Entry>, c: Credential, requestId: string)
      returns (r: Trial, ghost base: set<Entry>, ghost at: Tables)
      requires Valid(agent) && pending <= agent.entries && FreshKey(agent.entries, c.key)
      modifies agent, issuance.database
      ensures Valid(agent) && FaultsOnlyGrow(agent)
      ensures TrialAgent(old(agent.entries), pending, base, agent.entries, c, r)
      ensures Drift(issuance.alone, old(issuance.database.durable), at)
      ensures TrialLedger(at, issuance.database.durable, issuance.ca, c, requestId, r)
      ensures TrialAccounted(r, agent.faults - old(agent.faults))
      ensures DatabaseUndisturbed() ==> issuance.database.Ready()
      ensures Undisturbed(agent) ==>
                && (r.Recorded? <==> Recording(at, issuance.ca, c, requestId).Ok?)
                && (r.Clashed? <==> Recording(at, issuance.ca, c, requestId) == Err(DuplicateSerial))
                && base == old(agent.entries) - pending
    {
      hide Recording, EntriesOf, Drift, Counted;
      base, at := agent.entries, issuance.database.durable;
      NoDrift(issuance.alone, at);
      if pending != {} {
        var removed := agent.RemoveKeys(pending);
        base := agent.entries;
        if !removed { r := Broken(AgentUnavailable); return; }
      }
      assert base == old(agent.entries) - pending;
      var added := agent.AddCredential(c);
      if !added { r := Broken(AgentUnavailable); return; }
      var committed;
      committed, at := issuance.Commit(c, requestId);
      if committed.Ok? { r := Recorded(committed.value); return; }
      if committed.error != DuplicateSerial { r := Broken(NotCommitted(committed.error)); return; }
      var cleanup := agent.RemoveCredential(c, base);
      r := if cleanup.Complete() then Clashed else Broken(CleanupIncomplete);
    }

    /** One pass of the issuing loop. `pending` are owned entries still to be replaced; `views`
        are the tables in which a commit was tried, if it was, and `at` those in which the pass
        made its last ledger operation. */
    method Attempt(agent: ForwardedAgent, pending: set<Entry>, previous: Option<Credential>, identity: Identity,
                   requestId: string, draw: Draw, clock: real)
      returns (s: Step, last: Option<Credential>, ghost views: seq<Tables>, ghost at: Tables)
      requires Valid(agent)
      requires pending <= agent.entries && FreshKey(agent.entries, draw.key)
      requires previous.Some? ==> FreshKey(agent.entries, previous.value.key)
      modifies agent, issuance, issuance.database
      ensures Valid(agent) && FaultsOnlyGrow(agent)
      ensures last == previous || (last.Some? && Issue(issuance.ca, identity, draw) == Ok(last.value))
      ensures Stepped(old(agent.entries), pending, agent.entries, s, last)
      ensures if views == [] then Drift(issuance.alone, old(issuance.database.durable), at)
              else |views| == 1 && Drift(issuance.alone, old(issuance.database.durable), views[0])
                   && Drift(issuance.alone, views[0], at)
      ensures !s.Stopped? ==> views == [at]
      ensures Kept(at, issuance.database.durable, issuance.ca, identity, requestId, clock, s)
      ensures StepAccounted(s, agent.faults - old(agent.faults))
      ensures s.Stopped? ==> (s.outcome.cleanup.Some? <==> last.Some?)
      ensures s.Stopped? && s.outcome.cause.NotPrepared? ==> agent.entries == old(agent.entries)
      ensures last.None? ==> s.Stopped? && agent.entries == old(agent.entries)
      ensures s.Collided? ==> last.Some? && Issue(issuance.ca, identity, draw) == Ok(last.value)
      ensures s.Committed? ==> last == Some(s.credential) && Issue(issuance.ca, identity, draw) == Ok(s.credential)
      ensures DatabaseUndisturbed() ==>
                && issuance.database.Ready()
                && (s.Stopped? ==> (s.outcome.audited <==> Notable(at, identity, requestId, clock)))
      ensures Undisturbed(agent) ==>
                && (views != [] <==> Issue(issuance.ca, identity, draw).Ok?)
                && (s.Committed? <==> views != [] && Commits(views[0], issuance.ca, identity, requestId, draw))
                && (s.Collided? <==> views != [] && Collides(views[0], issuance.ca, identity, requestId, draw))
                && (s.Stopped? ==>
                      agent.entries == if Issue(issuance.ca, identity, draw).Ok? then old(agent.entries) - pending
                                       else old(agent.entries))
    {
      hide Issue, Recording, EntriesOf, Noted, Ledger.RecordEvent, FailureEvent, FewFresh, Drift;
      last, views := previous, [];
      var prepared := issuance.Prepare(identity, draw);
      if prepared.Err? {
        var o;
        o, at := Compensate(agent, NotPrepared(prepared.error), last, identity, requestId, clock, agent.entries);
        s := Stopped(o);
        return;
      }
      assert FreshKey(agent.entries, prepared.value.key) by { IssuedKey(issuance.ca, identity, draw); }
      last := Some(prepared.value);
      var trial, base, found := TryCredential(agent, pending, prepared.value, requestId);
      at, views := found, [found];
      NoDrift(issuance.alone, at);
      match trial
      case Recorded(record) => s := Committed(prepared.value, record);
      case Clashed => s := Collided;
      case Broken(cause) =>
        var o;
        o, at := Compensate(agent, cause, last, identity, requestId, clock, base);
        FewerFresh(old(agent.entries), base, agent.entries, Reported(o));
        s := Stopped(o);
    }

    /** The work inside the agent context. `views`, `inside` are as in a trace. */
    method WithinAgent(agent: ForwardedAgent, identity: Identity, requestId: string, draws: seq<Draw>, clock: real)
      returns (b: Body, last: Option<Credential>, ghost views: seq<Tables>, ghost inside: Tables)
      requires Valid(agent)
      requires |draws| == ATTEMPTS && forall k :: 0 <= k < ATTEMPTS ==> FreshKey(agent.entries, draws[k].key)
      modifies agent, issuance, issuance.database
      ensures Valid(agent) && FaultsOnlyGrow(agent)
      ensures BodyAgent(old(agent.entries), old(Owned(agent.entries, identity.username, issuance.ca.fingerprint)),
                        agent.entries, b, last)
      ensures Drifts(issuance.alone, old(issuance.database.durable), views, inside)
      ensures b.Returned? || b.Exhausted? ==> views != [] && views[|views| - 1] == inside
      ensures BodyLedger(inside, issuance.database.durable, issuance.ca, identity, requestId, clock, b)
      ensures BodyAccounted(b, agent.faults - old(agent.faults))
      ensures b.WorkflowFailure? ==> (b.outcome.cleanup.Some? <==> last.Some?)
      ensures last.None? ==> agent.entries == old(agent.entries) && !b.Returned? && !b.Exhausted?
      ensures DrawnFrom(issuance.ca, identity, draws, last)
      ensures last.Some? ==> FreshKey(old(agent.entries), last.value.key)
      ensures DatabaseUndisturbed() ==>
                && issuance.database.Ready()
                && (b.WorkflowFailure? ==> (b.outcome.audited <==> Notable(inside, identity, requestId, clock)))
      ensures Undisturbed(agent) ==>
                && Explained(b, views, issuance.ca, identity, requestId, draws)
                && (b.WorkflowFailure? ==>
                      agent.entries ==
                      if Issue(issuance.ca, identity, draws[0]).Ok? then
                        old(agent.entries) - old(Owned(agent.entries, identity.username, issuance.ca.fingerprint))
                      else old(agent.entries))
    {
      hide Issue, Recording, EntriesOf, Noted, FailureEvent, Collides, Commits, Owned, IsOwned, Ledger.RecordEvent;
      hide FewFresh, Drift, Drifts, DecidedIn, AllCollideIn, StoppedIn, Explained;
      ghost var before, t := agent.entries, issuance.database.durable;
      last, views, inside := None, [], t;
      StartDrifts(issuance.alone, t);
      var listed := agent.OwnedKeys(identity.username, issuance.ca.fingerprint);
      if listed.None? { b := Raised(AgentUnavailable); return; }
      var owned := listed.value;
      assert owned <= before by { OwnedIsPart(before, identity.username, issuance.ca.fingerprint); }
      var removedOwned := false;
      for k := 0 to ATTEMPTS
        invariant Valid(agent) && FaultsOnlyGrow(agent) && agent.faults == old(agent.faults)
        invariant issuance.database.durable == inside && Drifts(issuance.alone, t, views, inside) && |views| == k
        invariant k > 0 ==> views[k - 1] == inside
        invariant agent.entries == if removedOwned then before - owned else before
        invariant removedOwned <==> k > 0
        invariant last.Some? <==> k > 0
        invariant DrawnFrom(issuance.ca, identity, draws, last)
        invariant last.Some? ==> FreshKey(before, last.value.key)
        invariant DatabaseUndisturbed() ==> issuance.database.Ready()
        invariant Undisturbed(agent) ==>
                    forall j :: 0 <= j < k ==> Collides(views[j], issuance.ca, identity, requestId, draws[j])
      {
        var pending := if removedOwned then {} else owned;
        var step;
        ghost var found, earlier, tried, at := agent.entries, views, [], inside;
        step, last, tried, at := Attempt(agent, pending, last, identity, requestId, draws[k], clock);
        assert DrawnFrom(issuance.ca, identity, draws, last);
        IssuedKey(issuance.ca, identity, draws[k]);
        DriftsStep(issuance.alone, t, earlier, inside, tried, at);
        views, inside := earlier + tried, at;
        match step
        case Committed(credential, record) =>
          b := Returned(credential, record);
          if Undisturbed(agent) { ExplainReturned(earlier, tried[0], issuance.ca, identity, requestId, draws, b); }
          return;
        case Stopped(o) =>
          b := WorkflowFailure(o);
          FewerFresh(before, found, agent.entries, Reported(o));
          if Undisturbed(agent) {
            ExplainStopped(earlier, tried, issuance.ca, identity, requestId, draws, b);
            if k > 0 { CollisionIssues(earlier[0], issuance.ca, identity, requestId, draws[0]); }
          }
          return;
        case Collided =>
          removedOwned := true;
      }
      b := Exhausted;
      if Undisturbed(agent) { ExplainExhausted(views, issuance.ca, identity, requestId, draws, b); }
    }

    /** Turns how the work ended, if the agent was reached at all, into the answer, noting the
        failure unless the work noted it and was heard. */
    method Conclude(work: Option<Body>, identity: Identity, requestId: string, clock: real, exitRaises: bool)
      returns (o: Outcome, ghost at: Tables)
      requires issuance.Valid()
      requires work.Some? && work.value.WorkflowFailure? ==> work.value.outcome.Failed?
      modifies issuance.database
      ensures issuance.Valid() && old(issuance.database.faults) <= issuance.database.faults
      ensures Answers(work, o, identity, exitRaises)
      ensures if NotedOutside(work, exitRaises) then
                && o.Failed? && Drift(issuance.alone, old(issuance.database.durable), at)
                && Noted(at, issuance.database.durable, FailureEvent(issuance.ca, identity, requestId, clock),
                         o.audited)
              else issuance.database.durable == old(issuance.database.durable)
      ensures DatabaseUndisturbed() ==>
                && issuance.database.Ready()
                && (NotedOutside(work, exitRaises) ==> (o.audited <==> Notable(at, identity, requestId, clock)))
    {
      hide Noted, FailureEvent, Drift;
      at := issuance.database.durable;
      if work.None? {
        o, at := RaiseWorkflowFailure(AgentUnavailable, None, identity, requestId, clock);
        return;
      }
      if exitRaises {
        o, at := RaiseWorkflowFailure(ContextNotClosed, None, identity, requestId, clock);
        return;
      }
      match work.value
      case Returned(credential, record) => o := Issued(credential, record, identity.groups);
      case WorkflowFailure(failed) => o := failed;
      case Raised(cause) => o, at := RaiseWorkflowFailure(cause, None, identity, requestId, clock);
      case Exhausted => o, at := RaiseWorkflowFailure(SerialsExhausted, None, identity, requestId, clock);
    }

    /** Replaces the identity's owned entries by one freshly issued credential, or fails. `work`
        is how the work inside the agent context ended, whatever closing the context did, and
        `trace` the tables that the request found. */
    method Handle(agent: ForwardedAgent, identity: Identity, requestId: string, draws: seq<Draw>, clocks: Clocks,
                  exitRaises: bool)
      returns (o: Outcome, last: Option<Credential>, ghost work: Option<Body>, ghost trace: Trace)
      requires Valid(agent)
      requires |draws| == 5 && forall k :: 0 <= k < 5 ==> FreshKey(agent.entries, draws[k].key)
      modifies agent, issuance, issuance.database
      ensures Valid(agent) && FaultsOnlyGrow(agent)
      ensures Renewed(old(agent.entries), agent.entries, identity.username, issuance.ca.fingerprint, o)
      ensures Answers(work, o, identity, exitRaises)
      ensures WorkedAgent(old(agent.entries), old(Owned(agent.entries, identity.username, issuance.ca.fingerprint)),
                          agent.entries, work, last)
      ensures WorkAccounted(work, agent.faults - old(agent.faults))
      ensures WorkedLedger(issuance.alone, old(issuance.database.durable), issuance.database.durable, issuance.ca,
                           identity, requestId, clocks, trace, work, o, exitRaises)
      ensures DrawnFrom(issuance.ca, identity, draws, last)
      ensures last.Some? ==> FreshKey(old(agent.entries), last.value.key)
      ensures last.None? ==> agent.entries == old(agent.entries)
      ensures work.Some? && work.value.WorkflowFailure? ==> (work.value.outcome.cleanup.Some? <==> last.Some?)
      ensures o.Failed? && agent.faults == old(agent.faults) && (work.Some? ==> !work.value.Returned?) ==>
                agent.entries <= old(agent.entries)
      ensures DatabaseUndisturbed() ==>
                && issuance.database.Ready()
                && (o.Failed? ==>
                      (o.audited <==> Notable(NotePoint(trace, work, exitRaises), identity, requestId,
                                              NoteClock(clocks, work, exitRaises))))
                && (work.Some? && work.value.WorkflowFailure? ==>
                      (work.value.outcome.audited <==> Notable(trace.inside, identity, requestId, clocks.inside)))
      ensures Undisturbed(agent) ==>
                && work.Some? && Explained(work.value, trace.views, issuance.ca, identity, requestId, draws)
                && (work.value.WorkflowFailure? ==>
                      agent.entries ==
                      if Issue(issuance.ca, identity, draws[0]).Ok? then
                        old(agent.entries) - old(Owned(agent.entries, identity.username, issuance.ca.fingerprint))
                      else old(agent.entries))
    {
      hide Issue, Recording, EntriesOf, Noted, FailureEvent, Owned, IsOwned, Marked, Explained;
      hide Ledger.RecordEvent, BodyLedger, Drift, Drifts, Renewed;
      ghost var found, t := agent.entries, issuance.database.durable;
      var ended: Option<Body> := None;
      ghost var views, inside, at := [], t, t;
      last := None;
      StartDrifts(issuance.alone, t);
      var unreachable := agent.Faults();
      if !unreachable {
        var body;
        body, last, views, inside := WithinAgent(agent, identity, requestId, draws, clocks.inside);
        ended := Some(body);
      }
      ghost var left := issuance.database.durable;
      FailedWork(inside, left, issuance.ca, identity, requestId, clocks.inside, ended);
      o, at := Conclude(ended, identity, requestId, clocks.outside, exitRaises);
      work, trace := ended, Trace(views, inside, left, at);
      Renews(found, agent.entries, issuance.ca, ended, last, o, identity, exitRaises);
    }
  }

  lemma Renews(before: set<Entry>, after: set<Entry>, ca: ActiveCa, work: Option<Body>, last: Option<Credential>,
               o: Outcome, identity: Identity, exitRaises: bool)
    requires WorkedAgent(before, Owned(before, identity.username, ca.fingerprint), after, work, last)
    requires Answers(work, o, identity, exitRaises)
    ensures Renewed(before, after, identity.username, ca.fingerprint, o)
  {
    hide Owned, IsOwned, Marked, FewFresh;
    forall e
      ensures e in Owned(before, identity.username, ca.fingerprint) <==>
              e in before && Marked(e, identity.username, ca.fingerprint)
    {
      OwnedMeans(before, e, identity.username, ca.fingerprint);
    }
  }

  lemma StartDrifts(alone: bool, t: Tables)
    ensures Drifts(alone, t, [], t)
  {
    NoDrift(alone, t);
  }

  lemma DriftsStep(alone: bool, before: Tables, views: seq<Tables>, found: Tables, tried: seq<Tables>, at: Tables)
    requires Drifts(alone, before, views, found)
    requires if tried == [] then Drift(alone, found, at)
             else |tried| == 1 && Drift(alone, found, tried[0]) && Drift(alone, tried[0], at)
    ensures Drifts(alone, before, views + tried, at)
  {
    hide Drift;
    if tried == [] {
      assert views + tried == views;
      DriftsLonger(alone, before, views, found, at);
    } else {
      assert views + tried == views + [tried[0]];
      DriftsLonger(alone, before, views, found, tried[0]);
      DriftsAppend(alone, before, views, tried[0], at);
    }
  }

  // ---- what the tables found at the commits mean ----

  lemma NotBoth(t: Tables, ca: ActiveCa, identity: Identity, requestId: string, draw: Draw)
    ensures !(Commits(t, ca, identity, requestId, draw) && Collides(t, ca, identity, requestId, draw))
  {
  }

  lemma CollisionIssues(t: Tables, ca: ActiveCa, identity: Identity, requestId: string, draw: Draw)
    requires Collides(t, ca, identity, requestId, draw)
    ensures Issue(ca, identity, draw).Ok?
  {
  }

  lemma ExplainReturned(views: seq<Tables>, view: Tables, ca: ActiveCa, identity: Identity, requestId: string,
                        draws: seq<Draw>, b: Body)
    requires |views| < |draws| && Commits(view, ca, identity, requestId, draws[|views|])
    requires b.Returned? && Issue(ca, identity, draws[|views|]) == Ok(b.credential)
    requires forall j :: 0 <= j < |views| ==> Collides(views[j], ca, identity, requestId, draws[j])
    ensures Explained(b, views + [view], ca, identity, requestId, draws)
  {
    hide Commits, Collides, Issue;
    assert DecidedIn(views + [view], ca, identity, requestId, draws, |views|);
  }

  lemma ExplainStopped(views: seq<Tables>, tried: seq<Tables>, ca: ActiveCa, identity: Identity, requestId: string,
                       draws: seq<Draw>, b: Body)
    requires |views| < |draws| && |tried| <= 1 && b.WorkflowFailure?
    requires if tried == [] then Issue(ca, identity, draws[|views|]).Err?
             else !Commits(tried[0], ca, identity, requestId, draws[|views|])
                  && !Collides(tried[0], ca, identity, requestId, draws[|views|])
    requires forall j :: 0 <= j < |views| ==> Collides(views[j], ca, identity, requestId, draws[j])
    ensures Explained(b, views + tried, ca, identity, requestId, draws)
  {
    hide Commits, Collides, Issue;
    assert StoppedIn(views + tried, ca, identity, requestId, draws, |views|);
  }

  lemma ExplainExhausted(views: seq<Tables>, ca: ActiveCa, identity: Identity, requestId: string, draws: seq<Draw>,
                         b: Body)
    requires |views| == |draws| && b.Exhausted?
    requires forall j :: 0 <= j < |draws| ==> Collides(views[j], ca, identity, requestId, draws[j])
    ensures Explained(b, views, ca, identity, requestId, draws)
  {
    hide Collides;
  }

  /** The tables found at the commits leave no choice: the work returned exactly if a commit
      tried succeeds after collisions, and ran out of serials exactly if all collide. */
  lemma ExplainedOnce(b: Body, views: seq<Tables>, ca: ActiveCa, identity: Identity, requestId: string,
                      draws: seq<Draw>)
    requires Explained(b, views, ca, identity, requestId, draws)
    ensures b.Returned? <==> exists k: nat :: DecidedIn(views, ca, identity, requestId, draws, k)
    ensures b.Exhausted? <==> AllCollideIn(views, ca, identity, requestId, draws)
    ensures b.WorkflowFailure? <==> exists k: nat :: StoppedIn(views, ca, identity, requestId, draws, k)
  {
    hide Commits, Collides, Issue;
    forall j | 0 <= j < |views| && j < |draws|
      ensures !(Commits(views[j], ca, identity, requestId, draws[j])
                && Collides(views[j], ca, identity, requestId, draws[j]))
    {
      NotBoth(views[j], ca, identity, requestId, draws[j]);
    }
  }

  /** If nobody else uses the ledger and nothing fails, the tables at the start determine the
      work, what it leaves in the ledger, and what it leaves in the agent. */
  lemma AloneSettles(t: Tables, left: Tables, views: seq<Tables>, inside: Tables, entries: set<Entry>,
                     owned: set<Entry>, after: set<Entry>, last: Option<Credential>, ca: ActiveCa, identity: Identity,
                     requestId: string, draws: seq<Draw>, clock: real, b: Body)
    requires draws != [] && Drifts(true, t, views, inside)
    requires BodyLedger(inside, left, ca, identity, requestId, clock, b) && BodyAgent(entries, owned, after, b, last)
    requires Explained(b, views, ca, identity, requestId, draws)
    requires b.WorkflowFailure? ==>
               && (b.outcome.audited <==> RecordEvent(inside, FailureEvent(ca, identity, requestId, clock)).Ok?)
               && after == if Issue(ca, identity, draws[0]).Ok? then entries - owned else entries
    ensures b.Returned? <==> Decided(t, ca, identity, requestId, draws)
    ensures b.Exhausted? <==> AllCollide(t, ca, identity, requestId, draws)
    ensures b.Returned? ==> exists k: nat ::
              DecidedAt(t, ca, identity, requestId, draws, k) && Issue(ca, identity, draws[k]) == Ok(b.credential)
    ensures left == LeftLedger(t, ca, identity, requestId, draws, FailureEvent(ca, identity, requestId, clock))
    ensures after == SettledAgent(entries, owned, t, ca, identity, requestId, draws)
  {
    hide Issue, Recording, EntriesOf, Noted, FailureEvent, Collides, Commits, LeftLedger, SettledAgent, Decided;
    hide RecordEvent, AfterNote, DecidedAt, AllCollide, FewFresh, Drift, Drifts;
    DriftsAlone(t, views, inside);
    var e := FailureEvent(ca, identity, requestId, clock);
    match b
    case Returned(c, record) =>
      var k: nat :| DecidedIn(views, ca, identity, requestId, draws, k) && Issue(ca, identity, draws[k]) == Ok(c);
      NotBoth(t, ca, identity, requestId, draws[k]);
      LeftDecided(entries, owned, t, ca, identity, requestId, draws, e, k);
    case Exhausted => LeftExhausted(entries, owned, t, ca, identity, requestId, draws, e);
    case WorkflowFailure(o) =>
      var k: nat :| StoppedIn(views, ca, identity, requestId, draws, k);
      if |views| == k { UnissuedSettles(t, ca, identity, requestId, draws[k]); }
      if k > 0 { CollisionIssues(t, ca, identity, requestId, draws[0]); }
      LeftUndecided(entries, owned, t, ca, identity, requestId, draws, e, k);
      NoteSettles(inside, left, e, o.audited);
    case Raised(_) =>
  }

  lemma UnissuedSettles(t: Tables, ca: ActiveCa, identity: Identity, requestId: string, draw: Draw)
    requires Issue(ca, identity, draw).Err?
    ensures !Commits(t, ca, identity, requestId, draw) && !Collides(t, ca, identity, requestId, draw)
  {
  }

  lemma FailedWork(before: Tables, after: Tables, ca: ActiveCa, identity: Identity, requestId: string, clock: real,
                   work: Option<Body>)
    requires work.Some? ==> BodyLedger(before, after, ca, identity, requestId, clock, work.value)
    ensures work.Some? && work.value.WorkflowFailure? ==> work.value.outcome.Failed?
  {
  }

  lemma NoteSettles(before: Tables, after: Tables, e: NewEvent, recorded: bool)
    requires Noted(before, after, e, recorded) && (recorded <==> RecordEvent(before, e).Ok?)
    ensures after == AfterNote(before, e)
  {
    hide RecordEvent;
  }

  /** With all earlier draws colliding, a draw that does not collide settles the request. */
  lemma DecidedHere(t: Tables, ca: ActiveCa, identity: Identity, requestId: string, draws: seq<Draw>, k: nat)
    requires k < |draws| && forall j :: 0 <= j < k ==> Collides(t, ca, identity, requestId, draws[j])
    requires !Collides(t, ca, identity, requestId, draws[k])
    ensures DecidedAt(t, ca, identity, requestId, draws, k) <==> Commits(t, ca, identity, requestId, draws[k])
    ensures forall i: nat :: DecidedAt(t, ca, identity, requestId, draws, i) ==> i == k
    ensures !AllCollide(t, ca, identity, requestId, draws)
  {
    hide Issue, Recording;
    forall j | 0 <= j < k ensures !Commits(t, ca, identity, requestId, draws[j]) {
      assert Collides(t, ca, identity, requestId, draws[j]);
    }
    assert !Collides(t, ca, identity, requestId, draws[k]);
  }

  lemma NoneDecided(t: Tables, ca: ActiveCa, identity: Identity, requestId: string, draws: seq<Draw>)
    requires AllCollide(t, ca, identity, requestId, draws)
    ensures !Decided(t, ca, identity, requestId, draws)
  {
    hide Issue, Recording;
    forall i: nat ensures !DecidedAt(t, ca, identity, requestId, draws, i) {
      if i < |draws| { assert Collides(t, ca, identity, requestId, draws[i]); }
    }
  }

  /** The work ends with a commit. */
  lemma LeftDecided(entries: set<Entry>, owned: set<Entry>, t: Tables, ca: ActiveCa, identity: Identity,
                    requestId: string, draws: seq<Draw>, e: NewEvent, k: nat)
    requires k < |draws| && forall j :: 0 <= j < k ==> Collides(t, ca, identity, requestId, draws[j])
    requires Commits(t, ca, identity, requestId, draws[k]) && !Collides(t, ca, identity, requestId, draws[k])
    ensures DecidedAt(t, ca, identity, requestId, draws, k) && Decided(t, ca, identity, requestId, draws)
    ensures !AllCollide(t, ca, identity, requestId, draws)
    ensures var c := Issue(ca, identity, draws[k]).value;
            LeftLedger(t, ca, identity, requestId, draws, e) == Recording(t, ca, c, requestId).value.0
            && SettledAgent(entries, owned, t, ca, identity, requestId, draws) == entries - owned + EntriesOf(c)
  {
    hide DecidedAt, Collides, Commits, AllCollide, Recording, EntriesOf;
    DecidedHere(t, ca, identity, requestId, draws, k);
    assert Issue(ca, identity, draws[k]).Ok? by { CommitIssues(t, ca, identity, requestId, draws[k]); }
  }

  lemma CommitIssues(t: Tables, ca: ActiveCa, identity: Identity, requestId: string, draw: Draw)
    requires Commits(t, ca, identity, requestId, draw)
    ensures Issue(ca, identity, draw).Ok? && Recording(t, ca, Issue(ca, identity, draw).value, requestId).Ok?
  {
  }

  /** The work ends with a draw that neither commits nor collides. */
  lemma LeftUndecided(entries: set<Entry>, owned: set<Entry>, t: Tables, ca: ActiveCa, identity: Identity,
                      requestId: string, draws: seq<Draw>, e: NewEvent, k: nat)
    requires k < |draws| && forall j :: 0 <= j < k ==> Collides(t, ca, identity, requestId, draws[j])
    requires !Collides(t, ca, identity, requestId, draws[k]) && !Commits(t, ca, identity, requestId, draws[k])
    ensures !Decided(t, ca, identity, requestId, draws) && !AllCollide(t, ca, identity, requestId, draws)
    ensures LeftLedger(t, ca, identity, requestId, draws, e) == AfterNote(t, e)
    ensures SettledAgent(entries, owned, t, ca, identity, requestId, draws) ==
            if k > 0 || Issue(ca, identity, draws[0]).Ok? then entries - owned else entries
  {
    hide Recording, Issue, AllCollide, DecidedAt, Commits;
    DecidedHere(t, ca, identity, requestId, draws, k);
    if k > 0 { assert Collides(t, ca, identity, requestId, draws[0]); }
  }

  /** The work ends with no attempt left. */
  lemma LeftExhausted(entries: set<Entry>, owned: set<Entry>, t: Tables, ca: ActiveCa, identity: Identity,
                      requestId: string, draws: seq<Draw>, e: NewEvent)
    requires draws != [] && forall j :: 0 <= j < |draws| ==> Collides(t, ca, identity, requestId, draws[j])
    ensures AllCollide(t, ca, identity, requestId, draws) && !Decided(t, ca, identity, requestId, draws)
    ensures LeftLedger(t, ca, identity, requestId, draws, e) == t
    ensures SettledAgent(entries, owned, t, ca, identity, requestId, draws) == entries - owned
  {
    hide Recording, Issue;
    NoneDecided(t, ca, identity, requestId, draws);
    assert Collides(t, ca, identity, requestId, draws[0]);
  }

  lemma OwnedIsPart(entries: set<Entry>, username: string, caFingerprint: string)
    ensures Owned(entries, username, caFingerprint) <= entries
  {
  }

  /** What a request does to the agent: entries that are not owned stay, nothing appears but
      the last attempt's credential, success replaces exactly the owned entries, and a failure
      whose cleanup was complete or unnecessary adds nothing. */
  ghost predicate HandledAgent(before: set<Entry>, owned: set<Entry>, after: set<Entry>, o: Outcome,
                               last: Option<Credential>, exitRaises: bool)
  {
    && before - owned <= after <= before + EntriesOfLast(last)
    && (o.Issued? ==> last == Some(o.credential) && after == before - owned + EntriesOf(o.credential))
    && (o.Failed? && !exitRaises ==> FewFresh(before, after, Reported(o)))
  }

  /** What the agent context may leave in the ledger before it closes. */
  ghost predicate LeftBehind(before: Tables, after: Tables, ca: ActiveCa, requestId: string, e: NewEvent,
                             last: Option<Credential>)
  {
    || Noted(before, after, e, true)
    || after == before
    || (last.Some? && Recording(before, ca, last.value, requestId).Ok?
        && after == Recording(before, ca, last.value, requestId).value.0)
  }

  /** What a request does to the ledger: success records one certificate and its event,
      failure at most notes itself. Only when closing the agent context raises can a failed
      request follow a commit, or note itself twice. */
  ghost predicate HandledLedger(before: Tables, after: Tables, ca: ActiveCa, identity: Identity, requestId: string,
                                clocks: Clocks, o: Outcome, last: Option<Credential>, exitRaises: bool)
  {
    var inside := FailureEvent(ca, identity, requestId, clocks.inside);
    var outside := FailureEvent(ca, identity, requestId, clocks.outside);
    match o
    case Issued(c, record, groups) =>
      !exitRaises && groups == identity.groups && Recording(before, ca, c, requestId) == Ok((after, record))
    case Failed(_, _, audited) =>
      if exitRaises then
        exists middle ::
          LeftBehind(before, middle, ca, requestId, inside, last) && Noted(middle, after, outside, audited)
      else Noted(before, after, inside, audited) || Noted(before, after, outside, audited)
  }
}
