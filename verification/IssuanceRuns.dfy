/** Histories of certificate requests: what any sequence of them, with any failures, leaves
    in the ledger and in an agent. */
module IssuanceRuns {
  import opened Basics
  import opened IssuerPolicy
  import opened StoredText
  import opened Ledger
  import opened LedgerChecks
  import opened LedgerRules
  import opened LedgerRuns
  import opened Injection
  import Decimal

  // ---- when a request without failures succeeds ----

  ghost predicate Unrecorded(t: Tables, ca: ActiveCa, draw: Draw) {
    0 <= draw.serial < 0x1_0000_0000_0000_0000 && !HasSerial(t, ca.caId, Decimal.Show(draw.serial))
  }

  ghost predicate Taken(t: Tables, ca: ActiveCa, draw: Draw) {
    0 <= draw.serial < 0x1_0000_0000_0000_0000 && HasSerial(t, ca.caId, Decimal.Show(draw.serial))
  }

  /** The identity and the other inputs pass every check but the one on the serial. */
  ghost predicate Certifiable(t: Tables, ca: ActiveCa, identity: Identity, requestId: string, draw: Draw) {
    && CanonicalIdentity(identity.username, identity.groups)
    && ca.caId > 0 && HasCa(t, ca.caId) && ValidText(requestId) && ValidText(draw.key.fingerprint)
    && FitsColumn(ca.caId) && FitsColumn(draw.clock) && FitsColumn(draw.clock + 90000)
  }

  /** Issuing succeeds exactly for a canonical identity and a serial of 64 bits; what is issued
      holds for 90000 seconds, names the user and the groups, and carries the ownership marker. */
  lemma IssueSucceeds(ca: ActiveCa, identity: Identity, draw: Draw)
    ensures var r := Issue(ca, identity, draw);
            var canonical := CanonicalIdentity(identity.username, identity.groups);
            && (r.Ok? <==> canonical && 0 <= draw.serial < 0x1_0000_0000_0000_0000)
            && (r == Err(IdentityMalformed) <==> !canonical)
            && (r.Ok? ==>
                  var c := r.value;
                  && AreCanonicalPrincipals(c.principals) && c.principals == [identity.username] + c.principals[1..]
                  && |c.principals| == 1 + |identity.groups|
                  && (forall i :: 0 <= i < |identity.groups| ==> c.principals[i + 1] == "group:" + identity.groups[i])
                  && c.keyId == identity.username && c.serial == draw.serial && c.key == draw.key
                  && c.validAfter == draw.clock && c.validBefore - c.validAfter == 90000
                  && c.certificate == CertificateInfo(Some(draw.serial), Some(identity.username),
                                                      Some(ca.fingerprint), c.principals)
                  && c.comment == "ski:" + identity.username + ":" + ca.fingerprint + ":" + Decimal.Show(draw.serial))
  {
    hide Decimal.Show, AreCanonicalPrincipals, CanonicalIdentity;
    BuildAccepts(identity.username, identity.groups);
    GroupPrincipalMeans("", identity.groups);
    if Issue(ca, identity, draw).Ok? {
      var built := [identity.username] + GroupPrincipals(identity.groups);
      ValidateAccepts(built);
      assert built == [identity.username] + built[1..];
    }
  }

  lemma SerialSettles(t: Tables, ca: ActiveCa, identity: Identity, requestId: string, draw: Draw)
    requires Certifiable(t, ca, identity, requestId, draw)
    ensures Commits(t, ca, identity, requestId, draw) <==> Unrecorded(t, ca, draw)
    ensures Collides(t, ca, identity, requestId, draw) <==> Taken(t, ca, draw)
  {
    hide Issue, Decimal.Show;
    IssueSucceeds(ca, identity, draw);
    if Issue(ca, identity, draw).Ok? {
      ValidateAccepts(Issue(ca, identity, draw).value.principals);
      assert CheckCertificate(Evidence(ca, Issue(ca, identity, draw).value, requestId), "success").Ok?;
    }
  }

  /** Without failures a request is decided by the first allocated serial that is not already
      recorded: it succeeds exactly when there is one that only recorded serials precede. */
  lemma FirstUnrecordedDecides(t: Tables, ca: ActiveCa, identity: Identity, requestId: string, draws: seq<Draw>, k: nat)
    requires forall i :: 0 <= i < |draws| ==> Certifiable(t, ca, identity, requestId, draws[i])
    ensures DecidedAt(t, ca, identity, requestId, draws, k) <==>
            k < |draws| && Unrecorded(t, ca, draws[k]) && forall j :: 0 <= j < k ==> Taken(t, ca, draws[j])
  {
    hide Certifiable, Commits, Collides, Unrecorded, Taken;
    forall i | 0 <= i < |draws|
      ensures Commits(t, ca, identity, requestId, draws[i]) <==> Unrecorded(t, ca, draws[i])
      ensures Collides(t, ca, identity, requestId, draws[i]) <==> Taken(t, ca, draws[i])
    {
      SerialSettles(t, ca, identity, requestId, draws[i]);
    }
  }

  /** So with serials drawn from the whole 64-bit range, it succeeds exactly when some allocated
      serial is not yet recorded. */
  lemma SomeUnrecordedDecides(t: Tables, ca: ActiveCa, identity: Identity, requestId: string, draws: seq<Draw>)
    requires forall i :: 0 <= i < |draws| ==>
               Certifiable(t, ca, identity, requestId, draws[i]) && 0 <= draws[i].serial < 0x1_0000_0000_0000_0000
    ensures (exists k: nat :: DecidedAt(t, ca, identity, requestId, draws, k)) <==>
            (exists k: nat :: k < |draws| && Unrecorded(t, ca, draws[k]))
  {
    hide Certifiable, DecidedAt;
    forall k: nat
      ensures DecidedAt(t, ca, identity, requestId, draws, k) ==> k < |draws| && Unrecorded(t, ca, draws[k])
    {
      FirstUnrecordedDecides(t, ca, identity, requestId, draws, k);
    }
    if k: nat :| k < |draws| && Unrecorded(t, ca, draws[k]) {
      var first := FirstUnrecorded(t, ca, draws, k);
      FirstUnrecordedDecides(t, ca, identity, requestId, draws, first);
    }
  }

  ghost function FirstUnrecorded(t: Tables, ca: ActiveCa, draws: seq<Draw>, k: nat): (first: nat)
    requires k < |draws| && Unrecorded(t, ca, draws[k])
    ensures first <= k && Unrecorded(t, ca, draws[first])
    ensures forall j :: 0 <= j < first ==> !Unrecorded(t, ca, draws[j])
    decreases k
  {
    if exists j :: 0 <= j < k && Unrecorded(t, ca, draws[j]) then
      var j :| 0 <= j < k && Unrecorded(t, ca, draws[j]);
      FirstUnrecorded(t, ca, draws, j)
    else k
  }

  /** The same for the tables found at each commit, when others record certificates meanwhile. */
  lemma FirstUnrecordedDecidesIn(views: seq<Tables>, ca: ActiveCa, identity: Identity, requestId: string,
                                 draws: seq<Draw>, k: nat)
    requires |views| <= |draws|
    requires forall i :: 0 <= i < |views| ==> Certifiable(views[i], ca, identity, requestId, draws[i])
    ensures DecidedIn(views, ca, identity, requestId, draws, k) <==>
            && k < |views| && Unrecorded(views[k], ca, draws[k])
            && forall j :: 0 <= j < k ==> Taken(views[j], ca, draws[j])
  {
    hide Certifiable, Commits, Collides, Unrecorded, Taken;
    forall i | 0 <= i < |views|
      ensures Commits(views[i], ca, identity, requestId, draws[i]) <==> Unrecorded(views[i], ca, draws[i])
      ensures Collides(views[i], ca, identity, requestId, draws[i]) <==> Taken(views[i], ca, draws[i])
    {
      SerialSettles(views[i], ca, identity, requestId, draws[i]);
    }
  }

  // ---- ownership ----

  /** An issued certificate entry belongs to its own user under its own CA and to nobody
      else; the plain key entry beside it belongs to nobody. */
  lemma IssuedOwnership(ca: ActiveCa, identity: Identity, draw: Draw, username: string, caFingerprint: string)
    requires Issue(ca, identity, draw).Ok?
    ensures var c := Issue(ca, identity, draw).value;
            (IsOwned(CertificateEntry(c), username, caFingerprint) <==>
               username == identity.username && caFingerprint == ca.fingerprint)
            && !IsOwned(KeyEntry(c), username, caFingerprint)
  {
    BuildAccepts(identity.username, identity.groups);
    IssueSucceeds(ca, identity, draw);
    ValidateAccepts(Issue(ca, identity, draw).value.principals);
  }

  /** No entry belongs to two users, whatever CAs are asked about. */
  lemma OneOwner(e: Entry, u: string, fp: string, u': string, fp': string)
    requires IsOwned(e, u, fp) && IsOwned(e, u', fp')
    ensures u == u' && fp == fp'
  {
  }

  // ---- one request after another ----

  datatype Request = Request(identity: Identity, requestId: string, clocks: Clocks, exitRaises: bool)

  /** One answered request: its outcome and the last credential prepared for it. */
  datatype Served = Served(request: Request, outcome: Outcome, last: Option<Credential>)

  ghost predicate IssuedTo(ca: ActiveCa, identity: Identity, last: Option<Credential>) {
    last.Some? ==> exists draw :: Issue(ca, identity, draw) == Ok(last.value)
  }

  /** The effect of an answered request on the agent it was answered through. */
  ghost predicate AgentStep(ca: ActiveCa, before: set<Entry>, after: set<Entry>, s: Served) {
    && HandledAgent(before, Owned(before, s.request.identity.username, ca.fingerprint), after, s.outcome, s.last,
                    s.request.exitRaises)
    && IssuedTo(ca, s.request.identity, s.last)
    && (s.last.Some? ==> FreshKey(before, s.last.value.key))
  }

  /** Its effect on a ledger that nobody else uses meanwhile. */
  ghost predicate LedgerStep(ca: ActiveCa, before: Tables, after: Tables, s: Served) {
    && HandledLedger(before, after, ca, s.request.identity, s.request.requestId, s.request.clocks, s.outcome, s.last,
                     s.request.exitRaises)
    && IssuedTo(ca, s.request.identity, s.last)
    && (s.outcome.Issued? ==> s.last == Some(s.outcome.credential))
  }

  lemma HandleAgentStep(ca: ActiveCa, before: set<Entry>, after: set<Entry>, draws: seq<Draw>, s: Served,
                        work: Option<Body>)
    requires Answers(work, s.outcome, s.request.identity, s.request.exitRaises)
    requires WorkedAgent(before, Owned(before, s.request.identity.username, ca.fingerprint), after, work, s.last)
    requires DrawnFrom(ca, s.request.identity, draws, s.last) && (s.last.Some? ==> FreshKey(before, s.last.value.key))
    ensures AgentStep(ca, before, after, s)
  {
    hide Issue, IsOwned, EntriesOf, FreshKey, Owned;
    var r := s.request;
    var owned := Owned(before, r.identity.username, ca.fingerprint);
    OwnedIsPart(before, r.identity.username, ca.fingerprint);
    if s.last.Some? {
      var k :| 0 <= k < |draws| && Issue(ca, r.identity, draws[k]) == Ok(s.last.value);
    }
    assert before - owned <= after <= before + EntriesOfLast(s.last);
    assert s.outcome.Failed? && !r.exitRaises ==> FewFresh(before, after, Reported(s.outcome));
  }

  lemma HandleLedgerStep(ca: ActiveCa, before: Tables, after: Tables, draws: seq<Draw>, s: Served, work: Option<Body>,
                         trace: Trace, entries: set<Entry>, owned: set<Entry>, entries': set<Entry>)
    requires Answers(work, s.outcome, s.request.identity, s.request.exitRaises)
    requires WorkedAgent(entries, owned, entries', work, s.last)
    requires WorkedLedger(true, before, after, ca, s.request.identity, s.request.requestId, s.request.clocks, trace,
                          work, s.outcome, s.request.exitRaises)
    requires DrawnFrom(ca, s.request.identity, draws, s.last)
    ensures LedgerStep(ca, before, after, s)
  {
    hide Issue, Recording, Noted, FailureEvent, EntriesOf, Drift, Drifts;
    var r := s.request;
    var inside := FailureEvent(ca, r.identity, r.requestId, r.clocks.inside);
    var outside := FailureEvent(ca, r.identity, r.requestId, r.clocks.outside);
    DriftsAlone(before, trace.views, trace.inside);
    if NotedOutside(work, r.exitRaises) { DriftAlone(trace.left, trace.outside); }
    assert LeftBehind(before, trace.left, ca, r.requestId, inside, s.last) by {
      LeftByWork(before, trace.left, ca, r.identity, r.requestId, r.clocks.inside, work, s.last);
    }
    if r.exitRaises {
      assert LeftBehind(before, trace.left, ca, r.requestId, inside, s.last)
             && Noted(trace.left, after, outside, s.outcome.audited);
    }
  }

  lemma LeftByWork(before: Tables, left: Tables, ca: ActiveCa, identity: Identity, requestId: string, clock: real,
                   work: Option<Body>, last: Option<Credential>)
    requires if work.Some? then BodyLedger(before, left, ca, identity, requestId, clock, work.value) else left == before
    requires work.Some? && work.value.Returned? ==> last == Some(work.value.credential)
    ensures LeftBehind(before, left, ca, requestId, FailureEvent(ca, identity, requestId, clock), last)
  {
    hide Recording, RecordEvent;
  }

  ghost predicate AgentRun(ca: ActiveCa, agents: seq<set<Entry>>, served: seq<Served>) {
    |agents| == |served| + 1
    && forall i :: 0 <= i < |served| ==> AgentStep(ca, agents[i], agents[i + 1], served[i])
  }

  ghost predicate LedgerRun(ca: ActiveCa, ledgers: seq<Tables>, served: seq<Served>) {
    |ledgers| == |served| + 1
    && forall i :: 0 <= i < |served| ==> LedgerStep(ca, ledgers[i], ledgers[i + 1], served[i])
  }

  // ---- serving ----

  ghost predicate FreshDraws(entries: set<Entry>, draws: seq<seq<Draw>>) {
    && (forall i, a :: 0 <= i < |draws| && 0 <= a < |draws[i]| ==> FreshKey(entries, draws[i][a].key))
    && (forall i, j, a, b :: 0 <= i < j < |draws| && 0 <= a < |draws[i]| && 0 <= b < |draws[j]| ==>
          draws[i][a].key.material != draws[j][b].key.material)
  }

  /** Entries are from the start, or hold a key drawn for one of the first `n` requests. */
  ghost predicate KnownKeys(start: set<Entry>, entries: set<Entry>, draws: seq<seq<Draw>>, n: nat)
    requires n <= |draws|
  {
    forall e :: e in entries ==>
      e in start || exists i, a :: 0 <= i < n && 0 <= a < |draws[i]| && e.blob.material == draws[i][a].key.material
  }

  lemma NoKeysYet(start: set<Entry>, draws: seq<seq<Draw>>)
    ensures KnownKeys(start, start, draws, 0)
  {
  }

  lemma StillFresh(start: set<Entry>, entries: set<Entry>, draws: seq<seq<Draw>>, n: nat)
    requires FreshDraws(start, draws) && n < |draws| && KnownKeys(start, entries, draws, n)
    ensures forall a :: 0 <= a < |draws[n]| ==> FreshKey(entries, draws[n][a].key)
  {
  }

  lemma KeysKnown(ca: ActiveCa, start: set<Entry>, before: set<Entry>, after: set<Entry>, draws: seq<seq<Draw>>, n: nat,
                  s: Served)
    requires n < |draws| && KnownKeys(start, before, draws, n) && AgentStep(ca, before, after, s)
    requires DrawnFrom(ca, s.request.identity, draws[n], s.last)
    ensures KnownKeys(start, after, draws, n + 1)
  {
    hide Issue, Owned, FreshKey;
    if s.last.Some? {
      var a :| 0 <= a < |draws[n]| && Issue(ca, s.request.identity, draws[n][a]) == Ok(s.last.value);
      IssuedKey(ca, s.request.identity, draws[n][a]);
      assert forall e :: e in EntriesOf(s.last.value) ==> e.blob.material == draws[n][a].key.material;
    }
  }

  /** Serves one request after another through one agent, with any failures. However others use
      the ledger, the agent makes the steps that the results on renewal are about; if nobody
      does, the ledger makes those that the results on histories are about. */
  method Serve(injector: OrdinaryAgentInjector, agent: ForwardedAgent, requests: seq<Request>, draws: seq<seq<Draw>>)
    returns (served: seq<Served>, ghost agents: seq<set<Entry>>, ghost ledgers: seq<Tables>)
    requires injector.Valid(agent)
    requires |draws| == |requests| && forall i :: 0 <= i < |draws| ==> |draws[i]| == 5
    requires FreshDraws(agent.entries, draws)
    modifies agent, injector.issuance, injector.issuance.database
    ensures injector.Valid(agent)
    ensures |served| == |requests| && forall i :: 0 <= i < |served| ==> served[i].request == requests[i]
    ensures AgentRun(injector.issuance.ca, agents, served)
    ensures agents[0] == old(agent.entries) && agents[|served|] == agent.entries
    ensures |ledgers| == |served| + 1
    ensures ledgers[0] == old(injector.issuance.database.durable)
    ensures ledgers[|served|] == injector.issuance.database.durable
    ensures injector.issuance.alone ==> LedgerRun(injector.issuance.ca, ledgers, served)
  {
    hide AgentStep, LedgerStep, Answers, WorkedAgent, WorkedLedger, Owned, WorkAccounted, DrawnFrom;
    hide FreshDraws, KnownKeys, FailureEvent, RecordEvent, Explained, Issue;
    served, agents, ledgers := [], [agent.entries], [injector.issuance.database.durable];
    ghost var start := agent.entries;
    NoKeysYet(start, draws);
    for n := 0 to |requests|
      invariant injector.Valid(agent) && |served| == n && |ledgers| == n + 1
      invariant forall i :: 0 <= i < n ==> served[i].request == requests[i]
      invariant AgentRun(injector.issuance.ca, agents, served)
      invariant agents[0] == start && agents[n] == agent.entries
      invariant ledgers[0] == old(injector.issuance.database.durable)
      invariant ledgers[n] == injector.issuance.database.durable
      invariant injector.issuance.alone ==> LedgerRun(injector.issuance.ca, ledgers, served)
      invariant KnownKeys(start, agent.entries, draws, n)
    {
      var r := requests[n];
      StillFresh(start, agent.entries, draws, n);
      ghost var before, t := agent.entries, injector.issuance.database.durable;
      var o, last;
      ghost var work, trace;
      o, last, work, trace := injector.Handle(agent, r.identity, r.requestId, draws[n], r.clocks, r.exitRaises);
      var s := Served(r, o, last);
      ghost var ca, after := injector.issuance.ca, injector.issuance.database.durable;
      HandleAgentStep(ca, before, agent.entries, draws[n], s, work);
      if injector.issuance.alone {
        HandleLedgerStep(ca, t, after, draws[n], s, work, trace, before,
                         Owned(before, r.identity.username, ca.fingerprint), agent.entries);
      }
      KeysKnown(ca, start, before, agent.entries, draws, n, s);
      served, agents, ledgers := served + [s], agents + [agent.entries], ledgers + [after];
    }
  }

  // ---- renewal ----

  /** A success leaves its own certificate entry as the user's only owned entry. */
  lemma SuccessConverges(ca: ActiveCa, before: set<Entry>, after: set<Entry>, s: Served)
    requires AgentStep(ca, before, after, s) && s.outcome.Issued?
    ensures Owned(after, s.request.identity.username, ca.fingerprint) == {CertificateEntry(s.outcome.credential)}
  {
    hide IsOwned, Issue, HandledAgent;
    var identity, c := s.request.identity, s.outcome.credential;
    assert after == before - Owned(before, identity.username, ca.fingerprint) + EntriesOf(c) && s.last == Some(c) by {
      SuccessExact(ca, before, after, s);
    }
    var draw :| Issue(ca, identity, draw) == Ok(c);
    IssuedOwnership(ca, identity, draw, identity.username, ca.fingerprint);
  }

  lemma SuccessExact(ca: ActiveCa, before: set<Entry>, after: set<Entry>, s: Served)
    requires AgentStep(ca, before, after, s) && s.outcome.Issued?
    ensures after == before - Owned(before, s.request.identity.username, ca.fingerprint)
                     + EntriesOf(s.outcome.credential)
    ensures s.last == Some(s.outcome.credential)
  {
  }

  /** A request for another user, whatever its outcome, leaves a user's owned entries alone. */
  lemma OthersUntouched(ca: ActiveCa, before: set<Entry>, after: set<Entry>, s: Served, username: string)
    requires AgentStep(ca, before, after, s) && s.request.identity.username != username
    ensures Owned(after, username, ca.fingerprint) == Owned(before, username, ca.fingerprint)
  {
    hide IsOwned, Issue;
    var other := s.request.identity.username;
    forall e | e in before && IsOwned(e, username, ca.fingerprint) ensures !IsOwned(e, other, ca.fingerprint) {
      if IsOwned(e, other, ca.fingerprint) { OneOwner(e, username, ca.fingerprint, other, ca.fingerprint); }
    }
    if s.last.Some? {
      var draw :| Issue(ca, s.request.identity, draw) == Ok(s.last.value);
      IssuedOwnership(ca, s.request.identity, draw, username, ca.fingerprint);
    }
  }

  /** Renewal converges: after a user's latest request succeeded, and whatever happened before
      it or to other users since, exactly that certificate entry is owned by the user. */
  lemma {:induction false} RenewalConverges(ca: ActiveCa, agents: seq<set<Entry>>, served: seq<Served>, i: nat,
                                            username: string)
    requires AgentRun(ca, agents, served) && i < |served|
    requires served[i].outcome.Issued? && served[i].request.identity.username == username
    requires forall j :: i < j < |served| ==> served[j].request.identity.username != username
    ensures Owned(agents[|served|], username, ca.fingerprint) == {CertificateEntry(served[i].outcome.credential)}
    decreases |served|
  {
    hide IsOwned, Owned, AgentStep;
    var n := |served| - 1;
    if i == n {
      SuccessConverges(ca, agents[n], agents[n + 1], served[n]);
    } else {
      assert AgentRun(ca, agents[..n + 1], served[..n]);
      RenewalConverges(ca, agents[..n + 1], served[..n], i, username);
      OthersUntouched(ca, agents[n], agents[n + 1], served[n], username);
    }
  }

  // ---- plain key entries ----

  function PlainKeys(entries: set<Entry>): set<Entry> { set e | e in entries && e.blob.KeyBlob? }

  function CountIssued(served: seq<Served>): nat {
    if served == [] then 0
    else CountIssued(served[..|served| - 1]) + (if served[|served| - 1].outcome.Issued? then 1 else 0)
  }

  lemma PlainKeysKept(ca: ActiveCa, before: set<Entry>, after: set<Entry>, s: Served)
    requires AgentStep(ca, before, after, s)
    ensures PlainKeys(before) <= PlainKeys(after)
    ensures s.outcome.Issued? ==> KeyEntry(s.outcome.credential) in PlainKeys(after) - PlainKeys(before)
  {
    hide Issue, Marker;
    if s.outcome.Issued? {
      assert KeyEntry(s.outcome.credential) in EntriesOf(s.outcome.credential);
    }
  }

  /** Renewal never removes a plain key entry, so every success leaves one more behind. */
  lemma {:induction false} PlainKeysAccumulate(ca: ActiveCa, agents: seq<set<Entry>>, served: seq<Served>)
    requires AgentRun(ca, agents, served)
    ensures |PlainKeys(agents[|served|])| >= |PlainKeys(agents[0])| + CountIssued(served)
    decreases |served|
  {
    hide AgentStep, PlainKeys;
    if served != [] {
      var n := |served| - 1;
      assert AgentRun(ca, agents[..n + 1], served[..n]);
      PlainKeysAccumulate(ca, agents[..n + 1], served[..n]);
      var before, after := PlainKeys(agents[n]), PlainKeys(agents[n + 1]);
      PlainKeysKept(ca, agents[n], agents[n + 1], served[n]);
      assert after == before + (after - before);
      assert |after| == |before| + |after - before|;
      if served[n].outcome.Issued? { assert |after - before| > 0; }
    }
  }

  // ---- the ledger over a history ----

  /** The operation a note makes on the ledger. */
  lemma NotedApplies(before: Tables, after: Tables, e: NewEvent, recorded: bool)
    requires Noted(before, after, e, recorded)
    ensures after == Apply(before, if recorded then OpEvent(e) else RolledBack)
    ensures after.certificates == before.certificates && before.events <= after.events
    ensures |after.events| == |before.events| + (if recorded then 1 else 0)
  {
  }

  /** A success adds one certificate row and one event, both holding the credential's data, and
      changes no earlier row. */
  lemma {:induction false} SuccessRecords(ca: ActiveCa, before: Tables, after: Tables, s: Served)
    requires LedgerStep(ca, before, after, s) && s.outcome.Issued?
    ensures after.ca == before.ca && |after.events| == |before.events| + 1
    ensures var c, r, id := s.outcome.credential, s.request, s.outcome.record.certificateId;
            var serial, username := Decimal.Show(c.serial), r.identity.username;
            && after.certificates == before.certificates + [
                 CertificateRow(id, ca.caId, serial, username, c.key.fingerprint, EncodePrincipals(c.principals),
                                c.validAfter, c.validAfter + 90000, r.requestId, "success")]
            && after.events == before.events + [
                 EventRow(after.events[|before.events|].eventId, c.validAfter, "certificate_issued", "allow",
                          r.requestId, Some(username), Some(ca.caId), Some(serial))]
  {
    hide Decimal.Show, EncodePrincipals, RecordCertificate, Issue;
    var draw :| Issue(ca, s.request.identity, draw) == Ok(s.outcome.credential);
    IssueSucceeds(ca, s.request.identity, draw);
    CertificateAccepted(before, Evidence(ca, s.outcome.credential, s.request.requestId), "success", true);
  }

  /** A failure adds no certificate row and at most its own event, dated when the failure is
      noted, unless closing the agent context raised. */
  lemma {:induction false} FailureRecords(ca: ActiveCa, before: Tables, after: Tables, s: Served)
    requires LedgerStep(ca, before, after, s) && s.outcome.Failed? && !s.request.exitRaises
    ensures after.ca == before.ca && after.certificates == before.certificates
    ensures !s.outcome.audited ==> after.events == before.events
    ensures s.outcome.audited ==>
              |after.events| == |before.events| + 1
              && var r, event := s.request, after.events[|before.events|];
                 after.events == before.events + [
                   EventRow(event.eventId, event.occurredAt, "certificate_failed", "deny", r.requestId,
                            Some(r.identity.username), Some(ca.caId), None)]
                 && event.occurredAt in [Truncate(r.clocks.inside), Truncate(r.clocks.outside)]
  {
    hide RecordEvent;
    EventAccepted(before, FailureEvent(ca, s.request.identity, s.request.requestId, s.request.clocks.inside));
    EventAccepted(before, FailureEvent(ca, s.request.identity, s.request.requestId, s.request.clocks.outside));
  }

  /** A failed request that added a certificate row had committed its last credential before
      closing the agent context raised. */
  lemma FailureAfterCommit(ca: ActiveCa, before: Tables, after: Tables, s: Served)
    requires LedgerStep(ca, before, after, s) && s.outcome.Failed? && after.certificates != before.certificates
    ensures s.request.exitRaises && s.last.Some? && Recording(before, ca, s.last.value, s.request.requestId).Ok?
    ensures after.certificates == Recording(before, ca, s.last.value, s.request.requestId).value.0.certificates
  {
    hide Recording, RecordEvent, IssuedTo;
    var r := s.request;
    var inside := FailureEvent(ca, r.identity, r.requestId, r.clocks.inside);
    var outside := FailureEvent(ca, r.identity, r.requestId, r.clocks.outside);
    if !r.exitRaises {
      FailureRecords(ca, before, after, s);
    } else {
      var middle :| LeftBehind(before, middle, ca, r.requestId, inside, s.last)
                    && Noted(middle, after, outside, s.outcome.audited);
      NotedApplies(middle, after, outside, s.outcome.audited);
      if Noted(before, middle, inside, true) { NotedApplies(before, middle, inside, true); }
    }
  }

  /** The certificate records a history of requests returns, in order. */
  function Records(served: seq<Served>): seq<CertificateRecord> {
    if served == [] then []
    else Records(served[..|served| - 1])
         + (if served[|served| - 1].outcome.Issued? then [served[|served| - 1].outcome.record] else [])
  }

  /** The record a request makes durable: the one it returns, or the one it committed before
      closing the agent context raised. */
  ghost function Durable(ca: ActiveCa, before: Tables, after: Tables, s: Served): seq<CertificateRecord> {
    if s.outcome.Issued? then [s.outcome.record]
    else if after.certificates == before.certificates || s.last.None? then []
    else match Recording(before, ca, s.last.value, s.request.requestId)
      case Ok((_, record)) => [record]
      case Err(_) => []
  }

  ghost function AllDurable(ca: ActiveCa, ledgers: seq<Tables>, served: seq<Served>): seq<CertificateRecord>
    requires |ledgers| == |served| + 1
    decreases |served|
  {
    if served == [] then []
    else
      var n := |served| - 1;
      AllDurable(ca, ledgers[..n + 1], served[..n]) + Durable(ca, ledgers[n], ledgers[n + 1], served[n])
  }

  /** A note of this request's failure. */
  ghost predicate OwnNote(ca: ActiveCa, r: Request, op: Operation) {
    op.OpEvent? && (op.event == FailureEvent(ca, r.identity, r.requestId, r.clocks.inside)
                    || op.event == FailureEvent(ca, r.identity, r.requestId, r.clocks.outside))
  }

  /** A request leaves the ledger as some of the ledger's own operations would: its commit if
      it made one, and its notes. */
  lemma StepOperations(ca: ActiveCa, before: Tables, after: Tables, s: Served)
    returns (first: Operation, second: Operation)
    requires LedgerStep(ca, before, after, s)
    ensures after == Apply(Apply(before, first), second)
    ensures LedgerRuns.Returned(before, first) + LedgerRuns.Returned(Apply(before, first), second)
            == Durable(ca, before, after, s)
    ensures forall op :: op in [first, second] ==>
              op.RolledBack? || OwnNote(ca, s.request, op)
              || (s.last.Some? && op == OpIssue(Evidence(ca, s.last.value, s.request.requestId)))
  {
    hide RecordEvent, FailureEvent, Evidence, CheckCertificate, CertificateConflict, NewCertificateRow;
    hide CertificateRecordOf, IssuedTo;
    var r := s.request;
    var inside := FailureEvent(ca, r.identity, r.requestId, r.clocks.inside);
    var outside := FailureEvent(ca, r.identity, r.requestId, r.clocks.outside);
    match s.outcome
    case Issued(c, _, _) => first, second := OpIssue(Evidence(ca, c, r.requestId)), RolledBack;
    case Failed(_, _, audited) =>
      var middle, e := before, outside;
      if r.exitRaises {
        middle :| LeftBehind(before, middle, ca, r.requestId, inside, s.last) && Noted(middle, after, outside, audited);
      } else if !Noted(before, after, outside, audited) {
        e := inside;
      }
      first := if middle == before then RolledBack
               else if Noted(before, middle, inside, true) then OpEvent(inside)
               else OpIssue(Evidence(ca, s.last.value, r.requestId));
      NotedApplies(middle, after, e, audited);
      if middle != before && Noted(before, middle, inside, true) { NotedApplies(before, middle, inside, true); }
      second := if audited then OpEvent(e) else RolledBack;
  }

  lemma StepLists(ca: ActiveCa, before: Tables, after: Tables, s: Served)
    requires LedgerStep(ca, before, after, s) && Sound(before)
    ensures Sound(after) && ListCertificates(before).Ok?
    ensures ListCertificates(after) == Ok(ListCertificates(before).value + Durable(ca, before, after, s))
  {
    hide Sound, ListCertificates, LedgerStep, Durable, Apply, LedgerRuns.Returned;
    var first, second := StepOperations(ca, before, after, s);
    var middle := Apply(before, first);
    ApplySound(before, first);
    ApplyLists(before, first);
    ApplySound(middle, second);
    ApplyLists(middle, second);
    assert (ListCertificates(before).value + LedgerRuns.Returned(before, first)) + LedgerRuns.Returned(middle, second)
        == ListCertificates(before).value + (LedgerRuns.Returned(before, first) + LedgerRuns.Returned(middle, second));
  }

  /** Over any history, with failures of any kind, the listing of certificates grows by exactly
      the records that requests made durable, in order. */
  lemma {:induction false} HistoryLists(ca: ActiveCa, ledgers: seq<Tables>, served: seq<Served>)
    requires LedgerRun(ca, ledgers, served) && Sound(ledgers[0])
    ensures Sound(ledgers[|served|]) && ListCertificates(ledgers[0]).Ok?
    ensures ListCertificates(ledgers[|served|]) ==
            Ok(ListCertificates(ledgers[0]).value + AllDurable(ca, ledgers, served))
    decreases |served|
  {
    hide Sound, ListCertificates, LedgerStep, Durable;
    if served == [] {
      SoundListable(ledgers[0]);
      var listed := ListCertificates(ledgers[0]).value;
      assert listed + [] == listed;
    } else {
      var n := |served| - 1;
      assert LedgerRun(ca, ledgers[..n + 1], served[..n]);
      HistoryLists(ca, ledgers[..n + 1], served[..n]);
      StepLists(ca, ledgers[n], ledgers[n + 1], served[n]);
      var listed, early := ListCertificates(ledgers[0]).value, AllDurable(ca, ledgers[..n + 1], served[..n]);
      var late := Durable(ca, ledgers[n], ledgers[n + 1], served[n]);
      assert (listed + early) + late == listed + (early + late);
    }
  }

  /** The `i`-th request did not leave a certificate behind while reporting a failure. */
  ghost predicate Told(ledgers: seq<Tables>, served: seq<Served>, i: nat)
    requires i < |served| == |ledgers| - 1
  {
    served[i].outcome.Failed? ==> ledgers[i + 1].certificates == ledgers[i].certificates
  }

  /** These are the records the successful requests returned, in order, exactly as long as no
      request committed before closing its agent context raised. */
  lemma {:induction false} DurableReturned(ca: ActiveCa, ledgers: seq<Tables>, served: seq<Served>)
    requires LedgerRun(ca, ledgers, served)
    ensures |AllDurable(ca, ledgers, served)| >= |Records(served)|
    ensures AllDurable(ca, ledgers, served) == Records(served) <==>
            forall i :: 0 <= i < |served| ==> Told(ledgers, served, i)
    decreases |served|
  {
    hide LedgerStep, Recording, Durable, Told;
    if served != [] {
      var n := |served| - 1;
      var ledgers', served' := ledgers[..n + 1], served[..n];
      assert LedgerRun(ca, ledgers', served');
      DurableReturned(ca, ledgers', served');
      DurableStep(ca, ledgers, served);
      var durable, returned := AllDurable(ca, ledgers', served'), Records(served');
      var more := Durable(ca, ledgers[n], ledgers[n + 1], served[n]);
      assert AllDurable(ca, ledgers, served) == durable + more;
      if served[n].outcome.Issued? {
        assert Records(served) == returned + more;
        SameEnd(durable, returned, more);
      } else {
        assert Records(served) == returned && durable + [] == durable;
        assert durable + more == durable <==> more == [];
      }
      forall i | 0 <= i < n ensures Told(ledgers, served, i) <==> Told(ledgers', served', i) {
        ToldEarlier(ledgers, served, i, n);
      }
      assert (forall i :: 0 <= i < |served| ==> Told(ledgers, served, i)) <==>
             (forall i :: 0 <= i < n ==> Told(ledgers', served', i)) && Told(ledgers, served, n);
    }
  }

  lemma ToldEarlier(ledgers: seq<Tables>, served: seq<Served>, i: nat, n: nat)
    requires i < n < |served| == |ledgers| - 1
    ensures Told(ledgers, served, i) <==> Told(ledgers[..n + 1], served[..n], i)
  {
  }

  lemma SameEnd<T>(a: seq<T>, b: seq<T>, end: seq<T>)
    ensures a + end == b + end <==> a == b
  {
    if a + end == b + end {
      assert a == (a + end)[..|a|] == (b + end)[..|b|] == b;
    }
  }

  lemma DurableStep(ca: ActiveCa, ledgers: seq<Tables>, served: seq<Served>)
    requires LedgerRun(ca, ledgers, served) && served != []
    ensures var n := |served| - 1;
            var more := Durable(ca, ledgers[n], ledgers[n + 1], served[n]);
            && (served[n].outcome.Issued? ==> more == [served[n].outcome.record] && Told(ledgers, served, n))
            && (served[n].outcome.Failed? ==> |more| <= 1 && (more == [] <==> Told(ledgers, served, n)))
  {
    hide Recording, HandledLedger, IssuedTo;
    var n := |served| - 1;
    assert LedgerStep(ca, ledgers[n], ledgers[n + 1], served[n]);
    if served[n].outcome.Failed? && ledgers[n + 1].certificates != ledgers[n].certificates {
      FailureAfterCommit(ca, ledgers[n], ledgers[n + 1], served[n]);
    }
  }

  predicate NonNegative(clocks: Clocks) { Truncate(clocks.inside) >= 0 && Truncate(clocks.outside) >= 0 }

  /** With clocks after 1970, requests never make the ledger fail its consistency check,
      not even when closing an agent context raises. */
  lemma {:induction false} HistoryAccepted(ca: ActiveCa, ledgers: seq<Tables>, served: seq<Served>)
    requires LedgerRun(ca, ledgers, served) && Sound(ledgers[0]) && Accepted(ledgers[0])
    requires forall i :: 0 <= i < |served| ==>
               NonNegative(served[i].request.clocks)
               && (served[i].last.Some? ==> served[i].last.value.validAfter >= 0)
    ensures Sound(ledgers[|served|]) && Accepted(ledgers[|served|])
    decreases |served|
  {
    hide Sound, Accepted, LedgerStep;
    if served != [] {
      var n := |served| - 1;
      assert LedgerRun(ca, ledgers[..n + 1], served[..n]);
      HistoryAccepted(ca, ledgers[..n + 1], served[..n]);
      StepAccepted(ca, ledgers[n], ledgers[n + 1], served[n]);
    }
  }

  lemma {:induction false} StepAccepted(ca: ActiveCa, before: Tables, after: Tables, s: Served)
    requires LedgerStep(ca, before, after, s) && Sound(before) && Accepted(before)
    requires NonNegative(s.request.clocks) && (s.last.Some? ==> s.last.value.validAfter >= 0)
    ensures Sound(after) && Accepted(after)
  {
    hide Sound, Accepted, LedgerStep, Apply, Rejects, LedgerRuns.Returned, Durable;
    var first, second := StepOperations(ca, before, after, s);
    assert first in [first, second] && second in [first, second];
    var middle := Apply(before, first);
    ApplySound(before, first);
    ApplyAccepted(before, first);
    ApplySound(middle, second);
    ApplyAccepted(middle, second);
  }
}
