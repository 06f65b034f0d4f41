/** What a request leaves when nothing fails by itself, and what becomes of that when closing the
    agent context raises (`src/ski/injection.py`). */
module RaisingExits {
  import opened Basics
  import opened IssuerPolicy
  import opened StoredText
  import opened Ledger
  import opened LedgerRuns
  import opened StateDatabases
  import opened Injection

  /** A failure can be noted exactly for a canonical user, a proper request identifier, a
      registered CA and a time that fits its column. */
  lemma FailureNotable(t: Tables, ca: ActiveCa, identity: Identity, requestId: string, clock: real)
    ensures RecordEvent(t, FailureEvent(ca, identity, requestId, clock)).Ok? <==>
            && CanonicalUsername(identity.username) && ValidText(requestId)
            && ca.caId > 0 && FitsColumn(ca.caId) && HasCa(t, ca.caId) && FitsColumn(Truncate(clock))
  {
    assert ValidText("certificate_failed") && ValidText("deny");
  }

  /** If nobody else uses the ledger and nothing fails by itself, the tables at the start
      determine the answer and all that the request leaves. */
  lemma RequestSettles(before: Tables, after: Tables, entries: set<Entry>, owned: set<Entry>, entries': set<Entry>,
                       ca: ActiveCa, identity: Identity, requestId: string, draws: seq<Draw>, clocks: Clocks,
                       trace: Trace, work: Option<Body>, o: Outcome, last: Option<Credential>, exitRaises: bool)
    requires draws != [] && work.Some? && Answers(work, o, identity, exitRaises)
    requires WorkedAgent(entries, owned, entries', work, last)
    requires WorkedLedger(true, before, after, ca, identity, requestId, clocks, trace, work, o, exitRaises)
    requires Explained(work.value, trace.views, ca, identity, requestId, draws)
    requires work.value.WorkflowFailure? ==>
               && (work.value.outcome.audited <==>
                     RecordEvent(trace.inside, FailureEvent(ca, identity, requestId, clocks.inside)).Ok?)
               && entries' == if Issue(ca, identity, draws[0]).Ok? then entries - owned else entries
    requires NotedOutside(work, exitRaises) ==>
               (o.audited <==> RecordEvent(trace.outside, FailureEvent(ca, identity, requestId, clocks.outside)).Ok?)
    ensures o.Issued? <==> !exitRaises && Decided(before, ca, identity, requestId, draws)
    ensures o.Issued? ==> exists k: nat ::
              DecidedAt(before, ca, identity, requestId, draws, k) && Issue(ca, identity, draws[k]) == Ok(o.credential)
    ensures after == SettledLedger(before, ca, identity, requestId, draws,
                                   FailureEvent(ca, identity, requestId, clocks.inside),
                                   FailureEvent(ca, identity, requestId, clocks.outside), exitRaises)
    ensures entries' == SettledAgent(entries, owned, before, ca, identity, requestId, draws)
  {
    hide Issue, Recording, EntriesOf, Noted, FailureEvent, Explained, BodyLedger, BodyAgent, LeftLedger, SettledAgent;
    hide Decided, DecidedAt, AllCollide, RecordEvent, AfterNote, Drift, Drifts;
    AloneSettles(before, trace.left, trace.views, trace.inside, entries, owned, entries', last, ca, identity, requestId,
                 draws, clocks.inside, work.value);
    RaisedUnexplained(work.value, trace.views, ca, identity, requestId, draws);
    if NotedOutside(work, exitRaises) {
      DriftAlone(trace.left, trace.outside);
      NoteSettles(trace.left, after, FailureEvent(ca, identity, requestId, clocks.outside), o.audited);
    }
  }

  lemma RaisedUnexplained(b: Body, views: seq<Tables>, ca: ActiveCa, identity: Identity, requestId: string,
                          draws: seq<Draw>)
    requires Explained(b, views, ca, identity, requestId, draws)
    ensures !b.Raised?
  {
  }

  lemma RecordingAdds(t: Tables, ca: ActiveCa, c: Credential, requestId: string)
    requires Recording(t, ca, c, requestId).Ok?
    ensures var after := Recording(t, ca, c, requestId).value.0;
            && after.ca == t.ca
            && |after.certificates| == |t.certificates| + 1 && |after.events| == |t.events| + 1
            && t.certificates <= after.certificates && t.events <= after.events
  {
    hide CheckCertificate, CertificateConflict;
  }

  /** A certificate becomes durable exactly when a draw decides the request, whether or not
      closing the agent context then raises. If it raises, the failure is noted once more than
      otherwise: after a commit, after a note, and after collisions alike. */
  lemma SettledCounts(t: Tables, ca: ActiveCa, identity: Identity, requestId: string, draws: seq<Draw>,
                      inside: NewEvent, outside: NewEvent, exitRaises: bool)
    ensures var after := SettledLedger(t, ca, identity, requestId, draws, inside, outside, exitRaises);
            var decided := Decided(t, ca, identity, requestId, draws);
            var collided := AllCollide(t, ca, identity, requestId, draws);
            && |after.certificates| == |t.certificates| + (if decided then 1 else 0)
            && t.certificates <= after.certificates && t.events <= after.events && after.ca == t.ca
            && |after.events| == |t.events|
                 + (if decided then 1 else if collided then 0 else NoteCount(t, inside))
                 + (if exitRaises || (collided && !decided) then NoteCount(t, outside) else 0)
  {
    hide RecordEvent, Recording, Collides, Issue;
    NotableStill(t, t, inside);
    NotableStill(t, t, outside);
    NotableStill(t, AfterNote(t, inside), outside);
    if Decided(t, ca, identity, requestId, draws) {
      var k: nat :| DecidedAt(t, ca, identity, requestId, draws, k);
      DecidedOnce(t, ca, identity, requestId, draws, k);
      LeftDecided({}, {}, t, ca, identity, requestId, draws, inside, k);
      RecordingAdds(t, ca, Issue(ca, identity, draws[k]).value, requestId);
      NotableStill(t, LeftLedger(t, ca, identity, requestId, draws, inside), outside);
    }
  }

  lemma DecidedOnce(t: Tables, ca: ActiveCa, identity: Identity, requestId: string, draws: seq<Draw>, k: nat)
    requires DecidedAt(t, ca, identity, requestId, draws, k)
    ensures k < |draws| && forall j :: 0 <= j < k ==> Collides(t, ca, identity, requestId, draws[j])
    ensures Commits(t, ca, identity, requestId, draws[k]) && !Collides(t, ca, identity, requestId, draws[k])
  {
    hide Issue, Recording;
  }

  /** Every request that would succeed is, if closing the agent context raises, reported as
      failed although its certificate is durable and its credential in the agent. */
  method CommitCanBeReportedFailed(ca: ActiveCa, before: Tables, entries: set<Entry>, identity: Identity,
                                   requestId: string, draws: seq<Draw>, clocks: Clocks)
    returns (o: Outcome, after: Tables, left: set<Entry>)
    requires |draws| == 5 && forall k :: 0 <= k < 5 ==> FreshKey(entries, draws[k].key)
    requires Decided(before, ca, identity, requestId, draws)
    ensures o.Failed? && o.cause == ContextNotClosed
    ensures |after.certificates| == |before.certificates| + 1 && before.certificates <= after.certificates
    ensures exists k: nat :: DecidedAt(before, ca, identity, requestId, draws, k)
                             && EntriesOf(Issue(ca, identity, draws[k]).value) <= left
  {
    hide Issue, Owned, FailureEvent, DecidedAt, AllCollide, SettledLedger, EntriesOf, Recording, RecordEvent;
    o, after, left := RequestWhereClosingRaises(ca, before, entries, identity, requestId, draws, clocks);
    ghost var inside := FailureEvent(ca, identity, requestId, clocks.inside);
    SettledCounts(before, ca, identity, requestId, draws, inside, FailureEvent(ca, identity, requestId, clocks.outside),
                  true);
    ghost var k: nat :| DecidedAt(before, ca, identity, requestId, draws, k);
    DecidedOnce(before, ca, identity, requestId, draws, k);
    LeftDecided(entries, Owned(entries, identity.username, ca.fingerprint), before, ca, identity, requestId, draws,
                inside, k);
  }

  /** A request that fails for a reason of its own, other than collisions, is noted twice if
      closing the agent context raises. */
  method FailureCanBeNotedTwice(ca: ActiveCa, before: Tables, entries: set<Entry>, identity: Identity,
                                requestId: string, draws: seq<Draw>, clocks: Clocks)
    returns (o: Outcome, after: Tables)
    requires |draws| == 5 && forall k :: 0 <= k < 5 ==> FreshKey(entries, draws[k].key)
    requires !Decided(before, ca, identity, requestId, draws) && !AllCollide(before, ca, identity, requestId, draws)
    requires RecordEvent(before, FailureEvent(ca, identity, requestId, clocks.inside)).Ok?
    requires RecordEvent(before, FailureEvent(ca, identity, requestId, clocks.outside)).Ok?
    ensures o.Failed? && |after.events| == |before.events| + 2 && after.certificates == before.certificates
    ensures forall i :: |before.events| <= i < |after.events| ==>
              after.events[i].kind == "certificate_failed" && after.events[i].requestId == requestId
              && after.events[i].identity == Some(identity.username)
  {
    hide Issue, Owned, DecidedAt, AllCollide, EntriesOf, Decided, SettledAgent;
    var left;
    o, after, left := RequestWhereClosingRaises(ca, before, entries, identity, requestId, draws, clocks);
    ghost var inside := FailureEvent(ca, identity, requestId, clocks.inside);
    NotableStill(before, AfterNote(before, inside), FailureEvent(ca, identity, requestId, clocks.outside));
  }

  /** One request on a database and an agent that never fail by themselves and that nobody else
      uses, whose agent context raises when it is closed. */
  method RequestWhereClosingRaises(ca: ActiveCa, before: Tables, entries: set<Entry>, identity: Identity,
                                   requestId: string, draws: seq<Draw>, clocks: Clocks)
    returns (o: Outcome, after: Tables, left: set<Entry>)
    requires |draws| == 5 && forall k :: 0 <= k < 5 ==> FreshKey(entries, draws[k].key)
    ensures o.Failed? && o.cause == ContextNotClosed
    ensures after == SettledLedger(before, ca, identity, requestId, draws,
                                   FailureEvent(ca, identity, requestId, clocks.inside),
                                   FailureEvent(ca, identity, requestId, clocks.outside), true)
    ensures left == SettledAgent(entries, Owned(entries, identity.username, ca.fingerprint), before, ca, identity,
                                 requestId, draws)
  {
    hide Issue, Owned, FailureEvent, SettledLedger, SettledAgent, RecordEvent, Decided, DecidedAt, Explained;
    hide BodyLedger, Noted, Drift, Drifts, WorkedAgent, WorkedLedger;
    var database := new StateDatabase(before, true);
    var agent := new ForwardedAgent(entries, true);
    var issuance := new OrdinaryIssuanceService(database, ca, true, true);
    var injector := new OrdinaryAgentInjector(issuance);
    var last;
    ghost var work, trace;
    o, last, work, trace := injector.Handle(agent, identity, requestId, draws, clocks, true);
    after, left := database.durable, agent.entries;
    RequestSettles(before, after, entries, Owned(entries, identity.username, ca.fingerprint), left, ca, identity,
                   requestId, draws, clocks, trace, work, o, last, true);
  }
}
