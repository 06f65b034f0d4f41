# Verification of the ski certificate issuer

`ski` issues short-lived SSH user certificates into a user's forwarded agent, keeps a ledger of
what it issued, and lets production hosts decide logins offline from the certificate alone. This
project models that path and proves properties of it, in five linked parts:

1. **Issuance with compensation.** One request lists the entries it owns in the agent, prepares a
   credential, removes the old entries, adds the new one, commits certificate and event to the
   ledger, and on a serial collision undoes the addition and tries again, up to five times. Agent
   and ledger are independent stores and almost every call may fail. `Injection.dfy` holds the
   agent, the issuance service and the request as classes; failures are arbitrary choices, so
   each contract holds for all of them, and are counted, so that contracts also say what must
   happen when none occurs. Others may use the ledger whenever a request is suspended.
   `IssuanceRuns.dfy` lifts the contracts to whole histories, `SharedLedger.dfy` to requests that
   share the ledger, and `RaisingExits.dfy` says what a request leaves when nothing fails but the
   closing of the agent context.
2. **The ledger and its check.** `Ledger.dfy` defines the tables, the operations that append to
   them and the reading of stored rows; `StateDatabase.dfy` is the connection with its
   transactions, proved against those definitions under any failure; `LedgerChecks.dfy` is the
   consistency check with its meaning; `LedgerRules.dfy` spells out what may be recorded, read
   and accepted; `LedgerRuns.dfy` says what every history keeps and exactly when the check accepts
   it; `LedgerLimits.dfy` shows how it comes to reject a ledger. `Decimal.dfy` and
   `StoredText.dfy` are the stored text forms.
3. **Certificate and host decision.** `IssuerPolicy.dfy` is the issuer's naming policy,
   `Wire.dfy` and `Utf8.dfy` the formats of section 5 of RFC 4251, `Certificates.dfy` the parser
   and the encoder it inverts, `WireBytes.dfy` the same messages byte by byte, `HostPolicy.dfy`
   and `HostAuthorization.dfy` the host's side, and `EndToEnd.dfy` composes issue, write, read and
   authorize.
4. **Runtime lifecycle.** `Runtime.dfy` and `Control.dfy` are state machines over the steps
   between suspension points; their theorems are about every interleaving. The methods of the two
   classes are proved to be those steps.
5. **CA installation and identities.** `CaInstallation.dfy` is the installation of three files
   and a ledger entry with rollback; `Identities.dfy` is users, groups and memberships under
   several administrators whose transactions interleave.

`Basics.dfy` has shared vocabulary. `dafny verify dfyconfig.toml` checks everything.

What contracts and code have in common (name grammars, text and byte forms, constants, the mark of
an owned entry, the ledger's rules) is also stated independently, with alphabets, lengths, bytes,
numbers and columns written out: see the members whose names end in `Means` or `Mean`, and
`LedgerRules.dfy` and `WireBytes.dfy` throughout.

## Where the code does less than its documentation says

- `_is_owned` asks for a certificate, so the plain key entry that an agent holds beside every
  certificate entry is never owned. Renewal replaces certificate entries only, and each success
  leaves one more plain key (`IssuanceRuns.PlainKeysAccumulate`).
- Closing the agent context runs inside the request's outer `try`. If it raises after a commit,
  the request is reported as failed although certificate and event are durable and the credential
  is in the agent, and the failure is noted too; after a failure already noted, it is noted twice.
  `IssuanceRuns.FailureAfterCommit` shows that this is the only way to such a certificate;
  `RaisingExits.SettledCounts` says exactly when a certificate and how many events are left, and
  `RaisingExits.CommitCanBeReportedFailed` and `RaisingExits.FailureCanBeNotedTwice` carry such
  requests out.
- The ledger can be driven into a state its own check rejects: `record_certificate` accepts the
  outcome "success" without an event; the time of an event or of a CA registration may be a zoned
  date before 1970, and an issuance valid from before 1970 stamps its event so, but the readers of
  events and CAs reject such times; an event may name a serial that was never recorded.
  `LedgerRuns.ApplyAccepted` gives the exact condition, `LedgerLimits.SpoiledHistories` a history
  of each kind; the attempts the issuer itself makes meet it (`LedgerRuns.OrdinaryRunAccepted`).
- A certificate for a missing CA breaks a foreign key and is reported as a duplicate serial: a
  reported duplicate is a recorded serial exactly when the CA exists (`LedgerRuns.DuplicateMeans`,
  `LedgerLimits.MissingCaReportedDuplicate`).
- The check compares serials as numbers, within whole key tuples, while uniqueness is enforced on
  their text, so a database edited by another program may hold "7" and "07" and still pass
  (`LedgerRuns.TextualTwinsAccepted`). With serials written as the service writes them this cannot
  happen (`LedgerRuns.CanonicalTextsUnique`, `LedgerRuns.RunSerialsUnique`).
- A temporary revocation list survives a failed installation when closing its reserved name or
  setting its mode raises: it is not yet tracked then (`CaInstallation.RevocationListCanRemain`);
  `CaInstallation.InitializeCa` says exactly when.
- `start` leaves its database open if closing the half-started listener raises, and `close`
  releases the database without draining if closing the listener raises
  (`Runtime.ServiceRuntime.Start`, `Runtime.UndrainedIff`, `Runtime.UndrainedCloseHappens`).
- Reading a user's groups is not one transaction: a group removed meanwhile makes a sound
  database be reported as malformed, exactly then (`Identities.IdentityStore.GetUser`,
  `Identities.ReadCanReportMalformed`). A group that gained a member before the last step of its
  removal is reported as not found (`Identities.RemovalCanReportMissing`).

## Model

| member | source | states |
|---|---|---|
| Injection.OrdinaryAgentInjector.Handle | src/ski/injection.py:181-237 | For every pattern of failures, whoever else uses the ledger meanwhile, and whether or not closing the agent context raises: only entries go that carry the issuer's mark for this user in full, and a success leaves exactly the other entries and the new credential's two. How the work inside the context ended fixes what it did to the agent (a commit replaces the marked entries; a failure leaves at most as many fresh entries as cleanup failures it reports; every agent failure is the cause or reported), what it did to the ledger in the tables it found (one certificate with its event, its own note, or nothing), and the answer, which a raising close replaces, with a note of its own. The failure is noted whenever the ledger it finds accepts that and the database does not fail. When nothing fails, the draws and the tables found at each commit explain the ending |
| Injection.OwnedMeans | src/ski/injection.py:90-123 | What may be removed for a user, in full: a certificate of this CA with the user's name as key ID and canonical principals naming the user first, whose comment is ski:user:fingerprint:serial with the certificate's own serial in decimal; nothing less is enough and nothing more is asked |
| Injection.Renews | src/ski/injection.py:189-227 | However a request ends, the entries that are gone were all such; after a success exactly the others and the new credential's two are left |
| Injection.OrdinaryAgentInjector.Conclude | src/ski/injection.py:228-237 | How the work ended fixes the answer; a failure that the work did not note, or whose answer a raising close replaced, is noted once, whenever the ledger found accepts it and the database does not fail |
| Injection.OrdinaryAgentInjector.WithinAgent | src/ski/injection.py:190-227 | The five-attempt loop inside the agent context: each exit (commit, five collisions, or a failure compensated and noted) fixes agent, ledger and failure accounting; before a credential is prepared the agent is untouched; when nothing fails, the ending is explained by the draws and the tables found |
| Injection.OrdinaryAgentInjector.Attempt | src/ski/injection.py:195-227 | One pass keeps both stores in step: a commit leaves the credential in the agent and its row in the ledger, a collision leaves neither, a failed preparation leaves the agent as it was, and any failure is cleaned up whenever a credential was prepared, and noted whenever the ledger it finds accepts that and the database does not fail |
| Injection.OrdinaryAgentInjector.TryCredential | src/ski/injection.py:201-214 | Replacing and recording a prepared credential ends in exactly one of: recorded, collided and undone, or broken with the agent failures told by the cause; when nothing fails, recorded and collided mean what the ledger says |
| Injection.OrdinaryAgentInjector.Compensate | src/ski/injection.py:220-227 | The last credential is cleaned up whenever there is one: the reported cleanup failures are exactly the agent failures that happened, no more removals are reported than happened, entries from before the attempt stay, and without failures the agent is restored exactly; the failure is noted whenever that is possible |
| Injection.OrdinaryAgentInjector.RaiseWorkflowFailure | src/ski/injection.py:239-255 | A failed request reports its own cause and cleanup, says it was audited exactly when its event was appended, and appends it whenever the ledger accepts it and the database does not fail |
| Injection.ForwardedAgent.RemoveCredential | src/ski/injection.py:70-88 | Only entries of this credential disappear; the failures reported are exactly those that happened, and each leaves at most one entry behind; the removals reported never exceed those that happened and, without failures, are all of them |
| Injection.ForwardedAgent.RemoveKeys | src/ski/injection.py:53-56 | Removes exactly the given entries; interrupted, at most those |
| Injection.ForwardedAgent.AddCredential | src/ski/injection.py:58-68 | Adds exactly the credential's two entries; interrupted, at most those |
| Injection.OrdinaryIssuanceService.Commit | src/ski/credentials.py:161-177 | Others may have used the ledger before it; in the tables it finds it appends the credential's row and event together or changes nothing; if the database does not fail, it answers exactly what the ledger rules determine there |
| Injection.OrdinaryIssuanceService.RecordFailure | src/ski/credentials.py:179-195 | In the tables it finds it appends the failure event and says so, or changes nothing and says so; if the database does not fail, it appends it exactly when the ledger accepts it there |
| Injection.ExplainedOnce | src/ski/injection.py:195-237 | When nothing fails, the work commits exactly when some commit succeeds in the tables it finds and all before it collide in theirs, runs out exactly when all five collide, and fails exactly when a draw is rejected |
| Injection.AloneSettles | src/ski/injection.py:189-237 | With nobody else on the ledger, the tables at the start determine how the work ends, the ledger it leaves and the agent it leaves |
| IssuanceRuns.HandleAgentStep | src/ski/injection.py:181-237 | From how the work ended, and a raising close: entries not owned stay, nothing appears but the last credential, and success replaces exactly the owned entries |
| IssuanceRuns.HandleLedgerStep | src/ski/injection.py:181-237 | With nobody else on the ledger: success records one certificate with its event; failure notes itself at most once and records nothing, unless closing the context raised |
| IssuanceRuns.Serve | src/ski/injection.py:181-237 | Serving any sequence of requests through one agent, with any failures, yields the agent history that the renewal results are about, whoever uses the ledger, and, if nobody else does, the ledger history that the listing and acceptance results are about |
| IssuanceRuns.FirstUnrecordedDecides | src/ski/injection.py:195-219 | For a valid identity and no failures, the serial that decides a request is the first drawn one not recorded for the active CA |
| IssuanceRuns.SomeUnrecordedDecides | src/ski/injection.py:195-219 | So a request succeeds exactly when one of its drawn serials is not yet recorded |
| IssuanceRuns.FirstUnrecordedDecidesIn | src/ski/injection.py:195-219 | While others record certificates, the deciding draw is the first whose serial is unrecorded in the tables that its own commit finds |
| IssuanceRuns.SerialSettles | src/ski/state.py:602-623 | For a valid identity a draw commits exactly when its serial is unrecorded and collides exactly when it is recorded |
| IssuanceRuns.IssueSucceeds | src/ski/credentials.py:82-128 | Issuing succeeds exactly for a canonical identity and a serial below 2 to the 64th; the credential names the user first and then each group with its prefix, has the drawn key and serial, holds for 90000 seconds from the clock, and is marked with user, fingerprint and serial; a malformed identity is the answer exactly when it is one |
| IssuanceRuns.IssuedOwnership | src/ski/injection.py:90-123 | An issued certificate entry is owned by its own user under its own CA and by nobody else; the plain key entry beside it is owned by nobody |
| IssuanceRuns.OneOwner | src/ski/injection.py:90-123 | No agent entry is owned by two users or under two CAs |
| IssuanceRuns.SuccessConverges | src/ski/injection.py:201-219 | After a success the user's only owned entry is the new certificate entry |
| IssuanceRuns.OthersUntouched | src/ski/injection.py:201-227 | A request for one user, whatever its outcome, leaves every other user's owned entries as they were |
| IssuanceRuns.RenewalConverges | src/ski/injection.py:189-227 | Over any history, with failures of any kind: since a user's last request succeeded, exactly that request's certificate entry is owned by the user |
| IssuanceRuns.PlainKeysKept | src/ski/injection.py:97-101 | No request removes a plain key entry that it found |
| IssuanceRuns.PlainKeysAccumulate | src/ski/injection.py:48-56 | A limit of renewal: each success leaves one more plain key entry in the agent, since plain keys have no certificate and are never owned |
| IssuanceRuns.SuccessRecords | src/ski/credentials.py:161-177 | A success appends exactly one certificate row and one event, both given column by column from the credential and the request, and changes no earlier row |
| IssuanceRuns.FailureRecords | src/ski/credentials.py:179-195 | A failure appends no certificate row, and exactly when it says it was audited a single denial event, given column by column, dated by one of the two clock readings |
| IssuanceRuns.FailureAfterCommit | src/ski/injection.py:228-231 | A failed request that left a certificate row had committed its last credential before closing the agent context raised: there is no other way |
| RaisingExits.FailureNotable | src/ski/state.py:637-673 | A failure can be noted exactly for a canonical user, a proper request identifier, a registered CA and a time that fits its column |
| RaisingExits.SettledCounts | src/ski/injection.py:189-237 | When nothing fails by itself, a certificate becomes durable exactly when a draw decides, whether or not closing the agent context raises; and exactly how many events each case leaves |
| RaisingExits.RequestSettles | src/ski/injection.py:189-237 | With nobody else on the ledger and no failure, the tables at the start determine the answer, the ledger and the agent exactly, also when closing the agent context raises; success is exactly that a draw decides and closing does not raise |
| RaisingExits.CommitCanBeReportedFailed | src/ski/injection.py:228-231 | Every request that a draw decides is, if closing the agent context raises, reported as failed although its certificate is durable and its credential is in the agent: the request itself is carried out to show it |
| RaisingExits.FailureCanBeNotedTwice | src/ski/injection.py:220-231 | Every request that fails for a reason of its own, other than collisions, is noted twice if closing the agent context raises |
| IssuanceRuns.HistoryLists | src/ski/state.py:562-565 | Over any history of requests, with failures of any kind, the certificate listing grows by exactly the records that became durable, in order |
| IssuanceRuns.StepOperations | src/ski/injection.py:205-237 | Whatever happens, a request leaves the ledger as at most two of its own operations do: its commit and its notes |
| IssuanceRuns.DurableReturned | src/ski/injection.py:215-231 | These are the records the successes returned exactly as long as no failed request left a certificate behind |
| IssuanceRuns.HistoryAccepted | src/ski/state.py:709-757 | With clocks after 1970, no history of requests makes the consistency check fail, not even when closing an agent context raises |
| LedgerRuns.InterleavedAccepted | src/ski/state.py:709-757 | However ordinary attempts of any number of parties interleave, an acceptable ledger stays acceptable and its listing grows by the records of the commits, in their order |
| SharedLedger.DriftKeeps | src/ski/migrations.py:89-98 | Whatever others do meanwhile, rows and listed records stay, and an acceptable ledger stays acceptable |
| SharedLedger.NotableWhereNoted | src/ski/injection.py:239-255 | A failure that the ledger would accept when the request starts, it accepts where the request comes to note it, whatever the request and others recorded in between |
| SharedLedger.RequestAmongOthers | src/ski/injection.py:189-237 | A request with any failures, among any others on the ledger, keeps it acceptable and keeps all earlier records; if its work committed, its record stands exactly where it found the listing to end |
| SharedLedger.SuccessAmongOthers | src/ski/credentials.py:161-177 | A success appends exactly its certificate and the event that vouches for it, given column by column, to the tables it found, whoever changed them before |
| LedgerRuns.RunSound | src/ski/state.py:440-685 | After any sequence of attempts there is at most one CA, it is active, every row's CA exists, every text column reads back, and serials are unique per CA |
| LedgerRuns.ApplyAppends | src/ski/migrations.py:89-98 | No attempt changes or removes a recorded row |
| LedgerRuns.RunKeysCount | src/ski/ca_persistence.py:106-115 | After any history the keys of each table count its rows from one, so reading by key is reading in order of insertion |
| LedgerRules.CertificateAccepted | src/ski/state.py:166-208 | A certificate is recorded exactly when its CA exists, its serial is below 2 to the 64th and unrecorded, its texts, user and principals are well-formed, its validity is 90000 seconds, its outcome is one of two and its numbers fit; it is then stored, and returned, as given, with the event that repeats it |
| LedgerRules.OtherIntervalRefused | src/ski/state.py:186-193 | Of a certificate that would be recorded, exactly those other ends of validity that do not make it 90000 seconds are refused, for that reason |
| LedgerRules.StoredCertificateRead | src/ski/state.py:819-869 | Exactly which stored certificates can be read, and that they read as they are stored |
| LedgerRules.OtherStoredIntervalRefused | src/ski/state.py:854-855 | Of a stored certificate that can be read, exactly those other ends of validity that do not make it 90000 seconds are refused, for that reason |
| LedgerRules.EventAccepted | src/ski/state.py:637-685 | An event is recorded exactly when its texts, user, serial, CA and time are well-formed, its CA exists and its numbers fit; it is then stored and returned as given |
| LedgerRules.StoredEventRead | src/ski/state.py:871-902 | Exactly which stored events can be read, and that they read as they are stored |
| LedgerRules.CaAccepted | src/ski/state.py:440-478 | A CA is registered exactly for an Ed25519 key whose fingerprint is the one given, a proper path and time, and a ledger without an active CA or that fingerprint; it is then stored and returned as given, active, with the initialization event if asked for; a fingerprint that is not the key's is always refused |
| LedgerRules.StoredCaRead | src/ski/state.py:783-817 | Exactly which stored CAs can be read, and that they read as they are stored |
| LedgerRules.TimestampMeans | src/ski/state.py:111-123 | A number of seconds is refused exactly from one whole second before 1970 on, a date exactly without a zone; times are truncated toward zero |
| LedgerRules.AcceptedMeans | src/ski/state.py:709-757 | Of any tables, whoever wrote them, the check accepts exactly those whose rows can all be read, with at most one active CA, events that name only existing CAs and certificates, certificates of existing CAs that are vouched for if they succeeded, and none recorded twice; serials are compared as numbers |
| LedgerRuns.SecondCaConflicts | src/ski/migrations.py:58-61 | On a reachable ledger a registration conflicts exactly when a CA is registered already |
| LedgerRuns.CertificateRowDecodes | src/ski/state.py:819-869 | A written certificate row reads back as the record its write returned |
| LedgerRuns.EventRowDecodes | src/ski/state.py:871-902 | A written event since 1970 reads back as the record its write returned, holding what the caller gave |
| LedgerRuns.CaRowDecodes | src/ski/state.py:783-817 | So does a registered CA, which is then the whole CA listing |
| LedgerRuns.ApplyLists | src/ski/state.py:562-565 | An attempt appends to the listing exactly the record it returns |
| LedgerRuns.RunLists | src/ski/state.py:562-565 | Storage round trip: after any history the listing is, in order, the records returned by the successful attempts |
| LedgerRuns.ListingsGrow | src/ski/ca_persistence.py:106-115 | Earlier listings are prefixes of later ones |
| LedgerRuns.RunSerialsUnique | src/ski/migrations.py:74 | The uniqueness of serials as text is uniqueness of serials as numbers |
| LedgerRuns.DuplicateMeans | src/ski/state.py:602-623 | On a reachable ledger a reported duplicate is a recorded serial exactly when the CA exists, and a recorded serial is always reported |
| LedgerLimits.MissingCaReportedDuplicate | src/ski/state.py:602-623 | Any valid certificate for an unregistered CA is reported as a duplicate serial although no certificate has that serial |
| LedgerRuns.AcceptedIff | src/ski/state.py:709-757 | On a reachable ledger the check passes exactly when no time precedes 1970, every event's serial is recorded, and every success has its event |
| LedgerRuns.ApplyAccepted | src/ski/state.py:709-757 | The exact condition under which an attempt keeps an accepted ledger accepted: it is rejected, or it is neither before 1970, nor an event naming an unrecorded serial, nor a success recorded without its event |
| LedgerLimits.UnvouchedSuccessRejected | src/ski/state.py:492-560 | Any valid certificate recorded as a success without its event makes an accepted ledger fail the check |
| LedgerLimits.EarlyIssueRejected | src/ski/state.py:166-208 | So does any valid certificate with its event whose validity starts before 1970 |
| LedgerLimits.StrayEventRejected | src/ski/state.py:637-685 | So does any event naming a serial not recorded for its CA |
| LedgerLimits.EarlyEventRejected | src/ski/state.py:111-123 | So does any event dated before 1970 |
| LedgerLimits.EarlyCaRejected | src/ski/state.py:111-123 | So does a CA registered with a date before 1970 |
| LedgerLimits.SpoiledHistories | src/ski/state.py:709-757 | A concrete history of each kind from an empty ledger: accepted until the last attempt, rejected after it |
| LedgerRuns.RunAccepted | src/ski/state.py:709-757 | Every history of such attempts from an empty ledger passes the check |
| LedgerRuns.OrdinaryRunAccepted | src/ski/state.py:709-757 | In particular any order of CA initializations, issuances with their events, failure events and rolled-back attempts does |
| LedgerRuns.TextualTwinsAccepted | src/ski/state.py:838-841 | A limit of the check: it accepts tables in which one serial is recorded twice, written "7" and "07" |
| LedgerRuns.CanonicalTextsUnique | src/ski/state.py:838-841 | In any readable tables whose serials are written as the service writes them, uniqueness as text is uniqueness as numbers |
| LedgerChecks.VerifyRecords | src/ski/state.py:717-757 | The set-indexed pass accepts exactly the records that meet the relationships stated one by one over all pairs, and then only if certificates and events can be read |
| LedgerChecks.KeysDistinct | src/ski/state.py:722-725 | As many distinct key tuples as certificates means no two certificates share one |
| LedgerChecks.CountActiveMeans | src/ski/state.py:719-720 | A count of at most one active CA means no two are active |
| Ledger.DecodeAllEach | src/ski/state.py:562-565 | A listing exists exactly when every row decodes, and holds the decoded rows in order |
| StateDatabases.StateDatabase.RecordCertificateWithEvent | src/ski/state.py:567-635 | Under any failures: success makes certificate and event durable together and returns the stored record, failure leaves the durable tables as they were; if nothing fails, the answer is exactly what the ledger rules determine |
| StateDatabases.StateDatabase.RecordCertificate | src/ski/state.py:492-560 | The same for a certificate without an event |
| StateDatabases.StateDatabase.RegisterActiveCa | src/ski/state.py:440-478 | The same for a CA, with its initialization event when one is asked for |
| StateDatabases.StateDatabase.RecordEvent | src/ski/state.py:637-685 | The same for an event |
| StateDatabases.StateDatabase.InsertCertificate | src/ski/ca_persistence.py:71-103 | Both statements take effect or neither; a constraint error is raised only by a missing CA or a recorded serial |
| StateDatabases.StateDatabase.InsertCa | src/ski/ca_persistence.py:26-48 | Both statements take effect or neither; a constraint error is raised only by an active CA or a known fingerprint |
| StateDatabases.StateDatabase.InsertEvent | src/ski/ca_persistence.py:118-134 | The event is appended or nothing changes; a constraint error is raised only by a missing CA |
| StateDatabases.StateDatabase.Commit | src/ski/state.py:904-914 | A failed commit leaves what is durable alone, whether or not the transaction stays open |
| StateDatabases.StateDatabase.Abandon | src/ski/state.py:904-914 | An abandoned transaction leaves what is durable alone, and never turns another error into a constraint error |
| StateDatabases.StateDatabase.GetActiveCa | src/ski/state.py:480-485 | Returns the decoded active CA, or nothing exactly when none is active |
| StateDatabases.StateDatabase.VerifyCaState | src/ski/state.py:709-757 | Passes only, and when nothing fails exactly, on tables whose rows all decode and whose records agree |
| Decimal.ReadShow | src/ski/state.py:839 | Reading a serial's decimal text returns the serial |
| Decimal.ShowInjective | src/ski/ca_persistence.py:80 | Two serials have the same text exactly when they are equal |
| Decimal.ShowMeans | src/ski/ca_persistence.py:80 | The stored text of a serial is the one text of decimal digits without leading zeros that spells it |
| Decimal.ReadMeans | src/ski/state.py:839 | What reads as a number is digits with an optional sign, and it reads as the number they spell |
| Decimal.ReadIsNotInjective | src/ski/state.py:839 | Reading is more lenient than writing: "7" and "07" are both 7 |
| StoredText.DecodeEncodePrincipals | src/ski/state.py:847-851 | Reading the stored text of canonical principals returns them |
| StoredText.StoredListMeans | src/ski/state.py:196 | The stored text of principals, bracket by bracket, quote by quote and comma by comma |
| StoredText.DecodeMeans | src/ski/state.py:847-851 | A stored text reads as a list of names exactly when writing the list yields it and the names are plain printable ASCII |
| StoredText.MarkerInjective | src/ski/injection.py:122-123 | The marker identifies user, fingerprint and serial, although fingerprints contain its separator |
| IssuerPolicy.ValidateAccepts | src/ski/policy.py:55-75 | Accepts exactly a canonical username followed by canonical group principals, all distinct, and returns them unchanged |
| IssuerPolicy.BuildAccepts | src/ski/policy.py:47-52 | Succeeds exactly for a canonical username and distinct canonical groups, yielding the user and then the groups in order |
| IssuerPolicy.ValidateIsBuildable | src/ski/policy.py:47-75 | Validation accepts exactly what building can produce |
| IssuerPolicy.BuildInjective | src/ski/policy.py:47-52 | Principals determine the username and the groups |
| IssuerPolicy.PrefixedIsNoUsername | src/ski/policy.py:8-9 | No group principal is a username |
| IssuerPolicy.NamesMean | src/ski/policy.py:8-9 | The two name grammars, with their alphabets and lengths written out |
| IssuerPolicy.GroupPrincipalMeans | src/ski/policy.py:51-68 | A group principal is exactly the text group: before a canonical group |
| IssuerPolicy.RefusalsMean | src/ski/policy.py:33-75 | Which error each refused identity, and each refused sequence of principals, is answered with |
| Certificates.ParsePublicData | packages/ski-authorize/src/ski_authorize/certificate.py:63-108 | The offset-threading parser returns the same fields, or the same first error, as the field-by-field reading that the lemmas below are about; an accepted message has the algorithm name of Ed25519 certificates. What its bytes are is stated in `WireBytes` |
| Certificates.ParsePrincipals | packages/ski-authorize/src/ski_authorize/certificate.py:82-89 | The nested loop reads exactly the principal list, ends, and never reaches the check after it with a wrong offset |
| Certificates.ParseEncode | packages/ski-authorize/src/ski_authorize/certificate.py:63-108 | Parsing the wire form of any well-formed user certificate returns all of its fields |
| Certificates.EncodeParse | packages/ski-authorize/src/ski_authorize/certificate.py:63-108 | Any accepted message is, byte for byte, the wire form of what was parsed from it |
| Certificates.ParseDecides | packages/ski-authorize/src/ski_authorize/certificate.py:63-108 | Accepted are exactly the wire forms of well-formed certificates, and equal fields mean equal messages |
| Certificates.PrefixFree | packages/ski-authorize/src/ski_authorize/certificate.py:33-52 | Every strict prefix of an accepted message is truncated and every proper extension has trailing bytes |
| Certificates.ParseCertificateDecides | packages/ski-authorize/src/ski_authorize/certificate.py:111-163 | A host takes in exactly the wire forms of well-formed certificates inside their validity window, signed with a key of the algorithm ssh-ed25519, with the attributes that were written; each refusal has its exact condition |
| WireBytes.EncodeMeans | packages/ski-authorize/src/ski_authorize/certificate.py:63-108 | The encoding is the concatenation of explicit bytes: the name's 32 bytes, big-endian lengths and numbers, type 0 0 0 1, in this order |
| WireBytes.AcceptedMeans | packages/ski-authorize/src/ski_authorize/certificate.py:63-108 | A message is accepted as a certificate exactly when it is these bytes for it |
| WireBytes.AcceptedBytes | packages/ski-authorize/src/ski_authorize/certificate.py:68-92 | In every accepted message the bytes from the fourth on are the algorithm's name, those before the type the serial, the type's bytes 0 0 0 1, and those after the principals the two times, all big-endian |
| WireBytes.OtherTypeRejected | packages/ski-authorize/src/ski_authorize/certificate.py:76-78 | An accepted message with any other four bytes as its type is refused as no user certificate |
| WireBytes.OtherNameRejected | packages/ski-authorize/src/ski_authorize/certificate.py:68-71 | An accepted message with any other 32 bytes as its algorithm's name is refused for the algorithm, or as no text |
| WireBytes.OtherWindowAccepted | packages/ski-authorize/src/ski_authorize/certificate.py:91-92 | An accepted message with any other sixteen bytes as its validity window is accepted with that window and all else unchanged |
| WireBytes.EightMeans | packages/ski-authorize/src/ski_authorize/certificate.py:45-52 | A number's eight bytes, the most significant first, are read as that number |
| Wire.ReadNamesWritten | packages/ski-authorize/src/ski_authorize/certificate.py:82-87 | Reading a written principal list returns it |
| Wire.WrittenNamesRead | packages/ski-authorize/src/ski_authorize/certificate.py:82-87 | An accepted principal list is exactly what writing its names yields |
| Utf8.DecodeEncode | packages/ski-authorize/src/ski_authorize/certificate.py:55-60 | Every text survives UTF-8 |
| Utf8.EncodeDecode | packages/ski-authorize/src/ski_authorize/certificate.py:55-60 | Every accepted byte string is the only encoding of its text |
| Utf8.EncodeCharMeans | packages/ski-authorize/src/ski_authorize/certificate.py:55-60 | A character's bytes in each of the four lengths: which bytes there are, and that their low bits spell its code |
| Utf8.EncodeJoined | packages/ski-authorize/src/ski_authorize/certificate.py:55-60 | A text is encoded character by character, in order |
| HostPolicies.ParsedPolicySound | packages/ski-authorize/src/ski_authorize/policy.py:62-100 | An accepted policy trusts one canonical fingerprint and lists exactly the written groups, canonical, once each, ascending |
| HostPolicies.SoundPolicyWritable | packages/ski-authorize/src/ski_authorize/policy.py:62-100 | Every such policy is the reading of the document that states it |
| HostPolicies.ParsePolicyDecides | packages/ski-authorize/src/ski_authorize/policy.py:62-100 | A document is accepted exactly when it is one table with one section of exactly three keys: a canonical fingerprint, distinct canonical groups, and the flag set; it is then the policy with that fingerprint and those groups in order |
| HostPolicies.FingerprintMeans | packages/ski-authorize/src/ski_authorize/policy.py:18 | The fingerprint grammar with its alphabet and length written out |
| HostPolicies.AllowedOrderIrrelevant | packages/ski-authorize/src/ski_authorize/policy.py:81-100 | Listing the allowed groups in another order gives the same policy or the same error, whatever the document holds |
| HostAuthorization.AuthorizeDecides | packages/ski-authorize/src/ski_authorize/authorization.py:24-64 | A login is allowed exactly when the policy trusts the certificate's CA, the certificate is canonical and for the target account, and a signed group is allowed; the answer is the least such group |
| HostAuthorization.FirstFailureDenies | packages/ski-authorize/src/ski_authorize/authorization.py:24-64 | Nine checks in order: a login is allowed exactly when all pass, and denied for the first that fails |
| Basics.LeqMeans | packages/ski-authorize/src/ski_authorize/authorization.py:60-64 | The order of the answer is that of code points at the first difference, a prefix coming first |
| HostAuthorization.SelectedIsIntersection | packages/ski-authorize/src/ski_authorize/authorization.py:60-61 | The groups considered are those both signed and allowed |
| EndToEnd.HostRecovers | packages/ski-authorize/src/ski_authorize/certificate.py:133-163 | Through the wire a host recovers the issued attributes and the signing key's fingerprint, exactly inside the window and for an Ed25519 key |
| EndToEnd.IssuedRepresentable | src/ski/credentials.py:82-118 | Every issued credential fits the wire format, given short enough library parts and principal list and a clock within uint64 |
| EndToEnd.SignedGroups | src/ski/credentials.py:84-92 | What is signed is the username and then the identity's groups, in order, for 90000 seconds from the clock |
| EndToEnd.LoginDecided | packages/ski-authorize/src/ski_authorize/authorization.py:24-64 | Issue, write, read, authorize: from the issuing second until just before the 90000th after it, only the certified user may log in, exactly when the host trusts the CA and a group is both signed and allowed, and the answer is the least such group |
| EndToEnd.ForeignCaDenied | packages/ski-authorize/src/ski_authorize/authorization.py:38-42 | A host that trusts another key than the one in the certificate lets nobody in |
| EndToEnd.OrderIrrelevant | packages/ski-authorize/src/ski_authorize/authorization.py:60-64 | Permuting the signed groups, or the groups in the host's document, changes neither whether the document is accepted, nor who may log in, nor the answer |
| Runtime.ServiceRuntime.Start | src/ski/runtime.py:132-198 | Started exactly when no acquisition raises; otherwise nothing is visible and everything acquired is released, save the listener exactly when its start and its closing raised, and the database exactly when that happened or its own closing raised |
| Runtime.ServiceRuntime.ClosePartialResources | src/ski/runtime.py:355-364 | A listener that does not close keeps the database open too |
| Runtime.ServiceRuntime.EnterScope | src/ski/runtime.py:296-308 | Admits a request exactly when the service was started and is not stopping, gives it the configuration then current, and adds it to those waited for |
| Runtime.ServiceRuntime.LeaveScope | src/ski/runtime.py:305-308 | A request that leaves, and no other, is no longer waited for |
| Runtime.ServiceRuntime.ReloadOnce | src/ski/runtime.py:217-268 | While running, a candidate is adopted exactly when it loads and its database, CA private key, public key and revocation list paths equal the current ones: it becomes the configuration and the generation rises by one; otherwise nothing changes |
| Runtime.ServiceRuntime.BeginClose | src/ski/runtime.py:276-285 | Only the first call on a running service begins to close; it stops admission and hides the resources in the same step; any other call changes nothing |
| Runtime.ServiceRuntime.ResumeClose | src/ski/runtime.py:287-294 | After the listener closed, waits for exactly the requests in flight other than the closer's, or releases the database at once when there are none or closing raised |
| Runtime.ServiceRuntime.EndDrain | src/ski/runtime.py:343-353 | The database is released once every awaited request has left its scope |
| Runtime.RunKeeps | src/ski/runtime.py:212-308 | In every interleaving: while running, the startup bundle with only its configuration replaced and the same paths; the database closed at most once; a finished close that did not raise leaves no other request in scope |
| Runtime.DatabaseClosedLast | src/ski/runtime.py:287-294 | The database closes at most once, after the listener's closing ended; unless that raised, only once every admitted request but the closer has left |
| Runtime.UndrainedIff | src/ski/runtime.py:287-291 | Other requests are in scope when the database closes exactly if the listener's closing raised while they were in flight |
| Runtime.UndrainedCloseHappens | src/ski/runtime.py:287-291 | For whatever was acquired there is a run in which a request outlives the database |
| Runtime.DrainFollowsListener | src/ski/runtime.py:287-289 | Draining follows a listener closing that did not raise |
| Runtime.StoppingIsFinal | src/ski/runtime.py:219-221 | Once stopping, no request is admitted and no queued reload brings resources back |
| Runtime.GenerationCounts | src/ski/runtime.py:254-262 | While running, the generation is one more than the number of accepted reloads |
| Runtime.RunsUntilClose | src/ski/runtime.py:276-285 | In every interleaving the service runs until the first close and only until then |
| Runtime.ReloadDecides | src/ski/runtime.py:222-268 | In every interleaving: before any close, a reload whose candidate has the four paths the service was started with makes it the configuration, whatever else it changes, and raises the generation by one; any other reload changes nothing |
| Runtime.EntryDecides | src/ski/runtime.py:296-308 | In every interleaving a request is admitted exactly when no close came before it, with the configuration then current |
| Runtime.DrainEnds | src/ski/runtime.py:343-353 | In every interleaving a drain can end exactly when no request but the closer's is in scope |
| Runtime.AdmittedKeepConfiguration | src/ski/runtime.py:296-308 | An admitted request is given the configuration of the latest reload accepted before its admission and keeps it, whatever reloads follow |
| Control.RunKeeps | src/ski/control.py:60-74 | In every interleaving of signals with the loop the latest reload request is attempted after it, latched, or about to be attempted |
| Control.NoReloadLost | src/ski/control.py:60-74 | Every reload request is followed by a reload attempt, or its latch is set, or an attempt is about to start |
| Control.AttemptsRequested | src/ski/control.py:60-74 | In every interleaving there are never more reload attempts, pending ones included, than requests |
| Control.ShutdownEndsWait | src/ski/control.py:60-74 | In every interleaving: after a wait begun with a shutdown requested, no reload attempt starts and no wait begins again |
| Control.WaitCanWake | src/ski/control.py:62-67 | In every interleaving the loop is stuck exactly when it is over or waits with nothing requested |
| Control.ShutdownIsPrompt | src/ski/cli.py:169-170 | After a shutdown request at most one more reload attempt starts |
| Control.RuntimeControl.WakeUp | src/ski/control.py:64-72 | With both waiters done, shutdown is chosen; no latch changes |
| Control.RuntimeControl.FinishWait | src/ski/control.py:68-74 | Choosing a reload clears its latch, and only it, before the attempt; choosing shutdown ends the loop and leaves both latches |
| CaInstallation.InitializeCa | src/ski/ca_commands.py:41-78 | With a fault at any step: three files, one active CA row with the generated key and the private key's path, and one allowance event with the caller's request identifier, the registration's time and the new CA, given column by column; or, unless closing the reserved list name or setting its mode raises, files and ledger exactly as before; when nothing fails, it succeeds, and otherwise leaves that list, exactly when stated |
| CaInstallation.RevocationListCanRemain | src/ski/ca.py:247-269 | For any suitable targets and key, a list whose mode cannot be set remains after the failed installation |
| CaInstallation.CaFileWriter.Install | src/ski/ca.py:128-174 | Installs all three contents at fresh targets, or leaves the file system as it was, save for a temporary list if closing its name or setting its mode raised; when nothing else fails, it remains exactly then |
| CaInstallation.CaFileWriter.ValidateTargets | src/ski/ca.py:188-205 | Accepts exactly distinct, unused target paths with proper names in existing directories |
| CaInstallation.CaFileWriter.WriteTemp | src/ski/ca.py:225-245 | A temporary file appears complete or not at all |
| CaInstallation.CaFileWriter.WriteEmptyKrl | src/ski/ca.py:247-269 | The list appears complete; a failure leaves a file only if closing the reserved name or setting the mode raised, and, when nothing else fails, exactly then |
| CaInstallation.CaFileWriter.Stage | src/ski/ca.py:141-155 | All three temporary files, or none but a list left for one of those two reasons |
| CaInstallation.CaFileWriter.MoveIntoPlace | src/ski/ca.py:157-170 | All three files at their targets, or everything, including targets already reached, removed again |
| CaInstallation.StagedUndone | src/ski/ca.py:166-170 | However many renames were done, removing the remaining temporary names and the reached targets restores the files exactly |
| CaInstallation.InitializationAdds | src/ski/ca_commands.py:56-67 | Success adds exactly three files with the key's halves and an empty list, changes no existing one, and adds one active CA holding the given key, fingerprint and path, which is the only active one, with an allowance event for it and nobody else |
| CaInstallation.RegistrationAdds | src/ski/ca_persistence.py:26-48 | The CA row and the event that an initialization adds, column by column |
| Identities.RunSound | src/ski/identity_persistence.py:43-160 | Each transaction keeps names canonical and unique and every membership between an existing user and an existing group |
| Identities.RunAllSound | src/ski/identity_persistence.py:43-160 | So does any interleaving of several administrators' transactions |
| Identities.RemovalCascadesNothing | src/ski/identity_persistence.py:120-132 | A group is deleted exactly when it exists and is empty, and the cascade then removes no membership |
| Identities.UpdateMeans | src/ski/identity_persistence.py:57-74 | An update changes one value of the named user and nothing else, and reports whether there is such a user |
| Identities.MembershipLostOnlyByRemoval | src/ski/migrations.py:40-46 | A membership disappears only by a transaction that removes exactly it |
| Identities.UserGroupRowsMean | src/ski/identity_persistence.py:105-114 | A user's group rows are exactly the user's groups, strictly ascending, and can be certified |
| Identities.IdentityStore.GetUser | src/ski/identities.py:283-293 | While others keep working: returns the stored user with exactly the groups of one moment, or reports malformed data exactly when a group read is gone at its check; stored verifiers and secrets are never the reason |
| Identities.IdentityStore.GetGroupSnapshot | src/ski/identities.py:308-312 | Returns a snapshot exactly when the user exists, is enabled and no group read is gone at its check; its groups are those of one moment, strictly ascending, and can be certified |
| Identities.IdentityStore.CreateUser | src/ski/identities.py:314-328 | Every result exactly: the user is added, enabled, exactly when valid and its name is free at that moment, and stays; the record read back is returned exactly when no group read is gone at its check, with the groups of one moment |
| Identities.IdentityStore.ChangeUser | src/ski/identities.py:347-366 | Every result of replacing a verifier or secret, or of enabling or disabling, exactly, by the states its steps see: a user found at the first is changed at the second, as no one removes users, and read back |
| Identities.IdentityStore.CreateGroup | src/ski/identities.py:415-422 | The group is added exactly when its canonical name is free at that moment |
| Identities.IdentityStore.RemoveGroup | src/ski/identities.py:451-463 | Succeeds, and fails with each error, exactly according to the states its three steps see; success removes the group and no membership, refusal changes nothing |
| Identities.IdentityStore.ChangeMembership | src/ski/identities.py:475-488 | Succeeds, and fails with each error, exactly according to the states its three steps see; success changes exactly that membership, refusal nothing |
| Identities.ReadAlone | src/ski/identities.py:283-293 | With nobody else at work, reading succeeds exactly for existing users, with exactly their groups |
| Identities.ReadCanReportMalformed | src/ski/identities.py:519-529 | For anyone with a group: if the group is dissolved between its reading and its check, sound data is reported as malformed |
| Identities.RemovalCanReportMissing | src/ski/identities.py:451-459 | For any empty group and user: if the user joins before the last step, the removal answers that the group does not exist, although it does |

## Left out

Assumptions of the model:

- Fresh user keys are not yet in the agent; an agent holds a certificate entry and a plain key
  entry for each credential it was given; other programs do not change the agent during a request.
- A failed statement, commit or rollback leaves the durable tables as they were before its
  transaction. A commit or rollback that fails may leave the transaction open, and later ones fail.
- Whoever else uses the ledger does so through attempts that the issuer makes; two requests do not
  use one agent at the same time. Results on histories of whole requests take the ledger as theirs
  alone; those in `SharedLedger` and on renewal do not.
- No other process writes to the targets of a CA initialization, or registers a CA, between its
  steps.
- Tasks are not cancelled inside a request; a task enters at most one request scope at a time.
- Names of temporary files are fresh, a rename takes effect entirely or not at all, and removing a
  file during cleanup succeeds.

Not modelled:

- Cryptography: keys are known by their material and fingerprint, and importing a stored public
  key is a value that says what the import yields (`Ledger.PublicKey`).
- Base64 and the SSH library's own decoding: an offered certificate is its bytes and the signing
  key that the library found, or a rejection (`Certificates.Offer`).
- Certificate extension flags and options: they are uninterpreted bytes on the wire.
- The agent's lifetime argument and the expiry of agent entries.
- SQL text, locks, file permissions and ownership; a failed integrity check of the database file
  counts as one more failure.
- JSON beyond arrays of unescaped strings without spaces, which is all that is written; other
  stored text reads as malformed here. Integer text beyond an optional sign and ASCII digits.
- Ordering of the CA listing by activation time: at most one CA is ever registered.
- Failures of the identity store's own statements.
- Filtered event listings, host keys, the lock and the closing of the state database.
- Password hashing and TOTP codes: a verifier and a secret are texts, rejected when empty.
- Resolution of symbolic links: two paths are the same when their directory and name are.
- Parsing of TOML text: a policy is read from the decoded table onward.
- Arguments of other Python types than declared, and floats that are not finite.
- A second `start` after `close`, which would meet the flags that the first run left.
- The bound on the drain: awaited requests leave their scope, on their own or when cancelled.
- Command-line parsing and rendering, notifications, the journal, environment loading, and the
  login server's callbacks.

Statements weaker than they could be:

- Control.WaitCanWake: says when a step of the loop is possible, not that the scheduler takes it.
- EndToEnd.IssuedRepresentable: assumes that the principal list is shorter than 4 GiB, since the
  issuer itself sets no bound on the number of groups.
- Identities.IdentityStore.GetUser: does not model what else a TOTP library may reject in a secret.
- Injection.OrdinaryAgentInjector.Handle: says when a failure is noted if the database does not
  fail; which of several statements of a failing database fail is left open.
