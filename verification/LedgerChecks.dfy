/** The consistency check of the CA ledger (`verify_ca_state` in `src/ski/state.py`): its
    meaning, stated record by record, and the set-indexed algorithm that decides it. */
module LedgerChecks {
  import opened Basics
  import opened Ledger

  // ---- meaning ----

  ghost predicate KnownCa(cas: seq<CaRecord>, caId: int) {
    exists i :: 0 <= i < |cas| && cas[i].caId == caId
  }

  ghost predicate KnownSerial(certificates: seq<CertificateRecord>, caId: int, serial: nat) {
    exists i :: 0 <= i < |certificates| && certificates[i].caId == caId && certificates[i].serial == serial
  }

  predicate IsIssuedEvent(e: EventRecord) { e.kind == "certificate_issued" && e.decision == "allow" }

  predicate Witnesses(e: EventRecord, c: CertificateRecord) {
    IsIssuedEvent(e) && e.caId == Some(c.caId) && e.serial == Some(c.serial) && e.requestId == c.requestId
    && e.identity == Some(c.identity)
  }

  predicate SameKey(c: CertificateRecord, d: CertificateRecord) {
    c.caId == d.caId && c.serial == d.serial && c.requestId == d.requestId && c.identity == d.identity
  }

  ghost predicate OneActive(cas: seq<CaRecord>) {
    forall i, j :: 0 <= i < j < |cas| ==> !(cas[i].status == "active" && cas[j].status == "active")
  }

  ghost predicate EventResolves(cas: seq<CaRecord>, certificates: seq<CertificateRecord>, e: EventRecord) {
    (e.caId.Some? ==> KnownCa(cas, e.caId.value))
    && (e.serial.Some? ==> e.caId.Some? && KnownSerial(certificates, e.caId.value, e.serial.value))
  }

  ghost predicate CertificateResolves(cas: seq<CaRecord>, events: seq<EventRecord>, c: CertificateRecord) {
    KnownCa(cas, c.caId)
    && (c.outcome == "success" ==> exists i :: 0 <= i < |events| && Witnesses(events[i], c))
  }

  ghost predicate Consistent(cas: seq<CaRecord>, certificates: seq<CertificateRecord>, events: seq<EventRecord>) {
    && OneActive(cas)
    && (forall i :: 0 <= i < |events| ==> EventResolves(cas, certificates, events[i]))
    && (forall i :: 0 <= i < |certificates| ==> CertificateResolves(cas, events, certificates[i]))
    && (forall i, j :: 0 <= i < j < |certificates| ==> !SameKey(certificates[i], certificates[j]))
  }

  /** The tables an honest reader accepts: every row decodes and the records agree. */
  ghost predicate Accepted(t: Tables) {
    ListCas(t).Ok? && ListCertificates(t).Ok? && ListEvents(t).Ok?
    && Consistent(ListCas(t).value, ListCertificates(t).value, ListEvents(t).value)
  }

  // ---- algorithm ----

  type CertificateKey = (int, nat, string, string)

  function KeyOf(c: CertificateRecord): CertificateKey { (c.caId, c.serial, c.requestId, c.identity) }

  function Keys(certificates: seq<CertificateRecord>): seq<CertificateKey> {
    seq(|certificates|, i requires 0 <= i < |certificates| => KeyOf(certificates[i]))
  }

  function CountActive(cas: seq<CaRecord>): nat {
    if cas == [] then 0 else (if cas[0].status == "active" then 1 else 0) + CountActive(cas[1..])
  }

  lemma {:induction false} CountActiveMeans(cas: seq<CaRecord>)
    ensures CountActive(cas) == 0 <==> forall i :: 0 <= i < |cas| ==> cas[i].status != "active"
    ensures CountActive(cas) <= 1 <==> OneActive(cas)
  {
    if cas != [] {
      CountActiveMeans(cas[1..]);
      assert forall i :: 1 <= i < |cas| ==> cas[i] == cas[1..][i - 1];
      if OneActive(cas) {
        forall i, j | 0 <= i < j < |cas[1..]|
          ensures !(cas[1..][i].status == "active" && cas[1..][j].status == "active")
        {
          assert cas[1..][i] == cas[i + 1] && cas[1..][j] == cas[j + 1];
        }
        if cas[0].status == "active" {
          forall i | 0 <= i < |cas[1..]| ensures cas[1..][i].status != "active" {
            assert cas[1..][i] == cas[i + 1];
          }
        }
      }
    }
  }

  lemma KeysDistinct(certificates: seq<CertificateRecord>)
    ensures |Elements(Keys(certificates))| == |certificates| <==>
            forall i, j :: 0 <= i < j < |certificates| ==> !SameKey(certificates[i], certificates[j])
  {
    var keys := Keys(certificates);
    SizeMeansDistinct(keys);
    if Distinct(keys) {
      forall i, j | 0 <= i < j < |certificates| ensures !SameKey(certificates[i], certificates[j]) {
        assert keys[i] != keys[j];
      }
    }
  }

  /** Set indexes and one pass over events and certificates decide exactly `Consistent`. The
      listings of certificates and events are asked for only once the CAs are in order. */
  method VerifyRecords(cas: seq<CaRecord>, listedCertificates: Result<seq<CertificateRecord>, StateError>,
                       listedEvents: Result<seq<EventRecord>, StateError>)
    returns (r: Result<(), StateError>)
    ensures r.Ok? <==>
              listedCertificates.Ok? && listedEvents.Ok?
              && Consistent(cas, listedCertificates.value, listedEvents.value)
  {
    CountActiveMeans(cas);
    if CountActive(cas) > 1 { return Err(SeveralActive); }
    var certificates :- listedCertificates;
    var events :- listedEvents;
    var caIds := set i | 0 <= i < |cas| :: cas[i].caId;
    var certificateKeys := Elements(Keys(certificates));
    var certificateIndex := set i | 0 <= i < |certificates| :: (certificates[i].caId, certificates[i].serial);
    var issuedEventIndex := set i | 0 <= i < |events| && IsIssuedEvent(events[i]) ::
      (events[i].caId, events[i].serial, events[i].requestId, events[i].identity);
    assert forall caId :: caId in caIds <==> KnownCa(cas, caId);
    assert forall caId: int, serial: nat ::
             (caId, serial) in certificateIndex <==> KnownSerial(certificates, caId, serial);
    for k := 0 to |events|
      invariant forall i :: 0 <= i < k ==> EventResolves(cas, certificates, events[i])
    {
      var event := events[k];
      if event.caId.Some? && event.caId.value !in caIds { return Err(UnknownCa); }
      if event.serial.Some? {
        if event.caId.None? || (event.caId.value, event.serial.value) !in certificateIndex {
          return Err(UnknownCertificate);
        }
      }
    }
    for k := 0 to |certificates|
      invariant forall i :: 0 <= i < k ==> CertificateResolves(cas, events, certificates[i])
    {
      var certificate := certificates[k];
      if certificate.caId !in caIds { return Err(UnknownCa); }
      var key := (Some(certificate.caId), Some(certificate.serial), certificate.requestId, Some(certificate.identity));
      assert key in issuedEventIndex <==> exists i :: 0 <= i < |events| && Witnesses(events[i], certificate);
      if certificate.outcome == "success" && key !in issuedEventIndex {
        return Err(SuccessEventMissing);
      }
    }
    KeysDistinct(certificates);
    if |certificateKeys| != |certificates| { return Err(DuplicateCertificate); }
    return Ok(());
  }
}
