/** From the issuer to a production host: an issued credential, written to the wire, taken in
    by a host inside its validity window, and authorized against the host's policy. */
module EndToEnd {
  import opened Basics
  import opened IssuerPolicy
  import opened Injection
  import opened Certificates
  import opened HostPolicies
  import opened HostAuthorization
  import Wire

  /** The parts of a certificate that the SSH library fills in. */
  datatype LibraryParts = LibraryParts(
    nonce: Wire.Bytes, userKey: Wire.Bytes, criticalOptions: Wire.Bytes, extensions: Wire.Bytes,
    reserved: Wire.Bytes, signatureKey: Wire.Bytes, signature: Wire.Bytes)

  function OnWire(c: Credential, parts: LibraryParts): UserCertificate
    requires c.validAfter >= 0 && c.validBefore >= 0
  {
    UserCertificate(parts.nonce, parts.userKey, c.serial, c.keyId, c.principals, c.validAfter, c.validBefore,
                    parts.criticalOptions, parts.extensions, parts.reserved, parts.signatureKey, parts.signature)
  }

  /** The wire format can hold the certificate: times are uint64 and strings are short. */
  ghost predicate Representable(c: Credential, parts: LibraryParts) {
    && 0 <= c.validAfter && 0 <= c.validBefore && WellFormed(OnWire(c, parts))
  }

  /** How the SSH library takes in a message: it finds the signing key inside it. `keyOf` tells
      what the library reports about an encoded key. */
  function LibraryOffer(keyOf: Wire.Bytes -> SigningKey, data: Wire.Bytes): Offer {
    match Parse(data)
    case Err(_) => Rejected
    case Ok(c) => Decoded(data, keyOf(c.signatureKey))
  }

  /** The key written into the certificate is the issuer's. */
  ghost predicate SignedBy(ca: ActiveCa, parts: LibraryParts, keyOf: Wire.Bytes -> SigningKey) {
    keyOf(parts.signatureKey) == SigningKey("ssh-ed25519", ca.fingerprint)
  }

  /** What a host answers to a login attempt with this credential. All it knows of it, the CA's
      fingerprint included, comes from the wire. */
  ghost function Decide(keyOf: Wire.Bytes -> SigningKey, c: Credential, parts: LibraryParts, policy: HostPolicy,
                        now: int, target: string): Option<Result<string, Denial>>
    requires Representable(c, parts)
  {
    match ParseCertificate("ssh-ed25519-cert-v01@openssh.com", LibraryOffer(keyOf, Encode(OnWire(c, parts))), now)
    case Err(_) => None
    case Ok(attributes) => Some(Authorize(policy, attributes, attributes.caFingerprint, target))
  }

  function AttributesOf(caFingerprint: string, c: Credential): CertificateAttributes
    requires c.validAfter >= 0 && c.validBefore >= 0
  {
    CertificateAttributes(caFingerprint, c.keyId, c.principals, c.serial, c.validAfter, c.validBefore)
  }

  /** A host recovers every attribute it needs from the wire, exactly inside the window, if
      the certificate is signed with an Ed25519 key. */
  lemma HostRecovers(keyOf: Wire.Bytes -> SigningKey, c: Credential, parts: LibraryParts, policy: HostPolicy, now: int,
                     target: string)
    requires Representable(c, parts)
    ensures var key := keyOf(parts.signatureKey);
            Decide(keyOf, c, parts, policy, now, target) ==
            if key.algorithm == "ssh-ed25519" && c.validAfter <= now < c.validBefore then
              Some(Authorize(policy, AttributesOf(key.fingerprint, c), key.fingerprint, target))
            else None
  {
    hide Authorize, WellFormed, Encode, Parse, Wire.AllFit, Values;
    ParseEncode(OnWire(c, parts));
  }

  /** The library parts and the principal list are each short enough for an SSH string; the
      issuer's own numbers and names then always fit. */
  lemma IssuedRepresentable(ca: ActiveCa, identity: Identity, draw: Draw, parts: LibraryParts)
    requires Issue(ca, identity, draw).Ok?
    requires 0 <= draw.clock && draw.clock + 90000 < 0x1_0000_0000_0000_0000
    requires ShortBytes(parts.nonce) && ShortBytes(parts.userKey) && ShortBytes(parts.criticalOptions)
             && ShortBytes(parts.extensions) && ShortBytes(parts.reserved) && ShortBytes(parts.signatureKey)
             && ShortBytes(parts.signature)
    requires ShortBytes(Wire.NamesBytes(Issue(ca, identity, draw).value.principals))
    ensures Representable(Issue(ca, identity, draw).value, parts)
  {
    var c := Issue(ca, identity, draw).value;
    BuildAccepts(identity.username, identity.groups);
    Wire.ShortNameFits(c.keyId);
    SerialFits();
  }

  lemma SerialFits()
    ensures Wire.Power256(8) == 0x1_0000_0000_0000_0000
  {
    Wire.FourBytes();
    assert Wire.Power256(6) == 0x1_0000_0000_0000;
  }

  /** Principals of the identity's groups that the host allows. */
  ghost function Permitted(identity: Identity, policy: HostPolicy): set<string> {
    Elements(GroupPrincipals(identity.groups)) * Elements(policy.allowedGroups)
  }

  lemma SignedGroups(ca: ActiveCa, identity: Identity, draw: Draw)
    requires Issue(ca, identity, draw).Ok?
    ensures var c := Issue(ca, identity, draw).value;
            AreCanonicalPrincipals(c.principals) && c.keyId == c.principals[0] == identity.username
            && c.principals[1..] == GroupPrincipals(identity.groups)
            && c.validAfter == draw.clock && c.validBefore == draw.clock + 90000
  {
    BuildAccepts(identity.username, identity.groups);
    ValidateAccepts([identity.username] + GroupPrincipals(identity.groups));
  }

  /** End to end: within 25 hours of issue, under the matching CA, exactly the certified user
      may log in, exactly when a group is both signed and allowed, and the host answers with
      the least such group. */
  lemma {:induction false} LoginDecided(keyOf: Wire.Bytes -> SigningKey, ca: ActiveCa, identity: Identity, draw: Draw,
                                        parts: LibraryParts, policy: HostPolicy, now: int, target: string)
    requires Issue(ca, identity, draw).Ok? && Representable(Issue(ca, identity, draw).value, parts)
    requires SignedBy(ca, parts, keyOf) && SoundPolicy(policy)
    ensures var r := Decide(keyOf, Issue(ca, identity, draw).value, parts, policy, now, target);
            && (r.Some? <==> draw.clock <= now < draw.clock + 90000)
            && (r.Some? ==> (r.value.Ok? <==> policy.trustedCaFingerprint == ca.fingerprint
                                              && target == identity.username && Permitted(identity, policy) != {}))
            && (r.Some? && r.value.Ok? ==> IsLeast(r.value.value, Permitted(identity, policy)))
  {
    hide Authorize, Issue, AreCanonicalPrincipals, Decide;
    var c := Issue(ca, identity, draw).value;
    SignedGroups(ca, identity, draw);
    HostRecovers(keyOf, c, parts, policy, now, target);
    AuthorizeDecides(policy, AttributesOf(ca.fingerprint, c), ca.fingerprint, target);
  }

  /** A host that trusts another key than the one in the certificate lets nobody in. */
  lemma ForeignCaDenied(keyOf: Wire.Bytes -> SigningKey, c: Credential, parts: LibraryParts, policy: HostPolicy,
                        now: int, target: string)
    requires Representable(c, parts) && policy.trustedCaFingerprint != keyOf(parts.signatureKey).fingerprint
    ensures var r := Decide(keyOf, c, parts, policy, now, target); r.Some? ==> r.value.Err?
  {
    hide Authorize, Decide;
    var fingerprint := keyOf(parts.signatureKey).fingerprint;
    HostRecovers(keyOf, c, parts, policy, now, target);
    AuthorizeDecides(policy, AttributesOf(fingerprint, c), fingerprint, target);
  }

  /** Neither the order in which groups are signed nor the order in which a host's document
      lists them matters: the document is accepted or not alike, who may log in and the group
      answered are the same. */
  lemma {:induction false} OrderIrrelevant(
      keyOf: Wire.Bytes -> SigningKey, ca: ActiveCa, fingerprint: string, now: int, target: string,
      identity: Identity, draw: Draw, parts: LibraryParts, allowed: seq<string>,
      identity': Identity, draw': Draw, parts': LibraryParts, allowed': seq<string>)
    requires Issue(ca, identity, draw).Ok? && Representable(Issue(ca, identity, draw).value, parts)
    requires Issue(ca, identity', draw').Ok? && Representable(Issue(ca, identity', draw').value, parts')
    requires SignedBy(ca, parts, keyOf) && SignedBy(ca, parts', keyOf)
    requires draw.clock == draw'.clock && identity.username == identity'.username
    requires multiset(identity.groups) == multiset(identity'.groups) && multiset(allowed) == multiset(allowed')
    ensures var p := ParsePolicy(PolicyDocument(fingerprint, allowed));
            var p' := ParsePolicy(PolicyDocument(fingerprint, allowed'));
            && p == p'
            && (p.Ok? ==>
                  var r := Decide(keyOf, Issue(ca, identity, draw).value, parts, p.value, now, target);
                  var r' := Decide(keyOf, Issue(ca, identity', draw').value, parts', p'.value, now, target);
                  && (r.Some? <==> r'.Some?)
                  && (r.Some? ==> (r.value.Ok? <==> r'.value.Ok?) && (r.value.Ok? ==> r' == r)))
  {
    hide Decide, Issue, SoundPolicy, ParsePolicy, PolicyDocument, Representable;
    PolicyOrderIrrelevant(fingerprint, allowed, allowed');
    var p := ParsePolicy(PolicyDocument(fingerprint, allowed));
    if p.Ok? {
      ParsedPolicySound(PolicyDocument(fingerprint, allowed));
      LoginDecided(keyOf, ca, identity, draw, parts, p.value, now, target);
      LoginDecided(keyOf, ca, identity', draw', parts', p.value, now, target);
      SameElements(identity.groups, identity'.groups);
      SamePrincipals(identity.groups, identity'.groups);
      var r := Decide(keyOf, Issue(ca, identity, draw).value, parts, p.value, now, target);
      var r' := Decide(keyOf, Issue(ca, identity', draw').value, parts', p.value, now, target);
      if r.Some? && r.value.Ok? {
        LeastUnique(r.value.value, r'.value.value, Permitted(identity, p.value));
      }
    }
  }

  lemma SameElements(s: seq<string>, t: seq<string>)
    requires multiset(s) == multiset(t)
    ensures Elements(s) == Elements(t)
  {
    forall x ensures x in s <==> x in t {
      assert x in s <==> x in multiset(s);
      assert x in t <==> x in multiset(t);
    }
  }

  lemma SamePrincipals(s: seq<string>, t: seq<string>)
    requires Elements(s) == Elements(t)
    ensures Elements(GroupPrincipals(s)) == Elements(GroupPrincipals(t))
  {
    PrincipalsWithin(s, t);
    PrincipalsWithin(t, s);
  }

  lemma PrincipalsWithin(s: seq<string>, t: seq<string>)
    requires Elements(s) <= Elements(t)
    ensures Elements(GroupPrincipals(s)) <= Elements(GroupPrincipals(t))
  {
    forall p | p in Elements(GroupPrincipals(s)) ensures p in Elements(GroupPrincipals(t)) {
      var i :| 0 <= i < |s| && GroupPrincipals(s)[i] == p;
      assert s[i] in Elements(t);
      var j :| 0 <= j < |t| && t[j] == s[i];
      assert GroupPrincipals(t)[j] == p;
    }
  }
}
