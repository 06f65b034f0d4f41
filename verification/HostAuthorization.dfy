/** The offline authorization decision of a production host
    (`packages/ski-authorize/src/ski_authorize/authorization.py`). */
module HostAuthorization {
  import opened Basics
  import opened IssuerPolicy
  import opened HostPolicies
  import opened Certificates

  datatype Denial =
    | SelfLoginPolicyDisabled
    | FingerprintNotTrusted
    | AccountNotCanonical
    | KeyIdNotCanonical
    | KeyIdMismatch
    | IdentityPrincipalMismatch
    | PrincipalsRepeated
    | GroupPrincipalsMalformed
    | NoAllowedGroup

  function Selected(groups: seq<string>, allowed: seq<string>): seq<string> {
    if groups == [] then []
    else if groups[0] in allowed then [groups[0]] + Selected(groups[1..], allowed)
    else Selected(groups[1..], allowed)
  }

  function Authorize(policy: HostPolicy, certificate: CertificateAttributes, suppliedCaFingerprint: string,
                     targetUser: string): Result<string, Denial>
  {
    if !policy.allowSelfLoginOnly then Err(SelfLoginPolicyDisabled)
    else if suppliedCaFingerprint != policy.trustedCaFingerprint
            || certificate.caFingerprint != policy.trustedCaFingerprint then Err(FingerprintNotTrusted)
    else if !CanonicalUsername(targetUser) then Err(AccountNotCanonical)
    else if !CanonicalUsername(certificate.keyId) then Err(KeyIdNotCanonical)
    else if certificate.keyId != targetUser then Err(KeyIdMismatch)
    else if certificate.principals == [] || certificate.principals[0] != targetUser then Err(IdentityPrincipalMismatch)
    else if |Elements(certificate.principals)| != |certificate.principals| then Err(PrincipalsRepeated)
    else
      var groups := certificate.principals[1..];
      if groups == [] || exists i :: 0 <= i < |groups| && !CanonicalGroupPrincipal(groups[i]) then
        Err(GroupPrincipalsMalformed)
      else
        var permitted := Sorted(Selected(groups, policy.allowedGroups));
        if permitted == [] then Err(NoAllowedGroup) else Ok(permitted[0])
  }

  lemma {:induction false} SelectedIsIntersection(groups: seq<string>, allowed: seq<string>)
    ensures Elements(Selected(groups, allowed)) == Elements(groups) * Elements(allowed)
  {
    if groups != [] {
      SelectedIsIntersection(groups[1..], allowed);
      assert groups == [groups[0]] + groups[1..];
      assert Elements(groups) == {groups[0]} + Elements(groups[1..]);
      if groups[0] in allowed {
        assert Selected(groups, allowed) == [groups[0]] + Selected(groups[1..], allowed);
        assert Elements(Selected(groups, allowed)) == {groups[0]} + Elements(Selected(groups[1..], allowed));
      }
    }
  }

  /** `least` is the first of `names` in code-point order. */
  ghost predicate IsLeast(least: string, names: set<string>) {
    least in names && forall name :: name in names ==> Leq(least, name)
  }

  lemma LeastUnique(a: string, b: string, names: set<string>)
    requires IsLeast(a, names) && IsLeast(b, names)
    ensures a == b
  {
    LeqAntisymmetric(a, b);
  }

  /** Everything that must hold of a certificate before groups are compared. */
  ghost predicate Presentable(policy: HostPolicy, certificate: CertificateAttributes, suppliedCaFingerprint: string,
                              targetUser: string)
  {
    && policy.allowSelfLoginOnly
    && suppliedCaFingerprint == certificate.caFingerprint == policy.trustedCaFingerprint
    && certificate.keyId == targetUser
    && AreCanonicalPrincipals(certificate.principals) && certificate.principals[0] == targetUser
  }

  /** The decision: a login is allowed exactly for a presentable certificate with a signed
      group that the host allows, and the answer is the first such group. */
  lemma AuthorizeDecides(policy: HostPolicy, certificate: CertificateAttributes, suppliedCaFingerprint: string,
                         targetUser: string)
    ensures var r := Authorize(policy, certificate, suppliedCaFingerprint, targetUser);
            (r.Ok? <==> Presentable(policy, certificate, suppliedCaFingerprint, targetUser)
                        && Elements(certificate.principals[1..]) * Elements(policy.allowedGroups) != {})
            && (r.Ok? ==> IsLeast(r.value, Elements(certificate.principals[1..]) * Elements(policy.allowedGroups)))
  {
    var principals := certificate.principals;
    SizeMeansDistinct(principals);
    if principals != [] {
      var groups := principals[1..];
      var selected := Selected(groups, policy.allowedGroups);
      SelectedIsIntersection(groups, policy.allowedGroups);
      SortedCorrect(selected);
      SortedElements(selected);
      FirstIsLeast(Sorted(selected));
      assert |Sorted(selected)| == |multiset(Sorted(selected))| == |selected|;
      assert forall i :: 1 <= i < |principals| ==> principals[i] == groups[i - 1];
      assert forall i :: 0 <= i < |groups| ==> groups[i] == principals[i + 1];
      if groups == [] { assert Elements(groups) == {}; }
      if selected == [] { assert Elements(selected) == {}; } else { assert selected[0] in Elements(selected); }
    }
  }

  lemma FirstIsLeast(s: seq<string>)
    requires Ascending(s)
    ensures s != [] ==> IsLeast(s[0], Elements(s))
  {
    if s != [] {
      forall name | name in Elements(s) ensures Leq(s[0], name) {
        var i :| 0 <= i < |s| && s[i] == name;
        if i == 0 { LeqReflexive(s[0]); }
      }
    }
  }

  /** What a host checks, in this order, each check with the denial it makes when it fails. */
  ghost function Checks(policy: HostPolicy, certificate: CertificateAttributes, suppliedCaFingerprint: string,
                        targetUser: string): seq<(bool, Denial)>
  {
    var principals := certificate.principals;
    [(policy.allowSelfLoginOnly, SelfLoginPolicyDisabled),
     (suppliedCaFingerprint == certificate.caFingerprint == policy.trustedCaFingerprint, FingerprintNotTrusted),
     (CanonicalUsername(targetUser), AccountNotCanonical),
     (CanonicalUsername(certificate.keyId), KeyIdNotCanonical),
     (certificate.keyId == targetUser, KeyIdMismatch),
     ([targetUser] <= principals, IdentityPrincipalMismatch),
     (Distinct(principals), PrincipalsRepeated),
     (|principals| > 1 && (forall i :: 1 <= i < |principals| ==> CanonicalGroupPrincipal(principals[i])),
      GroupPrincipalsMalformed),
     (exists i :: 1 <= i < |principals| && principals[i] in policy.allowedGroups, NoAllowedGroup)]
  }

  lemma SomeSelected(principals: seq<string>, allowed: seq<string>)
    requires principals != []
    ensures Sorted(Selected(principals[1..], allowed)) != [] <==>
            exists i :: 1 <= i < |principals| && principals[i] in allowed
  {
    var groups := principals[1..];
    var selected := Selected(groups, allowed);
    SelectedIsIntersection(groups, allowed);
    SortedCorrect(selected);
    assert |Sorted(selected)| == |multiset(Sorted(selected))| == |multiset(selected)| == |selected|;
    if selected != [] {
      assert selected[0] in Elements(selected);
      var i :| 0 <= i < |groups| && groups[i] == selected[0];
      assert principals[i + 1] in allowed;
    }
    if i :| 1 <= i < |principals| && principals[i] in allowed {
      assert groups[i - 1] in Elements(selected);
    }
  }

  /** A login is denied for the first check that fails, and allowed when none does. */
  lemma FirstFailureDenies(policy: HostPolicy, certificate: CertificateAttributes, suppliedCaFingerprint: string,
                           targetUser: string, k: nat)
    ensures var r := Authorize(policy, certificate, suppliedCaFingerprint, targetUser);
            var checks := Checks(policy, certificate, suppliedCaFingerprint, targetUser);
            && |checks| == 9
            && (k < 9 && !checks[k].0 && (forall j :: 0 <= j < k ==> checks[j].0) ==> r == Err(checks[k].1))
            && (r.Ok? <==> forall j :: 0 <= j < 9 ==> checks[j].0)
  {
    hide CanonicalUsername, CanonicalGroupPrincipal, Sorted, Selected;
    var principals := certificate.principals;
    var checks := Checks(policy, certificate, suppliedCaFingerprint, targetUser);
    assert checks[0].0 == policy.allowSelfLoginOnly && checks[2].0 == CanonicalUsername(targetUser);
    assert checks[1].0 == (suppliedCaFingerprint == certificate.caFingerprint == policy.trustedCaFingerprint);
    assert checks[3].0 == CanonicalUsername(certificate.keyId) && checks[4].0 == (certificate.keyId == targetUser);
    assert checks[5].0 == (principals != [] && principals[0] == targetUser);
    assert checks[6].0 == Distinct(principals);
    SizeMeansDistinct(principals);
    if principals != [] {
      var groups := principals[1..];
      SomeSelected(principals, policy.allowedGroups);
      assert forall i :: 1 <= i < |principals| ==> principals[i] == groups[i - 1];
      assert forall i :: 0 <= i < |groups| ==> groups[i] == principals[i + 1];
      assert checks[7].0 == (groups != [] && forall i :: 0 <= i < |groups| ==> CanonicalGroupPrincipal(groups[i]));
      assert checks[8].0 == (Sorted(Selected(groups, policy.allowedGroups)) != []);
    }
  }
}
