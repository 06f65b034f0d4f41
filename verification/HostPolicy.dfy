/** Strict reading of a host's authorization policy, from the decoded configuration table
    onward (`packages/ski-authorize/src/ski_authorize/policy.py`). */
module HostPolicies {
  import opened Basics
  import opened IssuerPolicy
  import Decimal

  datatype HostPolicy = HostPolicy(
    trustedCaFingerprint: string, allowedGroups: seq<string>, allowSelfLoginOnly: bool)

  /** A decoded configuration value. */
  datatype Toml =
    | TomlText(text: string)
    | TomlBool(flag: bool)
    | TomlArray(items: seq<Toml>)
    | TomlTable(entries: map<string, Toml>)
    | TomlOther

  datatype HostPolicyError =
    | SchemaUnsupported
    | FingerprintMalformed
    | GroupsMalformed
    | GroupsDuplicated
    | SelfLoginDisabled

  predicate IsBase64Char(c: char) {
    IsLower(c) || 'A' <= c <= 'Z' || Decimal.IsDigit(c) || c == '+' || c == '/'
  }

  predicate CanonicalFingerprint(s: string) {
    |s| == 50 && "SHA256:" <= s && forall i :: 7 <= i < 50 ==> IsBase64Char(s[i])
  }

  /** The grammar of a fingerprint: the text "SHA256:" and then 43 characters of base64. */
  lemma FingerprintMeans(s: string)
    ensures CanonicalFingerprint(s) <==>
            && |s| == 50 && s[..7] == "SHA256:"
            && forall i :: 7 <= i < 50 ==>
                 || s[i] in "ABCDEFGHIJKLMNOPQRSTUVWXYZ" || s[i] in "abcdefghijklmnopqrstuvwxyz"
                 || s[i] in "0123456789+/"
  {
    forall i | 7 <= i < |s|
      ensures IsBase64Char(s[i]) <==>
              || s[i] in "ABCDEFGHIJKLMNOPQRSTUVWXYZ" || s[i] in "abcdefghijklmnopqrstuvwxyz"
              || s[i] in "0123456789+/"
    {
      Base64CharMeans(s[i]);
    }
  }

  lemma Base64CharMeans(c: char)
    ensures IsBase64Char(c) <==>
            c in "ABCDEFGHIJKLMNOPQRSTUVWXYZ" || c in "abcdefghijklmnopqrstuvwxyz" || c in "0123456789+/"
  {
  }

  predicate AllGroupTexts(items: seq<Toml>) {
    forall i :: 0 <= i < |items| ==> items[i].TomlText? && CanonicalGroupPrincipal(items[i].text)
  }

  function Texts(items: seq<Toml>): seq<string>
    requires AllGroupTexts(items)
  {
    seq(|items|, i requires 0 <= i < |items| => items[i].text)
  }

  function ParsePolicy(raw: map<string, Toml>): Result<HostPolicy, HostPolicyError> {
    if raw.Keys != {"ssh"} || !raw["ssh"].TomlTable? then Err(SchemaUnsupported)
    else
      var section := raw["ssh"].entries;
      if section.Keys != {"trusted_ca_fingerprint", "allowed_groups", "allow_self_login_only"} then
        Err(SchemaUnsupported)
      else
        var fingerprint := section["trusted_ca_fingerprint"];
        var groups := section["allowed_groups"];
        if !fingerprint.TomlText? || !CanonicalFingerprint(fingerprint.text) then Err(FingerprintMalformed)
        else if !groups.TomlArray? || !AllGroupTexts(groups.items) then Err(GroupsMalformed)
        else if |Elements(Texts(groups.items))| != |groups.items| then Err(GroupsDuplicated)
        else if section["allow_self_login_only"] != TomlBool(true) then Err(SelfLoginDisabled)
        else Ok(HostPolicy(fingerprint.text, Sorted(Texts(groups.items)), true))
  }

  /** A document of the right shape, with any values. */
  function Document(fingerprint: Toml, groups: Toml, selfLogin: Toml): map<string, Toml> {
    map["ssh" := TomlTable(map[
      "trusted_ca_fingerprint" := fingerprint, "allowed_groups" := groups, "allow_self_login_only" := selfLogin])]
  }

  /** The document a host administrator writes. */
  function PolicyDocument(fingerprint: string, groups: seq<string>): map<string, Toml> {
    Document(TomlText(fingerprint),
             TomlArray(seq(|groups|, i requires 0 <= i < |groups| => TomlText(groups[i]))),
             TomlBool(true))
  }

  /** Accepted policies are enabled, trust one canonical fingerprint, and list canonical
      group principals once each, in order; every such policy can be written down. */
  ghost predicate SoundPolicy(p: HostPolicy) {
    && CanonicalFingerprint(p.trustedCaFingerprint)
    && p.allowSelfLoginOnly
    && Ascending(p.allowedGroups) && Distinct(p.allowedGroups)
    && forall i :: 0 <= i < |p.allowedGroups| ==> CanonicalGroupPrincipal(p.allowedGroups[i])
  }

  lemma ParsedPolicySound(raw: map<string, Toml>)
    requires ParsePolicy(raw).Ok?
    ensures SoundPolicy(ParsePolicy(raw).value)
    ensures Elements(ParsePolicy(raw).value.allowedGroups) ==
            Elements(Texts(raw["ssh"].entries["allowed_groups"].items))
  {
    var names := Texts(raw["ssh"].entries["allowed_groups"].items);
    SizeMeansDistinct(names);
    SortedCorrect(names);
    SortedElements(names);
    SortedDistinct(names);
    forall i | 0 <= i < |Sorted(names)| ensures CanonicalGroupPrincipal(Sorted(names)[i]) {
      assert Sorted(names)[i] in Elements(Sorted(names));
    }
  }

  lemma SoundPolicyWritable(p: HostPolicy)
    requires SoundPolicy(p)
    ensures ParsePolicy(PolicyDocument(p.trustedCaFingerprint, p.allowedGroups)) == Ok(p)
  {
    var raw := PolicyDocument(p.trustedCaFingerprint, p.allowedGroups);
    var names := Texts(raw["ssh"].entries["allowed_groups"].items);
    assert names == p.allowedGroups;
    SizeMeansDistinct(names);
    AscendingIsSorted(names);
  }

  /** A document is accepted exactly when it is this table, key by key, of a canonical fingerprint,
      canonical group principals without repetition, and the flag set; it is then the policy with
      that fingerprint and the groups in order. */
  lemma ParsePolicyDecides(raw: map<string, Toml>)
    ensures ParsePolicy(raw).Ok? <==> exists fingerprint, groups :: Acceptable(raw, fingerprint, groups)
    ensures forall fingerprint, groups :: Acceptable(raw, fingerprint, groups) ==>
              ParsePolicy(raw) == Ok(HostPolicy(fingerprint, Sorted(groups), true))
  {
    hide CanonicalFingerprint, CanonicalGroupPrincipal, Sorted;
    if ParsePolicy(raw).Ok? {
      var section := raw["ssh"].entries;
      var fingerprint, items := section["trusted_ca_fingerprint"].text, section["allowed_groups"].items;
      var groups := Texts(items);
      SizeMeansDistinct(groups);
      assert items == TomlTexts(groups);
      assert raw == map["ssh" := TomlTable(section)];
      assert section == map["trusted_ca_fingerprint" := TomlText(fingerprint), "allowed_groups" := TomlArray(items),
                            "allow_self_login_only" := TomlBool(true)];
      assert Acceptable(raw, fingerprint, groups);
    }
    forall fingerprint, groups | Acceptable(raw, fingerprint, groups)
      ensures ParsePolicy(raw) == Ok(HostPolicy(fingerprint, Sorted(groups), true))
    {
      assert Texts(TomlTexts(groups)) == groups;
      SizeMeansDistinct(groups);
    }
  }

  function TomlTexts(texts: seq<string>): seq<Toml> {
    seq(|texts|, i requires 0 <= i < |texts| => TomlText(texts[i]))
  }

  ghost predicate Acceptable(raw: map<string, Toml>, fingerprint: string, groups: seq<string>) {
    && raw == map["ssh" := TomlTable(map["trusted_ca_fingerprint" := TomlText(fingerprint),
                                         "allowed_groups" := TomlArray(TomlTexts(groups)),
                                         "allow_self_login_only" := TomlBool(true)])]
    && CanonicalFingerprint(fingerprint) && Distinct(groups)
    && forall i :: 0 <= i < |groups| ==> CanonicalGroupPrincipal(groups[i])
  }

  lemma {:induction false} AscendingIsSorted(s: seq<string>)
    requires Ascending(s)
    ensures Sorted(s) == s
  {
    if s != [] {
      AscendingIsSorted(s[1..]);
      assert s == [s[0]] + s[1..];
    }
  }

  // ---- the order of the allowed groups ----

  lemma {:induction false} CountTexts(items: seq<Toml>, text: string)
    requires AllGroupTexts(items)
    ensures multiset(Texts(items))[text] == multiset(items)[TomlText(text)]
  {
    if items != [] {
      hide CanonicalGroupPrincipal;
      var rest := items[1..];
      CountTexts(rest, text);
      assert items == [items[0]] + rest && Texts(items) == [items[0].text] + Texts(rest);
    }
  }

  lemma {:induction false} CountTomlTexts(groups: seq<string>, items: seq<Toml>, item: Toml)
    requires |items| == |groups| && forall i :: 0 <= i < |groups| ==> items[i] == TomlText(groups[i])
    ensures multiset(items)[item] == if item.TomlText? then multiset(groups)[item.text] else 0
  {
    if groups != [] {
      CountTomlTexts(groups[1..], items[1..], item);
      assert items == [items[0]] + items[1..] && groups == [groups[0]] + groups[1..];
    }
  }

  lemma TextsPermuted(items: seq<Toml>, items': seq<Toml>)
    requires multiset(items) == multiset(items') && AllGroupTexts(items) && AllGroupTexts(items')
    ensures multiset(Texts(items)) == multiset(Texts(items'))
  {
    forall text ensures multiset(Texts(items))[text] == multiset(Texts(items'))[text] {
      CountTexts(items, text);
      CountTexts(items', text);
    }
  }

  lemma GroupTextsPermuted(items: seq<Toml>, items': seq<Toml>)
    requires multiset(items) == multiset(items') && AllGroupTexts(items)
    ensures AllGroupTexts(items')
  {
    forall i | 0 <= i < |items'| ensures items'[i].TomlText? && CanonicalGroupPrincipal(items'[i].text) {
      assert items'[i] in multiset(items);
    }
  }

  lemma {:induction false} NamesPermuted(names: seq<string>, names': seq<string>)
    requires multiset(names) == multiset(names')
    ensures Sorted(names) == Sorted(names') && Elements(names) == Elements(names')
  {
    hide Sorted;
    SortedCorrect(names);
    SortedCorrect(names');
    AscendingUnique(Sorted(names), Sorted(names'));
    SortedElements(names);
    SortedElements(names');
  }

  /** Listing the allowed groups in another order gives the same policy, or the same error,
      whatever the document holds. */
  lemma AllowedOrderIrrelevant(fingerprint: Toml, items: seq<Toml>, items': seq<Toml>, selfLogin: Toml)
    requires multiset(items) == multiset(items')
    ensures ParsePolicy(Document(fingerprint, TomlArray(items), selfLogin))
            == ParsePolicy(Document(fingerprint, TomlArray(items'), selfLogin))
  {
    hide CanonicalFingerprint, AllGroupTexts, Texts, Sorted, Elements;
    assert |items| == |multiset(items)| == |multiset(items')| == |items'|;
    if AllGroupTexts(items) {
      GroupTextsPermuted(items, items');
    } else if AllGroupTexts(items') {
      GroupTextsPermuted(items', items);
    }
    if AllGroupTexts(items) {
      TextsPermuted(items, items');
      NamesPermuted(Texts(items), Texts(items'));
    }
  }

  lemma PolicyOrderIrrelevant(fingerprint: string, groups: seq<string>, groups': seq<string>)
    requires multiset(groups) == multiset(groups')
    ensures ParsePolicy(PolicyDocument(fingerprint, groups)) == ParsePolicy(PolicyDocument(fingerprint, groups'))
  {
    hide ParsePolicy;
    var items := seq(|groups|, i requires 0 <= i < |groups| => TomlText(groups[i]));
    var items' := seq(|groups'|, i requires 0 <= i < |groups'| => TomlText(groups'[i]));
    forall item ensures multiset(items)[item] == multiset(items')[item] {
      CountTomlTexts(groups, items, item);
      CountTomlTexts(groups', items', item);
    }
    AllowedOrderIrrelevant(TomlText(fingerprint), items, items', TomlBool(true));
  }
}
