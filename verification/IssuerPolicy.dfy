/** Canonical user, group and principal names of the issuer (`src/ski/policy.py`). */
module IssuerPolicy {
  import opened Basics
  import Decimal

  const CERTIFICATE_LIFETIME := 25 * 60 * 60

  const GROUP_PREFIX := "group:"

  datatype PolicyError =
    | UsernameNotCanonical
    | GroupNotCanonical
    | PrincipalsMalformed
    | PrincipalsDuplicated

  predicate IsLower(c: char) { 'a' <= c <= 'z' }

  predicate IsGroupChar(c: char) { IsLower(c) || Decimal.IsDigit(c) || c == '-' }

  predicate IsUserChar(c: char) { IsGroupChar(c) || c == '_' }

  predicate CanonicalUsername(s: string) {
    1 <= |s| <= 32 && IsLower(s[0]) && forall i :: 1 <= i < |s| ==> IsUserChar(s[i])
  }

  predicate CanonicalGroup(s: string) {
    1 <= |s| <= 63 && IsLower(s[0]) && forall i :: 1 <= i < |s| ==> IsGroupChar(s[i])
  }

  function GroupPrincipal(group: string): string { GROUP_PREFIX + group }

  predicate CanonicalGroupPrincipal(s: string) {
    GROUP_PREFIX <= s && CanonicalGroup(s[|GROUP_PREFIX|..])
  }

  function GroupPrincipals(groups: seq<string>): seq<string> {
    seq(|groups|, i requires 0 <= i < |groups| => GroupPrincipal(groups[i]))
  }

  /** Checks one sequence of principals: the user first, then group principals. */
  function ValidatePrincipals(value: seq<string>): Result<seq<string>, PolicyError> {
    if value == [] then Err(PrincipalsMalformed)
    else if |Elements(value)| != |value| then Err(PrincipalsDuplicated)
    else if !CanonicalUsername(value[0]) then Err(PrincipalsMalformed)
    else if exists i :: 1 <= i < |value| && !CanonicalGroupPrincipal(value[i]) then Err(PrincipalsMalformed)
    else Ok(value)
  }

  function BuildPrincipals(username: string, groups: seq<string>): Result<seq<string>, PolicyError> {
    if !CanonicalUsername(username) then Err(UsernameNotCanonical)
    else if exists i :: 0 <= i < |groups| && !CanonicalGroup(groups[i]) then Err(GroupNotCanonical)
    else ValidatePrincipals([username] + GroupPrincipals(groups))
  }

  /** The identities the issuer can certify. */
  ghost predicate CanonicalIdentity(username: string, groups: seq<string>) {
    CanonicalUsername(username)
    && (forall i :: 0 <= i < |groups| ==> CanonicalGroup(groups[i]))
    && Distinct(groups)
  }

  ghost predicate AreCanonicalPrincipals(value: seq<string>) {
    value != [] && Distinct(value) && CanonicalUsername(value[0])
    && forall i :: 1 <= i < |value| ==> CanonicalGroupPrincipal(value[i])
  }

  /** The grammar of user and group names, character by character: a lower-case letter, then
      lower-case letters, digits, hyphens and, in user names, underscores; at most 32 or 63. */
  lemma NamesMean(s: string)
    ensures CanonicalUsername(s) <==>
            && 1 <= |s| <= 32 && s[0] in "abcdefghijklmnopqrstuvwxyz"
            && forall i :: 0 < i < |s| ==> s[i] in "abcdefghijklmnopqrstuvwxyz0123456789_-"
    ensures CanonicalGroup(s) <==>
            && 1 <= |s| <= 63 && s[0] in "abcdefghijklmnopqrstuvwxyz"
            && forall i :: 0 < i < |s| ==> s[i] in "abcdefghijklmnopqrstuvwxyz0123456789-"
  {
    forall i | 0 <= i < |s|
      ensures IsLower(s[i]) <==> s[i] in "abcdefghijklmnopqrstuvwxyz"
      ensures IsUserChar(s[i]) <==> s[i] in "abcdefghijklmnopqrstuvwxyz0123456789_-"
      ensures IsGroupChar(s[i]) <==> s[i] in "abcdefghijklmnopqrstuvwxyz0123456789-"
    {
      CharactersMean(s[i]);
    }
  }

  lemma CharactersMean(c: char)
    ensures IsLower(c) <==> c in "abcdefghijklmnopqrstuvwxyz"
    ensures IsGroupChar(c) <==> c in "abcdefghijklmnopqrstuvwxyz0123456789-"
    ensures IsUserChar(c) <==> c in "abcdefghijklmnopqrstuvwxyz0123456789_-"
  {
  }

  /** A group principal is the text "group:" and then a group name. */
  lemma GroupPrincipalMeans(s: string, groups: seq<string>)
    ensures CanonicalGroupPrincipal(s) <==> 7 <= |s| <= 69 && s[..6] == "group:" && CanonicalGroup(s[6..])
    ensures |GroupPrincipals(groups)| == |groups|
    ensures forall i :: 0 <= i < |groups| ==> GroupPrincipals(groups)[i] == "group:" + groups[i]
  {
  }

  /** Validation accepts the canonical principal sequences, unchanged, and nothing else. */
  lemma ValidateAccepts(value: seq<string>)
    ensures ValidatePrincipals(value).Ok? <==> AreCanonicalPrincipals(value)
    ensures ValidatePrincipals(value).Ok? ==> ValidatePrincipals(value).value == value
  {
    SizeMeansDistinct(value);
  }

  /** No group principal can be mistaken for a user name: it holds a colon. */
  lemma PrefixedIsNoUsername(group: string)
    ensures !CanonicalUsername(GroupPrincipal(group))
  {
    assert GroupPrincipal(group)[5] == ':';
  }

  /** Building succeeds exactly for canonical identities, and yields the user followed
      by the prefixed groups in their given order. */
  lemma BuildAccepts(username: string, groups: seq<string>)
    ensures BuildPrincipals(username, groups).Ok? <==> CanonicalIdentity(username, groups)
    ensures BuildPrincipals(username, groups).Ok? ==>
              BuildPrincipals(username, groups).value == [username] + GroupPrincipals(groups)
  {
    var value := [username] + GroupPrincipals(groups);
    if CanonicalUsername(username) && forall i :: 0 <= i < |groups| ==> CanonicalGroup(groups[i]) {
      ValidateAccepts(value);
      forall i | 1 <= i < |value| ensures CanonicalGroupPrincipal(value[i]) && value[i] != username {
        assert value[i][|GROUP_PREFIX|..] == groups[i - 1];
        PrefixedIsNoUsername(groups[i - 1]);
      }
      if Distinct(value) {
        forall i, j | 0 <= i < j < |groups| ensures groups[i] != groups[j] {
          assert value[i + 1] != value[j + 1];
        }
      }
      if Distinct(groups) {
        forall i, j | 0 <= i < j < |value| ensures value[i] != value[j] {
          if i > 0 {
            assert value[i][|GROUP_PREFIX|..] == groups[i - 1];
            assert value[j][|GROUP_PREFIX|..] == groups[j - 1];
          }
        }
      }
    }
  }

  /** Which error a refused identity, or a refused sequence of principals, is answered with. */
  lemma RefusalsMean(username: string, groups: seq<string>, value: seq<string>)
    ensures var r := BuildPrincipals(username, groups);
            var allCanonical := forall i :: 0 <= i < |groups| ==> CanonicalGroup(groups[i]);
            && (r == Err(UsernameNotCanonical) <==> !CanonicalUsername(username))
            && (r == Err(GroupNotCanonical) <==> CanonicalUsername(username) && !allCanonical)
            && (r == Err(PrincipalsDuplicated) <==> CanonicalUsername(username) && allCanonical && !Distinct(groups))
    ensures ValidatePrincipals(value) == Err(PrincipalsDuplicated) <==> value != [] && !Distinct(value)
    ensures ValidatePrincipals(value) == Err(PrincipalsMalformed) <==>
            value == [] || (Distinct(value) && !AreCanonicalPrincipals(value))
  {
    SizeMeansDistinct(value);
    ValidateAccepts(value);
    BuildAccepts(username, groups);
    var built := [username] + GroupPrincipals(groups);
    SizeMeansDistinct(built);
    if CanonicalUsername(username) && forall i :: 0 <= i < |groups| ==> CanonicalGroup(groups[i]) {
      forall i | 1 <= i < |built| ensures CanonicalGroupPrincipal(built[i]) {
        assert built[i][|GROUP_PREFIX|..] == groups[i - 1];
      }
    }
  }

  function GroupsOf(principals: seq<string>): seq<string>
    requires principals != []
    requires forall i :: 1 <= i < |principals| ==> GROUP_PREFIX <= principals[i]
  {
    seq(|principals| - 1, i requires 0 <= i < |principals| - 1 => principals[i + 1][|GROUP_PREFIX|..])
  }

  /** Validation accepts exactly the sequences that building can produce. */
  lemma ValidateIsBuildable(value: seq<string>)
    ensures ValidatePrincipals(value).Ok? <==>
            exists username, groups :: BuildPrincipals(username, groups) == Ok(value)
  {
    ValidateAccepts(value);
    if ValidatePrincipals(value).Ok? {
      var username, groups := value[0], GroupsOf(value);
      assert [username] + GroupPrincipals(groups) == value by {
        forall i | 1 <= i < |value| ensures GroupPrincipal(groups[i - 1]) == value[i] {
          assert value[i] == value[i][..|GROUP_PREFIX|] + value[i][|GROUP_PREFIX|..];
        }
      }
      assert BuildPrincipals(username, groups) == Ok(value);
    }
    forall username, groups | BuildPrincipals(username, groups) == Ok(value)
      ensures ValidatePrincipals(value).Ok?
    {
      BuildAccepts(username, groups);
      assert ValidatePrincipals([username] + GroupPrincipals(groups)).Ok?;
    }
  }

  /** A built principal sequence determines the user name and the groups. */
  lemma BuildInjective(u: string, gs: seq<string>, u': string, gs': seq<string>)
    requires BuildPrincipals(u, gs).Ok?
    requires BuildPrincipals(u, gs) == BuildPrincipals(u', gs')
    ensures u == u' && gs == gs'
  {
    BuildAccepts(u, gs);
    BuildAccepts(u', gs');
    var p, p' := [u] + GroupPrincipals(gs), [u'] + GroupPrincipals(gs');
    assert p[0] == p'[0] && |p| == |p'|;
    forall i | 0 <= i < |gs| ensures gs[i] == gs'[i] {
      assert p[i + 1] == p'[i + 1];
      assert p[i + 1][|GROUP_PREFIX|..] == gs[i] && p'[i + 1][|GROUP_PREFIX|..] == gs'[i];
    }
  }

  /** The text fields the ledger stores: non-empty and free of NUL. */
  predicate ValidText(s: string) {
    s != [] && forall i :: 0 <= i < |s| ==> s[i] != '\0'
  }

  lemma ValidTextMeans(s: string)
    ensures ValidText(s) <==> |s| > 0 && forall i :: 0 <= i < |s| ==> s[i] as int != 0
  {
  }
}
