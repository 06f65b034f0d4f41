/** Text forms built from principals and serials: the JSON array in which the ledger
    stores principals, and the marker comment that identifies an issued agent entry. */
module StoredText {
  import opened Basics
  import opened IssuerPolicy
  import Decimal

  // ---- principals as a compact JSON array ----

  /** Characters that JSON writes and reads as themselves. */
  predicate Plain(c: char) { ' ' <= c <= '~' && c != '"' && c != '\\' }

  function Quote(name: string): string { "\"" + name + "\"" }

  function EncodeItems(names: seq<string>): string
    requires names != []
  {
    if |names| == 1 then Quote(names[0])
    else Quote(names[0]) + "," + EncodeItems(names[1..])
  }

  /** The compact array form of names made of plain characters. */
  function EncodePrincipals(names: seq<string>): string {
    if names == [] then "[]" else "[" + EncodeItems(names) + "]"
  }

  /** Length of the longest prefix of plain characters. */
  function PlainLength(s: string): (n: nat)
    ensures n <= |s|
    ensures forall i :: 0 <= i < n ==> Plain(s[i])
    ensures n < |s| ==> !Plain(s[n])
  {
    if s == [] || !Plain(s[0]) then 0 else 1 + PlainLength(s[1..])
  }

  /** Reads one quoted item; the second component is what follows its closing quote. */
  function FirstItem(s: string): (r: Option<(string, string)>)
    ensures r.Some? ==> |r.value.1| < |s|
  {
    if s == [] || s[0] != '"' then None
    else
      var n := PlainLength(s[1..]);
      if |s| < n + 2 || s[n + 1] != '"' then None
      else Some((s[1..n + 1], s[n + 2..]))
  }

  /** Reads the items of an array up to and including its closing bracket. */
  function DecodeItems(s: string): Option<seq<string>>
    decreases |s|
  {
    match FirstItem(s)
    case None => None
    case Some((item, after)) =>
      if after == "]" then Some([item])
      else if after == [] || after[0] != ',' then None
      else match DecodeItems(after[1..])
        case None => None
        case Some(rest) => Some([item] + rest)
  }

  /** `json.loads` on a compact array of unescaped strings. */
  function DecodePrincipals(s: string): Option<seq<string>> {
    if s == "[]" then Some([])
    else if s == [] || s[0] != '[' then None
    else DecodeItems(s[1..])
  }

  ghost predicate AllPlain(s: string) { forall i :: 0 <= i < |s| ==> Plain(s[i]) }

  lemma PlainLengthStops(name: string, rest: string)
    requires AllPlain(name)
    ensures PlainLength(name + "\"" + rest) == |name|
  {
    var s := name + "\"" + rest;
    var n := PlainLength(s);
    assert s[|name|] == '"';
    assert forall i :: 0 <= i < |name| ==> s[i] == name[i];
  }

  lemma FirstItemReads(name: string, after: string)
    requires AllPlain(name)
    ensures FirstItem(Quote(name) + after) == Some((name, after))
  {
    var s := Quote(name) + after;
    assert s[1..] == name + "\"" + after;
    PlainLengthStops(name, after);
    assert s[1..|name| + 1] == name;
    assert s[|name| + 1] == '"';
    assert s[|name| + 2..] == after;
  }

  lemma {:induction false} DecodeEncodeItems(names: seq<string>)
    requires names != []
    requires forall i :: 0 <= i < |names| ==> AllPlain(names[i])
    ensures DecodeItems(EncodeItems(names) + "]") == Some(names)
  {
    hide FirstItem, Quote;
    if |names| == 1 {
      FirstItemReads(names[0], "]");
      assert names == [names[0]];
    } else {
      var after := "," + (EncodeItems(names[1..]) + "]");
      assert EncodeItems(names) + "]" == Quote(names[0]) + after;
      FirstItemReads(names[0], after);
      assert after[1..] == EncodeItems(names[1..]) + "]";
      DecodeEncodeItems(names[1..]);
      assert names == [names[0]] + names[1..];
    }
  }

  lemma CanonicalIsPlain(value: seq<string>)
    requires AreCanonicalPrincipals(value)
    ensures forall i :: 0 <= i < |value| ==> AllPlain(value[i])
  {
    forall i, k | 0 <= i < |value| && 0 <= k < |value[i]| ensures Plain(value[i][k]) {
      if i > 0 {
        assert CanonicalGroupPrincipal(value[i]);
        if k < |GROUP_PREFIX| {
          assert value[i][k] == GROUP_PREFIX[k];
        } else {
          assert value[i][k] == value[i][|GROUP_PREFIX|..][k - |GROUP_PREFIX|];
        }
      }
    }
  }

  /** Every principal sequence the issuer can sign survives storage. */
  lemma DecodeEncodePrincipals(value: seq<string>)
    requires AreCanonicalPrincipals(value)
    ensures DecodePrincipals(EncodePrincipals(value)) == Some(value)
  {
    CanonicalIsPlain(value);
    DecodeEncodeItems(value);
    var items := EncodeItems(value);
    assert items[0] == '"';
    assert EncodePrincipals(value) == "[" + (items + "]");
    assert EncodePrincipals(value)[1..] == items + "]";
    assert EncodePrincipals(value)[1] != "[]"[1];
  }

  /** The stored text of a list of names, quote by quote and comma by comma. */
  lemma StoredListMeans(name: string, more: seq<string>)
    ensures EncodePrincipals([]) == "[]"
    ensures EncodePrincipals([name]) == "[" + ("\"" + name + "\"") + "]"
    ensures more != [] ==>
              EncodePrincipals([name] + more) == "[" + ("\"" + name + "\"" + "," + EncodePrincipals(more)[1..])
  {
    hide EncodeItems;
    OneItem(name);
    if more != [] {
      MoreItems(name, more);
      var items := EncodeItems(more);
      assert EncodePrincipals(more)[1..] == items + "]" by { Opened(items + "]"); }
      Joined("[", Quote(name) + ",", items, "]");
      Joined("[", "", items, "]");
    }
  }

  lemma OneItem(name: string)
    ensures EncodeItems([name]) == Quote(name)
  {
  }

  lemma MoreItems(name: string, more: seq<string>)
    requires more != []
    ensures EncodeItems([name] + more) == Quote(name) + "," + EncodeItems(more)
  {
    hide Quote;
    assert ([name] + more)[1..] == more;
  }

  lemma Opened(s: string)
    ensures ("[" + s)[1..] == s
  {
  }

  lemma Joined(a: string, b: string, c: string, d: string)
    ensures a + (b + c) + d == a + (b + (c + d))
    ensures a + c + d == a + (c + d)
  {
  }

  lemma ReadItemMeans(s: string)
    requires FirstItem(s).Some?
    ensures var (item, after) := FirstItem(s).value; AllPlain(item) && s == Quote(item) + after
  {
    var n := PlainLength(s[1..]);
    assert s == [s[0]] + s[1..n + 1] + [s[n + 1]] + s[n + 2..];
    assert s[1..n + 1] == s[1..][..n];
  }

  lemma {:induction false} EncodeDecodeItems(s: string)
    requires DecodeItems(s).Some?
    ensures var names := DecodeItems(s).value;
            names != [] && (forall i :: 0 <= i < |names| ==> AllPlain(names[i])) && s == EncodeItems(names) + "]"
    decreases |s|
  {
    hide FirstItem, Quote, AllPlain;
    var (item, after) := FirstItem(s).value;
    ReadItemMeans(s);
    if after != "]" {
      EncodeDecodeItems(after[1..]);
      var rest := DecodeItems(after[1..]).value;
      assert ([item] + rest)[1..] == rest && after == "," + after[1..];
      assert s == (Quote(item) + "," + EncodeItems(rest)) + "]";
    }
  }

  /** A stored text reads as a list of names exactly when it is what writing them yields, the
      names being printable ASCII (codes 32 to 126) without quotes (34) and backslashes (92). */
  lemma {:induction false} DecodeMeans(s: string, names: seq<string>)
    ensures DecodePrincipals(s) == Some(names) <==>
            && s == EncodePrincipals(names)
            && forall i, k :: 0 <= i < |names| && 0 <= k < |names[i]| ==>
                 32 <= names[i][k] as int <= 126 && names[i][k] as int != 34 && names[i][k] as int != 92
  {
    if DecodePrincipals(s) == Some(names) {
      if s != "[]" {
        EncodeDecodeItems(s[1..]);
        assert s == "[" + (EncodeItems(names) + "]");
        assert forall i, k :: 0 <= i < |names| && 0 <= k < |names[i]| ==> Plain(names[i][k]);
      }
    }
    if names != [] && forall i :: 0 <= i < |names| ==> AllPlain(names[i]) {
      DecodeEncodeItems(names);
      var items := EncodeItems(names);
      assert EncodePrincipals(names)[1..] == items + "]" && items[0] == '"';
      assert EncodePrincipals(names)[1] != "[]"[1];
    }
  }

  // ---- ownership marker ----

  /** The comment of an issued agent entry: `ski:user:fingerprint:serial`. */
  function Marker(username: string, fingerprint: string, serial: nat): string {
    "ski:" + username + ":" + fingerprint + ":" + Decimal.Show(serial)
  }

  predicate NoColon(s: string) { ':' !in s }

  /** Splitting at the first colon is unambiguous when the left part has none. */
  lemma FirstColonSplits(a: string, b: string, a': string, b': string)
    requires NoColon(a) && NoColon(a')
    requires a + ":" + b == a' + ":" + b'
    ensures a == a' && b == b'
  {
    var s, s' := a + ":" + b, a' + ":" + b';
    assert forall k :: 0 <= k < |a| ==> s[k] == a[k] && s[k] != ':';
    assert forall k :: 0 <= k < |a'| ==> s'[k] == a'[k] && s'[k] != ':';
    assert s[|a|] == ':' && s'[|a'|] == ':';
    assert s[..|a|] == a && s'[..|a'|] == a';
    assert s[|a| + 1..] == b && s'[|a'| + 1..] == b';
  }

  /** Splitting at the last colon is unambiguous when the right part has none. */
  lemma LastColonSplits(a: string, b: string, a': string, b': string)
    requires NoColon(b) && NoColon(b')
    requires a + ":" + b == a' + ":" + b'
    ensures a == a' && b == b'
  {
    var s, s' := a + ":" + b, a' + ":" + b';
    assert forall k :: |a| < k < |s| ==> s[k] == b[k - |a| - 1] && s[k] != ':';
    assert forall k :: |a'| < k < |s'| ==> s'[k] == b'[k - |a'| - 1] && s'[k] != ':';
    assert s[|a|] == ':' && s'[|a'|] == ':';
    assert s[..|a|] == a && s'[..|a'|] == a';
    assert s[|a| + 1..] == b && s'[|a'| + 1..] == b';
  }

  /** A marker names one user, one CA and one serial, whatever colons the fingerprint has. */
  lemma MarkerInjective(u: string, fp: string, n: nat, u': string, fp': string, n': nat)
    requires CanonicalUsername(u) && CanonicalUsername(u')
    ensures Marker(u, fp, n) == Marker(u', fp', n') <==> u == u' && fp == fp' && n == n'
  {
    if Marker(u, fp, n) == Marker(u', fp', n') {
      var tail, tail' := fp + ":" + Decimal.Show(n), fp' + ":" + Decimal.Show(n');
      assert Marker(u, fp, n)[4..] == u + ":" + tail;
      assert Marker(u', fp', n')[4..] == u' + ":" + tail';
      FirstColonSplits(u, tail, u', tail');
      Decimal.ShowIsDigits(n);
      Decimal.ShowIsDigits(n');
      LastColonSplits(fp, Decimal.Show(n), fp', Decimal.Show(n'));
      Decimal.ShowInjective(n, n');
    }
  }
}
