/** Decimal text of integers, as `str` writes it and `int` reads it back: the form in
    which certificate serials are stored. */
module Decimal {
  import opened Basics

  predicate IsDigit(c: char) { '0' <= c <= '9' }

  function DigitChar(d: nat): (c: char)
    requires d < 10
    ensures IsDigit(c)
  {
    ('0' as int + d) as char
  }

  function DigitValue(c: char): (d: nat)
    requires IsDigit(c)
    ensures d < 10
  {
    c as int - '0' as int
  }

  /** `str(n)` for a non-negative integer. */
  function Show(n: nat): string {
    if n < 10 then [DigitChar(n)] else Show(n / 10) + [DigitChar(n % 10)]
  }

  function ReadDigits(s: string): (r: Option<nat>)
    ensures r.Some? <==> s != [] && forall i :: 0 <= i < |s| ==> IsDigit(s[i])
  {
    if s == [] || !IsDigit(s[|s| - 1]) then None
    else if |s| == 1 then Some(DigitValue(s[0]))
    else match ReadDigits(s[..|s| - 1])
      case None => None
      case Some(high) => Some(10 * high + DigitValue(s[|s| - 1]))
  }

  /** `int(s)` on ASCII text: an optional sign, then digits, leading zeros allowed. */
  function Read(s: string): (r: Option<int>) {
    if s != [] && (s[0] == '-' || s[0] == '+') then
      match ReadDigits(s[1..])
      case None => None
      case Some(n) => Some(if s[0] == '-' then -(n as int) else n as int)
    else
      match ReadDigits(s)
      case None => None
      case Some(n) => Some(n as int)
  }

  lemma {:induction false} ShowIsDigits(n: nat)
    ensures Show(n) != []
    ensures forall i :: 0 <= i < |Show(n)| ==> IsDigit(Show(n)[i])
    ensures ReadDigits(Show(n)) == Some(n)
  {
    if n >= 10 {
      ShowIsDigits(n / 10);
      var s := Show(n);
      assert s[..|s| - 1] == Show(n / 10);
    }
  }

  /** Reading back what was written gives the number itself. */
  lemma {:induction false} ReadShow(n: nat)
    ensures Read(Show(n)) == Some(n)
  {
    ShowIsDigits(n);
  }

  // ---- what the texts are ----

  /** The number that digit characters spell, the character '0' having code 48. */
  ghost function Spelled(s: string): int {
    if s == [] then 0 else Spelled(s[..|s| - 1]) * 10 + (s[|s| - 1] as int - 48)
  }

  ghost predicate AllDigits(s: string) {
    s != [] && forall i :: 0 <= i < |s| ==> 48 <= s[i] as int <= 57
  }

  lemma {:induction false} SpelledRead(s: string)
    ensures ReadDigits(s).Some? <==> AllDigits(s)
    ensures AllDigits(s) ==> ReadDigits(s) == Some(Spelled(s))
  {
    if |s| > 1 && IsDigit(s[|s| - 1]) {
      SpelledRead(s[..|s| - 1]);
      assert s == s[..|s| - 1] + [s[|s| - 1]];
    } else if |s| == 1 {
      assert s[..0] == [];
    }
  }

  /** The text of a number is the one that spells it without leading zeros. */
  lemma {:induction false} ShowMeans(n: nat, s: string)
    ensures s == Show(n) <==> AllDigits(s) && Spelled(s) == n && (s[0] == '0' ==> s == "0")
  {
    ShowLeads(n);
    ShowIsDigits(n);
    SpelledRead(Show(n));
    if AllDigits(s) && (s[0] == '0' ==> s == "0") { SpelledShown(s); }
  }

  lemma {:induction false} ShowLeads(n: nat)
    ensures Show(n) != [] && (Show(n)[0] == '0' ==> n == 0)
  {
    if n >= 10 { ShowLeads(n / 10); }
  }

  lemma {:induction false} ShowMore(m: nat, d: nat)
    requires d < 10
    ensures Show(10 * m + d) == (if m == 0 then [] else Show(m)) + [DigitChar(d)]
  {
    assert (10 * m + d) / 10 == m && (10 * m + d) % 10 == d;
  }

  lemma {:induction false} SpelledShown(s: string)
    requires AllDigits(s) && (s[0] == '0' ==> s == "0")
    ensures Spelled(s) >= 0 && Show(Spelled(s)) == s && (s[0] != '0' ==> Spelled(s) > 0)
  {
    hide Show;
    var front, last := s[..|s| - 1], s[|s| - 1];
    assert s == front + [last];
    var d := last as int - 48;
    if front == [] {
      assert Spelled(front) == 0;
      ShowMore(0, d);
    } else {
      assert forall i :: 0 <= i < |front| ==> front[i] == s[i];
      SpelledShown(front);
      ShowMore(Spelled(front), d);
    }
  }

  /** What reads as a number is an optional sign and then digits, and it reads as the number
      that the digits spell. */
  lemma {:induction false} ReadMeans(s: string)
    ensures AllDigits(s) ==> Read(s) == Some(Spelled(s))
    ensures s != [] && s[0] == '+' && AllDigits(s[1..]) ==> Read(s) == Some(Spelled(s[1..]))
    ensures s != [] && s[0] == '-' && AllDigits(s[1..]) ==> Read(s) == Some(-Spelled(s[1..]))
    ensures Read(s).Some? ==> AllDigits(s) || (s[0] in "+-" && AllDigits(s[1..]))
  {
    SpelledRead(s);
    if s != [] { SpelledRead(s[1..]); }
  }

  /** Two numbers share a decimal text exactly when they are the same number. */
  lemma ShowInjective(m: nat, n: nat)
    ensures Show(m) == Show(n) <==> m == n
  {
    ReadShow(m);
    ReadShow(n);
  }

  /** The converse fails: different texts can name one number. */
  lemma ReadIsNotInjective()
    ensures "7" != "07" && Read("7") == Read("07") == Some(7)
  {
    assert "7"[..0] == "" && "07"[..1] == "0";
    assert ReadDigits("7") == Some(7);
    assert ReadDigits("0") == Some(0);
  }
}
