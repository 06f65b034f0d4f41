/** Shared vocabulary: optional values, results, duplicate-free sequences and the
    code-point order that Python uses to compare and sort text. */
module Basics {

  datatype Option<+T> = None | Some(value: T)

  /** A returned value or a raised error; `:-` passes an error on. */
  datatype Result<+T, +E> = Ok(value: T) | Err(error: E) {
    predicate IsFailure() { Err? }

    function PropagateFailure<U>(): Result<U, E>
      requires Err?
    {
      Err(error)
    }

    function Extract(): T
      requires Ok?
    {
      value
    }
  }

  // ---- sequences as sets ----

  ghost predicate Distinct<T>(s: seq<T>) {
    forall i, j :: 0 <= i < j < |s| ==> s[i] != s[j]
  }

  function Elements<T>(s: seq<T>): set<T> {
    set x | x in s
  }

  /** Comparing the size of a set with the number of values put into it detects
      exactly the repeated values. */
  lemma {:induction false} SizeMeansDistinct<T>(s: seq<T>)
    ensures |Elements(s)| <= |s|
    ensures |Elements(s)| == |s| <==> Distinct(s)
  {
    if s == [] {
    } else {
      var front, last := s[..|s| - 1], s[|s| - 1];
      SizeMeansDistinct(front);
      assert s == front + [last];
      assert Elements(s) == Elements(front) + {last};
      if last in front {
        assert Elements(s) == Elements(front);
        assert !Distinct(s);
      } else {
        assert |Elements(s)| == |Elements(front)| + 1;
        assert Distinct(front) ==> Distinct(s);
      }
    }
  }

  // ---- text order ----

  /** Code-point lexicographic order. */
  predicate Leq(a: string, b: string) {
    a == [] || (b != [] && (a[0] < b[0] || (a[0] == b[0] && Leq(a[1..], b[1..]))))
  }

  /** A text is at most another exactly when it is a prefix of it, or has the smaller code
      point at the first place where they differ. */
  lemma {:induction false} LeqMeans(a: string, b: string)
    ensures Leq(a, b) <==>
            a <= b || exists k :: 0 <= k < |a| && k < |b| && a[..k] == b[..k] && a[k] as int < b[k] as int
  {
    if a != [] && b != [] && a[0] == b[0] {
      var a', b' := a[1..], b[1..];
      LeqMeans(a', b');
      assert a == [a[0]] + a' && b == [b[0]] + b';
      if k :| 0 <= k < |a'| && k < |b'| && a'[..k] == b'[..k] && a'[k] as int < b'[k] as int {
        assert a[..k + 1] == [a[0]] + a'[..k] && b[..k + 1] == [b[0]] + b'[..k];
        assert a[k + 1] as int < b[k + 1] as int;
      }
      if k :| 0 <= k < |a| && k < |b| && a[..k] == b[..k] && a[k] as int < b[k] as int {
        assert k > 0 && a'[..k - 1] == a[..k][1..] && b'[..k - 1] == b[..k][1..];
        assert a'[k - 1] as int < b'[k - 1] as int;
      }
    } else if a != [] && b != [] {
      if a[0] < b[0] { assert a[..0] == b[..0]; }
      forall k | 0 < k < |a| && k < |b| ensures a[..k] != b[..k] {
        assert a[..k][0] == a[0] && b[..k][0] == b[0];
      }
    }
  }

  lemma {:induction false} LeqReflexive(a: string)
    ensures Leq(a, a)
  {
    if a != [] { LeqReflexive(a[1..]); }
  }

  lemma {:induction false} LeqAntisymmetric(a: string, b: string)
    requires Leq(a, b) && Leq(b, a)
    ensures a == b
  {
    if a != [] && b != [] {
      LeqAntisymmetric(a[1..], b[1..]);
      assert a == [a[0]] + a[1..] && b == [b[0]] + b[1..];
    }
  }

  lemma {:induction false} LeqTotal(a: string, b: string)
    ensures Leq(a, b) || Leq(b, a)
  {
    if a != [] && b != [] && a[0] == b[0] { LeqTotal(a[1..], b[1..]); }
  }

  lemma {:induction false} LeqTransitive(a: string, b: string, c: string)
    requires Leq(a, b) && Leq(b, c)
    ensures Leq(a, c)
  {
    if a != [] && b != [] && c != [] && a[0] == b[0] && b[0] == c[0] {
      LeqTransitive(a[1..], b[1..], c[1..]);
    }
  }

  // ---- sorting ----

  ghost predicate Ascending(s: seq<string>) {
    forall i, j :: 0 <= i < j < |s| ==> Leq(s[i], s[j])
  }

  function InsertSorted(x: string, s: seq<string>): seq<string> {
    if s == [] || Leq(x, s[0]) then [x] + s else [s[0]] + InsertSorted(x, s[1..])
  }

  function Sorted(s: seq<string>): seq<string> {
    if s == [] then [] else InsertSorted(s[0], Sorted(s[1..]))
  }

  lemma {:induction false} InsertSortedCorrect(x: string, s: seq<string>)
    requires Ascending(s)
    ensures Ascending(InsertSorted(x, s))
    ensures multiset(InsertSorted(x, s)) == multiset(s) + multiset{x}
  {
    if s == [] {
    } else if Leq(x, s[0]) {
      forall j | 0 <= j < |s| ensures Leq(x, s[j]) {
        if j > 0 { LeqTransitive(x, s[0], s[j]); }
      }
    } else {
      var rest := InsertSorted(x, s[1..]);
      InsertSortedCorrect(x, s[1..]);
      assert s == [s[0]] + s[1..];
      forall j | 0 <= j < |rest| ensures Leq(s[0], rest[j]) {
        assert rest[j] in multiset(rest);
        LeqTotal(x, s[0]);
        if rest[j] != x {
          assert rest[j] in multiset(s[1..]);
          assert rest[j] in s[1..];
        }
      }
    }
  }

  lemma {:induction false} SortedCorrect(s: seq<string>)
    ensures Ascending(Sorted(s))
    ensures multiset(Sorted(s)) == multiset(s)
  {
    if s != [] {
      SortedCorrect(s[1..]);
      InsertSortedCorrect(s[0], Sorted(s[1..]));
      assert s == [s[0]] + s[1..];
    }
  }

  lemma SortedElements(s: seq<string>)
    ensures Elements(Sorted(s)) == Elements(s)
  {
    SortedCorrect(s);
    var t := Sorted(s);
    forall x ensures x in t <==> x in s {
      assert x in t <==> x in multiset(t);
      assert x in s <==> x in multiset(s);
    }
  }

  /** Sorting keeps a duplicate-free list duplicate-free. */
  lemma SortedDistinct(s: seq<string>)
    requires Distinct(s)
    ensures Distinct(Sorted(s))
  {
    SortedCorrect(s);
    SortedElements(s);
    SizeMeansDistinct(s);
    SizeMeansDistinct(Sorted(s));
    assert |Sorted(s)| == |multiset(Sorted(s))| == |multiset(s)| == |s|;
  }

  lemma LeastFirst(s: seq<string>, t: seq<string>)
    requires Ascending(s) && Ascending(t) && s != [] && t != [] && s[0] in t && t[0] in s
    ensures s[0] == t[0]
  {
    hide Leq;
    var i :| 0 <= i < |t| && t[i] == s[0];
    var j :| 0 <= j < |s| && s[j] == t[0];
    LeqReflexive(s[0]);
    LeqReflexive(t[0]);
    LeqAntisymmetric(s[0], t[0]);
  }

  lemma TailCounts(s: seq<string>)
    requires s != []
    ensures multiset(s[1..]) == multiset(s) - multiset{s[0]}
  {
    assert s == [s[0]] + s[1..];
  }

  lemma TailAscending(s: seq<string>)
    requires Ascending(s) && s != []
    ensures Ascending(s[1..])
  {
    hide Leq;
    assert forall i :: 0 <= i < |s[1..]| ==> s[1..][i] == s[i + 1];
  }

  /** Only one sequence holds given texts in ascending order. */
  lemma {:induction false} AscendingUnique(s: seq<string>, t: seq<string>)
    requires Ascending(s) && Ascending(t) && multiset(s) == multiset(t)
    ensures s == t
  {
    hide Ascending;
    assert |s| == |multiset(s)| == |multiset(t)| == |t|;
    if s != [] {
      assert s[0] in multiset(t) && t[0] in multiset(s);
      LeastFirst(s, t);
      TailCounts(s);
      TailCounts(t);
      TailAscending(s);
      TailAscending(t);
      AscendingUnique(s[1..], t[1..]);
      assert s == [s[0]] + s[1..] && t == [t[0]] + t[1..];
    }
  }
}
