/** A stable order in which to page a process listing: start time first,
    as the code's comment asks, then id, which the model adds to make the
    order total. Start times come from the clock, a given function of the
    id. Sorting any enumeration of the same ids gives one and the same
    sequence. */
module Ordering {

  predicate Distinct<T(==)>(s: seq<T>) {
    forall i, j :: 0 <= i < j < |s| ==> s[i] != s[j]
  }

  /** Go's `<` on strings: lexicographic, character by character, with a
      proper prefix first. */
  predicate StrLess(a: string, b: string)
    decreases |a|
  {
    |b| > 0 && (|a| == 0 || a[0] < b[0] || (a[0] == b[0] && StrLess(a[1..], b[1..])))
  }

  lemma {:induction false} StrLessIrreflexive(a: string)
    ensures !StrLess(a, a)
    decreases |a|
  {
    if |a| > 0 {
      StrLessIrreflexive(a[1..]);
    }
  }

  lemma {:induction false} StrLessTransitive(a: string, b: string, c: string)
    requires StrLess(a, b) && StrLess(b, c)
    ensures StrLess(a, c)
    decreases |a|
  {
    if |a| > 0 && a[0] == b[0] && b[0] == c[0] {
      StrLessTransitive(a[1..], b[1..], c[1..]);
    }
  }

  lemma {:induction false} StrLessTotal(a: string, b: string)
    requires a != b
    ensures StrLess(a, b) || StrLess(b, a)
    decreases |a|
  {
    if |a| > 0 && |b| > 0 && a[0] == b[0] {
      assert a == [a[0]] + a[1..] && b == [b[0]] + b[1..];
      StrLessTotal(a[1..], b[1..]);
    }
  }

  /** The start time of each id. */
  type Clock = string -> int

  /** The listing order: earlier start first. Start time alone is not a
      total order, so ties are broken by id. */
  predicate Before(started: Clock, a: string, b: string) {
    started(a) < started(b) || (started(a) == started(b) && StrLess(a, b))
  }

  lemma BeforeIrreflexive(started: Clock, a: string)
    ensures !Before(started, a, a)
  {
    StrLessIrreflexive(a);
  }

  lemma BeforeTransitive(started: Clock, a: string, b: string, c: string)
    requires Before(started, a, b) && Before(started, b, c)
    ensures Before(started, a, c)
  {
    if started(a) == started(b) == started(c) {
      StrLessTransitive(a, b, c);
    }
  }

  lemma BeforeTotal(started: Clock, a: string, b: string)
    requires a != b
    ensures Before(started, a, b) || Before(started, b, a)
  {
    StrLessTotal(a, b);
  }

  /** Strictly increasing in the order. */
  predicate SortedBy(started: Clock, s: seq<string>) {
    forall i, j :: 0 <= i < j < |s| ==> Before(started, s[i], s[j])
  }

  lemma SortedTail(started: Clock, s: seq<string>)
    requires SortedBy(started, s) && s != []
    ensures SortedBy(started, s[1..])
    ensures forall y :: y in s[1..] ==> Before(started, s[0], y)
  {
    forall y | y in s[1..]
      ensures Before(started, s[0], y)
    {
      var j :| 0 <= j < |s[1..]| && s[1..][j] == y;
      assert s[j + 1] == y;
    }
  }

  lemma SortedCons(started: Clock, h: string, t: seq<string>)
    requires SortedBy(started, t)
    requires forall y :: y in t ==> Before(started, h, y)
    ensures SortedBy(started, [h] + t)
  {
    var s := [h] + t;
    forall i, j | 0 <= i < j < |s|
      ensures Before(started, s[i], s[j])
    {
      assert s[j] == t[j - 1];
      if i > 0 {
        assert s[i] == t[i - 1];
      }
    }
  }

  /** An element before the head of a sorted sequence is before all of it. */
  lemma BeforeAll(started: Clock, x: string, s: seq<string>)
    requires SortedBy(started, s) && s != [] && Before(started, x, s[0])
    ensures forall y :: y in s ==> Before(started, x, y)
  {
    SortedTail(started, s);
    forall y | y in s[1..]
      ensures Before(started, x, y)
    {
      BeforeTransitive(started, x, s[0], y);
    }
    assert forall y :: y in s ==> y == s[0] || y in s[1..];
  }

  /** One insertion step of the sort. */
  function Insert(started: Clock, x: string, s: seq<string>): (r: seq<string>)
    requires SortedBy(started, s) && x !in s
    ensures |r| == |s| + 1
    ensures forall y :: y in r <==> y == x || y in s
    ensures SortedBy(started, r)
    decreases |s|
  {
    if s == [] then [x]
    else if Before(started, x, s[0]) then
      BeforeAll(started, x, s);
      SortedCons(started, x, s);
      [x] + s
    else
      BeforeTotal(started, x, s[0]);
      SortedTail(started, s);
      var rest := Insert(started, x, s[1..]);
      SortedCons(started, s[0], rest);
      [s[0]] + rest
  }

  /** The enumeration in the stable order. */
  function Sort(started: Clock, s: seq<string>): (r: seq<string>)
    requires Distinct(s)
    ensures |r| == |s|
    ensures forall y :: y in r <==> y in s
    ensures SortedBy(started, r)
    decreases |s|
  {
    if s == [] then []
    else
      assert s[0] !in s[1..];
      Insert(started, s[0], Sort(started, s[1..]))
  }

  lemma SortedDistinct(started: Clock, s: seq<string>)
    requires SortedBy(started, s)
    ensures Distinct(s)
  {
    forall i, j | 0 <= i < j < |s|
      ensures s[i] != s[j]
    {
      BeforeIrreflexive(started, s[i]);
    }
  }

  /** Two sorted sequences of the same ids are the same sequence: the
      stable order does not depend on how the ids were enumerated. */
  lemma {:induction false} SortedUnique(started: Clock, a: seq<string>, b: seq<string>)
    requires SortedBy(started, a) && SortedBy(started, b)
    requires forall y :: y in a <==> y in b
    ensures a == b
    decreases |a|
  {
    assert b != [] ==> b[0] in b;
    if a != [] {
      assert a[0] in b;
      SortedTail(started, a);
      SortedTail(started, b);
      if a[0] != b[0] {
        assert a[0] in b[1..] by {
          assert forall y :: y in b ==> y == b[0] || y in b[1..];
        }
        assert b[0] in a[1..] by {
          assert b[0] in a;
          assert forall y :: y in a ==> y == a[0] || y in a[1..];
        }
        BeforeTransitive(started, a[0], b[0], a[0]);
        BeforeIrreflexive(started, a[0]);
      }
      BeforeIrreflexive(started, a[0]);
      assert a[0] !in a[1..] && b[0] !in b[1..];
      forall y
        ensures y in a[1..] <==> y in b[1..]
      {
        assert y in a <==> y == a[0] || y in a[1..];
        assert y in b <==> y == b[0] || y in b[1..];
      }
      SortedUnique(started, a[1..], b[1..]);
      assert a == [a[0]] + a[1..] && b == [b[0]] + b[1..];
    }
  }
}
