/** Stable sorting by a total preorder, as the library sorts of Go and JavaScript do it. */
module Sorting {
  ghost predicate TotalPreorder<T(!new)>(le: (T, T) -> bool) {
    && (forall x, y :: le(x, y) || le(y, x))
    && (forall x, y, z :: le(x, y) && le(y, z) ==> le(x, z))
  }

  ghost predicate SortedBy<T>(le: (T, T) -> bool, s: seq<T>) {
    forall i, j | 0 <= i < j < |s| :: le(s[i], s[j])
  }

  function InsertBy<T>(le: (T, T) -> bool, x: T, s: seq<T>): seq<T> {
    if s == [] then [x]
    else if le(x, s[0]) then [x] + s
    else [s[0]] + InsertBy(le, x, s[1..])
  }

  function SortBy<T>(le: (T, T) -> bool, s: seq<T>): seq<T> {
    if s == [] then [] else InsertBy(le, s[0], SortBy(le, s[1..]))
  }

  lemma {:induction false} InsertAddsOne<T>(le: (T, T) -> bool, x: T, s: seq<T>)
    ensures multiset(InsertBy(le, x, s)) == multiset(s) + multiset{x}
  {
    if s != [] {
      assert s == [s[0]] + s[1..];
      if !le(x, s[0]) {
        InsertAddsOne(le, x, s[1..]);
      }
    }
  }

  lemma {:induction false} InsertKeepsOrder<T(!new)>(le: (T, T) -> bool, x: T, s: seq<T>)
    requires TotalPreorder(le) && SortedBy(le, s)
    ensures SortedBy(le, InsertBy(le, x, s))
  {
    if s != [] {
      if le(x, s[0]) {
        forall i | 0 <= i < |s| ensures le(x, s[i]) {
          assert i > 0 ==> le(s[0], s[i]);
        }
      } else {
        var inserted := InsertBy(le, x, s[1..]);
        InsertKeepsOrder(le, x, s[1..]);
        InsertAddsOne(le, x, s[1..]);
        forall i | 0 <= i < |inserted| ensures le(s[0], inserted[i]) {
          assert inserted[i] in multiset(inserted);
          assert inserted[i] == x || inserted[i] in s[1..];
        }
      }
    }
  }

  /** Sorting orders the elements and neither loses nor invents any. */
  lemma {:induction false} SortByOrders<T(!new)>(le: (T, T) -> bool, s: seq<T>)
    requires TotalPreorder(le)
    ensures SortedBy(le, SortBy(le, s))
    ensures multiset(SortBy(le, s)) == multiset(s)
  {
    if s != [] {
      SortByOrders(le, s[1..]);
      InsertKeepsOrder(le, s[0], SortBy(le, s[1..]));
      InsertAddsOne(le, s[0], SortBy(le, s[1..]));
      assert s == [s[0]] + s[1..];
    }
  }

  lemma SortByMembers<T(!new)>(le: (T, T) -> bool, s: seq<T>)
    requires TotalPreorder(le)
    ensures |SortBy(le, s)| == |s|
    ensures forall x :: x in SortBy(le, s) <==> x in s
  {
    SortByOrders(le, s);
    assert |SortBy(le, s)| == |multiset(SortBy(le, s))| == |multiset(s)|;
    forall x
      ensures x in SortBy(le, s) <==> x in s
    {
      assert x in SortBy(le, s) <==> x in multiset(SortBy(le, s));
    }
  }

  ghost predicate Distinct<T>(s: seq<T>) {
    forall i, j | 0 <= i < j < |s| :: s[i] != s[j]
  }

  lemma {:induction false} DistinctIsMultiplicityOne<T>(s: seq<T>)
    ensures Distinct(s) <==> forall x :: multiset(s)[x] <= 1
  {
    if s != [] {
      assert s == [s[0]] + s[1..];
      DistinctIsMultiplicityOne(s[1..]);
      if Distinct(s) {
        assert s[0] !in s[1..];
      } else if Distinct(s[1..]) {
        var i, j :| 0 <= i < j < |s| && s[i] == s[j];
        assert s[1..][j - 1] == s[j];
        assert i == 0;
        assert multiset(s)[s[0]] == 1 + multiset(s[1..])[s[0]];
      } else {
        var x :| multiset(s[1..])[x] > 1;
        assert multiset(s)[x] > 1;
      }
    }
  }

  lemma SortByKeepsDistinct<T(!new)>(le: (T, T) -> bool, s: seq<T>)
    requires TotalPreorder(le) && Distinct(s)
    ensures Distinct(SortBy(le, s))
  {
    SortByOrders(le, s);
    DistinctIsMultiplicityOne(s);
    DistinctIsMultiplicityOne(SortBy(le, s));
  }
}
