/** The order in which Go compares strings, and the ascending listing of a set of strings. */
module StringOrder {
  import opened Sorting

  predicate Le(a: string, b: string) {
    if a == [] then true
    else if b == [] then false
    else a[0] < b[0] || (a[0] == b[0] && Le(a[1..], b[1..]))
  }

  predicate Lt(a: string, b: string) {
    Le(a, b) && a != b
  }

  lemma {:induction false} LeTotal(a: string, b: string)
    ensures Le(a, b) || Le(b, a)
  {
    if a != [] && b != [] {
      LeTotal(a[1..], b[1..]);
    }
  }

  lemma {:induction false} LeAntisymmetric(a: string, b: string)
    requires Le(a, b) && Le(b, a)
    ensures a == b
  {
    if a != [] {
      LeAntisymmetric(a[1..], b[1..]);
      assert a == [a[0]] + a[1..] && b == [b[0]] + b[1..];
    }
  }

  lemma {:induction false} LeTransitive(a: string, b: string, c: string)
    requires Le(a, b) && Le(b, c)
    ensures Le(a, c)
  {
    if a != [] && a[0] == b[0] && b[0] == c[0] {
      LeTransitive(a[1..], b[1..], c[1..]);
    }
  }

  /** The strings agree up to k; there a ends, or has the smaller character. */
  predicate Departs(a: string, b: string, k: nat) {
    && k <= |a| && k < |b| && a[..k] == b[..k]
    && (k < |a| ==> a[k] < b[k])
  }

  /** The order is the lexicographic one. */
  lemma {:induction false} LtExactly(a: string, b: string)
    ensures Lt(a, b) <==> exists k :: Departs(a, b, k)
  {
    if a == [] {
      assert b != [] ==> Departs(a, b, 0);
    } else if b != [] {
      LtExactly(a[1..], b[1..]);
      assert a == [a[0]] + a[1..] && b == [b[0]] + b[1..];
      assert a[0] < b[0] ==> Departs(a, b, 0);
      if a[0] == b[0] {
        forall k: nat
          ensures Departs(a, b, k + 1) <==> Departs(a[1..], b[1..], k)
        {
          DepartsLater(a, b, k);
        }
        if k: nat :| Departs(a, b, k) {
          assert k > 0 && Departs(a[1..], b[1..], k - 1);
        }
      }
    }
  }

  lemma DepartsLater(a: string, b: string, k: nat)
    requires a != [] && b != [] && a[0] == b[0]
    ensures Departs(a, b, k + 1) <==> Departs(a[1..], b[1..], k)
  {
    if k < |a| && k < |b| {
      assert a[..k + 1] == [a[0]] + a[1..][..k] && b[..k + 1] == [b[0]] + b[1..][..k];
      assert a[1..][..k] == a[..k + 1][1..] && b[1..][..k] == b[..k + 1][1..];
    }
  }

  ghost predicate Ascending(s: seq<string>) {
    forall i, j | 0 <= i < j < |s| :: Lt(s[i], s[j])
  }

  lemma {:induction false} LeastExists(s: set<string>) returns (least: string)
    requires s != {}
    ensures least in s && forall x | x in s :: Le(least, x)
  {
    var x :| x in s;
    if s == {x} {
      least := x;
      LeTotal(x, x);
    } else {
      var rest := s - {x};
      assert s == {x} + rest;
      least := LeastExists(rest);
      LeTotal(x, least);
      if Le(x, least) {
        forall y | y in s ensures Le(x, y) {
          if y == x { LeTotal(x, x); } else { LeTransitive(x, least, y); }
        }
        least := x;
      }
    }
  }

  /** The elements of a set, strictly ascending. */
  ghost function Listing(s: set<string>): (listing: seq<string>)
    ensures forall x :: x in listing <==> x in s
    ensures Ascending(listing)
  {
    if s == {} then []
    else
      assert exists least :: least in s && forall x | x in s :: Le(least, x) by {
        var least := LeastExists(s);
      }
      var least :| least in s && forall x | x in s :: Le(least, x);
      [least] + Listing(s - {least})
  }

  lemma EmptyHasNoMembers(s: seq<string>)
    ensures s == [] <==> forall x :: x !in s
  {
    if s != [] {
      assert s[0] in s;
    }
  }

  /** There is only one ascending listing. */
  lemma {:induction false} ListingIsUnique(a: seq<string>, b: seq<string>)
    requires Ascending(a) && Ascending(b)
    requires forall x :: x in a <==> x in b
    ensures a == b
  {
    EmptyHasNoMembers(a);
    EmptyHasNoMembers(b);
    if a != [] {
      assert a[0] in b && a[0] in a;
      var i :| 0 <= i < |b| && b[i] == a[0];
      assert b[0] in a;
      var j :| 0 <= j < |a| && a[j] == b[0];
      if i > 0 && j > 0 {
        LeAntisymmetric(a[0], b[0]);
      }
      assert a[0] == b[0];
      forall x
        ensures x in a[1..] <==> x in b[1..]
      {
        TailMembers(a, x);
        TailMembers(b, x);
      }
      ListingIsUnique(a[1..], b[1..]);
      assert a == [a[0]] + a[1..] && b == [b[0]] + b[1..];
    }
  }

  lemma TailMembers(s: seq<string>, x: string)
    requires s != [] && Ascending(s)
    ensures x in s[1..] <==> x in s && x != s[0]
  {
    if x in s && x != s[0] {
      var i :| 0 <= i < |s| && s[i] == x;
      assert s[1..][i - 1] == x;
    }
  }

  lemma LeIsTotalPreorder()
    ensures TotalPreorder(Le)
  {
    forall x, y
      ensures Le(x, y) || Le(y, x)
    {
      LeTotal(x, y);
    }
    forall x, y, z | Le(x, y) && Le(y, z)
      ensures Le(x, z)
    {
      LeTransitive(x, y, z);
    }
  }

  /** Sorting strings that are all different lists them in ascending order. */
  lemma SortingLists(s: seq<string>)
    requires Distinct(s)
    ensures Ascending(SortBy(Le, s))
    ensures forall x :: x in SortBy(Le, s) <==> x in s
  {
    LeIsTotalPreorder();
    SortByOrders(Le, s);
    SortByMembers(Le, s);
    SortByKeepsDistinct(Le, s);
  }
}
