/** Left folds over sequences, and when their result does not depend on the order of the elements. */
module Folding {
  function FoldLeft<S, E>(step: (S, E) -> S, start: S, elements: seq<E>): S {
    if elements == [] then start
    else
      var n := |elements| - 1;
      step(FoldLeft(step, start, elements[..n]), elements[n])
  }

  lemma FoldLast<S, E>(step: (S, E) -> S, start: S, elements: seq<E>, x: E)
    ensures FoldLeft(step, start, elements + [x]) == step(FoldLeft(step, start, elements), x)
  {
    assert (elements + [x])[..|elements|] == elements;
  }

  lemma {:induction false} FoldJoins<S, E>(step: (S, E) -> S, start: S, a: seq<E>, b: seq<E>)
    ensures FoldLeft(step, start, a + b) == FoldLeft(step, FoldLeft(step, start, a), b)
  {
    if b == [] {
      assert a + b == a;
    } else {
      var n := |b| - 1;
      assert (a + b)[..|a| + n] == a + b[..n];
      FoldJoins(step, start, a, b[..n]);
    }
  }

  /** An element may be moved past elements it commutes with. */
  lemma {:induction false} MoveToEnd<S(!new), E(!new)>(step: (S, E) -> S, start: S, before: seq<E>, x: E, after: seq<E>,
                                                       apart: (E, E) -> bool)
    requires forall s, y, z | apart(y, z) :: step(step(s, y), z) == step(step(s, z), y)
    requires forall i | 0 <= i < |after| :: apart(x, after[i])
    ensures FoldLeft(step, start, before + [x] + after) == FoldLeft(step, start, before + after + [x])
  {
    if after == [] {
      assert before + [x] + after == before + after + [x];
    } else {
      var n := |after| - 1;
      var y := after[n];
      var rest := before + after[..n];
      MoveToEnd(step, start, before, x, after[..n], apart);
      FoldLast(step, start, before + [x] + after[..n], y);
      FoldLast(step, start, rest, x);
      FoldLast(step, start, rest, y);
      FoldLast(step, start, rest + [y], x);
      assert before + [x] + after == before + [x] + after[..n] + [y];
      assert before + after + [x] == rest + [y] + [x];
    }
  }

  ghost predicate PairwiseApart<E>(elements: seq<E>, apart: (E, E) -> bool) {
    forall i, j | 0 <= i < |elements| && 0 <= j < |elements| && i != j :: apart(elements[i], elements[j])
  }

  /** Pairwise commuting elements may be folded in any order. */
  lemma {:induction false} FoldPermutes<S(!new), E(!new)>(step: (S, E) -> S, start: S, a: seq<E>, b: seq<E>,
                                                          apart: (E, E) -> bool)
    requires forall s, y, z | apart(y, z) :: step(step(s, y), z) == step(step(s, z), y)
    requires multiset(a) == multiset(b)
    requires PairwiseApart(a, apart) && PairwiseApart(b, apart)
    ensures FoldLeft(step, start, a) == FoldLeft(step, start, b)
    decreases |a|
  {
    if a == [] {
      assert |b| == |multiset(b)| == 0;
    } else {
      var n := |a| - 1;
      var x := a[n];
      var before, after := Without(a, b);
      ApartWithout(before, x, after, apart);
      assert a[..n] + [x] + [] == a && a[..n] + [] == a[..n];
      ApartWithout(a[..n], x, [], apart);
      MoveToEnd(step, start, before, x, after, apart);
      FoldPermutes(step, start, a[..n], before + after, apart);
      FoldLast(step, start, before + after, x);
    }
  }

  /** Takes the last element of a out of b. */
  lemma Without<E>(a: seq<E>, b: seq<E>) returns (before: seq<E>, after: seq<E>)
    requires a != [] && multiset(a) == multiset(b)
    ensures b == before + [a[|a| - 1]] + after
    ensures multiset(a[..|a| - 1]) == multiset(before + after)
  {
    var n := |a| - 1;
    var x := a[n];
    LastSeparates(a);
    assert x in multiset(b);
    var j :| 0 <= j < |b| && b[j] == x;
    before, after := b[..j], b[j + 1..];
    assert b == before + [x] + after;
    Separate(before, x, after);
  }

  lemma LastSeparates<E>(a: seq<E>)
    requires a != []
    ensures a[|a| - 1] in multiset(a)
    ensures multiset(a[..|a| - 1]) == multiset(a) - multiset{a[|a| - 1]}
  {
    assert a == a[..|a| - 1] + [a[|a| - 1]];
  }

  lemma Separate<E>(before: seq<E>, x: E, after: seq<E>)
    ensures multiset(before + after) == multiset(before + [x] + after) - multiset{x}
  {
    assert multiset(before + [x] + after) == multiset(before + after) + multiset{x};
  }

  lemma ApartWithout<E>(before: seq<E>, x: E, after: seq<E>, apart: (E, E) -> bool)
    requires PairwiseApart(before + [x] + after, apart)
    ensures forall i | 0 <= i < |after| :: apart(x, after[i])
    ensures PairwiseApart(before + after, apart)
  {
    var b, rest := before + [x] + after, before + after;
    var n := |before|;
    assert b[n] == x;
    assert forall i | 0 <= i < |after| :: b[n + 1 + i] == after[i];
    assert forall i | 0 <= i < |rest| :: rest[i] == b[if i < n then i else i + 1];
  }
}
