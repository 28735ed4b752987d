/** Keeping the elements of a sequence that have a property: what the filters of the service
    are compared with. */
module Filters {
  function Filtered<T>(xs: seq<T>, p: T -> bool): seq<T> {
    if xs == [] then []
    else Filtered(xs[..|xs| - 1], p) + if p(xs[|xs| - 1]) then [xs[|xs| - 1]] else []
  }

  lemma FilteredSnoc<T>(xs: seq<T>, p: T -> bool, x: T)
    ensures Filtered(xs + [x], p) == if p(x) then Filtered(xs, p) + [x] else Filtered(xs, p)
  {
    assert (xs + [x])[..|xs|] == xs;
  }

  lemma {:induction false} FilteredConcat<T>(a: seq<T>, b: seq<T>, p: T -> bool)
    ensures Filtered(a + b, p) == Filtered(a, p) + Filtered(b, p)
  {
    if b == [] {
      assert a + b == a;
    } else {
      FilteredConcat(a, b[..|b| - 1], p);
      assert (a + b)[..|a + b| - 1] == a + b[..|b| - 1];
    }
  }

  lemma FilteredHead<T>(xs: seq<T>, p: T -> bool)
    requires xs != []
    ensures Filtered(xs, p) == (if p(xs[0]) then [xs[0]] else []) + Filtered(xs[1..], p)
  {
    assert xs == [xs[0]] + xs[1..];
    FilteredConcat([xs[0]], xs[1..], p);
    assert [xs[0]][..0] == [];
  }

  /** Each element is kept as often as it is there, if it has the property, and else never. */
  lemma {:induction false} FilteredCounts<T>(xs: seq<T>, p: T -> bool, x: T)
    ensures multiset(Filtered(xs, p))[x] == if p(x) then multiset(xs)[x] else 0
  {
    if xs != [] {
      FilteredCounts(xs[..|xs| - 1], p, x);
      assert xs == xs[..|xs| - 1] + [xs[|xs| - 1]];
    }
  }

  lemma FilteredMembers<T>(xs: seq<T>, p: T -> bool, x: T)
    ensures x in Filtered(xs, p) <==> x in xs && p(x)
  {
    FilteredCounts(xs, p, x);
    assert x in Filtered(xs, p) <==> multiset(Filtered(xs, p))[x] > 0;
    assert x in xs <==> multiset(xs)[x] > 0;
  }

  lemma {:induction false} FilteredAll<T>(xs: seq<T>, p: T -> bool)
    requires forall i :: 0 <= i < |xs| ==> p(xs[i])
    ensures Filtered(xs, p) == xs
  {
    if xs != [] { FilteredAll(xs[..|xs| - 1], p); }
  }

  lemma {:induction false} FilteredAlike<T>(xs: seq<T>, p: T -> bool, q: T -> bool)
    requires forall i :: 0 <= i < |xs| ==> (p(xs[i]) <==> q(xs[i]))
    ensures Filtered(xs, p) == Filtered(xs, q)
  {
    if xs != [] { FilteredAlike(xs[..|xs| - 1], p, q); }
  }
}
