/** Sums of bags, for results collected over several loops. */
module Bags {
  function Sum<T>(bags: seq<multiset<T>>): multiset<T> {
    if bags == [] then multiset{} else Sum(bags[..|bags| - 1]) + bags[|bags| - 1]
  }

  function Total(ns: seq<nat>): nat {
    if ns == [] then 0 else Total(ns[..|ns| - 1]) + ns[|ns| - 1]
  }

  lemma SumSnoc<T>(bags: seq<multiset<T>>, b: multiset<T>)
    ensures Sum(bags + [b]) == Sum(bags) + b
  {
    assert (bags + [b])[..|bags|] == bags;
  }

  lemma {:induction false} SumConcat<T>(a: seq<multiset<T>>, b: seq<multiset<T>>)
    ensures Sum(a + b) == Sum(a) + Sum(b)
  {
    if b == [] {
      assert a + b == a;
    } else {
      var n := |b| - 1;
      SumConcat(a, b[..n]);
      assert (a + b)[..|a| + n] == a + b[..n];
    }
  }

  lemma {:induction false} SumMember<T>(bags: seq<multiset<T>>, x: T)
    ensures x in Sum(bags) <==> exists k :: 0 <= k < |bags| && x in bags[k]
  {
    if bags != [] {
      var n := |bags| - 1;
      SumMember(bags[..n], x);
      if x in Sum(bags[..n]) {
        var k :| 0 <= k < n && x in bags[..n][k];
        assert x in bags[k];
      }
      if k :| 0 <= k < |bags| && x in bags[k] {
        if k < n { assert x in bags[..n][k]; }
      }
    }
  }

  lemma {:induction false} SumEmpty<T>(bags: seq<multiset<T>>)
    ensures Sum(bags) == multiset{} <==> forall k :: 0 <= k < |bags| ==> bags[k] == multiset{}
  {
    if bags != [] {
      var n := |bags| - 1;
      SumEmpty(bags[..n]);
      EmptyParts(Sum(bags[..n]), bags[n]);
      if forall k :: 0 <= k < |bags| ==> bags[k] == multiset{} {
        assert forall k :: 0 <= k < n ==> bags[..n][k] == bags[k];
      }
      if Sum(bags) == multiset{} {
        forall k | 0 <= k < |bags| ensures bags[k] == multiset{} {
          if k < n { assert bags[..n][k] == bags[k]; }
        }
      }
    }
  }

  lemma EmptyParts<T>(a: multiset<T>, b: multiset<T>)
    ensures a + b == multiset{} <==> a == multiset{} && b == multiset{}
  {
    assert |a + b| == |a| + |b|;
  }

  /** Two kinds of results that together count something, summed up. */
  lemma {:induction false} SizesAddUp<T, U>(a: seq<multiset<T>>, b: seq<multiset<U>>, ns: seq<nat>)
    requires |a| == |b| == |ns|
    requires forall k :: 0 <= k < |ns| ==> |a[k]| + |b[k]| == ns[k]
    ensures |Sum(a)| + |Sum(b)| == Total(ns)
  {
    if ns != [] {
      var n := |ns| - 1;
      SizesAddUp(a[..n], b[..n], ns[..n]);
    }
  }
}
