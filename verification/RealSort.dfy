/** Sorting lists of reals, with just enough about the result to reason about percentiles. */
module RealSort {
  import S = Sorting

  predicate AtMost(a: real, b: real) { a <= b }

  lemma RealsOrdered()
    ensures S.TotalOrder(AtMost)
  {
  }

  function Sorted(xs: seq<real>): (r: seq<real>)
    ensures |r| == |xs|
  {
    S.Sorted(AtMost, xs)
  }

  ghost predicate Ascending(s: seq<real>) {
    S.Ascending(AtMost, s)
  }

  lemma SortedAscends(xs: seq<real>)
    ensures Ascending(Sorted(xs)) && multiset(Sorted(xs)) == multiset(xs)
  {
    RealsOrdered();
    S.SortedAscends(AtMost, xs);
    S.SortedKeeps(AtMost, xs);
  }

  lemma AscendingAt(s: seq<real>, i: nat, j: nat)
    requires Ascending(s) && i <= j < |s|
    ensures s[i] <= s[j]
  {
    RealsOrdered();
    S.AscendingAt(AtMost, s, i, j);
    assert AtMost(s[i], s[j]);
  }

  /** Lists with the same elements sort alike. */
  lemma SortedPermutes(xs: seq<real>, ys: seq<real>)
    requires multiset(xs) == multiset(ys)
    ensures |xs| == |ys| && Sorted(xs) == Sorted(ys)
  {
    RealsOrdered();
    S.SameLength(xs, ys);
    S.SortedPermutes(AtMost, xs, ys);
  }

  // ----- the ends -----

  function Smallest(xs: seq<real>): (r: real)
    requires xs != []
    ensures r in xs && forall x :: x in xs ==> r <= x
  {
    assert xs == [xs[0]] + xs[1..];
    if |xs| == 1 then xs[0] else if xs[0] <= Smallest(xs[1..]) then xs[0] else Smallest(xs[1..])
  }

  function Largest(xs: seq<real>): (r: real)
    requires xs != []
    ensures r in xs && forall x :: x in xs ==> x <= r
  {
    assert xs == [xs[0]] + xs[1..];
    if |xs| == 1 then xs[0] else if xs[0] >= Largest(xs[1..]) then xs[0] else Largest(xs[1..])
  }

  lemma SortedEnds(xs: seq<real>)
    requires xs != []
    ensures Sorted(xs)[0] == Smallest(xs) && Sorted(xs)[|xs| - 1] == Largest(xs)
  {
    RealsOrdered();
    S.SortedEnds(AtMost, xs);
    assert AtMost(Sorted(xs)[0], Smallest(xs)) && AtMost(Largest(xs), Sorted(xs)[|xs| - 1]);
  }
}
