/** Sorting lists by any total order: the result is ascending, keeps the elements, and depends on them alone. */
module Sorting {

  ghost predicate TotalOrder<T(!new)>(le: (T, T) -> bool) {
    && (forall a, b :: le(a, b) || le(b, a))
    && (forall a, b :: le(a, b) && le(b, a) ==> a == b)
    && (forall a, b, c :: le(a, b) && le(b, c) ==> le(a, c))
  }

  function Insert<T>(le: (T, T) -> bool, x: T, s: seq<T>): (r: seq<T>)
    ensures |r| == |s| + 1
  {
    if s == [] then [x] else if le(x, s[0]) then [x] + s else [s[0]] + Insert(le, x, s[1..])
  }

  function Sorted<T>(le: (T, T) -> bool, xs: seq<T>): (r: seq<T>)
    ensures |r| == |xs|
  {
    if xs == [] then [] else Insert(le, xs[0], Sorted(le, xs[1..]))
  }

  /** Every element is at most the next one. */
  ghost predicate Ascending<T>(le: (T, T) -> bool, s: seq<T>) {
    s == [] || (Ascending(le, s[1..]) && (|s| > 1 ==> le(s[0], s[1])))
  }

  lemma {:induction false} InsertAscends<T(!new)>(le: (T, T) -> bool, x: T, s: seq<T>)
    requires TotalOrder(le) && Ascending(le, s)
    ensures Ascending(le, Insert(le, x, s))
  {
    if s != [] {
      if le(x, s[0]) {
        assert ([x] + s)[1..] == s;
      } else {
        InsertAscends(le, x, s[1..]);
        var r := Insert(le, x, s[1..]);
        assert ([s[0]] + r)[1..] == r && le(s[0], r[0]);
      }
    }
  }

  lemma {:induction false} SortedAscends<T(!new)>(le: (T, T) -> bool, xs: seq<T>)
    requires TotalOrder(le)
    ensures Ascending(le, Sorted(le, xs))
  {
    if xs != [] {
      SortedAscends(le, xs[1..]);
      InsertAscends(le, xs[0], Sorted(le, xs[1..]));
    }
  }

  lemma {:induction false} AscendingAt<T(!new)>(le: (T, T) -> bool, s: seq<T>, i: nat, j: nat)
    requires TotalOrder(le) && Ascending(le, s) && i <= j < |s|
    ensures le(s[i], s[j])
  {
    if i > 0 {
      AscendingAt(le, s[1..], i - 1, j - 1);
    } else if j > 0 {
      AscendingAt(le, s[1..], 0, j - 1);
    }
  }

  lemma {:induction false} InsertKeeps<T>(le: (T, T) -> bool, x: T, s: seq<T>)
    ensures multiset(Insert(le, x, s)) == multiset(s) + multiset{x}
  {
    if s != [] && !le(x, s[0]) {
      InsertKeeps(le, x, s[1..]);
      assert s == [s[0]] + s[1..];
    }
  }

  /** Sorting keeps the elements... */
  lemma {:induction false} SortedKeeps<T>(le: (T, T) -> bool, xs: seq<T>)
    ensures multiset(Sorted(le, xs)) == multiset(xs)
  {
    if xs != [] {
      SortedKeeps(le, xs[1..]);
      InsertKeeps(le, xs[0], Sorted(le, xs[1..]));
      assert xs == [xs[0]] + xs[1..];
    }
  }

  /** Two insertions commute, so the sorted list depends on the elements alone. */
  lemma {:induction false} InsertCommutes<T(!new)>(le: (T, T) -> bool, x: T, y: T, s: seq<T>)
    requires TotalOrder(le)
    ensures Insert(le, x, Insert(le, y, s)) == Insert(le, y, Insert(le, x, s))
  {
    if s != [] && !le(x, s[0]) && !le(y, s[0]) {
      InsertCommutes(le, x, y, s[1..]);
      assert Insert(le, x, s)[1..] == Insert(le, x, s[1..]) && Insert(le, y, s)[1..] == Insert(le, y, s[1..]);
    } else if s != [] {
      assert ([x] + s)[1..] == s && ([y] + s)[1..] == s;
      assert !le(x, s[0]) ==> Insert(le, x, s)[1..] == Insert(le, x, s[1..]);
      assert !le(y, s[0]) ==> Insert(le, y, s)[1..] == Insert(le, y, s[1..]);
    }
  }

  /** Moving an element to the front does not change the sorted list. */
  lemma {:induction false} SortedMoves<T(!new)>(le: (T, T) -> bool, a: seq<T>, x: T, b: seq<T>)
    requires TotalOrder(le)
    ensures Sorted(le, a + [x] + b) == Insert(le, x, Sorted(le, a + b))
    decreases |a|
  {
    if a == [] {
      assert a + [x] + b == [x] + b && a + b == b && ([x] + b)[1..] == b;
    } else {
      SortedMoves(le, a[1..], x, b);
      assert (a + [x] + b)[1..] == a[1..] + [x] + b && (a + b)[1..] == a[1..] + b;
      InsertCommutes(le, a[0], x, Sorted(le, a[1..] + b));
    }
  }

  /** ... and lists with the same elements sort alike. */
  lemma {:induction false} SortedPermutes<T(!new)>(le: (T, T) -> bool, xs: seq<T>, ys: seq<T>)
    requires TotalOrder(le) && multiset(xs) == multiset(ys)
    ensures Sorted(le, xs) == Sorted(le, ys)
    decreases |xs|
  {
    if xs == [] {
      SameLength(xs, ys);
    } else {
      var k := Position(xs, ys);
      SortedMoves(le, ys[..k], xs[0], ys[k + 1..]);
      assert ys == ys[..k] + [xs[0]] + ys[k + 1..];
      SortedPermutes(le, xs[1..], ys[..k] + ys[k + 1..]);
    }
  }

  lemma SameLength<T>(xs: seq<T>, ys: seq<T>)
    requires multiset(xs) == multiset(ys)
    ensures |xs| == |ys|
  {
    assert |multiset(xs)| == |xs| && |multiset(ys)| == |ys|;
  }

  lemma Position<T>(xs: seq<T>, ys: seq<T>) returns (k: nat)
    requires xs != [] && multiset(xs) == multiset(ys)
    ensures k < |ys| && ys[k] == xs[0] && multiset(xs[1..]) == multiset(ys[..k] + ys[k + 1..])
  {
    k := Occurs(xs[0], xs, ys);
    var a, b := ys[..k], ys[k + 1..];
    WithoutOne(a, xs[0], b);
    WithoutFirst(xs);
    assert ys == a + [xs[0]] + b;
  }

  lemma Occurs<T>(x: T, xs: seq<T>, ys: seq<T>) returns (k: nat)
    requires x in xs && multiset(xs) == multiset(ys)
    ensures k < |ys| && ys[k] == x
  {
    assert x in multiset(ys);
    k :| 0 <= k < |ys| && ys[k] == x;
  }

  lemma WithoutFirst<T>(xs: seq<T>)
    requires xs != []
    ensures multiset(xs) - multiset{xs[0]} == multiset(xs[1..])
  {
    assert xs == [xs[0]] + xs[1..];
  }

  lemma WithoutOne<T>(a: seq<T>, x: T, b: seq<T>)
    ensures multiset(a + [x] + b) - multiset{x} == multiset(a + b)
  {
    assert multiset(a + [x] + b) == multiset(a) + multiset{x} + multiset(b);
    assert multiset(a + b) == multiset(a) + multiset(b);
  }

  /** The first of a sorted list is at most every element, and the last at least. */
  lemma SortedEnds<T(!new)>(le: (T, T) -> bool, xs: seq<T>)
    requires TotalOrder(le) && xs != []
    ensures Sorted(le, xs)[0] in xs && Sorted(le, xs)[|xs| - 1] in xs
    ensures forall x :: x in xs ==> le(Sorted(le, xs)[0], x) && le(x, Sorted(le, xs)[|xs| - 1])
  {
    var s := Sorted(le, xs);
    SortedAscends(le, xs);
    SortedKeeps(le, xs);
    assert s[0] in multiset(xs) && s[|xs| - 1] in multiset(xs);
    forall x | x in xs ensures le(s[0], x) && le(x, s[|xs| - 1]) {
      var k := Occurs(x, xs, s);
      AscendingAt(le, s, 0, k);
      AscendingAt(le, s, k, |s| - 1);
    }
  }
}
