/** Interpolated percentiles over exact reals. */
module Percentiles {
  import opened RealSort

  function Ceil(x: real): int {
    if x == x.Floor as real then x.Floor else x.Floor + 1
  }

  // ----- the two implementations -----

  /** A rank that is a fraction of the last index stays inside the list. */
  lemma RankInside(n: nat, p: real)
    requires n >= 1 && 0.0 <= p <= 1.0
    ensures 0.0 <= Rank(n, p) <= (n - 1) as real
    ensures 0 <= Rank(n, p).Floor <= Ceil(Rank(n, p)) <= n - 1
  {
    Within((n - 1) as real, p);
    var r := Rank(n, p);
    assert 0.0 <= r <= (n - 1) as real;
    WholeInside(r, n - 1);
  }

  lemma Within(m: real, p: real)
    requires m >= 0.0 && 0.0 <= p <= 1.0
    ensures 0.0 <= m * p <= m
  {
    NonNegative(m, p);
    NonNegative(m, 1.0 - p);
    assert m * (1.0 - p) == m - m * p;
  }

  lemma NonNegative(a: real, b: real)
    requires a >= 0.0 && b >= 0.0
    ensures a * b >= 0.0
  {
  }

  lemma WholeInside(x: real, m: nat)
    requires 0.0 <= x <= m as real
    ensures 0 <= x.Floor <= Ceil(x) <= m
  {
  }

  function Rank(n: nat, p: real): real
    requires n >= 1
  {
    (n - 1) as real * p
  }

  lemma Scale(a: real, x: real, y: real)
    requires a >= 0.0 && x <= y
    ensures a * x <= a * y
  {
    NonNegative(a, y - x);
    assert a * (y - x) == a * y - a * x;
  }

  function Weighted(a: real, b: real, frac: real): real {
    a * (1.0 - frac) + b * frac
  }

  function Offset(a: real, b: real, frac: real): real {
    a + (b - a) * frac
  }

  lemma SameBlend(a: real, b: real, frac: real)
    ensures Weighted(a, b, frac) == Offset(a, b, frac)
  {
    assert a * (1.0 - frac) == a - a * frac && (b - a) * frac == b * frac - a * frac;
  }

  lemma OffsetInside(a: real, b: real, x: real, y: real)
    requires a <= b && 0.0 <= x <= y <= 1.0
    ensures a <= Offset(a, b, x) <= Offset(a, b, y) <= b
    ensures Offset(a, b, 0.0) == a
  {
    Scale(b - a, 0.0, x);
    Scale(b - a, x, y);
    Scale(b - a, y, 1.0);
  }

  /** Interpolation as the load generator writes it. */
  function Blend(s: seq<real>, rank: real): real
    requires 0 <= rank.Floor <= Ceil(rank) < |s|
  {
    var lo, hi := rank.Floor, Ceil(rank);
    if lo == hi then s[lo] else Weighted(s[lo], s[hi], rank - lo as real)
  }

  /** Interpolation as the simulation writes it. */
  function Between(s: seq<real>, k: real): real
    requires 0 <= k.Floor <= Ceil(k) < |s|
  {
    var f, c := k.Floor, Ceil(k);
    if f == c then s[f] else Offset(s[f], s[c], k - f as real)
  }

  /** The load generator's percentile: `p` is a fraction. */
  function Percentile(samples: seq<real>, p: real): real {
    if samples == [] then 0.0
    else if p <= 0.0 then Smallest(samples)
    else if p >= 1.0 then Largest(samples)
    else
      RankInside(|samples|, p);
      Blend(Sorted(samples), Rank(|samples|, p))
  }

  /** The workflow simulation's percentile: `p` is a percentage. */
  function PercentileOf100(values: seq<real>, p: real): real
    requires 0.0 <= p <= 100.0
  {
    if values == [] then 0.0
    else
      RankInside(|values|, p / 100.0);
      Between(Sorted(values), Rank(|values|, p / 100.0))
  }

  /** The two implementations agree, one on fractions and one on percentages. */
  lemma SamePercentile(xs: seq<real>, p: real)
    requires 0.0 <= p <= 1.0
    ensures PercentileOf100(xs, 100.0 * p) == Percentile(xs, p)
  {
    assert 100.0 * p / 100.0 == p;
    if xs != [] {
      PercentileIsInterp(xs, p);
      InterpEnds(xs, p);
    }
  }

  // ----- one interpolation behind both -----

  /** Linear interpolation in a list. */
  function Interp(s: seq<real>, rank: real): real
    requires s != [] && 0.0 <= rank <= (|s| - 1) as real
  {
    var f := rank.Floor;
    if f == |s| - 1 then s[f] else Offset(s[f], s[f + 1], rank - f as real)
  }

  lemma PercentileIsInterp(samples: seq<real>, p: real)
    requires samples != [] && 0.0 <= p <= 1.0
    ensures 0.0 <= Rank(|samples|, p) <= (|samples| - 1) as real
    ensures Percentile(samples, p) == Interp(Sorted(samples), Rank(|samples|, p))
  {
    RankInside(|samples|, p);
    if p == 0.0 {
      AtSmallest(samples);
    } else if p == 1.0 {
      AtLargest(samples);
    } else {
      BlendIsInterp(Sorted(samples), Rank(|samples|, p));
    }
  }

  lemma AtSmallest(samples: seq<real>)
    requires samples != []
    ensures 0.0 == Rank(|samples|, 0.0) && Smallest(samples) == Interp(Sorted(samples), 0.0)
  {
    SortedEnds(samples);
    AtWhole(Sorted(samples), 0.0, 0);
  }

  lemma AtLargest(samples: seq<real>)
    requires samples != []
    ensures (|samples| - 1) as real == Rank(|samples|, 1.0)
    ensures Largest(samples) == Interp(Sorted(samples), (|samples| - 1) as real)
  {
    SortedEnds(samples);
    AtWhole(Sorted(samples), (|samples| - 1) as real, |samples| - 1);
  }

  lemma BlendIsInterp(s: seq<real>, rank: real)
    requires s != [] && 0.0 <= rank <= (|s| - 1) as real && 0 <= rank.Floor <= Ceil(rank) < |s|
    ensures Blend(s, rank) == Between(s, rank) == Interp(s, rank)
  {
    if rank.Floor == Ceil(rank) {
      AtWhole(s, rank, rank.Floor);
    } else {
      SameBlend(s[rank.Floor], s[rank.Floor + 1], rank - rank.Floor as real);
    }
  }

  lemma AtWhole(s: seq<real>, rank: real, i: nat)
    requires i < |s| && rank == i as real
    ensures rank.Floor == i && Interp(s, rank) == s[i]
  {
    if i < |s| - 1 { assert Offset(s[i], s[i + 1], 0.0) == s[i]; }
  }

  lemma InterpEnds(xs: seq<real>, p: real)
    requires xs != [] && 0.0 <= p <= 1.0
    ensures 0.0 <= Rank(|xs|, p) <= (|xs| - 1) as real
    ensures PercentileOf100(xs, 100.0 * p) == Interp(Sorted(xs), Rank(|xs|, p))
  {
    assert 100.0 * p / 100.0 == p;
    RankInside(|xs|, p);
    BlendIsInterp(Sorted(xs), Rank(|xs|, p));
  }

  /** Where each percentile lies: the sorted samples are spread evenly over [0, 1], sample `k` of `n` at k / (n - 1),
      and between two of them the percentile moves evenly from one to the other. */
  lemma PercentileInterpolates(xs: seq<real>, k: nat, f: real)
    requires k + 1 < |xs| && 0.0 <= f <= 1.0
    ensures var s := Sorted(xs);
            Percentile(xs, (k as real + f) / (|xs| - 1) as real) == s[k] + (s[k + 1] - s[k]) * f
  {
    var x := k as real + f;
    var p := x / (|xs| - 1) as real;
    RankIs(|xs|, x);
    PercentileIsInterp(xs, p);
    InterpBetween(Sorted(xs), k, f, x);
  }

  lemma InterpBetween(s: seq<real>, k: nat, f: real, rank: real)
    requires k + 1 < |s| && 0.0 <= f <= 1.0 && rank == k as real + f
    ensures Interp(s, rank) == s[k] + (s[k + 1] - s[k]) * f
  {
    if f < 1.0 {
      assert rank.Floor == k;
    } else {
      AtWhole(s, rank, k + 1);
    }
  }

  lemma RankIs(n: nat, x: real)
    requires n > 1 && 0.0 <= x <= (n - 1) as real
    ensures 0.0 <= x / (n - 1) as real <= 1.0 && Rank(n, x / (n - 1) as real) == x
  {
    RankBack(x, (n - 1) as real);
  }

  lemma RankBack(x: real, m: real)
    requires 0.0 <= x <= m && m > 0.0
    ensures m * (x / m) == x && 0.0 <= x / m <= 1.0
  {
  }

  // ----- order -----

  /** Interpolation stays within its cell. */
  lemma InterpInCell(s: seq<real>, rank: real)
    requires s != [] && Ascending(s) && 0.0 <= rank <= (|s| - 1) as real
    ensures 0 <= rank.Floor < |s| && s[rank.Floor] <= Interp(s, rank)
    ensures rank.Floor + 1 < |s| ==> Interp(s, rank) <= s[rank.Floor + 1]
  {
    var f := rank.Floor;
    if f < |s| - 1 {
      AscendingAt(s, f, f + 1);
      OffsetInside(s[f], s[f + 1], rank - f as real, rank - f as real);
    }
  }

  lemma InterpMonotone(s: seq<real>, a: real, b: real)
    requires s != [] && Ascending(s) && 0.0 <= a <= b <= (|s| - 1) as real
    ensures Interp(s, a) <= Interp(s, b)
  {
    if a.Floor < b.Floor {
      InterpInCell(s, a);
      InterpInCell(s, b);
      AscendingAt(s, a.Floor + 1, b.Floor);
    } else {
      InterpInOneCell(s, a, b);
    }
  }

  lemma InterpInOneCell(s: seq<real>, a: real, b: real)
    requires s != [] && Ascending(s) && 0.0 <= a <= b <= (|s| - 1) as real && a.Floor == b.Floor
    ensures Interp(s, a) <= Interp(s, b)
  {
    var f := a.Floor;
    if f < |s| - 1 {
      AscendingAt(s, f, f + 1);
      OffsetInside(s[f], s[f + 1], a - f as real, b - f as real);
    }
  }

  function Clamp(p: real): real {
    if p <= 0.0 then 0.0 else if p >= 1.0 then 1.0 else p
  }

  lemma PercentileClamps(xs: seq<real>, p: real)
    ensures Percentile(xs, p) == Percentile(xs, Clamp(p))
  {
  }

  /** Monotone in `p`. */
  lemma PercentileMonotone(xs: seq<real>, p: real, q: real)
    requires p <= q
    ensures Percentile(xs, p) <= Percentile(xs, q)
  {
    if xs != [] {
      PercentileClamps(xs, p);
      PercentileClamps(xs, q);
      PercentileIsInterp(xs, Clamp(p));
      PercentileIsInterp(xs, Clamp(q));
      SortedAscends(xs);
      RankMonotone(|xs|, Clamp(p), Clamp(q));
      InterpMonotone(Sorted(xs), Rank(|xs|, Clamp(p)), Rank(|xs|, Clamp(q)));
    }
  }

  lemma RankMonotone(n: nat, p: real, q: real)
    requires n >= 1 && p <= q
    ensures Rank(n, p) <= Rank(n, q)
  {
    Scale((n - 1) as real, p, q);
  }

  /** Between the smallest and the largest sample, and p50 <= p95 <= p99 <= max in every result. */
  lemma PercentileBounds(xs: seq<real>, p: real)
    requires xs != []
    ensures Smallest(xs) <= Percentile(xs, p) <= Largest(xs)
    ensures Percentile(xs, 0.5) <= Percentile(xs, 0.95) <= Percentile(xs, 0.99) <= Largest(xs)
  {
    PercentileClamps(xs, p);
    PercentileMonotone(xs, 0.0, Clamp(p));
    PercentileMonotone(xs, Clamp(p), 1.0);
    PercentileMonotone(xs, 0.5, 0.95);
    PercentileMonotone(xs, 0.95, 0.99);
    PercentileMonotone(xs, 0.99, 1.0);
  }

  /** The order of the samples does not matter. */
  lemma PercentilePermutes(xs: seq<real>, ys: seq<real>, p: real)
    requires multiset(xs) == multiset(ys)
    ensures Percentile(xs, p) == Percentile(ys, p)
  {
    SortedPermutes(xs, ys);
    SortedPercentile(xs, ys, p);
  }

  lemma SortedPercentile(xs: seq<real>, ys: seq<real>, p: real)
    requires |xs| == |ys| && Sorted(xs) == Sorted(ys)
    ensures Percentile(xs, p) == Percentile(ys, p)
  {
    if xs != [] {
      SortedEnds(xs);
      SortedEnds(ys);
    }
  }
}
