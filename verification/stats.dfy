/**
 * The column statistics pandas computes for the feature engine and the
 * scorer: sums, means, extremes, distinct counts, the median and the
 * linearly interpolated quantile (numpy's default "linear" method).
 */
module Stats {
  import opened Sorting

  function Id(x: real): real { x }

  function Sum(s: seq<real>): real
  {
    if |s| == 0 then 0.0 else Sum(s[..|s| - 1]) + s[|s| - 1]
  }

  /** `k` copies of `x` added up. */
  function Times(x: real, k: nat): real
  {
    if k == 0 then 0.0 else Times(x, k - 1) + x
  }

  lemma {:induction false} TimesIsProduct(x: real, k: nat)
    ensures Times(x, k) == x * k as real
  {
    if k > 0 {
      TimesIsProduct(x, k - 1);
    }
  }

  /** Each term bounded by [lo, hi] bounds the sum by |s| copies of each. */
  lemma {:induction false} SumBounds(s: seq<real>, lo: real, hi: real)
    requires forall i :: 0 <= i < |s| ==> lo <= s[i] <= hi
    ensures Times(lo, |s|) <= Sum(s) <= Times(hi, |s|)
    decreases |s|
  {
    if |s| > 0 {
      SumBounds(s[..|s| - 1], lo, hi);
    }
  }

  /** The smallest element. */
  function Min(s: seq<real>): (m: real)
    requires |s| > 0
    ensures m in s
    ensures forall i :: 0 <= i < |s| ==> m <= s[i]
  {
    if |s| == 1 then s[0]
    else
      var m := Min(s[1..]);
      assert forall i :: 1 <= i < |s| ==> s[i] == s[1..][i - 1];
      if s[0] <= m then s[0] else m
  }

  /** The largest element. */
  function Max(s: seq<real>): (m: real)
    requires |s| > 0
    ensures m in s
    ensures forall i :: 0 <= i < |s| ==> s[i] <= m
  {
    if |s| == 1 then s[0]
    else
      var m := Max(s[1..]);
      assert forall i :: 1 <= i < |s| ==> s[i] == s[1..][i - 1];
      if m <= s[0] then s[0] else m
  }

  /** The arithmetic mean (pandas `mean`); it lies between the extremes. */
  function Mean(s: seq<real>): (m: real)
    requires |s| > 0
    ensures Min(s) <= m <= Max(s)
    ensures Times(m, |s|) == Sum(s)
  {
    MeanBetween(s);
    QuotientCopies(Sum(s), |s|, Sum(s) / |s| as real);
    Sum(s) / |s| as real
  }

  /** `k` copies of the quotient `x / k` add up to `x`. */
  lemma QuotientCopies(x: real, k: nat, q: real)
    requires k > 0 && q == x / k as real
    ensures Times(q, k) == x
  {
    TimesIsProduct(q, k);
    assert q * k as real == x;
  }

  lemma MeanBetween(s: seq<real>)
    requires |s| > 0
    ensures Min(s) <= Sum(s) / |s| as real <= Max(s)
  {
    SumBounds(s, Min(s), Max(s));
    DivideCopies(Sum(s), |s|, Min(s), Max(s));
  }

  /** A total between `k` copies of `lo` and `k` copies of `hi`, shared `k` ways, lies in [lo, hi]. */
  lemma DivideCopies(total: real, k: nat, lo: real, hi: real)
    requires k > 0
    requires Times(lo, k) <= total <= Times(hi, k)
    ensures lo <= total / k as real <= hi
  {
    TimesIsProduct(lo, k);
    TimesIsProduct(hi, k);
    DivideBounds(total, k as real, lo, hi);
  }

  lemma DivideBounds(total: real, n: real, lo: real, hi: real)
    requires n > 0.0
    requires lo * n <= total <= hi * n
    ensures lo <= total / n <= hi
  {
    assert total / n * n == total;
  }

  /** A fraction of a non-negative quantity is at most the quantity. */
  lemma FractionBound(a: real, b: real)
    requires 0.0 <= a <= 1.0 && 0.0 <= b
    ensures 0.0 <= a * b <= b
  {
    assert b - a * b == (1.0 - a) * b;
  }

  /** The number of different elements (pandas `nunique`). */
  function DistinctCount<T(==)>(s: seq<T>): (r: nat)
    ensures r <= |s|
    ensures |s| > 0 ==> r >= 1
  {
    var distinct := set x | x in s;
    DistinctBound(s);
    assert |s| > 0 ==> s[0] in distinct && |distinct| >= |{s[0]}|;
    |distinct|
  }

  /** The number of different elements is the size of any set holding exactly the elements. */
  lemma DistinctCountOfImage<T>(s: seq<T>, img: set<T>)
    requires forall x :: x in img <==> x in s
    ensures DistinctCount(s) == |img|
  {
    assert img == set x | x in s;
  }

  lemma {:induction false} DistinctBound<T>(s: seq<T>)
    ensures |set x | x in s| <= |s|
  {
    if |s| > 0 {
      DistinctBound(s[1..]);
      assert (set x | x in s) == (set x | x in s[1..]) + {s[0]};
    }
  }

  /** The values in ascending order. */
  function SortReals(s: seq<real>): (r: seq<real>)
    ensures SortedBy(r, Id)
    ensures multiset(r) == multiset(s)
    ensures |r| == |s|
  {
    SortBy(s, Id)
  }

  /** The median of sorted values: the middle one, or the mean of the two middle ones. */
  function Median(s: seq<real>): (m: real)
    requires |s| > 0 && SortedBy(s, Id)
    ensures s[(|s| - 1) / 2] <= m <= s[|s| / 2]
    ensures |s| % 2 == 1 ==> m == s[|s| / 2]
    ensures |s| % 2 == 0 ==> m + m == s[|s| / 2 - 1] + s[|s| / 2]
    ensures s[0] <= m <= s[|s| - 1]
  {
    var n := |s|;
    assert Id(s[0]) <= Id(s[(n - 1) / 2]) <= Id(s[n / 2]) <= Id(s[n - 1]);
    if n % 2 == 1 then s[n / 2] else (s[n / 2 - 1] + s[n / 2]) / 2.0
  }

  /** The index of the lower neighbour of fractional position q * (n - 1). */
  function LowerIndex(q: real, n: nat): (lo: nat)
    requires n > 0 && 0.0 <= q <= 1.0
    ensures lo < n
    ensures lo as real <= q * (n - 1) as real < lo as real + 1.0
  {
    FractionBound(q, (n - 1) as real);
    (q * (n - 1) as real).Floor
  }

  /**
   * The `q`-quantile of sorted values with linear interpolation: the value at
   * fractional position q * (n - 1), interpolated between its two neighbours.
   */
  function Interpolate(s: seq<real>, q: real): (r: real)
    requires |s| > 0 && SortedBy(s, Id)
    requires 0.0 <= q <= 1.0
    ensures var lo := LowerIndex(q, |s|);
            s[lo] <= r && (lo + 1 < |s| ==> r <= s[lo + 1]) && (lo + 1 == |s| ==> r == s[lo])
    ensures var lo := LowerIndex(q, |s|);
            var f := q * (|s| - 1) as real - lo as real;
            lo + 1 < |s| ==> r == (1.0 - f) * s[lo] + f * s[lo + 1]
    ensures s[0] <= r <= s[|s| - 1]
  {
    var n := |s|;
    var lo := LowerIndex(q, n);
    var frac := q * (n - 1) as real - lo as real;
    assert Id(s[0]) <= Id(s[lo]) <= Id(s[n - 1]);
    if lo + 1 < n then
      assert Id(s[lo]) <= Id(s[lo + 1]) <= Id(s[n - 1]);
      Lerp(s[lo], s[lo + 1], frac)
    else s[lo]
  }

  /** The point a fraction `t` of the way from `a` to `b`. */
  function Lerp(a: real, b: real, t: real): (r: real)
    requires a <= b && 0.0 <= t <= 1.0
    ensures a <= r <= b
    ensures r == (1.0 - t) * a + t * b
  {
    var d := b - a;
    FractionBound(t, d);
    a + t * d
  }

  /** pandas `Series.quantile(q)`: a value between the smallest and the largest. */
  function Quantile(values: seq<real>, q: real): (r: real)
    requires |values| > 0
    requires 0.0 <= q <= 1.0
    ensures Min(values) <= r <= Max(values)
  {
    var s := SortReals(values);
    assert s[0] in multiset(values) && s[|s| - 1] in multiset(values);
    Interpolate(s, q)
  }

  /** Rank `k` of `n` values sits at quantile k/(n-1), a fraction in [0, 1]. */
  lemma RankPosition(k: nat, n: nat)
    requires n > 1 && k < n
    ensures 0.0 <= k as real / (n - 1) as real <= 1.0
    ensures k as real / (n - 1) as real * (n - 1) as real == k as real
  {
    DivideBounds(k as real, (n - 1) as real, 0.0, 1.0);
  }

  /** Interpolating at a position that is a whole rank gives the value at that rank. */
  lemma InterpolateAtRank(s: seq<real>, q: real, k: nat)
    requires |s| > 0 && SortedBy(s, Id) && 0.0 <= q <= 1.0
    requires k < |s| && q * (|s| - 1) as real == k as real
    ensures Interpolate(s, q) == s[k]
  {
    assert LowerIndex(q, |s|) == k;
  }

  /**
   * At a position that falls exactly on a rank, no interpolation happens:
   * the k/(n-1) quantile of n values is the k-th smallest of them.
   */
  lemma QuantileAtRank(xs: seq<real>, k: nat)
    requires |xs| > 1 && k < |xs|
    ensures 0.0 <= k as real / (|xs| - 1) as real <= 1.0
    ensures Quantile(xs, k as real / (|xs| - 1) as real) == SortReals(xs)[k]
  {
    RankPosition(k, |xs|);
    InterpolateAtRank(SortReals(xs), k as real / (|xs| - 1) as real, k);
  }
}
