/** calculate_percentile and the order statistics of compute_statistics, over exact numbers. */
module Percentile {
  import opened Prelude
  import opened Rounding

  ghost predicate IsSorted(s: seq<real>) {
    forall i, j | 0 <= i < j < |s| :: s[i] <= s[j]
  }

  function Insert(s: seq<real>, x: real): (r: seq<real>)
    ensures multiset(r) == multiset(s) + multiset{x}
  {
    if s == [] then [x]
    else if s[|s| - 1] <= x then s + [x]
    else
      assert s == s[..|s| - 1] + [s[|s| - 1]];
      Insert(s[..|s| - 1], x) + [s[|s| - 1]]
  }

  lemma {:induction false} InsertKeepsSorted(s: seq<real>, x: real)
    requires IsSorted(s)
    ensures IsSorted(Insert(s, x))
  {
    if s != [] && x < s[|s| - 1] {
      var rest, last := Insert(s[..|s| - 1], x), s[|s| - 1];
      InsertKeepsSorted(s[..|s| - 1], x);
      InsertKeepsBound(s[..|s| - 1], x, last);
      AppendKeepsSorted(rest, last);
    } else {
      AppendKeepsSorted(s, x);
    }
  }

  lemma InsertKeepsBound(s: seq<real>, x: real, bound: real)
    requires x <= bound && forall i | 0 <= i < |s| :: s[i] <= bound
    ensures forall i | 0 <= i < |Insert(s, x)| :: Insert(s, x)[i] <= bound
  {
    var r := Insert(s, x);
    forall i | 0 <= i < |r|
      ensures r[i] <= bound
    {
      assert r[i] in multiset(r);
    }
  }

  lemma AppendKeepsSorted(s: seq<real>, x: real)
    requires IsSorted(s) && (s != [] ==> s[|s| - 1] <= x)
    ensures IsSorted(s + [x])
  {
  }

  /** sorted(data) */
  function Sorted(data: seq<real>): (r: seq<real>)
    ensures IsSorted(r) && multiset(r) == multiset(data) && |r| == |data|
  {
    if data == [] then []
    else
      var rest := Sorted(data[..|data| - 1]);
      assert data == data[..|data| - 1] + [data[|data| - 1]];
      var r := Insert(rest, data[|data| - 1]);
      InsertKeepsSorted(rest, data[|data| - 1]);
      assert |multiset(r)| == |r|;
      r
  }

  function Ceil(k: real): int {
    if k == k.Floor as real then k.Floor else k.Floor + 1
  }

  /** Linear interpolation at position k of the sorted data. */
  function At(s: seq<real>, k: real): real
    requires 0.0 <= k && k <= (|s| - 1) as real
  {
    var f, c := k.Floor, Ceil(k);
    if f == c then s[f]
    else s[f] * (c as real - k) + s[c] * (k - f as real)
  }

  function Position(n: nat, percentile: real): real {
    (n - 1) as real * (percentile / 100.0)
  }

  lemma PositionInRange(n: nat, percentile: real)
    requires 1 <= n && 0.0 <= percentile <= 100.0
    ensures 0.0 <= Position(n, percentile) <= (n - 1) as real
  {
    var q := percentile / 100.0;
    assert 0.0 <= q <= 1.0;
    Product((n - 1) as real, q);
    Product((n - 1) as real, 1.0 - q);
  }

  lemma Product(x: real, y: real)
    requires 0.0 <= x && 0.0 <= y
    ensures 0.0 <= x * y
  {
  }

  function Interpolated(data: seq<real>, percentile: real): real
    requires data != [] && 0.0 <= percentile <= 100.0
  {
    PositionInRange(|data|, percentile);
    At(Sorted(data), Position(|data|, percentile))
  }

  function CalculatePercentile(data: seq<real>, percentile: real): real
    requires 0.0 <= percentile <= 100.0
  {
    if data == [] then 0.0
    else if |data| == 1 then Round2(Sorted(data)[0])
    else Round2(Interpolated(data, percentile))
  }

  // ---------------------------------------------------------------------------------- the laws

  lemma {:induction false} SortedIsUnique(s: seq<real>, t: seq<real>)
    requires IsSorted(s) && IsSorted(t) && multiset(s) == multiset(t)
    ensures s == t
    decreases |s|
  {
    assert |s| == |multiset(s)| == |multiset(t)| == |t|;
    if s != [] {
      LastIsGreatest(s, t);
      LastIsGreatest(t, s);
      WithoutLast(s);
      WithoutLast(t);
      SortedIsUnique(s[..|s| - 1], t[..|t| - 1]);
    }
  }

  lemma LastIsGreatest(s: seq<real>, t: seq<real>)
    requires s != [] && t != [] && IsSorted(s) && multiset(s) == multiset(t)
    ensures t[|t| - 1] <= s[|s| - 1]
  {
    assert t[|t| - 1] in multiset(s);
  }

  lemma WithoutLast(s: seq<real>)
    requires s != []
    ensures s == s[..|s| - 1] + [s[|s| - 1]]
    ensures multiset(s[..|s| - 1]) == multiset(s) - multiset{s[|s| - 1]}
  {
    assert s == s[..|s| - 1] + [s[|s| - 1]];
  }

  /** The percentile does not depend on the order of the data. */
  lemma OrderDoesNotMatter(data: seq<real>, data': seq<real>, percentile: real)
    requires multiset(data) == multiset(data') && 0.0 <= percentile <= 100.0
    ensures CalculatePercentile(data, percentile) == CalculatePercentile(data', percentile)
    ensures data != [] ==> data' != [] && Interpolated(data, percentile) == Interpolated(data', percentile)
  {
    SortedIsUnique(Sorted(data), Sorted(data'));
  }

  /** Moving from lo towards hi by a growing share. */
  lemma Between(lo: real, hi: real, t: real)
    requires lo <= hi && 0.0 <= t <= 1.0
    ensures lo <= lo * (1.0 - t) + hi * t <= hi
  {
    Product(hi - lo, t);
    Product(hi - lo, 1.0 - t);
    assert lo * (1.0 - t) + hi * t == lo + (hi - lo) * t;
    assert lo * (1.0 - t) + hi * t == hi - (hi - lo) * (1.0 - t);
  }

  lemma FurtherAlong(lo: real, hi: real, t: real, u: real)
    requires lo <= hi && t <= u
    ensures lo * (1.0 - t) + hi * t <= lo * (1.0 - u) + hi * u
  {
    Product(hi - lo, u - t);
    assert lo * (1.0 - u) + hi * u - (lo * (1.0 - t) + hi * t) == (hi - lo) * (u - t);
  }

  /** Interpolation stays between the two neighbours of the position. */
  lemma AtIsBetween(s: seq<real>, k: real)
    requires IsSorted(s) && 0.0 <= k && k <= (|s| - 1) as real
    ensures s[k.Floor] <= At(s, k) <= s[Ceil(k)]
  {
    var f := k.Floor;
    if f as real != k {
      AtByShare(s, k);
      Between(s[f], s[f + 1], k - f as real);
    }
  }

  /** Off the data points, interpolation goes from one neighbour to the other by the share of the way. */
  lemma AtByShare(s: seq<real>, k: real)
    requires 0.0 <= k <= (|s| - 1) as real && k != k.Floor as real
    ensures
      var f, t := k.Floor, k - k.Floor as real;
      f + 1 < |s| && Ceil(k) == f + 1 && At(s, k) == s[f] * (1.0 - t) + s[f + 1] * t
  {
    assert (k.Floor + 1) as real - k == 1.0 - (k - k.Floor as real);
  }

  lemma AtIsMonotone(s: seq<real>, k: real, l: real)
    requires IsSorted(s) && 0.0 <= k <= l && l <= (|s| - 1) as real
    ensures At(s, k) <= At(s, l)
  {
    AtIsBetween(s, k);
    AtIsBetween(s, l);
    if k.Floor == l.Floor && k != k.Floor as real {
      var f := k.Floor;
      FurtherAlong(s[f], s[f + 1], k - f as real, l - f as real);
      AtByShare(s, k);
      AtByShare(s, l);
    }
  }

  lemma PositionIsMonotone(n: nat, p: real, q: real)
    requires 1 <= n && p <= q
    ensures Position(n, p) <= Position(n, q)
  {
    Product((n - 1) as real, (q - p) / 100.0);
    assert Position(n, q) - Position(n, p) == (n - 1) as real * ((q - p) / 100.0);
  }

  /** The percentile grows with p, also across the boundaries between data points, before and after
      rounding. */
  lemma PercentileIsMonotone(data: seq<real>, p: real, q: real)
    requires data != [] && 0.0 <= p <= q <= 100.0
    ensures Interpolated(data, p) <= Interpolated(data, q)
    ensures CalculatePercentile(data, p) <= CalculatePercentile(data, q)
  {
    PositionInRange(|data|, p);
    PositionInRange(|data|, q);
    PositionIsMonotone(|data|, p, q);
    AtIsMonotone(Sorted(data), Position(|data|, p), Position(|data|, q));
    RoundingIsMonotone(Interpolated(data, p), Interpolated(data, q));
  }

  ghost predicate IsMinimum(data: seq<real>, m: real) {
    m in data && forall x | x in data :: m <= x
  }

  ghost predicate IsMaximum(data: seq<real>, m: real) {
    m in data && forall x | x in data :: x <= m
  }

  lemma EndsOfSorted(data: seq<real>)
    requires data != []
    ensures IsMinimum(data, Sorted(data)[0])
    ensures IsMaximum(data, Sorted(data)[|data| - 1])
  {
    var s := Sorted(data);
    assert s[0] in multiset(data) && s[|s| - 1] in multiset(data);
    forall x | x in data
      ensures s[0] <= x <= s[|s| - 1]
    {
      assert x in multiset(s);
      var i :| 0 <= i < |s| && s[i] == x;
    }
  }

  /** The 0th percentile is the minimum and the 100th the maximum. */
  lemma PercentileEnds(data: seq<real>, least: real, greatest: real)
    requires data != [] && IsMinimum(data, least) && IsMaximum(data, greatest)
    ensures Interpolated(data, 0.0) == least && CalculatePercentile(data, 0.0) == Round2(least)
    ensures Interpolated(data, 100.0) == greatest && CalculatePercentile(data, 100.0) == Round2(greatest)
  {
    EndsOfSorted(data);
    assert Position(|data|, 0.0) == 0.0;
    assert Position(|data|, 100.0) == (|data| - 1) as real;
  }

  // ------------------------------------------------------------------- where a percentile lies

  lemma PercentageInRange(percentile: real, m: real, x: real)
    requires 0.0 < m && percentile * m == 100.0 * x && 0.0 <= x <= m
    ensures 0.0 <= percentile <= 100.0
  {
    if percentile < 0.0 { Scale(percentile, 0.0, m); }
    if 100.0 < percentile { Scale(100.0, percentile, m); }
  }

  lemma PositionOf(n: nat, percentile: real, x: real)
    requires percentile * (n - 1) as real == 100.0 * x
    ensures Position(n, percentile) == x
  {
    var m := (n - 1) as real;
    assert m * (percentile / 100.0) == percentile * m / 100.0;
  }

  lemma AtPoint(s: seq<real>, k: nat)
    requires k < |s|
    ensures At(s, k as real) == s[k]
  {
    assert (k as real).Floor == k;
  }

  /** The share t of the way from a to b. */
  function Mix(a: real, b: real, t: real): real {
    a * (1.0 - t) + b * t
  }

  lemma AtShare(s: seq<real>, k: nat, t: real, x: real)
    requires k + 1 < |s| && 0.0 <= t <= 1.0 && x == k as real + t
    ensures At(s, x) == Mix(s[k], s[k + 1], t)
  {
    if t == 0.0 {
      AtPoint(s, k);
    } else if t == 1.0 {
      assert x == (k + 1) as real;
      AtPoint(s, k + 1);
    } else {
      assert x.Floor == k && x - k as real == t;
      AtByShare(s, x);
    }
  }

  lemma InterpolatedAt(data: seq<real>, percentile: real, x: real)
    requires |data| > 1 && 0.0 <= x <= (|data| - 1) as real
    requires percentile * (|data| - 1) as real == 100.0 * x
    ensures 0.0 <= percentile <= 100.0 && Interpolated(data, percentile) == At(Sorted(data), x)
  {
    PercentageInRange(percentile, (|data| - 1) as real, x);
    PositionOf(|data|, percentile, x);
  }

  /** Linear interpolation: among n sorted values, the percentile that lies the share t of the way from
      value number k to the next one is that share of the way between the two. */
  lemma PercentileInterpolates(data: seq<real>, percentile: real, k: nat, t: real, x: real)
    requires k + 1 < |data| && 0.0 <= t <= 1.0 && x == k as real + t
    requires percentile * (|data| - 1) as real == 100.0 * x
    ensures 0.0 <= percentile <= 100.0
    ensures Interpolated(data, percentile) == Mix(Sorted(data)[k], Sorted(data)[k + 1], t)
  {
    InterpolatedAt(data, percentile, x);
    AtShare(Sorted(data), k, t, x);
  }

  /** The percentile itself is the interpolated value, rounded. */
  lemma PercentileIsRounded(data: seq<real>, percentile: real)
    requires data != [] && 0.0 <= percentile <= 100.0
    ensures CalculatePercentile(data, percentile) == Round2(Interpolated(data, percentile))
  {
    if |data| == 1 {
      assert Position(1, percentile) == 0.0;
      AtPoint(Sorted(data), 0);
    }
  }

  /** A single value is every percentile. */
  lemma PercentileOfOne(x: real, percentile: real)
    requires 0.0 <= percentile <= 100.0
    ensures CalculatePercentile([x], percentile) == Round2(x)
  {
    assert Sorted([x])[0] in multiset([x]);
  }

  /** The median of an odd number of values is the middle one. */
  lemma MedianOfOdd(data: seq<real>, k: nat)
    requires |data| == 2 * k + 1
    ensures Interpolated(data, 50.0) == Sorted(data)[k]
  {
    if k > 0 {
      InterpolatedAt(data, 50.0, k as real);
    }
    AtPoint(Sorted(data), k);
  }

  /** The median of an even number of values is half-way between the middle two. */
  lemma MedianOfEven(data: seq<real>, k: nat)
    requires |data| == 2 * k + 2
    ensures Interpolated(data, 50.0) == (Sorted(data)[k] + Sorted(data)[k + 1]) / 2.0
  {
    InterpolatedAt(data, 50.0, k as real + 0.5);
    AtHalf(Sorted(data), k);
  }

  lemma AtHalf(s: seq<real>, k: nat)
    requires k + 1 < |s|
    ensures At(s, k as real + 0.5) == (s[k] + s[k + 1]) / 2.0
  {
    AtShare(s, k, 0.5, k as real + 0.5);
  }

  // ------------------------------------------------------------------------- compute_statistics

  method MinMax(values: seq<real>) returns (least: real, greatest: real)
    requires values != []
    ensures IsMinimum(values, least) && IsMaximum(values, greatest)
  {
    least, greatest := values[0], values[0];
    for i := 1 to |values|
      invariant IsMinimum(values[..i], least) && IsMaximum(values[..i], greatest)
    {
      assert values[..i + 1] == values[..i] + [values[i]];
      if values[i] < least { least := values[i]; }
      if values[i] > greatest { greatest := values[i]; }
    }
    assert values[..|values|] == values;
  }

  datatype Statistics = Statistics(
    count: nat, least: real, greatest: real, average: real, p50: real, p95: real, p99: real)

  lemma {:induction false} SumBounds(values: seq<real>, least: real, greatest: real)
    requires forall x | x in values :: least <= x <= greatest
    ensures |values| as real * least <= Sum(values) <= |values| as real * greatest
  {
    if values != [] {
      var rest := values[..|values| - 1];
      assert forall x | x in rest :: x in values;
      assert values[|values| - 1] in values;
      SumBounds(rest, least, greatest);
      OneMoreTime(|rest|, least);
      OneMoreTime(|rest|, greatest);
    }
  }

  lemma OneMoreTime(n: nat, x: real)
    ensures (n + 1) as real * x == n as real * x + x
  {
  }

  lemma AverageBounds(values: seq<real>, least: real, greatest: real)
    requires values != [] && forall x | x in values :: least <= x <= greatest
    ensures least <= Sum(values) / |values| as real <= greatest
  {
    SumBounds(values, least, greatest);
    DivideBounds(Sum(values), |values| as real, least, greatest);
  }

  lemma DivideBounds(sum: real, n: real, least: real, greatest: real)
    requires 0.0 < n && n * least <= sum <= n * greatest
    ensures least <= sum / n <= greatest
  {
    var q := sum / n;
    assert q * n == sum;
    if q < least {
      Scale(q, least, n);
    }
    if greatest < q {
      Scale(greatest, q, n);
    }
  }

  /** compute_statistics, without the standard deviation: for any data, min <= p50 <= p95 <= p99 <=
      max and min <= average <= max, all after rounding. */
  method ComputeStatistics(values: seq<real>) returns (r: Statistics)
    ensures r.count == |values|
    ensures r.least <= r.p50 <= r.p95 <= r.p99 <= r.greatest
    ensures r.least <= r.average <= r.greatest
    ensures values == [] ==> r == Statistics(0, 0.0, 0.0, 0.0, 0.0, 0.0, 0.0)
    ensures values != [] ==>
      && (exists m :: IsMinimum(values, m) && r.least == Round2(m))
      && (exists m :: IsMaximum(values, m) && r.greatest == Round2(m))
      && r.average == Round2(Sum(values) / |values| as real)
      && r.p50 == CalculatePercentile(values, 50.0)
      && r.p95 == CalculatePercentile(values, 95.0)
      && r.p99 == CalculatePercentile(values, 99.0)
  {
    if values == [] {
      return Statistics(0, 0.0, 0.0, 0.0, 0.0, 0.0, 0.0);
    }
    var least, greatest := MinMax(values);
    var average := Sum(values) / |values| as real;
    r := Statistics(
      |values|, Round2(least), Round2(greatest), Round2(average),
      CalculatePercentile(values, 50.0), CalculatePercentile(values, 95.0), CalculatePercentile(values, 99.0));
    PercentileEnds(values, least, greatest);
    PercentileIsMonotone(values, 0.0, 50.0);
    PercentileIsMonotone(values, 50.0, 95.0);
    PercentileIsMonotone(values, 95.0, 99.0);
    PercentileIsMonotone(values, 99.0, 100.0);
    AverageBounds(values, least, greatest);
    RoundingIsMonotone(least, average);
    RoundingIsMonotone(average, greatest);
  }
}
