/** report_module/summary.py: interpolated percentiles and the statistics built on them, over reals. */
module Percentiles {
  import opened Orders
  import opened Reals
  import opened Wrappers

  ghost predicate Ascending(s: seq<real>) {
    forall i, j :: 0 <= i <= j < |s| ==> s[i] <= s[j]
  }

  function Rank(n: nat, pct: real): real {
    pct / 100.0 * (n - 1) as real
  }

  function Percentile(sorted: seq<real>, pct: real): real
    requires sorted != [] && 0.0 <= pct <= 100.0
  {
    if |sorted| == 1 then sorted[0]
    else
      RankInRange(|sorted|, pct);
      var rank := Rank(|sorted|, pct);
      var low, high := rank.Floor, Ceil(rank);
      if low == high then sorted[low]
      else sorted[low] + (sorted[high] - sorted[low]) * (rank - low as real)
  }

  lemma RankInRange(n: nat, pct: real)
    requires n >= 1 && 0.0 <= pct <= 100.0
    ensures 0.0 <= Rank(n, pct) <= (n - 1) as real
    ensures 0 <= Rank(n, pct).Floor <= Ceil(Rank(n, pct)) <= n - 1
    ensures Ceil(Rank(n, pct)) <= Rank(n, pct).Floor + 1
  {
    var last := (n - 1) as real;
    assert 0.0 <= pct / 100.0 <= 1.0;
    Product(pct / 100.0, last);
    Product(1.0 - pct / 100.0, last);
    assert -Rank(n, pct) >= ((-(n - 1)) as real);
  }

  /** The exact value: interpolated between the two samples around the rank. */
  lemma PercentileInterpolates(s: seq<real>, pct: real, k: nat)
    requires s != [] && 0.0 <= pct <= 100.0
    requires (k * 100) as real <= pct * (|s| - 1) as real <= ((k + 1) * 100) as real
    ensures k < |s| && (k + 1 == |s| ==> Percentile(s, pct) == s[k])
    ensures k + 1 < |s| ==>
              Percentile(s, pct) == s[k] + (s[k + 1] - s[k]) * (pct * (|s| - 1) as real / 100.0 - k as real)
  {
    RankInRange(|s|, pct);
    var rank := Rank(|s|, pct);
    assert rank == pct * (|s| - 1) as real / 100.0;
    assert k as real <= rank <= (k + 1) as real;
    if rank == k as real {
      assert rank.Floor == k && Ceil(rank) == k;
    } else if rank == (k + 1) as real {
      assert rank.Floor == k + 1 && Ceil(rank) == k + 1;
      assert pct * (|s| - 1) as real / 100.0 - k as real == 1.0;
    } else {
      assert rank.Floor == k && Ceil(rank) == k + 1;
    }
    hide Rank, Ceil;
  }

  // ----- Monotone in the percentage -----------------------------------------------------------------

  /** A percentile lies between the samples around its rank. */
  lemma PercentileBetween(s: seq<real>, pct: real)
    requires s != [] && 0.0 <= pct <= 100.0 && Ascending(s)
    ensures var rank := Rank(|s|, pct);
            0 <= rank.Floor <= Ceil(rank) < |s| && s[rank.Floor] <= Percentile(s, pct) <= s[Ceil(rank)]
  {
    RankInRange(|s|, pct);
    var rank := Rank(|s|, pct);
    var low, high := rank.Floor, Ceil(rank);
    if |s| > 1 && low != high {
      assert s[low] <= s[high];
      Product(s[high] - s[low], rank - low as real);
      Product(s[high] - s[low], 1.0 - (rank - low as real));
    }
  }

  lemma RankMonotone(n: nat, p: real, q: real)
    requires n >= 1 && p <= q
    ensures Rank(n, p) <= Rank(n, q)
  {
    Product(q / 100.0 - p / 100.0, (n - 1) as real);
  }

  /** Percentiles grow with the percentage. */
  lemma MonotoneInPercentage(s: seq<real>, p: real, q: real)
    requires s != [] && 0.0 <= p <= q <= 100.0 && Ascending(s)
    ensures Percentile(s, p) <= Percentile(s, q)
  {
    var x, y := Rank(|s|, p), Rank(|s|, q);
    RankMonotone(|s|, p, q);
    PercentileBetween(s, p);
    PercentileBetween(s, q);
    if x.Floor == y.Floor && x.Floor < Ceil(x) && x.Floor < Ceil(y) {
      RankInRange(|s|, p);
      RankInRange(|s|, q);
      var d, base := s[x.Floor + 1] - s[x.Floor], x.Floor as real;
      assert d >= 0.0;
      Product(d, y - x);
      assert d * (y - base) - d * (x - base) == d * (y - x);
    } else if x.Floor < y.Floor {
      assert Ceil(x) <= y.Floor;
    }
  }

  /** Percentiles stay between the minimum and the maximum, and reach them at 0 and 100. */
  lemma PercentileBounds(s: seq<real>, pct: real)
    requires s != [] && 0.0 <= pct <= 100.0 && Ascending(s)
    ensures s[0] <= Percentile(s, pct) <= s[|s| - 1]
    ensures Percentile(s, 0.0) == s[0] && Percentile(s, 100.0) == s[|s| - 1]
  {
    PercentileBetween(s, pct);
    assert Rank(|s|, 0.0) == 0.0 && Rank(|s|, 100.0) == (|s| - 1) as real;
  }

  /** Larger sorted samples have larger percentiles. */
  lemma MonotoneInSorted(s: seq<real>, t: seq<real>, pct: real)
    requires |s| == |t| > 0 && 0.0 <= pct <= 100.0
    requires forall i :: 0 <= i < |s| ==> s[i] <= t[i]
    ensures Percentile(s, pct) <= Percentile(t, pct)
  {
    RankInRange(|s|, pct);
    var rank := Rank(|s|, pct);
    var low, high := rank.Floor, Ceil(rank);
    if |s| > 1 && low != high {
      var f := rank - low as real;
      Product(t[low] - s[low], 1.0 - f);
      Product(t[high] - s[high], f);
      assert Percentile(t, pct) - Percentile(s, pct) == (t[low] - s[low]) * (1.0 - f) + (t[high] - s[high]) * f;
    }
  }

  // ----- Unsorted samples -----------------------------------------------------------------------------

  function Itself(x: real): real {
    x
  }

  function Sort(s: seq<real>): (r: seq<real>)
    ensures |r| == |s|
  {
    SortBy(s, Itself)
  }

  lemma SortAscends(s: seq<real>)
    ensures Ascending(Sort(s))
  {
    SortSorts(s, Itself);
    hide SortBy;
    forall i, j | 0 <= i <= j < |s| ensures Sort(s)[i] <= Sort(s)[j] {
      assert Itself(Sort(s)[i]) <= Itself(Sort(s)[j]);
    }
  }

  /** How many samples are at most `x`. */
  function CountUpTo(s: seq<real>, x: real): nat {
    if s == [] then 0 else CountUpTo(s[..|s| - 1], x) + if s[|s| - 1] <= x then 1 else 0
  }

  lemma CountAppended(s: seq<real>, v: real, x: real)
    ensures CountUpTo(s + [v], x) == CountUpTo(s, x) + if v <= x then 1 else 0
  {
    assert (s + [v])[..|s|] == s;
  }

  lemma {:induction false} InsertCounts(v: real, sorted: seq<real>, x: real)
    ensures CountUpTo(InsertBy(v, sorted, Itself), x) == CountUpTo(sorted, x) + if v <= x then 1 else 0
  {
    if sorted == [] {
      CountAppended([], v, x);
      assert [] + [v] == [v];
    } else {
      var n := |sorted| - 1;
      CountAppended(sorted, v, x);
      InsertCounts(v, sorted[..n], x);
      CountAppended(InsertBy(v, sorted[..n], Itself), sorted[n], x);
    }
  }

  lemma {:induction false} SortCounts(s: seq<real>, x: real)
    ensures CountUpTo(Sort(s), x) == CountUpTo(s, x)
  {
    if s != [] {
      var n := |s| - 1;
      SortCounts(s[..n], x);
      InsertCounts(s[n], Sort(s[..n]), x);
    }
  }

  /** Counting locates the `k`-th smallest sample. */
  lemma {:induction false} CountLocates(s: seq<real>, k: nat, x: real)
    requires Ascending(s) && k < |s|
    ensures s[k] <= x <==> CountUpTo(s, x) >= k + 1
  {
    var n := |s| - 1;
    CountAtMost(s[..n], x);
    if k < n {
      CountLocates(s[..n], k, x);
    } else if s[n] <= x {
      AllUpTo(s, x);
    }
  }

  lemma {:induction false} CountAtMost(s: seq<real>, x: real)
    ensures CountUpTo(s, x) <= |s|
  {
    if s != [] {
      CountAtMost(s[..|s| - 1], x);
    }
  }

  lemma {:induction false} AllUpTo(s: seq<real>, x: real)
    requires forall i :: 0 <= i < |s| ==> s[i] <= x
    ensures CountUpTo(s, x) == |s|
  {
    if s != [] {
      AllUpTo(s[..|s| - 1], x);
    }
  }

  lemma {:induction false} CountsFall(s: seq<real>, t: seq<real>, x: real)
    requires |s| == |t| && forall i :: 0 <= i < |s| ==> s[i] <= t[i]
    ensures CountUpTo(s, x) >= CountUpTo(t, x)
  {
    if s != [] {
      CountsFall(s[..|s| - 1], t[..|t| - 1], x);
    }
  }

  /** Raising samples raises every order statistic. */
  lemma SortMonotone(s: seq<real>, t: seq<real>, k: nat)
    requires |s| == |t| && k < |s| && forall i :: 0 <= i < |s| ==> s[i] <= t[i]
    ensures Sort(s)[k] <= Sort(t)[k]
  {
    var x := Sort(t)[k];
    SortAscends(s);
    SortAscends(t);
    CountLocates(Sort(t), k, x);
    CountLocates(Sort(s), k, x);
    SortCounts(s, x);
    SortCounts(t, x);
    CountsFall(s, t, x);
  }

  // ----- Statistics -----------------------------------------------------------------------------------

  function Sum(s: seq<real>): real {
    if s == [] then 0.0 else s[0] + Sum(s[1..])
  }

  /** `statistics.median` */
  function Median(s: seq<real>): real
    requires s != []
  {
    var sorted, half := Sort(s), |s| / 2;
    if |s| % 2 == 1 then sorted[half] else (sorted[half - 1] + sorted[half]) / 2.0
  }

  datatype MetricStats = MetricStats(
    n: nat, mean: real, median: real, minimum: real, maximum: real, p50: real, p90: real, p99: real)

  function ComputeMetricStats(values: seq<real>): Option<MetricStats> {
    if values == [] then None
    else
      var sorted := Sort(values);
      Some(MetricStats(
             |values|, Sum(values) / |values| as real, Median(values), sorted[0], sorted[|sorted| - 1],
             Percentile(sorted, 50.0), Percentile(sorted, 90.0), Percentile(sorted, 99.0)))
  }

  lemma MeanIs(sum: real, n: nat)
    requires n > 0
    ensures sum / n as real * n as real == sum
  {
  }

  lemma {:induction false} SumAppends(s: seq<real>, t: seq<real>)
    ensures Sum(s + t) == Sum(s) + Sum(t) && Sum([]) == 0.0 && (|s| == 1 ==> Sum(s) == s[0])
  {
    if s == [] {
      assert s + t == t;
    } else {
      SumAppends(s[1..], t);
      assert (s + t)[1..] == s[1..] + t;
    }
  }

  lemma MiddleRank(n: nat)
    requires n > 1
    ensures n % 2 == 1 ==> Rank(n, 50.0).Floor == n / 2 && Ceil(Rank(n, 50.0)) == n / 2
    ensures n % 2 == 0 ==> Rank(n, 50.0).Floor == n / 2 - 1 && Ceil(Rank(n, 50.0)) == n / 2
    ensures n % 2 == 0 ==> Rank(n, 50.0) - (n / 2 - 1) as real == 0.5
  {
    var rank, half := Rank(n, 50.0), n / 2;
    assert rank == (n - 1) as real / 2.0;
    if n % 2 == 1 {
      assert n == 2 * half + 1 && rank == half as real;
    } else {
      assert n == 2 * half && rank == half as real - 0.5;
    }
  }

  /** The 50th percentile is the median, for odd and even sample sizes. */
  lemma MedianIsP50(s: seq<real>)
    requires s != []
    ensures Percentile(Sort(s), 50.0) == Median(s)
  {
    hide Sort;
    if |s| > 1 {
      MiddleRank(|s|);
      hide Rank, Ceil;
    }
  }

  lemma {:induction false} SumBounds(s: seq<real>, low: real, high: real)
    requires forall i :: 0 <= i < |s| ==> low <= s[i] <= high
    ensures low * |s| as real <= Sum(s) <= high * |s| as real
  {
    if s != [] {
      SumBounds(s[1..], low, high);
      assert low * |s| as real == low * (|s| - 1) as real + low;
      assert high * |s| as real == high * (|s| - 1) as real + high;
    }
  }

  lemma {:induction false} SampleInRange(s: seq<real>, i: nat)
    requires i < |s|
    ensures Sort(s)[0] <= s[i] <= Sort(s)[|s| - 1]
  {
    SortAscends(s);
    SortCounts(s, s[i]);
    SampleCounts(s, i, s[i]);
    CountLocates(Sort(s), 0, s[i]);
    var top := Sort(s)[|s| - 1];
    CountLocates(Sort(s), |s| - 1, top);
    SortCounts(s, top);
    AllCounted(s, top);
  }

  lemma {:induction false} SampleCounts(s: seq<real>, i: nat, x: real)
    requires i < |s| && s[i] <= x
    ensures CountUpTo(s, x) >= 1
  {
    if i < |s| - 1 {
      SampleCounts(s[..|s| - 1], i, x);
    }
  }

  lemma {:induction false} AllCounted(s: seq<real>, x: real)
    ensures CountUpTo(s, x) <= |s|
    ensures CountUpTo(s, x) == |s| ==> forall i :: 0 <= i < |s| ==> s[i] <= x
  {
    if s != [] {
      AllCounted(s[..|s| - 1], x);
      assert forall i :: 0 <= i < |s| - 1 ==> s[i] == s[..|s| - 1][i];
    }
  }

  /** The statistics of a sample are ordered. */
  lemma StatsOrdered(values: seq<real>)
    requires values != []
    ensures var r := ComputeMetricStats(values).value;
            && r.minimum <= r.p50 == r.median <= r.p90 <= r.p99 <= r.maximum
            && r.minimum <= r.mean <= r.maximum
            && forall i :: 0 <= i < |values| ==> r.minimum <= values[i] <= r.maximum
  {
    var sorted := Sort(values);
    SortAscends(values);
    MedianIsP50(values);
    hide Sort, Percentile, Median, Sum, Ascending;
    PercentileBounds(sorted, 50.0);
    PercentileBounds(sorted, 99.0);
    MonotoneInPercentage(sorted, 50.0, 90.0);
    MonotoneInPercentage(sorted, 90.0, 99.0);
    MeanInRange(values);
  }

  /** Which statistics are computed: size, mean and median, and the percentiles at 50, 90 and 99. */
  lemma StatsAre(values: seq<real>)
    requires values != []
    ensures ComputeMetricStats(values).Some? && ComputeMetricStats([]).None?
    ensures var r := ComputeMetricStats(values).value;
            && r.n == |values| && r.mean * r.n as real == Sum(values) && r.median == Median(values)
            && r.p50 == Percentile(Sort(values), 50.0) && r.p90 == Percentile(Sort(values), 90.0)
            && r.p99 == Percentile(Sort(values), 99.0)
  {
    hide Percentile, Median, Sum, Sort;
    MeanIs(Sum(values), |values|);
  }

  /** The minimum and the maximum are samples, and no sample lies beyond them. */
  lemma ExtremesAreSamples(values: seq<real>)
    requires values != []
    ensures var r := ComputeMetricStats(values).value;
            && r.minimum in values && r.maximum in values
            && forall x :: x in values ==> r.minimum <= x <= r.maximum
  {
    EndsAreSamples(values);
    StatsOrdered(values);
    var r := ComputeMetricStats(values).value;
    hide Percentile, Median, Sum, Sort, ComputeMetricStats;
    forall x | x in values ensures r.minimum <= x <= r.maximum {
      var i :| 0 <= i < |values| && values[i] == x;
    }
  }

  lemma EndsAreSamples(values: seq<real>)
    requires values != []
    ensures Sort(values)[0] in values && Sort(values)[|values| - 1] in values
  {
    var sorted := Sort(values);
    SortKeeps(values, Itself, sorted[0]);
    SortKeeps(values, Itself, sorted[|sorted| - 1]);
    hide SortBy;
    assert sorted[0] in sorted && sorted[|sorted| - 1] in sorted;
  }

  lemma MeanInRange(values: seq<real>)
    requires values != []
    ensures var sorted := Sort(values);
            && sorted[0] <= Sum(values) / |values| as real <= sorted[|sorted| - 1]
            && forall i :: 0 <= i < |values| ==> sorted[0] <= values[i] <= sorted[|sorted| - 1]
  {
    hide Sort, Sum;
    var sorted := Sort(values);
    forall i | 0 <= i < |values| ensures sorted[0] <= values[i] <= sorted[|values| - 1] {
      SampleInRange(values, i);
    }
    SumBounds(values, sorted[0], sorted[|values| - 1]);
    MeanBounds(Sum(values), |values|, sorted[0], sorted[|values| - 1]);
  }

  lemma MeanBounds(sum: real, n: nat, low: real, high: real)
    requires n > 0 && low * n as real <= sum <= high * n as real
    ensures low <= sum / n as real <= high
  {
    var mean := sum / n as real;
    assert mean * n as real == sum;
  }

  /** Raising samples, in whatever order they came, lowers no statistic. */
  lemma StatsMonotone(values: seq<real>, raised: seq<real>)
    requires |values| == |raised| > 0 && forall i :: 0 <= i < |values| ==> values[i] <= raised[i]
    ensures var a, b := ComputeMetricStats(values).value, ComputeMetricStats(raised).value;
            && a.minimum <= b.minimum && a.maximum <= b.maximum && a.median <= b.median
            && a.p50 <= b.p50 && a.p90 <= b.p90 && a.p99 <= b.p99 && a.mean <= b.mean
  {
    var s, t := Sort(values), Sort(raised);
    forall k | 0 <= k < |s| ensures s[k] <= t[k] {
      SortMonotone(values, raised, k);
    }
    MonotoneInSorted(s, t, 50.0);
    MonotoneInSorted(s, t, 90.0);
    MonotoneInSorted(s, t, 99.0);
    MedianIsP50(values);
    MedianIsP50(raised);
    SumMonotone(values, raised);
    MeanMonotone(Sum(values), Sum(raised), |values|);
    hide Sort, Percentile, Median, Sum;
  }

  lemma MeanMonotone(a: real, b: real, n: nat)
    requires n > 0 && a <= b
    ensures a / n as real <= b / n as real
  {
    assert (b - a) / n as real >= 0.0;
  }

  lemma {:induction false} SumMonotone(s: seq<real>, t: seq<real>)
    requires |s| == |t| && forall i :: 0 <= i < |s| ==> s[i] <= t[i]
    ensures Sum(s) <= Sum(t)
  {
    if s != [] {
      SumMonotone(s[1..], t[1..]);
    }
  }
}
