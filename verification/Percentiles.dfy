/** Averages and percentiles of samples, as `src/stats.rs` reports them, over the reals. */
module Percentiles {
  import opened Sorting

  function Own(x: nat): int {
    x
  }

  /** `sort_unstable`. */
  function InOrder(s: seq<nat>): seq<nat> {
    Sorted(Own, s)
  }

  /** `((p / 100.0) * (n - 1.0)).round()`. */
  function Rank(n: nat, p: nat): int
    requires n > 0
  {
    (p as real / 100.0 * (n as real - 1.0) + 0.5).Floor
  }

  function PercentileIndex(n: nat, p: nat): (i: nat)
    requires n > 0
    ensures i < n && (p <= 100 ==> i == Rank(n, p))
  {
    RankInRange(n, p);
    if Rank(n, p) < n then Rank(n, p) else n - 1
  }

  function Percentile(sorted: seq<nat>, p: nat): real {
    if sorted == [] then 0.0 else sorted[PercentileIndex(|sorted|, p)] as real
  }

  lemma RankInRange(n: nat, p: nat)
    requires n > 0
    ensures Rank(n, p) >= 0
    ensures p <= 100 ==> Rank(n, p) < n
  {
    NotNegative(p as real / 100.0, n as real - 1.0);
    if p <= 100 {
      assert p as real / 100.0 <= 1.0;
      Scaled(p as real / 100.0, 1.0, n as real - 1.0);
    }
  }

  lemma NotNegative(a: real, b: real)
    requires a >= 0.0 && b >= 0.0
    ensures a * b >= 0.0
  {
  }

  lemma Scaled(a: real, b: real, c: real)
    requires a <= b && c >= 0.0
    ensures a * c <= b * c
  {
  }

  lemma RanksAscend(n: nat, p: nat, q: nat)
    requires n > 0 && p <= q
    ensures Rank(n, p) <= Rank(n, q)
  {
    Scaled(p as real / 100.0, q as real / 100.0, n as real - 1.0);
  }

  /** A higher percentile is not smaller. */
  lemma PercentilesAscend(sorted: seq<nat>, p: nat, q: nat)
    requires Ascending(Own, sorted) && p <= q
    ensures Percentile(sorted, p) <= Percentile(sorted, q)
  {
    if sorted != [] {
      RanksAscend(|sorted|, p, q);
    }
  }

  /** `i` is the rank nearest to `p` percent of the way through `n` samples; halves are rounded up. */
  predicate NearestRank(n: nat, p: nat, i: nat) {
    i < n && 100 * i - 50 <= p * (n - 1) < 100 * i + 50
  }

  lemma ScaledRank(n: nat, p: nat)
    requires n > 0
    ensures p as real / 100.0 * (n as real - 1.0) == (p * (n - 1)) as real / 100.0
  {
    assert (p * (n - 1)) as real == p as real * (n - 1) as real;
  }

  /** The rank is computed over the reals, and is the nearest in whole numbers. */
  lemma RankIsNearest(n: nat, p: nat)
    requires n > 0 && p <= 100
    ensures NearestRank(n, p, PercentileIndex(n, p))
    ensures forall i: nat | NearestRank(n, p, i) :: i == PercentileIndex(n, p)
  {
    var i := PercentileIndex(n, p);
    ScaledRank(n, p);
    assert i as real <= (p * (n - 1)) as real / 100.0 + 0.5 < i as real + 1.0;
    assert 100.0 * i as real - 50.0 <= (p * (n - 1)) as real < 100.0 * i as real + 50.0;
  }

  function Sum(s: seq<nat>): nat {
    if s == [] then 0 else Sum(s[..|s|-1]) + s[|s|-1]
  }

  function MaxOf(s: seq<nat>): nat {
    if s == [] then 0
    else
      var m := MaxOf(s[..|s|-1]);
      if m < s[|s|-1] then s[|s|-1] else m
  }

  lemma {:induction false} MaxIsLargest(s: seq<nat>, x: nat)
    requires x in s
    ensures x <= MaxOf(s)
  {
    if x != s[|s|-1] {
      assert s == s[..|s|-1] + [s[|s|-1]];
      MaxIsLargest(s[..|s|-1], x);
    }
  }

  lemma Product(n: nat, a: nat, b: nat)
    requires a <= b
    ensures n * a <= n * b
  {
  }

  lemma {:induction false} SumBound(s: seq<nat>)
    ensures Sum(s) <= |s| * MaxOf(s)
  {
    if s != [] {
      var front := s[..|s|-1];
      SumBound(front);
      Product(|front|, MaxOf(front), MaxOf(s));
      assert |s| * MaxOf(s) == |front| * MaxOf(s) + MaxOf(s);
    }
  }

  function Average(s: seq<nat>): real {
    if s == [] then 0.0 else Sum(s) as real / |s| as real
  }

  datatype Timing = Timing(avg: real, p50: real, p95: real)

  const NO_TIMING := Timing(0.0, 0.0, 0.0)

  function TimingOf(s: seq<nat>): Timing {
    Timing(Average(s), Percentile(InOrder(s), 50), Percentile(InOrder(s), 95))
  }

  lemma Quotient(a: nat, n: nat, m: nat)
    requires n > 0 && a <= n * m
    ensures a as real / n as real <= m as real
  {
    assert (n * m) as real == n as real * m as real;
    assert a as real <= n as real * m as real;
  }

  lemma AverageBound(s: seq<nat>)
    ensures Average(s) <= MaxOf(s) as real
  {
    if s != [] {
      SumBound(s);
      Quotient(Sum(s), |s|, MaxOf(s));
    }
  }

  lemma PercentileBound(s: seq<nat>, p: nat)
    ensures Percentile(InOrder(s), p) <= MaxOf(s) as real
  {
    SortedSorts(Own, s);
    if s != [] {
      var i := PercentileIndex(|s|, p);
      assert InOrder(s)[i] in multiset(InOrder(s));
      MaxIsLargest(s, InOrder(s)[i]);
    }
  }

  /** Some value of the samples, sorted, stands at the nearest rank. */
  ghost predicate IsPercentile(s: seq<nat>, p: nat, x: real) {
    exists sorted: seq<nat>, i: nat ::
      && Ascending(Own, sorted) && multiset(sorted) == multiset(s)
      && NearestRank(|sorted|, p, i) && x == sorted[i] as real
  }

  ghost predicate IsAverage(s: seq<nat>, x: real) {
    x * |s| as real == Sum(s) as real
  }

  /** The average is the sum over the number of samples, both percentiles are at their ranks; without samples, zeros. */
  ghost predicate IsTimingOf(t: Timing, s: seq<nat>) {
    if s == [] then t == Timing(0.0, 0.0, 0.0)
    else IsAverage(s, t.avg) && IsPercentile(s, 50, t.p50) && IsPercentile(s, 95, t.p95)
  }

  lemma PercentileIsAtRank(s: seq<nat>, p: nat)
    requires s != [] && p <= 100
    ensures IsPercentile(s, p, Percentile(InOrder(s), p))
  {
    SortedSorts(Own, s);
    RankIsNearest(|s|, p);
    assert NearestRank(|InOrder(s)|, p, PercentileIndex(|s|, p));
  }

  lemma QuotientTimes(a: real, n: real)
    requires n != 0.0
    ensures a / n * n == a
  {
  }

  /** The average times the number of samples is their sum. */
  lemma AverageIsExact(s: seq<nat>)
    ensures IsAverage(s, Average(s))
  {
    if s != [] { QuotientTimes(Sum(s) as real, |s| as real); }
  }

  lemma TimingIsExact(s: seq<nat>)
    ensures IsTimingOf(TimingOf(s), s)
  {
    AverageIsExact(s);
    if s == [] {
      SortedSorts(Own, s);
    } else {
      PercentileIsAtRank(s, 50);
      PercentileIsAtRank(s, 95);
    }
  }

  lemma {:induction false} SumConcat(a: seq<nat>, b: seq<nat>)
    ensures Sum(a + b) == Sum(a) + Sum(b)
  {
    if b == [] {
      assert a + b == a;
    } else {
      assert (a + b)[..|a + b| - 1] == a + b[..|b|-1];
      SumConcat(a, b[..|b|-1]);
    }
  }

  lemma SumOfOne(x: nat)
    ensures Sum([x]) == x && Sum([]) == 0
  {
    assert [x][..0] == [];
  }

  /** The median is at most the 95th percentile, and neither that nor the average exceeds the maximum. */
  lemma TimingIsOrdered(s: seq<nat>)
    ensures var t := TimingOf(s); t.p50 <= t.p95 <= MaxOf(s) as real && t.avg <= MaxOf(s) as real
  {
    SortedSorts(Own, s);
    PercentilesAscend(InOrder(s), 50, 95);
    PercentileBound(s, 95);
    AverageBound(s);
  }
}
