/**
 * The summary that `benchmarkRPC` computes once every wave has settled:
 * mean, extremes, nearest-rank p95/p99, success rate, throughput and error
 * count, or the "no successful requests" failure when nothing succeeded.
 *
 * Latencies and durations are whole milliseconds (`nat`) and ratios are exact `real`s: the
 * IEEE-754 rounding of `0.95 * n`, of the mean and of the rates is abstracted.
 */
module Statistics {
  import opened Sorting

  datatype Result<T, E> = Ok(value: T) | Err(error: E)

  /** The one failure `benchmarkRPC` raises itself. */
  datatype BenchmarkError = NoSuccessfulRequests

  /** The source's `BenchmarkResult` record (`method` is renamed: it is a keyword here). */
  datatype BenchmarkResult = BenchmarkResult(
    methodName: string,
    avgLatency: real,
    minLatency: nat,
    maxLatency: nat,
    p95Latency: nat,
    p99Latency: nat,
    successRate: real,
    throughput: real,
    errorCount: nat,
    totalTime: nat)

  /** The sort key of a latency: the numeric comparator `(a, b) => a - b`. */
  function Millis(d: nat): real { d as real }

  function Sum(s: seq<nat>): nat {
    if s == [] then 0 else s[0] + Sum(s[1..])
  }

  function Mean(s: seq<nat>): real
    requires s != []
  {
    Sum(s) as real / |s| as real
  }

  /** `Math.min(...s)`. */
  function MinOf(s: seq<nat>): (m: nat)
    requires s != []
    ensures m in s
    ensures forall x :: x in s ==> m <= x
  {
    if |s| == 1 then s[0]
    else
      var rest := MinOf(s[1..]);
      assert forall x :: x in s ==> x == s[0] || x in s[1..];
      if s[0] <= rest then s[0] else rest
  }

  /** `Math.max(...s)`. */
  function MaxOf(s: seq<nat>): (m: nat)
    requires s != []
    ensures m in s
    ensures forall x :: x in s ==> x <= m
  {
    if |s| == 1 then s[0]
    else
      var rest := MaxOf(s[1..]);
      assert forall x :: x in s ==> x == s[0] || x in s[1..];
      if s[0] >= rest then s[0] else rest
  }

  /** How many latencies are strictly below `v`. */
  function CountBelow(s: seq<nat>, v: nat): nat {
    if s == [] then 0 else (if s[0] < v then 1 else 0) + CountBelow(s[1..], v)
  }

  /** How many latencies are at most `v`. */
  function CountAtMost(s: seq<nat>, v: nat): nat {
    if s == [] then 0 else (if s[0] <= v then 1 else 0) + CountAtMost(s[1..], v)
  }

  /** The nearest-rank index `floor(pct / 100 * n)` of an ascending list of length `n`. */
  function PercentileIndex(n: nat, pct: nat): (k: nat)
    requires pct < 100
    ensures 0 < n ==> k < n
  {
    (pct * n) / 100
  }

  /** `(successCount / numRequests) * 100`: a percentage of the requests issued. */
  function SuccessRate(successCount: nat, numRequests: nat): (rate: real)
    requires successCount <= numRequests && 0 < numRequests
    ensures 0.0 <= rate <= 100.0
    ensures 0 < successCount ==> 0.0 < rate
    ensures rate * numRequests as real == successCount as real * 100.0
    ensures rate == 100.0 <==> successCount == numRequests
  {
    var s, n := successCount as real, numRequests as real;
    RatioFacts(s, n, 100.0);
    DivBetween(0.0, s, 1.0, n);
    DivSelf(n);
    (s / n) * 100.0
  }

  /** `(successCount / totalTime) * 1000`: successful requests per second when time is in milliseconds. */
  function Throughput(successCount: nat, totalTime: nat): (rate: real)
    requires 0 < totalTime
    ensures 0.0 <= rate
    ensures 0 < successCount ==> 0.0 < rate
    ensures rate * totalTime as real == successCount as real * 1000.0
  {
    var s, t := successCount as real, totalTime as real;
    RatioFacts(s, t, 1000.0);
    (s / t) * 1000.0
  }

  /** `(a / n) * k` scaled back by `n` is `a * k`, and it has the sign of `a`. */
  lemma RatioFacts(a: real, n: real, k: real)
    requires 0.0 < n && 0.0 < k && 0.0 <= a
    ensures ((a / n) * k) * n == a * k
    ensures 0.0 <= (a / n) * k
    ensures 0.0 < a ==> 0.0 < (a / n) * k
  {
    var q := a / n;
    assert q * n == a;
    assert (q * k) * n == (q * n) * k;
    if 0.0 < a {
      PositiveFactor(q, n);
    } else {
      assert q == 0.0;
    }
  }

  lemma PositiveFactor(q: real, n: real)
    requires 0.0 < n && 0.0 < q * n
    ensures 0.0 < q
  {
  }

  lemma DivSelf(n: real)
    requires 0.0 < n
    ensures n / n == 1.0
  {
  }

  /**
   * The statistics block of `benchmarkRPC`. `latencies` is sorted in place
   * first, so the mean and the extremes are read off the sorted list as well.
   * The caller has kept `latencies.length == successCount`.
   */
  function Summarize(methodName: string, latencies: seq<nat>, successCount: nat,
                     errorCount: nat, numRequests: nat, totalTime: nat)
    : (r: Result<BenchmarkResult, BenchmarkError>)
    requires |latencies| == successCount <= numRequests
    requires 0 < successCount ==> 0 < totalTime
    ensures r.Ok? <==> latencies != []
    ensures r.Err? ==> r.error == NoSuccessfulRequests
    ensures r.Ok? ==> r.value.methodName == methodName && r.value.errorCount == errorCount
                      && r.value.totalTime == totalTime
  {
    if |latencies| > 0 then
      var sorted := SortBy(latencies, Millis);
      var n := |sorted|;
      Ok(BenchmarkResult(
        methodName,
        Mean(sorted),
        MinOf(sorted),
        MaxOf(sorted),
        sorted[PercentileIndex(n, 95)],
        sorted[PercentileIndex(n, 99)],
        SuccessRate(successCount, numRequests),
        Throughput(successCount, totalTime),
        errorCount,
        totalTime))
    else
      Err(NoSuccessfulRequests)
  }

  // ---------------------------------------------------------------------
  // Facts about sorting latencies
  // ---------------------------------------------------------------------

  lemma {:induction false} InsertSum(x: nat, s: seq<nat>)
    ensures Sum(InsertBy(x, s, Millis)) == x + Sum(s)
  {
    if s != [] && Millis(s[0]) < Millis(x) {
      var r := InsertBy(x, s, Millis);
      assert r[1..] == InsertBy(x, s[1..], Millis);
      InsertSum(x, s[1..]);
    }
  }

  lemma {:induction false} SortSum(s: seq<nat>)
    ensures Sum(SortBy(s, Millis)) == Sum(s)
  {
    if s != [] {
      SortSum(s[1..]);
      InsertSum(s[0], SortBy(s[1..], Millis));
    }
  }

  lemma {:induction false} InsertCountBelow(x: nat, s: seq<nat>, v: nat)
    ensures CountBelow(InsertBy(x, s, Millis), v) == (if x < v then 1 else 0) + CountBelow(s, v)
  {
    var r := InsertBy(x, s, Millis);
    if s == [] || Millis(x) <= Millis(s[0]) {
      assert r[1..] == s;
    } else {
      assert r[1..] == InsertBy(x, s[1..], Millis);
      InsertCountBelow(x, s[1..], v);
    }
  }

  lemma {:induction false} SortCountBelow(s: seq<nat>, v: nat)
    ensures CountBelow(SortBy(s, Millis), v) == CountBelow(s, v)
  {
    if s != [] {
      SortCountBelow(s[1..], v);
      InsertCountBelow(s[0], SortBy(s[1..], Millis), v);
    }
  }

  lemma {:induction false} InsertCountAtMost(x: nat, s: seq<nat>, v: nat)
    ensures CountAtMost(InsertBy(x, s, Millis), v) == (if x <= v then 1 else 0) + CountAtMost(s, v)
  {
    var r := InsertBy(x, s, Millis);
    if s == [] || Millis(x) <= Millis(s[0]) {
      assert r[1..] == s;
    } else {
      assert r[1..] == InsertBy(x, s[1..], Millis);
      InsertCountAtMost(x, s[1..], v);
    }
  }

  lemma {:induction false} SortCountAtMost(s: seq<nat>, v: nat)
    ensures CountAtMost(SortBy(s, Millis), v) == CountAtMost(s, v)
  {
    if s != [] {
      SortCountAtMost(s[1..], v);
      InsertCountAtMost(s[0], SortBy(s[1..], Millis), v);
    }
  }

  lemma HeadIsLeast(a: seq<nat>, x: nat)
    requires SortedBy(a, Millis) && x in a
    ensures a[0] <= x
  {
    var j :| 0 <= j < |a| && a[j] == x;
    if j > 0 {
      assert Millis(a[0]) <= Millis(a[j]);
    }
  }

  /** Dropping equal heads from two lists with the same elements leaves lists with the same elements. */
  lemma SameTails(a: seq<nat>, b: seq<nat>)
    requires multiset(a) == multiset(b)
    requires a != [] && b != [] && a[0] == b[0]
    ensures multiset(a[1..]) == multiset(b[1..])
  {
    assert a == [a[0]] + a[1..] && b == [b[0]] + b[1..];
    assert multiset(a) == multiset([a[0]]) + multiset(a[1..]);
    assert multiset(b) == multiset([a[0]]) + multiset(b[1..]);
    forall x ensures multiset(a[1..])[x] == multiset(b[1..])[x] {
      assert multiset(a)[x] == multiset([a[0]])[x] + multiset(a[1..])[x];
      assert multiset(b)[x] == multiset([a[0]])[x] + multiset(b[1..])[x];
    }
  }

  /** Two ascending lists with the same elements are the same list. */
  lemma {:induction false} AscendingUnique(a: seq<nat>, b: seq<nat>)
    requires SortedBy(a, Millis) && SortedBy(b, Millis)
    requires multiset(a) == multiset(b)
    ensures a == b
  {
    assert |b| == |multiset(b)| == |multiset(a)| == |a|;
    if a != [] {
      assert a[0] in multiset(b) && b[0] in multiset(a);
      HeadIsLeast(b, a[0]);
      HeadIsLeast(a, b[0]);
      SameTails(a, b);
      assert SortedBy(a[1..], Millis) && SortedBy(b[1..], Millis);
      AscendingUnique(a[1..], b[1..]);
      assert a == [a[0]] + a[1..] && b == [b[0]] + b[1..];
    }
  }

  /** In an ascending list the element at `k` has at most `k` smaller ones and at least `k + 1` not larger. */
  lemma {:induction false} AscendingRank(t: seq<nat>, k: nat)
    requires SortedBy(t, Millis) && k < |t|
    ensures CountBelow(t, t[k]) <= k < CountAtMost(t, t[k])
  {
    if k == 0 {
      AllAtLeast(t, t[0]);
    } else {
      assert SortedBy(t[1..], Millis);
      AscendingRank(t[1..], k - 1);
      assert Millis(t[0]) <= Millis(t[k]);
    }
  }

  lemma {:induction false} AllAtLeast(t: seq<nat>, v: nat)
    requires forall i :: 0 <= i < |t| ==> v <= t[i]
    ensures CountBelow(t, v) == 0
  {
    if t != [] {
      AllAtLeast(t[1..], v);
    }
  }

  lemma {:induction false} SumBounds(s: seq<nat>, lo: nat, hi: nat)
    requires forall x :: x in s ==> lo <= x <= hi
    ensures |s| * lo <= Sum(s) <= |s| * hi
  {
    if s != [] {
      assert forall x :: x in s[1..] ==> x in s;
      SumBounds(s[1..], lo, hi);
      assert s[0] in s;
      MulSucc(|s| - 1, lo);
      MulSucc(|s| - 1, hi);
    }
  }

  lemma MulSucc(m: nat, x: nat)
    ensures (m + 1) * x == m * x + x
  {
  }

  /** `a <= b / n <= c` when `a * n <= b <= c * n`. */
  lemma DivBetween(a: real, b: real, c: real, n: real)
    requires 0.0 < n && a * n <= b <= c * n
    ensures a <= b / n <= c
  {
    assert b / n * n == b;
  }

  lemma MulAsReal(a: nat, b: nat)
    ensures (a * b) as real == a as real * b as real
  {
  }

  /** Dividing a total that lies between `n * lo` and `n * hi` by `n`. */
  lemma AverageBetween(n: nat, lo: nat, hi: nat, total: nat)
    requires 0 < n && n * lo <= total <= n * hi
    ensures lo as real <= total as real / n as real <= hi as real
  {
    MulAsReal(lo, n);
    MulAsReal(hi, n);
    DivBetween(lo as real, total as real, hi as real, n as real);
  }

  /** The mean lies between the extremes. */
  lemma MeanBetweenExtremes(s: seq<nat>)
    requires s != []
    ensures MinOf(s) as real <= Mean(s) <= MaxOf(s) as real
  {
    SumBounds(s, MinOf(s), MaxOf(s));
    AverageBetween(|s|, MinOf(s), MaxOf(s), Sum(s));
  }

  /** Sorting `latencies` in place changes neither their mean nor their extremes. */
  lemma SortKeepsMeanMinMax(s: seq<nat>)
    requires s != []
    ensures Mean(SortBy(s, Millis)) == Mean(s)
    ensures MinOf(SortBy(s, Millis)) == MinOf(s)
    ensures MaxOf(SortBy(s, Millis)) == MaxOf(s)
  {
    var t := SortBy(s, Millis);
    SortSum(s);
    assert forall x :: x in t <==> x in s by {
      forall x ensures x in t <==> x in s {
        assert x in t <==> x in multiset(t);
      }
    }
  }

  // ---------------------------------------------------------------------
  // What the summary promises
  // ---------------------------------------------------------------------

  /** The reported minimum and maximum are latencies that bound every latency, and the mean lies between them. */
  lemma SummaryLatencyBounds(methodName: string, latencies: seq<nat>, successCount: nat,
                             errorCount: nat, numRequests: nat, totalTime: nat)
    requires |latencies| == successCount <= numRequests
    requires 0 < successCount ==> 0 < totalTime
    ensures var r := Summarize(methodName, latencies, successCount, errorCount, numRequests, totalTime);
            r.Ok? ==>
              && r.value.minLatency in latencies && r.value.maxLatency in latencies
              && (forall x :: x in latencies ==> r.value.minLatency <= x <= r.value.maxLatency)
              && r.value.minLatency as real <= r.value.avgLatency <= r.value.maxLatency as real
              && r.value.avgLatency == Mean(latencies)
  {
    if latencies != [] {
      SortKeepsMeanMinMax(latencies);
      MeanBetweenExtremes(latencies);
    }
  }

  lemma PercentileIndexMonotone(n: nat, lo: nat, hi: nat)
    requires lo <= hi < 100
    ensures PercentileIndex(n, lo) <= PercentileIndex(n, hi)
  {
    assert lo * n <= hi * n;
  }

  /**
   * The value at index `k` of the ascending list is a nearest-rank order
   * statistic of `s`: at most `k` elements lie below it and at least `k + 1`
   * do not lie above it.
   */
  lemma NearestRank(s: seq<nat>, k: nat)
    requires k < |s|
    ensures var t := SortBy(s, Millis);
            t[k] in s && CountBelow(s, t[k]) <= k < CountAtMost(s, t[k])
  {
    var t := SortBy(s, Millis);
    AscendingRank(t, k);
    SortCountBelow(s, t[k]);
    SortCountAtMost(s, t[k]);
    assert t[k] in multiset(t);
  }

  /**
   * p95 and p99 are nearest-rank order statistics of the latencies, taken at
   * the indices `floor(0.95 n)` and `floor(0.99 n)`.
   */
  lemma SummaryPercentileRanks(methodName: string, latencies: seq<nat>, successCount: nat,
                               errorCount: nat, numRequests: nat, totalTime: nat)
    requires |latencies| == successCount <= numRequests
    requires 0 < successCount ==> 0 < totalTime
    ensures var r := Summarize(methodName, latencies, successCount, errorCount, numRequests, totalTime);
            var n := |latencies|;
            r.Ok? ==>
              && r.value.p95Latency in latencies && r.value.p99Latency in latencies
              && CountBelow(latencies, r.value.p95Latency) <= PercentileIndex(n, 95)
              && PercentileIndex(n, 95) < CountAtMost(latencies, r.value.p95Latency)
              && CountBelow(latencies, r.value.p99Latency) <= PercentileIndex(n, 99)
              && PercentileIndex(n, 99) < CountAtMost(latencies, r.value.p99Latency)
  {
    if latencies != [] {
      var r := Summarize(methodName, latencies, successCount, errorCount, numRequests, totalTime);
      var t := SortBy(latencies, Millis);
      var n := |t|;
      var k95, k99 := PercentileIndex(n, 95), PercentileIndex(n, 99);
      assert r.value.p95Latency == t[k95] && r.value.p99Latency == t[k99];
      NearestRank(latencies, k95);
      NearestRank(latencies, k99);
    }
  }

  /** In an ascending list, later elements are not smaller, and all lie between the extremes. */
  lemma AscendingBetween(t: seq<nat>, i: nat, j: nat)
    requires SortedBy(t, Millis) && i <= j < |t|
    ensures MinOf(t) <= t[i] <= t[j] <= MaxOf(t)
  {
    if i < j {
      assert Millis(t[i]) <= Millis(t[j]);
    }
    assert t[i] in t && t[j] in t;
  }

  /** Both percentile indices lie inside the list, and min <= p95 <= p99 <= max. */
  lemma SummaryPercentileOrder(methodName: string, latencies: seq<nat>, successCount: nat,
                               errorCount: nat, numRequests: nat, totalTime: nat)
    requires |latencies| == successCount <= numRequests
    requires 0 < successCount ==> 0 < totalTime
    ensures var r := Summarize(methodName, latencies, successCount, errorCount, numRequests, totalTime);
            var n := |latencies|;
            r.Ok? ==>
              && PercentileIndex(n, 95) <= PercentileIndex(n, 99) < n
              && r.value.minLatency <= r.value.p95Latency <= r.value.p99Latency <= r.value.maxLatency
  {
    if latencies != [] {
      var r := Summarize(methodName, latencies, successCount, errorCount, numRequests, totalTime);
      var t := SortBy(latencies, Millis);
      var n := |t|;
      var k95, k99 := PercentileIndex(n, 95), PercentileIndex(n, 99);
      assert r.value.p95Latency == t[k95] && r.value.p99Latency == t[k99];
      assert r.value.minLatency == MinOf(t) && r.value.maxLatency == MaxOf(t);
      PercentileIndexMonotone(n, 95, 99);
      AscendingBetween(t, k95, k99);
    }
  }

  /** The success rate is a percentage, 100 exactly when every request succeeded; the throughput is positive. */
  lemma SummaryRates(methodName: string, latencies: seq<nat>, successCount: nat,
                     errorCount: nat, numRequests: nat, totalTime: nat)
    requires |latencies| == successCount <= numRequests
    requires 0 < successCount ==> 0 < totalTime
    ensures var r := Summarize(methodName, latencies, successCount, errorCount, numRequests, totalTime);
            r.Ok? ==>
              && 0.0 < r.value.successRate <= 100.0
              && (r.value.successRate == 100.0 <==> successCount == numRequests)
              && r.value.successRate == SuccessRate(successCount, numRequests)
              && 0.0 < r.value.throughput
              && r.value.throughput == Throughput(successCount, totalTime)
  {
    if latencies != [] {
      var r := Summarize(methodName, latencies, successCount, errorCount, numRequests, totalTime);
      assert r.value.successRate == SuccessRate(successCount, numRequests);
      assert r.value.throughput == Throughput(successCount, totalTime);
    }
  }

  /**
   * The summary depends only on which latencies were recorded, not on the
   * order the requests of a wave settled and pushed them.
   */
  lemma SummaryIgnoresSettlementOrder(methodName: string, a: seq<nat>, b: seq<nat>,
                                      successCount: nat, errorCount: nat,
                                      numRequests: nat, totalTime: nat)
    requires multiset(a) == multiset(b)
    requires |a| == successCount <= numRequests
    requires 0 < successCount ==> 0 < totalTime
    ensures |b| == |a|
    ensures Summarize(methodName, a, successCount, errorCount, numRequests, totalTime)
         == Summarize(methodName, b, successCount, errorCount, numRequests, totalTime)
  {
    assert |a| == |multiset(a)| == |multiset(b)| == |b|;
    AscendingUnique(SortBy(a, Millis), SortBy(b, Millis));
  }

  /** For the latencies 1, 2, ..., 100 the percentiles are p95 = 96 and p99 = 100. */
  lemma PercentilesOfOneToHundred(methodName: string, totalTime: nat)
    requires 0 < totalTime
    ensures var r := Summarize(methodName, seq(100, i => i + 1), 100, 0, 100, totalTime);
            r.Ok? && r.value.p95Latency == 96 && r.value.p99Latency == 100
  {
    var s: seq<nat> := seq(100, i => i + 1);
    assert SortedBy(s, Millis);
    SortBySorted(s, Millis);
    assert PercentileIndex(100, 95) == 95 && PercentileIndex(100, 99) == 99;
    var r := Summarize(methodName, s, 100, 0, 100, totalTime);
    assert r.value.p95Latency == s[95];
  }
}
