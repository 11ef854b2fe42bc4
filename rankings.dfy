/**
 * `generateMethodComparisons`: the results ranked by average latency
 * (fastest first) and by throughput (highest first), each as numbered lines
 * `"<rank>. <method>: <value> <unit>"`. A line is kept as its parts; the
 * two-decimal formatting of the value is not modelled.
 */
module Rankings {
  import opened Sorting
  import opened Statistics

  /** One line of a ranking. */
  datatype RankingLine = RankingLine(rank: nat, methodName: string, value: real, unit: string)

  datatype Ranking = Ranking(title: string, rankings: seq<RankingLine>)

  datatype MethodComparisons = MethodComparisons(byLatency: Ranking, byThroughput: Ranking)

  const LatencyTitle: string := "Methods ranked by average latency:"
  const ThroughputTitle: string := "Methods ranked by throughput:"
  const LatencyUnit: string := "ms"
  const ThroughputUnit: string := "req/s"

  /** The comparator `(a, b) => a.avgLatency - b.avgLatency`. */
  function AvgLatencyKey(r: BenchmarkResult): real { r.avgLatency }

  /** The comparator `(a, b) => b.throughput - a.throughput`: ascending in minus the throughput. */
  function NegThroughputKey(r: BenchmarkResult): real { -r.throughput }

  function ThroughputOf(r: BenchmarkResult): real { r.throughput }

  /** A copy of the results sorted by average latency, lowest first. */
  function ByLatency(results: seq<BenchmarkResult>): (sorted: seq<BenchmarkResult>)
    ensures multiset(sorted) == multiset(results)
    ensures forall i, j :: 0 <= i < j < |sorted| ==> sorted[i].avgLatency <= sorted[j].avgLatency
  {
    var s := SortBy(results, AvgLatencyKey);
    assert forall i, j :: 0 <= i < j < |s| ==> AvgLatencyKey(s[i]) <= AvgLatencyKey(s[j]);
    s
  }

  /** A copy of the results sorted by throughput, highest first. */
  function ByThroughput(results: seq<BenchmarkResult>): (sorted: seq<BenchmarkResult>)
    ensures multiset(sorted) == multiset(results)
    ensures forall i, j :: 0 <= i < j < |sorted| ==> sorted[i].throughput >= sorted[j].throughput
  {
    var s := SortBy(results, NegThroughputKey);
    assert forall i, j :: 0 <= i < j < |s| ==> NegThroughputKey(s[i]) <= NegThroughputKey(s[j]);
    s
  }

  /** `sorted.map((result, index) => ...)`: line `k` has rank `first + k`. */
  function NumberedFrom(sorted: seq<BenchmarkResult>, first: nat, value: BenchmarkResult -> real, unit: string)
    : (lines: seq<RankingLine>)
    ensures |lines| == |sorted|
    ensures forall k :: 0 <= k < |sorted| ==>
              lines[k] == RankingLine(first + k, sorted[k].methodName, value(sorted[k]), unit)
  {
    if sorted == [] then []
    else [RankingLine(first, sorted[0].methodName, value(sorted[0]), unit)]
           + NumberedFrom(sorted[1..], first + 1, value, unit)
  }

  function GenerateMethodComparisons(results: seq<BenchmarkResult>): (c: MethodComparisons)
    ensures c.byLatency.title == LatencyTitle && c.byThroughput.title == ThroughputTitle
    ensures |c.byLatency.rankings| == |c.byThroughput.rankings| == |results|
    ensures forall k :: 0 <= k < |results| ==>
              && c.byLatency.rankings[k].rank == k + 1 && c.byLatency.rankings[k].unit == LatencyUnit
              && c.byThroughput.rankings[k].rank == k + 1 && c.byThroughput.rankings[k].unit == ThroughputUnit
    ensures forall i, j :: 0 <= i < j < |results| ==>
              c.byLatency.rankings[i].value <= c.byLatency.rankings[j].value
    ensures forall i, j :: 0 <= i < j < |results| ==>
              c.byThroughput.rankings[i].value >= c.byThroughput.rankings[j].value
  {
    var byLatency := ByLatency(results);
    var byThroughput := ByThroughput(results);
    MethodComparisons(
      Ranking(LatencyTitle, NumberedFrom(byLatency, 1, AvgLatencyKey, LatencyUnit)),
      Ranking(ThroughputTitle, NumberedFrom(byThroughput, 1, ThroughputOf, ThroughputUnit)))
  }

  // ---------------------------------------------------------------------
  // Properties of the rankings
  // ---------------------------------------------------------------------

  function LineEntry(line: RankingLine): (string, real) { (line.methodName, line.value) }
  function LatencyEntry(r: BenchmarkResult): (string, real) { (r.methodName, r.avgLatency) }
  function ThroughputEntry(r: BenchmarkResult): (string, real) { (r.methodName, r.throughput) }

  /** Numbering keeps each line's method and value: the lines read off `sorted` element by element. */
  lemma NumberedEntries(sorted: seq<BenchmarkResult>, first: nat, value: BenchmarkResult -> real, unit: string,
                        entry: BenchmarkResult -> (string, real))
    requires forall r :: entry(r) == (r.methodName, value(r))
    ensures MapSeq(NumberedFrom(sorted, first, value, unit), LineEntry) == MapSeq(sorted, entry)
  {
    var lines := NumberedFrom(sorted, first, value, unit);
    assert forall k :: 0 <= k < |sorted| ==> LineEntry(lines[k]) == entry(sorted[k]);
  }

  /**
   * Each ranking lists every result exactly once: its (method, value) pairs
   * are those of the results, as a multiset.
   */
  lemma RankingsArePermutations(results: seq<BenchmarkResult>)
    ensures var c := GenerateMethodComparisons(results);
            && multiset(MapSeq(c.byLatency.rankings, LineEntry)) == multiset(MapSeq(results, LatencyEntry))
            && multiset(MapSeq(c.byThroughput.rankings, LineEntry)) == multiset(MapSeq(results, ThroughputEntry))
  {
    SortByMapSeq(results, AvgLatencyKey, LatencyEntry);
    SortByMapSeq(results, NegThroughputKey, ThroughputEntry);
    NumberedEntries(ByLatency(results), 1, AvgLatencyKey, LatencyUnit, LatencyEntry);
    NumberedEntries(ByThroughput(results), 1, ThroughputOf, ThroughputUnit, ThroughputEntry);
  }

  /** The sort is stable: results with equal average latency keep their input order. */
  lemma LatencyTiesKeepInputOrder(results: seq<BenchmarkResult>, v: real)
    ensures WithKey(ByLatency(results), AvgLatencyKey, v) == WithKey(results, AvgLatencyKey, v)
  {
    SortByIsStable(results, AvgLatencyKey, v);
  }

  /** The sort is stable: results with equal throughput keep their input order. */
  lemma ThroughputTiesKeepInputOrder(results: seq<BenchmarkResult>, v: real)
    ensures WithKey(ByThroughput(results), NegThroughputKey, v) == WithKey(results, NegThroughputKey, v)
  {
    SortByIsStable(results, NegThroughputKey, v);
  }

  /** Results already in latency order are ranked in the order given. */
  lemma OrderedResultsKeepTheirOrder(results: seq<BenchmarkResult>)
    requires forall i, j :: 0 <= i < j < |results| ==> results[i].avgLatency <= results[j].avgLatency
    ensures ByLatency(results) == results
  {
    assert SortedBy(results, AvgLatencyKey);
    SortBySorted(results, AvgLatencyKey);
  }
}
