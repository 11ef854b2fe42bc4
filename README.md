# A verified model of the RPC benchmark harness

The harness measures a JSON-RPC endpoint by calling one provider method many
times. `benchmarkRPC` issues `numRequests` calls in waves of at most
`concurrency` calls. It records each call's latency or its failure, sleeps
`cooldown` milliseconds between waves, and summarises the run as a
`BenchmarkResult`: mean, minimum, maximum, p95 and p99 latency, success rate,
throughput and error count. It fails with "no successful requests" when nothing
succeeded. `findMaxThroughput` raises the concurrency step by step. It moves
the best to a level only when that level's throughput beats the best so far by
more than 5%, so what it reports is not always the highest throughput measured:
it is one that no tested level beats by more than 5%. It stops after three
levels in a row without such an improvement, and stops at once when a level
aborts with too many errors.
`generateMethodComparisons` ranks the per-method results by average latency and
by throughput as numbered lines.

The Dafny model has five modules, one file each:

- `sorting.dfy` (`Sorting`): the stable sort by a numeric key. It stands for
  `Array.prototype.sort` with a subtracting comparator.
- `statistics.dfy` (`Statistics`): the result record and the summary block of
  `benchmarkRPC`, with its properties.
- `runner.dfy` (`Runner`): the wave loop of `benchmarkRPC` as imperative
  methods. They are proved against the schedule function `WavePlan` and the
  bookkeeping functions `Latencies` and `Errors`.
- `search.dfy` (`Search`): the `findMaxThroughput` loop as a method. It is
  proved against the state-machine function `SearchFrom`.
- `rankings.dfy` (`Rankings`): `generateMethodComparisons`.

Time, the network and the provider are inputs to the model:

- The outcome of request `k` is `outcomes[k]`: `Succeeded(latency)` or `Failed(cause)`.
- The measured duration of the waves and cooldowns is `totalTime`. The source starts its clock at line 87, after the warm-up request and its pause, and stops it at lines 116-117.
- What testing one concurrency level produced is `measure(level)`.

The harness's sleeps and waves come back as a trace of `Event`s, which can be
compared with the schedule the source follows.

The comments beside the search's error abort (src/benchmark.ts:244 and :247)
speak only of breaking early on too many errors, when the error rate exceeds
30%. The code, which the model follows, is narrower and counts differently:

- The test only runs when a call fails, once at least one call of the level has
  succeeded and more than 1000 ms of the level have passed.
- Calls still in flight count as failed, because the rate is
  `(launched - successes) / launched`.

A level where every call fails therefore never aborts. It completes with
throughput 0.

## Model

| member | source | states |
|---|---|---|
| Sorting.SortBy | src/benchmark.ts:120 | the sorted list has the same length and the same elements with the same multiplicities, and is in non-decreasing key order |
| Sorting.SortByIsStable | src/benchmark.ts:177-178 | elements with equal keys keep their relative input order, as the stable `Array.prototype.sort` does |
| Sorting.SortBySorted | src/benchmark.ts:120 | sorting a list that is already in order leaves it unchanged |
| Sorting.SortByMapSeq | src/benchmark.ts:177-178 | sorting only reorders whatever is read off the elements: the multiset of readings is preserved |
| Statistics.Sum | src/benchmark.ts:123 | definition of `latencies.reduce((sum, lat) => sum + lat, 0)`; specified by MeanBetweenExtremes and SortKeepsMeanMinMax |
| Statistics.Mean | src/benchmark.ts:123 | definition of the average latency, the sum divided by the count; specified by MeanBetweenExtremes, SortKeepsMeanMinMax and SummaryLatencyBounds |
| Statistics.Millis | src/benchmark.ts:120 | definition of the sort key of the comparator `(a, b) => a - b`; specified by SortBy and NearestRank |
| Statistics.MinOf | src/benchmark.ts:124 | `Math.min(...latencies)` is one of the latencies and no latency is smaller |
| Statistics.MaxOf | src/benchmark.ts:125 | `Math.max(...latencies)` is one of the latencies and no latency is larger |
| Statistics.PercentileIndex | src/benchmark.ts:126-127 | `floor(pct/100 * n)` for p95 and p99 is a valid index of a non-empty list |
| Statistics.SuccessRate | src/benchmark.ts:128 | the success rate lies in [0, 100]; it is positive when some request succeeded; it is exactly 100 iff every request succeeded; and rate * numRequests == successCount * 100 |
| Statistics.Throughput | src/benchmark.ts:129 | throughput is non-negative, positive when some request succeeded, and throughput * totalTime == successCount * 1000 (requests per second over a time in ms) |
| Statistics.Summarize | src/benchmark.ts:119-137 | a result exists iff some latency was recorded; otherwise the failure is `NoSuccessfulRequests`; the method name, error count and total time are reported as given |
| Statistics.SortKeepsMeanMinMax | src/benchmark.ts:120-125 | sorting the latency list in place before reading it changes neither the mean nor the minimum nor the maximum |
| Statistics.MeanBetweenExtremes | src/benchmark.ts:123-125 | the mean of a non-empty list lies between its minimum and its maximum |
| Statistics.SummaryLatencyBounds | src/benchmark.ts:123-125 | in a summary, min and max are recorded latencies that bound every latency, min <= avg <= max, and avg is the mean of the latencies as recorded |
| Statistics.NearestRank | src/benchmark.ts:126-127 | element k of the sorted list is a recorded latency with fewer than k+1 latencies below it and more than k at or below it (nearest-rank definition) |
| Statistics.SummaryPercentileRanks | src/benchmark.ts:126-127 | p95 and p99 are recorded latencies holding that nearest rank for the indices floor(0.95n) and floor(0.99n) |
| Statistics.SummaryPercentileOrder | src/benchmark.ts:124-127 | floor(0.95n) <= floor(0.99n) < n and min <= p95 <= p99 <= max |
| Statistics.SummaryRates | src/benchmark.ts:128-129 | in a summary, 0 < successRate <= 100, successRate is 100 iff no request failed, and throughput is positive; both are the rates computed from the counts |
| Statistics.SummaryIgnoresSettlementOrder | src/benchmark.ts:101-131 | two runs that record the same latencies in different orders give the same summary, so the order in which the requests of a wave settle does not matter |
| Statistics.PercentilesOfOneToHundred | src/benchmark.ts:126-127 | for the latencies 1..100, p95 is 96 and p99 is 100 |
| Runner.BenchmarkRpc | src/benchmark.ts:65-138 | the harness performs exactly the schedule `Schedule(options)` (warm-up and sleep, then waves and cooldowns), and its result is the summary of the latencies of the successful requests with the number of failed ones as error count |
| Runner.Schedule | src/benchmark.ts:77-113 | definition of the whole run's events: warm-up request and pause when warm-up is on, then `WavePlan`; specified by ScheduleCounts, and BenchmarkRpc is proved to follow it |
| Runner.WavePlan | src/benchmark.ts:89-113 | definition of the loop's waves and cooldowns from position i on; specified by WavePlanUnfold, WaveCount, WaveSizeBounds, WaveSizesSum, CooldownCount, WavesAlternate and WavesContiguous |
| Runner.WaveStep | src/benchmark.ts:90-113 | definition of one loop iteration: a wave of `min(concurrency, numRequests - i)` requests, then a cooldown unless it reached the last request; specified by WavePlanUnfold and RunWave |
| Runner.Successes | src/benchmark.ts:102 | the number of successful requests, the value `successCount` ends with; never more than the number of requests |
| Runner.Latencies | src/benchmark.ts:98-102 | the `latencies` array holds one latency per successful request: its length is `Successes(outcomes)`, at most the number of requests; its contents are specified by LatenciesAreSuccesses |
| Runner.Errors | src/benchmark.ts:103-104 | the `errors` array holds one cause per failed request: its length is the number of requests minus `Successes(outcomes)`, so latencies and errors together account for every request |
| Runner.RunWaves | src/benchmark.ts:89-114 | the wave loop appends exactly `WavePlan` to the trace and leaves `latencies`/`errors` holding the outcomes of all requests, with `successCount == latencies.length` |
| Runner.RunWave | src/benchmark.ts:89-113 | one iteration of the wave loop launches `min(concurrency, numRequests - i)` requests, appends exactly `WaveStep` to the trace, and leaves `latencies`/`errors` holding the outcomes of the requests before `i + batchSize` |
| Runner.SettleWave | src/benchmark.ts:91-109 | settling one wave appends the latencies and failures of exactly that wave's requests, and counts one success per latency |
| Runner.RecordOutcome | src/benchmark.ts:101-104 | settling one request appends its latency or its failure, never both |
| Runner.LatenciesAreSuccesses | src/benchmark.ts:98-102 | a latency is recorded iff some request succeeded with it |
| Runner.NoSuccessNoSummary | src/benchmark.ts:119-137 | the run fails with `NoSuccessfulRequests` iff every request failed |
| Runner.WavePlanUnfold | src/benchmark.ts:89-113 | a wave that does not reach the last request has exactly `concurrency` requests and is followed by a cooldown and the next wave; otherwise it is the last wave and nothing follows |
| Runner.WaveCount | src/benchmark.ts:89-90 | the number of waves is ceil(numRequests / concurrency) |
| Runner.WaveSizeBounds | src/benchmark.ts:90 | every wave has between 1 and `concurrency` requests, and only the last one can be short |
| Runner.WaveSizesSum | src/benchmark.ts:89-90 | the wave sizes add up to numRequests |
| Runner.CooldownCount | src/benchmark.ts:111-113 | there is one cooldown fewer than waves: none after the last wave |
| Runner.WavesAlternate | src/benchmark.ts:89-113 | waves and cooldowns alternate, the plan starts and ends with a wave, and the last wave ends at numRequests |
| Runner.WavesContiguous | src/benchmark.ts:89-90 | the first wave starts at request 0 and each wave starts where the previous ended, so the requests are covered in order without gap or overlap |
| Runner.ScheduleCounts | src/benchmark.ts:77-113 | a whole run has ceil(n/c) waves whose sizes sum to n, waves-1 cooldowns, and one more sleep after the warm-up request when warm-up is on |
| Runner.SevenRequestsInWavesOfThree | src/benchmark.ts:89-113 | 7 requests at concurrency 3 run as waves of 3, 3 and 1 with a cooldown between consecutive waves |
| Search.Initial | src/benchmark.ts:210-213 | the search starts at startConcurrency, with best throughput 0 at startConcurrency and no plateau |
| Search.Continues | src/benchmark.ts:217 | definition of the loop guard `currentConcurrency <= maxConcurrency && plateauCount < 3`; specified by SearchStops and TestedLevelsBounded |
| Search.Improves | src/benchmark.ts:265 | definition of the test `throughput > maxThroughput * 1.05`; specified by AfterLevel |
| Search.AfterLevel | src/benchmark.ts:264-276 | after a completed level the concurrency advances by step; the plateau count is reset iff the throughput beats the best by more than 5%, in which case the best becomes this level; otherwise the best stays and the plateau count grows by one; the best never decreases and never lies more than 5% below the level's throughput |
| Search.SearchFrom | src/benchmark.ts:217-285 | definition of the search loop as a state machine: stop when no level is left, the plateau limit is reached or the level aborts, otherwise apply AfterLevel and go on; specified by MaxNeverDecreases, OptimalIsTested, TestedLevelsBounded, SearchStops and AbortReturnsPreviousBest |
| Search.TestedLevels | src/benchmark.ts:217-276 | definition of the concurrency levels the search completes, in order; specified by TestedLevelsBounded, AbortCapsTestedLevels and FlatThroughputStopsAfterPlateau |
| Search.FindMaxThroughput | src/benchmark.ts:201-288 | the loop returns the best throughput and optimal concurrency of the final state of the search state machine `SearchFrom` |
| Search.ErrorRateExceeded | src/benchmark.ts:245-248 | the abort fires iff some request has succeeded, more than 1000 ms have passed, and more than 30% of the launched requests are not successes |
| Search.RatioExceeds | src/benchmark.ts:246-247 | the error-rate comparison `x / l > 0.3` is exactly `10x > 3l` |
| Search.MaxNeverDecreases | src/benchmark.ts:265-269 | the best throughput never decreases over the search |
| Search.OptimalIsTested | src/benchmark.ts:212-269 | the reported concurrency is either the starting one with the initial best, or a tested level whose measured throughput is the reported maximum |
| Search.TestedLevelsBounded | src/benchmark.ts:217-276 | the tested levels are start + k*step and each is at most maxConcurrency; none beat the reported maximum by more than 5%; the search ends step times the number of tested levels above its start |
| Search.SearchStops | src/benchmark.ts:217-284 | the search ends only when the level passed maxConcurrency, three levels in a row did not improve, or the current level aborted; the plateau count never exceeds 3 |
| Search.AbortReturnsPreviousBest | src/benchmark.ts:281-287 | a level that aborts ends the search with the best found so far unchanged and its own result discarded |
| Search.AbortCapsTestedLevels | src/benchmark.ts:281-284 | if a level on the search's path aborts, no level at or above it is tested |
| Search.FlatThroughputStopsAfterPlateau | src/benchmark.ts:217-273 | when the first level completes with a positive throughput t0 and the next three levels complete with at most 1.05 * t0 (flat within 5%), exactly four levels are tested and the first one is reported as optimal with t0 |
| Rankings.AvgLatencyKey | src/benchmark.ts:177 | definition of the key of the comparator `a.avgLatency - b.avgLatency`; specified by ByLatency |
| Rankings.NegThroughputKey | src/benchmark.ts:178 | definition of the key of the comparator `b.throughput - a.throughput`, ascending in minus the throughput; specified by ByThroughput |
| Rankings.ByLatency | src/benchmark.ts:177 | the latency ranking is a permutation of the results in non-decreasing average latency |
| Rankings.ByThroughput | src/benchmark.ts:178 | the throughput ranking is a permutation of the results in non-increasing throughput |
| Rankings.NumberedFrom | src/benchmark.ts:181-187 | line k carries rank k+1 with the method name and value of the k-th sorted result |
| Rankings.GenerateMethodComparisons | src/benchmark.ts:175-199 | both rankings carry their fixed titles and one line per result, line k is numbered k+1, latency values ascend and throughput values descend |
| Rankings.RankingsArePermutations | src/benchmark.ts:177-187 | each ranking lists every result's (method, value) pair exactly as often as it occurs in the results |
| Rankings.LatencyTiesKeepInputOrder | src/benchmark.ts:177 | results with equal average latency keep their input order |
| Rankings.ThroughputTiesKeepInputOrder | src/benchmark.ts:178 | results with equal throughput keep their input order |
| Rankings.OrderedResultsKeepTheirOrder | src/benchmark.ts:177 | results already in latency order are ranked in the order given |

## Left out

- Console output, `printResults`, `main`, the JSON export and `toFixed` formatting are not modelled. They are I/O, and `printResults` repeats the ranking logic for display only. A ranking line is kept as its parts (rank, method, value, unit), not as a formatted string.
- `dist/benchmark.js` is an older compiled version of src/benchmark.ts, without `findMaxThroughput` and `generateMethodComparisons`, and is not part of this model.
- The provider call, its `Promise.race` against the timeout timer and `performance.now()` are inputs: `outcomes[k]` says how request `k` settled, and `totalTime` is the duration of the waves and cooldowns only, not of the warm-up request and pause that `Schedule` also lists. The timeout only shapes those inputs.
- Requests within a wave settle in launch order in the model. `Statistics.SummaryIgnoresSettlementOrder` shows that any other order gives the same summary. The order of the `errors` array is not compared, since only its length is reported.
- `sleep` is recorded as a `Sleep(ms)` event in the trace; no time passes in the model. The warm-up request is a `WarmupRequest` event, and its outcome is ignored, as in the source.
- Latencies and `totalTime` are whole milliseconds (`nat`) rather than the fractional milliseconds of `performance.now()`; the factor 1000 in `Throughput` turns requests per millisecond into requests per second. Rates and the mean are exact reals; IEEE-754 rounding, `NaN` and `Infinity` are not modelled.
- Runner.BenchmarkRpc: requires `totalTime > 0` when some request succeeded, because the source would divide by a zero duration and report an infinite throughput.
- Runner.BenchmarkRpc: requires `concurrency >= 1`. With concurrency 0 and at least one request, the source's loop never advances and never ends; with concurrency 0 and no requests, the loop does not run and the source throws "No successful requests" at line 137. Neither case is modelled.
- Runner.BenchmarkRpc: `numRequests` and `concurrency` are natural numbers, so the `RangeError` that `Array(batchSize)` at line 91 throws for a negative or non-integral `batchSize` is not modelled. In the source it arises when `numRequests > 0` and `concurrency` is negative, or when a wave's `batchSize = Math.min(concurrency, numRequests - i)` is not a whole number: a fractional `numRequests` that leaves a short last wave, or a fractional `concurrency` below the count still to run. A negative `numRequests` never reaches line 91: the loop does not run and the source throws "No successful requests" at line 137. A fractional `concurrency` at least `numRequests` runs one whole wave normally.
- Runner.BenchmarkRpc: the warm-up call (line 59) is not raced against a timeout, so a provider that never answers stalls the source for ever. The model's `WarmupRequest` event always completes.
- Statistics.Summarize: `Math.min(...latencies)` and `Math.max(...latencies)` (lines 124-125) spread the array into call arguments, which throws a `RangeError` on V8 for roughly 10^5 or more latencies. The model's `MinOf` and `MaxOf` have no size limit.
- The defaults in the destructuring of `options` (line 71) and the default parameters of `findMaxThroughput` (lines 205-208: start 5, maximum 250, step 5, 5000 ms per level, which `main` relies on at lines 344-348) are not modelled; every option and parameter is given.
- Search.FindMaxThroughput: requires `step >= 1`. With step 0 the source tests the same level again and again, and it stops only when three measurements in a row fail to improve or a level aborts.
- Search.FindMaxThroughput: the levels and `step` are natural numbers. In the source a fractional or negative level makes `Array(currentConcurrency)` at line 237 throw a `RangeError` inside the `try`, and the `catch`/`break` at lines 281-283 ends the search as an abort does. So a fractional start returns `{ 0, startConcurrency }` at once, and a negative step stops once the level drops below 0. Those inputs are not modelled.
- Search.FindMaxThroughput: measuring one level is not modelled (the timed loop of batches, line 236, and the throughput computed from it, lines 258-260); its result is `measure(level)`. `Search.ErrorRateExceeded` states the abort condition of one failing request but is not connected to a timed simulation of the level. The unused `testOptions` record and the one-second rest between levels are not modelled.
- Error objects are reduced to their cause: `Rejected` or `TimedOut`.
