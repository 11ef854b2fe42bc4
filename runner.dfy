/**
 * `benchmarkRPC`: the wave loop that issues `numRequests` calls in waves of
 * `min(concurrency, numRequests - i)`, records each call's outcome once, sleeps
 * `cooldown` between waves, and hands the recorded latencies to the summary.
 *
 * The provider call raced against its timeout timer is not modelled: the
 * outcome of request `k` (its latency, or the failure that settled it first)
 * is the given `outcomes[k]`, and the wall-clock time of the whole run is the
 * given `totalTime`. What the harness does in order, its schedule, is the
 * returned trace of events.
 */
module Runner {
  import opened Statistics

  /** Why a request failed: the provider rejected it, or the timeout timer fired first. */
  datatype Cause = Rejected | TimedOut

  /** How one request settled: with its latency in milliseconds, or with a failure. */
  datatype Outcome = Succeeded(latency: nat) | Failed(cause: Cause)

  /** The source's `BenchmarkOptions`; `timeout` only shapes the given outcomes. */
  datatype BenchmarkOptions = BenchmarkOptions(
    numRequests: nat,
    concurrency: nat,
    warmup: bool,
    cooldown: nat,
    timeout: nat)

  /** What the harness does, in order: the warm-up call, a sleep, or a wave launching requests `first .. first + size - 1`. */
  datatype Event = WarmupRequest | Sleep(ms: nat) | Wave(first: nat, size: nat)

  /** The pause after the warm-up request, in milliseconds. */
  const WarmupPause: nat := 1000

  function Min(a: nat, b: nat): nat {
    if a <= b then a else b
  }

  /** One turn of the loop at position `i`: the wave, then a cooldown unless the wave reached `n`. */
  function WaveStep(i: nat, n: nat, c: nat, cooldown: nat): seq<Event>
    requires i < n
  {
    var size := Min(c, n - i);
    [Wave(i, size)] + (if i + size < n then [Sleep(cooldown)] else [])
  }

  /** The waves and cooldowns of the loop `for (i = ...; i < n; i += c)`, from position `i` on. */
  function WavePlan(i: nat, n: nat, c: nat, cooldown: nat): seq<Event>
    requires 1 <= c
    decreases n - i
  {
    if i < n then WaveStep(i, n, c, cooldown) + WavePlan(i + c, n, c, cooldown) else []
  }

  /** Everything `benchmarkRPC` does before computing the summary. */
  function Schedule(options: BenchmarkOptions): seq<Event>
    requires 1 <= options.concurrency
  {
    (if options.warmup then [WarmupRequest, Sleep(WarmupPause)] else [])
      + WavePlan(0, options.numRequests, options.concurrency, options.cooldown)
  }

  /** The sizes of the waves of `events`, in order. */
  function WaveSizes(events: seq<Event>): seq<nat> {
    if events == [] then []
    else (if events[0].Wave? then [events[0].size] else []) + WaveSizes(events[1..])
  }

  /** How many sleeps `events` holds. */
  function SleepCount(events: seq<Event>): nat {
    if events == [] then 0
    else (if events[0].Sleep? then 1 else 0) + SleepCount(events[1..])
  }

  /** The number of successful requests. */
  function Successes(outcomes: seq<Outcome>): (count: nat)
    ensures count <= |outcomes|
  {
    if outcomes == [] then 0
    else (if outcomes[0].Succeeded? then 1 else 0) + Successes(outcomes[1..])
  }

  /** The `latencies` array: the latency of every successful request, in order. */
  function Latencies(outcomes: seq<Outcome>): (r: seq<nat>)
    ensures |r| == Successes(outcomes) <= |outcomes|
  {
    if outcomes == [] then []
    else
      var last := outcomes[|outcomes| - 1];
      SuccessesOfPrefix(outcomes);
      Latencies(outcomes[..|outcomes| - 1]) + (if last.Succeeded? then [last.latency] else [])
  }

  /** The `errors` array: the cause of every failed request, in order. */
  function Errors(outcomes: seq<Outcome>): (r: seq<Cause>)
    ensures |r| == |outcomes| - Successes(outcomes)
  {
    if outcomes == [] then []
    else
      var last := outcomes[|outcomes| - 1];
      SuccessesOfPrefix(outcomes);
      Errors(outcomes[..|outcomes| - 1]) + (if last.Failed? then [last.cause] else [])
  }

  /**
   * `benchmarkRPC` over given outcomes. Requests settle in launch order here;
   * `SummaryIgnoresSettlementOrder` shows any other order gives the same summary.
   */
  method BenchmarkRpc(name: string, options: BenchmarkOptions, outcomes: seq<Outcome>, totalTime: nat)
    returns (r: Result<BenchmarkResult, BenchmarkError>, trace: seq<Event>)
    requires 1 <= options.concurrency
    requires |outcomes| == options.numRequests
    requires Latencies(outcomes) != [] ==> 0 < totalTime
    ensures trace == Schedule(options)
    ensures r == Summarize(name, Latencies(outcomes), |Latencies(outcomes)|, |Errors(outcomes)|,
                           options.numRequests, totalTime)
  {
    trace := [];
    if options.warmup {
      // The warm-up request's outcome is discarded, whatever it is.
      trace := trace + [WarmupRequest, Sleep(WarmupPause)];
    }
    var latencies, errors, successCount;
    ghost var prelude := trace;
    assert Schedule(options) == prelude
      + WavePlan(0, options.numRequests, options.concurrency, options.cooldown);
    latencies, errors, successCount, trace := RunWaves(options, outcomes, trace);
    assert latencies == Latencies(outcomes) && successCount == |Latencies(outcomes)|;
    assert |errors| == |Errors(outcomes)|;
    r := Summarize(name, latencies, successCount, |errors|, options.numRequests, totalTime);
  }

  /**
   * The loop `for (let i = 0; i < numRequests; i += concurrency)`: launch a wave,
   * settle it, and sleep `cooldown` unless the wave reached the last request.
   * `trace` is what happened before the loop.
   */
  method RunWaves(options: BenchmarkOptions, outcomes: seq<Outcome>, trace: seq<Event>)
    returns (latencies: seq<nat>, errors: seq<Cause>, successCount: nat, trace': seq<Event>)
    requires 1 <= options.concurrency
    requires |outcomes| == options.numRequests
    ensures trace' == trace + WavePlan(0, options.numRequests, options.concurrency, options.cooldown)
    ensures latencies == Latencies(outcomes) && errors == Errors(outcomes)
    ensures successCount == |latencies|
  {
    var n, c := options.numRequests, options.concurrency;
    latencies, errors, successCount, trace' := [], [], 0, trace;
    ghost var plan := WavePlan(0, n, c, options.cooldown);
    var i: nat := 0;
    while i < n
      invariant trace + plan == trace' + WavePlan(i, n, c, options.cooldown)
      invariant latencies == Latencies(outcomes[..Min(i, n)])
      invariant errors == Errors(outcomes[..Min(i, n)])
      invariant successCount == |latencies|
      decreases n - i
    {
      ghost var before := trace';
      var batchSize;
      latencies, errors, successCount, trace', batchSize :=
        RunWave(options, outcomes, i, latencies, errors, successCount, trace');
      AdvanceWave(before, i, n, c, options.cooldown);
      assert Min(i + c, n) == i + batchSize;
      i := i + c;
    }
    assert Min(i, n) == n;
    assert outcomes[..n] == outcomes;
  }

  /**
   * One turn of the loop: launch the wave of `min(concurrency, numRequests - i)`
   * requests, await them all, and sleep `cooldown` unless the wave reached the end.
   */
  method RunWave(options: BenchmarkOptions, outcomes: seq<Outcome>, i: nat,
                 latencies: seq<nat>, errors: seq<Cause>, successCount: nat, trace: seq<Event>)
    returns (latencies': seq<nat>, errors': seq<Cause>, successCount': nat, trace': seq<Event>, batchSize: nat)
    requires |outcomes| == options.numRequests && i < options.numRequests
    requires latencies == Latencies(outcomes[..i]) && errors == Errors(outcomes[..i])
    requires successCount == |latencies|
    ensures batchSize == Min(options.concurrency, options.numRequests - i)
    ensures trace' == trace + WaveStep(i, options.numRequests, options.concurrency, options.cooldown)
    ensures latencies' == Latencies(outcomes[..i + batchSize])
    ensures errors' == Errors(outcomes[..i + batchSize])
    ensures successCount' == |latencies'|
  {
    var n := options.numRequests;
    batchSize := Min(options.concurrency, n - i);
    trace' := trace + [Wave(i, batchSize)];
    latencies', errors', successCount' := SettleWave(outcomes, i, batchSize, latencies, errors, successCount);
    if i + batchSize < n {
      trace' := trace' + [Sleep(options.cooldown)];
    }
  }

  lemma AdvanceWave(done: seq<Event>, i: nat, n: nat, c: nat, cooldown: nat)
    requires 1 <= c && i < n
    ensures done + WavePlan(i, n, c, cooldown)
         == (done + WaveStep(i, n, c, cooldown)) + WavePlan(i + c, n, c, cooldown)
  {
  }

  /**
   * `await Promise.all(batch)`: each request of the wave `first .. first + size - 1`
   * appends its latency to `latencies` and counts a success, or appends its failure
   * to `errors`.
   */
  method SettleWave(outcomes: seq<Outcome>, first: nat, size: nat,
                    latencies: seq<nat>, errors: seq<Cause>, successCount: nat)
    returns (latencies': seq<nat>, errors': seq<Cause>, successCount': nat)
    requires first + size <= |outcomes|
    requires latencies == Latencies(outcomes[..first]) && errors == Errors(outcomes[..first])
    requires successCount == |latencies|
    ensures latencies' == Latencies(outcomes[..first + size])
    ensures errors' == Errors(outcomes[..first + size])
    ensures successCount' == |latencies'|
  {
    latencies', errors', successCount' := latencies, errors, successCount;
    var j := 0;
    while j < size
      invariant 0 <= j <= size
      invariant latencies' == Latencies(outcomes[..first + j])
      invariant errors' == Errors(outcomes[..first + j])
      invariant successCount' == |latencies'|
    {
      RecordOutcome(outcomes, first + j);
      var outcome := outcomes[first + j];
      if outcome.Succeeded? {
        latencies' := latencies' + [outcome.latency];
        successCount' := successCount' + 1;
      } else {
        errors' := errors' + [outcome.cause];
      }
      j := j + 1;
    }
  }

  // ---------------------------------------------------------------------
  // Outcome bookkeeping
  // ---------------------------------------------------------------------

  lemma {:induction false} SuccessesOfPrefix(outcomes: seq<Outcome>)
    requires outcomes != []
    ensures var last := outcomes[|outcomes| - 1];
            Successes(outcomes) == Successes(outcomes[..|outcomes| - 1]) + (if last.Succeeded? then 1 else 0)
  {
    if |outcomes| > 1 {
      assert outcomes[1..][..|outcomes| - 2] == outcomes[..|outcomes| - 1][1..];
      SuccessesOfPrefix(outcomes[1..]);
    }
  }

  /** Settling request `k` appends its latency or its cause, and nothing else. */
  lemma RecordOutcome(outcomes: seq<Outcome>, k: nat)
    requires k < |outcomes|
    ensures Latencies(outcomes[..k + 1])
         == Latencies(outcomes[..k]) + (if outcomes[k].Succeeded? then [outcomes[k].latency] else [])
    ensures Errors(outcomes[..k + 1])
         == Errors(outcomes[..k]) + (if outcomes[k].Failed? then [outcomes[k].cause] else [])
  {
    assert outcomes[..k + 1][..k] == outcomes[..k];
  }

  /** The recorded latencies are exactly those of the successful requests. */
  lemma {:induction false} LatenciesAreSuccesses(outcomes: seq<Outcome>, d: nat)
    ensures d in Latencies(outcomes) <==> Succeeded(d) in outcomes
  {
    if outcomes != [] {
      var init := outcomes[..|outcomes| - 1];
      LatenciesAreSuccesses(init, d);
      assert outcomes == init + [outcomes[|outcomes| - 1]];
    }
  }

  /** With no successful request the run fails with `NoSuccessfulRequests` and reports nothing else. */
  lemma NoSuccessNoSummary(name: string, outcomes: seq<Outcome>, totalTime: nat)
    requires Latencies(outcomes) != [] ==> 0 < totalTime
    ensures var r := Summarize(name, Latencies(outcomes), |Latencies(outcomes)|, |Errors(outcomes)|,
                               |outcomes|, totalTime);
            r == Err(NoSuccessfulRequests) <==> forall k :: 0 <= k < |outcomes| ==> outcomes[k].Failed?
  {
    if Latencies(outcomes) != [] {
      var d := Latencies(outcomes)[0];
      LatenciesAreSuccesses(outcomes, d);
    } else {
      forall k | 0 <= k < |outcomes| ensures outcomes[k].Failed? {
        if outcomes[k].Succeeded? {
          LatenciesAreSuccesses(outcomes, outcomes[k].latency);
        }
      }
    }
  }

  // ---------------------------------------------------------------------
  // The wave schedule
  // ---------------------------------------------------------------------

  /** A wave is short only when it is the last one: otherwise a cooldown and the next full-position wave follow. */
  lemma WavePlanUnfold(i: nat, n: nat, c: nat, cooldown: nat)
    requires 1 <= c && i < n
    ensures WavePlan(i, n, c, cooldown)
         == if i + c < n then [Wave(i, c), Sleep(cooldown)] + WavePlan(i + c, n, c, cooldown)
            else [Wave(i, n - i)]
  {
  }

  lemma MulAtLeast(a: int, c: int)
    requires 1 <= a && 1 <= c
    ensures c <= a * c
  {
  }

  /** Euclidean division has one quotient: `m == q * c + r` with `0 <= r < c` gives `m / c == q`. */
  lemma DivUnique(m: int, c: int, q: int, r: int)
    requires 1 <= c && 0 <= r < c && m == q * c + r
    ensures m / c == q
  {
    var q', r' := m / c, m % c;
    assert (q' - q) * c == r - r';
    if q' > q {
      MulAtLeast(q' - q, c);
    } else if q' < q {
      MulAtLeast(q - q', c);
    }
  }

  lemma DivStep(x: nat, c: nat)
    requires 1 <= c
    ensures (x + c) / c == x / c + 1
  {
    DivUnique(x + c, c, x / c + 1, x % c);
  }

  /** The number of waves is `ceil((n - i) / c)`. */
  lemma {:induction false} WaveCount(i: nat, n: nat, c: nat, cooldown: nat)
    requires 1 <= c
    ensures |WaveSizes(WavePlan(i, n, c, cooldown))| == if i < n then (n - i + c - 1) / c else 0
    decreases n - i
  {
    if i < n {
      WavePlanUnfold(i, n, c, cooldown);
      WaveCount(i + c, n, c, cooldown);
      var plan := WavePlan(i, n, c, cooldown);
      if i + c < n {
        assert plan[1..][1..] == WavePlan(i + c, n, c, cooldown);
        DivStep(n - (i + c) + c - 1, c);
      } else {
        assert plan[1..] == [];
        DivUnique(n - i + c - 1, c, 1, n - i - 1);
      }
    }
  }

  /** Every wave holds between 1 and `c` requests, and every wave but the last holds exactly `c`. */
  lemma {:induction false} WaveSizeBounds(i: nat, n: nat, c: nat, cooldown: nat)
    requires 1 <= c
    ensures var sizes := WaveSizes(WavePlan(i, n, c, cooldown));
            && (forall k :: 0 <= k < |sizes| ==> 1 <= sizes[k] <= c)
            && (forall k :: 0 <= k < |sizes| - 1 ==> sizes[k] == c)
    decreases n - i
  {
    if i < n {
      WavePlanUnfold(i, n, c, cooldown);
      WaveSizeBounds(i + c, n, c, cooldown);
      var plan := WavePlan(i, n, c, cooldown);
      if i + c < n {
        assert plan[1..][1..] == WavePlan(i + c, n, c, cooldown);
        assert WaveSizes(plan) == [c] + WaveSizes(WavePlan(i + c, n, c, cooldown));
      } else {
        assert plan[1..] == [];
        assert WaveSizes(plan) == [n - i];
      }
    }
  }

  /** The wave sizes add up to the number of requests from `i` on. */
  lemma {:induction false} WaveSizesSum(i: nat, n: nat, c: nat, cooldown: nat)
    requires 1 <= c
    ensures Sum(WaveSizes(WavePlan(i, n, c, cooldown))) == if i < n then n - i else 0
    decreases n - i
  {
    if i < n {
      WavePlanUnfold(i, n, c, cooldown);
      WaveSizesSum(i + c, n, c, cooldown);
      var plan := WavePlan(i, n, c, cooldown);
      if i + c < n {
        assert plan[1..][1..] == WavePlan(i + c, n, c, cooldown);
        var rest := WaveSizes(WavePlan(i + c, n, c, cooldown));
        assert WaveSizes(plan) == [c] + rest;
        assert ([c] + rest)[1..] == rest;
      } else {
        assert plan[1..] == [];
        assert WaveSizes(plan) == [n - i];
      }
    }
  }

  /** A cooldown runs between waves and never after the last: `waves - 1` of them. */
  lemma {:induction false} CooldownCount(i: nat, n: nat, c: nat, cooldown: nat)
    requires 1 <= c
    ensures var plan := WavePlan(i, n, c, cooldown);
            SleepCount(plan) == if i < n then |WaveSizes(plan)| - 1 else 0
    decreases n - i
  {
    if i < n {
      WavePlanUnfold(i, n, c, cooldown);
      CooldownCount(i + c, n, c, cooldown);
      WaveCount(i + c, n, c, cooldown);
      var plan := WavePlan(i, n, c, cooldown);
      if i + c < n {
        assert plan[1..][1..] == WavePlan(i + c, n, c, cooldown);
      } else {
        assert plan[1..] == [];
      }
    }
  }

  /** Waves and cooldowns alternate, starting and ending with a wave; the last wave ends at `n`. */
  lemma {:induction false} WavesAlternate(i: nat, n: nat, c: nat, cooldown: nat)
    requires 1 <= c
    ensures var plan := WavePlan(i, n, c, cooldown);
            && (forall k :: 0 <= k < |plan| ==> (plan[k].Wave? <==> k % 2 == 0))
            && (plan != [] ==> plan[|plan| - 1].Wave? && plan[|plan| - 1].first + plan[|plan| - 1].size == n)
    decreases n - i
  {
    if i < n {
      WavePlanUnfold(i, n, c, cooldown);
      WavesAlternate(i + c, n, c, cooldown);
      var plan := WavePlan(i, n, c, cooldown);
      if i + c < n {
        var rest := WavePlan(i + c, n, c, cooldown);
        assert plan == [Wave(i, c), Sleep(cooldown)] + rest;
        forall k | 2 <= k < |plan| ensures plan[k].Wave? <==> k % 2 == 0 {
          assert plan[k] == rest[k - 2];
          assert (k - 2) % 2 == k % 2;
        }
        assert plan[|plan| - 1] == rest[|rest| - 1];
      }
    }
  }

  /**
   * The first wave starts at `i` and each wave starts where the previous one
   * ended: the waves cover the requests from `i` on in order, without gap or overlap.
   */
  lemma {:induction false} WavesContiguous(i: nat, n: nat, c: nat, cooldown: nat)
    requires 1 <= c
    ensures var plan := WavePlan(i, n, c, cooldown);
            && (plan != [] ==> plan[0] == Wave(i, plan[0].size))
            && (forall k :: 0 <= k < |plan| - 2 && plan[k].Wave? ==>
                  plan[k + 2].Wave? && plan[k + 2].first == plan[k].first + plan[k].size)
    decreases n - i
  {
    if i < n {
      WavePlanUnfold(i, n, c, cooldown);
      WavesContiguous(i + c, n, c, cooldown);
      var plan := WavePlan(i, n, c, cooldown);
      if i + c < n {
        var rest := WavePlan(i + c, n, c, cooldown);
        assert forall k :: 2 <= k < |plan| ==> plan[k] == rest[k - 2];
      }
    }
  }

  lemma {:induction false} CountsOfConcat(a: seq<Event>, b: seq<Event>)
    ensures WaveSizes(a + b) == WaveSizes(a) + WaveSizes(b)
    ensures SleepCount(a + b) == SleepCount(a) + SleepCount(b)
  {
    if a == [] {
      assert a + b == b;
    } else {
      assert (a + b)[0] == a[0];
      assert (a + b)[1..] == a[1..] + b;
      CountsOfConcat(a[1..], b);
    }
  }

  /**
   * The whole run: `ceil(numRequests / concurrency)` waves whose sizes add up to
   * `numRequests`, one cooldown between consecutive waves, and one more pause
   * after the warm-up request when there is one.
   */
  lemma ScheduleCounts(options: BenchmarkOptions)
    requires 1 <= options.concurrency
    ensures var n, c := options.numRequests, options.concurrency;
            var waves := |WaveSizes(Schedule(options))|;
            && waves == (n + c - 1) / c
            && Sum(WaveSizes(Schedule(options))) == n
            && SleepCount(Schedule(options)) == (if 0 < n then waves - 1 else 0) + (if options.warmup then 1 else 0)
  {
    var n, c, d := options.numRequests, options.concurrency, options.cooldown;
    var prelude: seq<Event> := if options.warmup then [WarmupRequest, Sleep(WarmupPause)] else [];
    CountsOfConcat(prelude, WavePlan(0, n, c, d));
    assert WaveSizes(prelude) == [] && SleepCount(prelude) == (if options.warmup then 1 else 0);
    assert WaveSizes(Schedule(options)) == WaveSizes(WavePlan(0, n, c, d));
    WaveCount(0, n, c, d);
    WaveSizesSum(0, n, c, d);
    CooldownCount(0, n, c, d);
    if n == 0 {
      DivUnique(c - 1, c, 0, c - 1);
    }
  }

  /** The concrete case of 7 requests at concurrency 3: waves of 3, 3 and 1, with two cooldowns. */
  lemma SevenRequestsInWavesOfThree(cooldown: nat)
    ensures WavePlan(0, 7, 3, cooldown)
         == [Wave(0, 3), Sleep(cooldown), Wave(3, 3), Sleep(cooldown), Wave(6, 1)]
  {
    WavePlanUnfold(0, 7, 3, cooldown);
    WavePlanUnfold(3, 7, 3, cooldown);
    WavePlanUnfold(6, 7, 3, cooldown);
  }
}
