/**
 * `findMaxThroughput`: raise the concurrency level from `startConcurrency` by
 * `step` while it stays at most `maxConcurrency` and fewer than three levels
 * in a row failed to improve the best throughput by more than 5%; stop at the
 * first level that aborts with too many errors.
 *
 * Measuring one level (the timed inner loop) is not modelled: its result is
 * `measure(level)`. The levels tried are strictly increasing, so each is
 * measured at most once and a function of the level loses nothing.
 */
module Search {

  /** What testing one concurrency level produced. */
  datatype Measurement = Completed(throughput: real) | TooManyErrors

  /** The loop's four variables. */
  datatype SearchState = SearchState(
    currentConcurrency: nat,
    maxThroughput: real,
    optimalConcurrency: nat,
    plateauCount: nat)

  /** A level must beat the best throughput by this factor to count as an improvement. */
  const ImprovementFactor: real := 1.05

  /** The search stops after this many levels in a row without improvement. */
  const PlateauLimit: nat := 3

  function Initial(start: nat): (s: SearchState)
    ensures s.currentConcurrency == s.optimalConcurrency == start
    ensures s.maxThroughput == 0.0 && s.plateauCount == 0
  {
    SearchState(start, 0.0, start, 0)
  }

  /** The loop guard `currentConcurrency <= maxConcurrency && plateauCount < 3`. */
  predicate Continues(s: SearchState, maxConcurrency: nat) {
    s.currentConcurrency <= maxConcurrency && s.plateauCount < PlateauLimit
  }

  /** `throughput` improves on the best so far by more than 5%. */
  predicate Improves(s: SearchState, throughput: real) {
    throughput > s.maxThroughput * ImprovementFactor
  }

  /** The state after the current level completed with `throughput`. */
  function AfterLevel(s: SearchState, throughput: real, step: nat): (s': SearchState)
    ensures s'.currentConcurrency == s.currentConcurrency + step
    ensures s'.plateauCount == 0 <==> Improves(s, throughput)
    ensures Improves(s, throughput) ==>
              s'.maxThroughput == throughput && s'.optimalConcurrency == s.currentConcurrency
    ensures !Improves(s, throughput) ==>
              && s'.maxThroughput == s.maxThroughput && s'.optimalConcurrency == s.optimalConcurrency
              && s'.plateauCount == s.plateauCount + 1
    ensures 0.0 <= s.maxThroughput ==> s.maxThroughput <= s'.maxThroughput && throughput <= s'.maxThroughput * ImprovementFactor
  {
    if Improves(s, throughput) then
      SearchState(s.currentConcurrency + step, throughput, s.currentConcurrency, 0)
    else
      SearchState(s.currentConcurrency + step, s.maxThroughput, s.optimalConcurrency, s.plateauCount + 1)
  }

  /** The state the loop ends in when started in `s`. */
  function SearchFrom(s: SearchState, maxConcurrency: nat, step: nat, measure: nat -> Measurement): SearchState
    requires 1 <= step
    decreases maxConcurrency - s.currentConcurrency
  {
    if !Continues(s, maxConcurrency) then s
    else match measure(s.currentConcurrency) {
      case TooManyErrors => s
      case Completed(t) => SearchFrom(AfterLevel(s, t, step), maxConcurrency, step, measure)
    }
  }

  /** The levels that completed and were taken into account, in order. */
  function TestedLevels(s: SearchState, maxConcurrency: nat, step: nat, measure: nat -> Measurement): seq<nat>
    requires 1 <= step
    decreases maxConcurrency - s.currentConcurrency
  {
    if !Continues(s, maxConcurrency) then []
    else match measure(s.currentConcurrency) {
      case TooManyErrors => []
      case Completed(t) =>
        [s.currentConcurrency] + TestedLevels(AfterLevel(s, t, step), maxConcurrency, step, measure)
    }
  }

  /** `findMaxThroughput`, returning `{ maxThroughput, optimalConcurrency }`. */
  method FindMaxThroughput(startConcurrency: nat, maxConcurrency: nat, step: nat, measure: nat -> Measurement)
    returns (maxThroughput: real, optimalConcurrency: nat)
    requires 1 <= step
    ensures var f := SearchFrom(Initial(startConcurrency), maxConcurrency, step, measure);
            maxThroughput == f.maxThroughput && optimalConcurrency == f.optimalConcurrency
  {
    var currentConcurrency := startConcurrency;
    maxThroughput := 0.0;
    optimalConcurrency := startConcurrency;
    var plateauCount: nat := 0;
    while currentConcurrency <= maxConcurrency && plateauCount < PlateauLimit
      invariant SearchFrom(SearchState(currentConcurrency, maxThroughput, optimalConcurrency, plateauCount),
                           maxConcurrency, step, measure)
             == SearchFrom(Initial(startConcurrency), maxConcurrency, step, measure)
      decreases maxConcurrency - currentConcurrency
    {
      var m := measure(currentConcurrency);
      if m.TooManyErrors? {
        // The level aborted: stop raising the concurrency, keep the best so far.
        break;
      }
      var throughput := m.throughput;
      if throughput > maxThroughput * ImprovementFactor {
        maxThroughput := throughput;
        optimalConcurrency := currentConcurrency;
        plateauCount := 0;
      } else {
        plateauCount := plateauCount + 1;
      }
      currentConcurrency := currentConcurrency + step;
    }
  }

  /**
   * The abort test inside a failing request of a level: when some request
   * has already succeeded and more than a second has passed, more than 30%
   * of the launched requests having failed ends the level.
   */
  function ErrorRateExceeded(successCount: nat, launched: nat, elapsedMs: real): (b: bool)
    requires successCount <= launched
    ensures b <==> 0 < successCount && elapsedMs > 1000.0 && 10 * (launched - successCount) > 3 * launched
  {
    if successCount > 0 && elapsedMs > 1000.0 then
      RatioExceeds(launched - successCount, launched);
      (launched - successCount) as real / launched as real > 0.3
    else false
  }

  lemma MulStrict(a: real, b: real, l: real)
    requires 0.0 < l && a < b
    ensures a * l < b * l
  {
  }

  lemma DivTimes(a: real, l: real)
    requires 0.0 < l
    ensures (a / l) * l == a
  {
  }

  /** `x / l > 0.3` in exact terms. */
  lemma RatioExceeds(x: nat, l: nat)
    requires 0 < l
    ensures (x as real / l as real > 0.3) <==> 10 * x > 3 * l
  {
    var q, lr := x as real / l as real, l as real;
    DivTimes(x as real, lr);
    if q > 0.3 {
      MulStrict(0.3, q, lr);
    } else if q < 0.3 {
      MulStrict(q, 0.3, lr);
    }
  }

  // ---------------------------------------------------------------------
  // Properties of the search
  // ---------------------------------------------------------------------

  /** The best throughput never decreases. */
  lemma {:induction false} MaxNeverDecreases(s: SearchState, maxConcurrency: nat, step: nat, measure: nat -> Measurement)
    requires 1 <= step && 0.0 <= s.maxThroughput
    ensures s.maxThroughput <= SearchFrom(s, maxConcurrency, step, measure).maxThroughput
    decreases maxConcurrency - s.currentConcurrency
  {
    if Continues(s, maxConcurrency) && measure(s.currentConcurrency).Completed? {
      MaxNeverDecreases(AfterLevel(s, measure(s.currentConcurrency).throughput, step), maxConcurrency, step, measure);
    }
  }

  /**
   * The reported concurrency is the one the search started from, with the best
   * unchanged, or a tested level whose throughput is the reported maximum.
   */
  lemma {:induction false} OptimalIsTested(s: SearchState, maxConcurrency: nat, step: nat, measure: nat -> Measurement)
    requires 1 <= step
    ensures var f := SearchFrom(s, maxConcurrency, step, measure);
            || (f.optimalConcurrency == s.optimalConcurrency && f.maxThroughput == s.maxThroughput)
            || (f.optimalConcurrency in TestedLevels(s, maxConcurrency, step, measure)
                && measure(f.optimalConcurrency) == Completed(f.maxThroughput))
    decreases maxConcurrency - s.currentConcurrency
  {
    if Continues(s, maxConcurrency) && measure(s.currentConcurrency).Completed? {
      var t := measure(s.currentConcurrency).throughput;
      OptimalIsTested(AfterLevel(s, t, step), maxConcurrency, step, measure);
    }
  }

  /**
   * No tested level beat the reported maximum by more than 5%, every tested
   * level lies within `maxConcurrency`, and the levels are `s.currentConcurrency
   * + k * step` in order; the search ends `|tested| * step` above where it began.
   */
  lemma {:induction false} TestedLevelsBounded(s: SearchState, maxConcurrency: nat, step: nat, measure: nat -> Measurement)
    requires 1 <= step && 0.0 <= s.maxThroughput
    ensures var f := SearchFrom(s, maxConcurrency, step, measure);
            var tested := TestedLevels(s, maxConcurrency, step, measure);
            && (forall k :: 0 <= k < |tested| ==>
                  && tested[k] == s.currentConcurrency + k * step
                  && tested[k] <= maxConcurrency
                  && measure(tested[k]).Completed?
                  && measure(tested[k]).throughput <= f.maxThroughput * ImprovementFactor)
            && f.currentConcurrency == s.currentConcurrency + |tested| * step
    decreases maxConcurrency - s.currentConcurrency
  {
    var f := SearchFrom(s, maxConcurrency, step, measure);
    if Continues(s, maxConcurrency) && measure(s.currentConcurrency).Completed? {
      var t := measure(s.currentConcurrency).throughput;
      var s' := AfterLevel(s, t, step);
      TestedLevelsBounded(s', maxConcurrency, step, measure);
      MaxNeverDecreases(s', maxConcurrency, step, measure);
      var tested := TestedLevels(s, maxConcurrency, step, measure);
      var rest := TestedLevels(s', maxConcurrency, step, measure);
      assert tested == [s.currentConcurrency] + rest;
      assert t <= f.maxThroughput * ImprovementFactor;
      forall k | 1 <= k < |tested|
        ensures tested[k] == s.currentConcurrency + k * step
      {
        assert tested[k] == rest[k - 1];
        assert (k - 1) * step + step == k * step;
      }
      assert |tested| * step == |rest| * step + step;
    }
  }

  /**
   * The search ends because the level went past `maxConcurrency`, because
   * three levels in a row did not improve, or because the current level
   * aborted; and the plateau count never passes three.
   */
  lemma {:induction false} SearchStops(s: SearchState, maxConcurrency: nat, step: nat, measure: nat -> Measurement)
    requires 1 <= step && s.plateauCount <= PlateauLimit
    ensures var f := SearchFrom(s, maxConcurrency, step, measure);
            && (maxConcurrency < f.currentConcurrency || f.plateauCount == PlateauLimit
                || measure(f.currentConcurrency) == TooManyErrors)
            && f.plateauCount <= PlateauLimit
    decreases maxConcurrency - s.currentConcurrency
  {
    if Continues(s, maxConcurrency) && measure(s.currentConcurrency).Completed? {
      SearchStops(AfterLevel(s, measure(s.currentConcurrency).throughput, step), maxConcurrency, step, measure);
    }
  }

  /** A level that aborts leaves the state as it was and adds no tested level. */
  lemma AbortReturnsPreviousBest(s: SearchState, maxConcurrency: nat, step: nat, measure: nat -> Measurement)
    requires 1 <= step && Continues(s, maxConcurrency) && measure(s.currentConcurrency) == TooManyErrors
    ensures SearchFrom(s, maxConcurrency, step, measure) == s
    ensures TestedLevels(s, maxConcurrency, step, measure) == []
  {
  }

  /** Level `m` completed without improving by more than 5% on the best throughput `best`. */
  predicate WithinPlateau(m: Measurement, best: real) {
    m.Completed? && m.throughput <= best * ImprovementFactor
  }

  /**
   * A throughput curve that is flat within 5%: the first level completes with
   * `t0 > 0` and becomes the best, and the next three levels complete with at
   * most `1.05 * t0`, so four levels are tested and the first is reported.
   */
  lemma FlatThroughputStopsAfterPlateau(start: nat, maxConcurrency: nat, step: nat, t0: real,
                                        measure: nat -> Measurement)
    requires 1 <= step && 0.0 < t0 && start + 3 * step <= maxConcurrency
    requires measure(start) == Completed(t0)
    requires WithinPlateau(measure(start + step), t0)
    requires WithinPlateau(measure(start + 2 * step), t0)
    requires WithinPlateau(measure(start + 3 * step), t0)
    ensures SearchFrom(Initial(start), maxConcurrency, step, measure)
         == SearchState(start + 4 * step, t0, start, PlateauLimit)
    ensures TestedLevels(Initial(start), maxConcurrency, step, measure)
         == [start, start + step, start + 2 * step, start + 3 * step]
  {
    var t1 := measure(start + step).throughput;
    var t2 := measure(start + 2 * step).throughput;
    var t3 := measure(start + 3 * step).throughput;
    var s1 := SearchState(start + step, t0, start, 0);
    var s2 := SearchState(start + 2 * step, t0, start, 1);
    var s3 := SearchState(start + 3 * step, t0, start, 2);
    var s4 := SearchState(start + 4 * step, t0, start, 3);
    assert AfterLevel(Initial(start), t0, step) == s1;
    assert AfterLevel(s1, t1, step) == s2;
    assert AfterLevel(s2, t2, step) == s3;
    assert AfterLevel(s3, t3, step) == s4;
    assert SearchFrom(s4, maxConcurrency, step, measure) == s4;
    assert SearchFrom(s3, maxConcurrency, step, measure) == s4;
    assert SearchFrom(s2, maxConcurrency, step, measure) == s4;
    assert SearchFrom(s1, maxConcurrency, step, measure) == s4;
    assert TestedLevels(s3, maxConcurrency, step, measure) == [start + 3 * step];
    assert TestedLevels(s2, maxConcurrency, step, measure) == [start + 2 * step, start + 3 * step];
    assert TestedLevels(s1, maxConcurrency, step, measure) == [start + step, start + 2 * step, start + 3 * step];
  }

  /**
   * A level `j` steps above the current one that aborts ends the search there:
   * no level at or above it is tested, even if it would have done better.
   */
  lemma {:induction false} AbortCapsTestedLevels(s: SearchState, maxConcurrency: nat, step: nat,
                                                 measure: nat -> Measurement, j: nat)
    requires 1 <= step
    requires measure(s.currentConcurrency + j * step) == TooManyErrors
    ensures forall level :: level in TestedLevels(s, maxConcurrency, step, measure) ==>
              level < s.currentConcurrency + j * step
    decreases maxConcurrency - s.currentConcurrency
  {
    if Continues(s, maxConcurrency) && measure(s.currentConcurrency).Completed? {
      var s' := AfterLevel(s, measure(s.currentConcurrency).throughput, step);
      assert j != 0;
      assert s'.currentConcurrency + (j - 1) * step == s.currentConcurrency + j * step;
      AbortCapsTestedLevels(s', maxConcurrency, step, measure, j - 1);
    }
  }
}
