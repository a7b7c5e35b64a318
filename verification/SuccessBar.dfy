/** The success bar of `consensus_engine/d108_evaluator.py`: profit by bootstrap, consistency by
week, and survivability by a one-pass scan of drawdown and losing streak.
*/
module SuccessBar {
  import opened Wrappers
  import opened Rationals
  import opened TradeWeeks
  import opened BlockBootstrap

  const WINNING_WEEK_FRACTION_REQUIRED := 0.60
  const DRAWDOWN_RECOVERY_WINNING_WEEKS := 6.0

  /** Some week, and some trade in each. */
  predicate Usable(groups: seq<seq<real>>) {
    groups != [] && forall i | 0 <= i < |groups| :: groups[i] != []
  }

  // ----- The bootstrap's loops --------------------------------------------

  /** Random starts for `n` weeks: at least one resample, each with a start for every block. */
  predicate StartsFit(starts: seq<seq<nat>>, length: nat, n: nat)
    requires length > 0
  {
    starts != [] && forall row | 0 <= row < |starts| ::
      |starts[row]| == Blocks(n, length) && forall b | 0 <= b < |starts[row]| :: starts[row][b] < n
  }

  method ResampleMean(groups: seq<seq<real>>, starts: seq<nat>, length: nat) returns (mean: real)
    requires Usable(groups)
    requires length > 0 && |starts| == Blocks(|groups|, length)
    ensures mean == Statistic(groups, starts, length)
  {
    var n := |groups|;
    var indexes: seq<nat> := [];
    for b := 0 to |starts|
      invariant indexes == AllBlocks(starts[..b], length, n)
    {
      assert starts[..b + 1][..b] == starts[..b];
      indexes := indexes + Block(starts[b], length, n);
    }
    assert starts[..|starts|] == starts;
    BlocksFill(starts, length, n);
    BlocksCover(n, length);
    indexes := indexes[..n];
    assert indexes == Indexes(starts, length, n);
    ghost var picked := Picked(groups, indexes);
    var total: real, count: nat := 0.0, 0;
    for k := 0 to n
      invariant Tally(count, total) == TallyAll(picked[..k])
    {
      assert picked[..k + 1] == picked[..k] + [picked[k]];
      TallyAppends(picked[..k], picked[k]);
      assert indexes[k] in indexes;
      var values := groups[indexes[k]];
      total := total + Sum(values);
      count := count + |values|;
    }
    assert picked[..n] == picked;
    SomeTrades(picked);
    mean := total / (count as real);
  }

  function Statistics(groups: seq<seq<real>>, starts: seq<seq<nat>>, length: nat): seq<real>
    requires Usable(groups)
    requires length > 0 && StartsFit(starts, length, |groups|)
  {
    seq(|starts|, row requires 0 <= row < |starts| => Statistic(groups, starts[row], length))
  }

  method Bootstrap(groups: seq<seq<real>>, starts: seq<seq<nat>>, length: nat) returns (stats: array<real>)
    requires Usable(groups)
    requires length > 0 && StartsFit(starts, length, |groups|)
    ensures fresh(stats) && stats[..] == Statistics(groups, starts, length)
  {
    stats := new real[|starts|];
    for row := 0 to |starts|
      invariant forall k | 0 <= k < row :: stats[k] == Statistic(groups, starts[k], length)
    {
      stats[row] := ResampleMean(groups, starts[row], length);
    }
  }

  /** The bound of any bootstrap lies between the smallest and the largest result. */
  lemma BoundWithin(groups: seq<seq<real>>, starts: seq<seq<nat>>, length: nat, low: real, high: real)
    requires Usable(groups)
    requires length > 0 && StartsFit(starts, length, |groups|)
    requires Within(groups, low, high)
    ensures low <= LowerBound(Statistics(groups, starts, length)) <= high
  {
    var stats := Statistics(groups, starts, length);
    LowerBoundIsOne(stats);
    var row :| 0 <= row < |stats| && stats[row] == LowerBound(stats);
    StatisticWithin(groups, starts[row], length, low, high);
  }

  /** With no more weeks than a block is long, the bound is the plain mean for any random starts. */
  lemma BoundIsMean(groups: seq<seq<real>>, starts: seq<seq<nat>>, length: nat)
    requires Usable(groups)
    requires length >= |groups| && StartsFit(starts, length, |groups|)
    ensures TallyAll(groups).count > 0 && LowerBound(Statistics(groups, starts, length)) == Mean(TallyAll(groups))
  {
    var stats := Statistics(groups, starts, length);
    LowerBoundIsOne(stats);
    var row :| 0 <= row < |stats| && stats[row] == LowerBound(stats);
    BlocksCover(|groups|, length);
    LongBlockGivesMean(groups, starts[row], length);
  }

  // ----- The one-pass scan ------------------------------------------------

  function Prefix(results: seq<real>, k: nat): real
    requires k <= |results|
  {
    Sum(results[..k])
  }

  /** The largest fall from any running total to any later one, the empty total included. */
  ghost predicate IsWorstDrawdown(results: seq<real>, until: nat, worst: real)
    requires until <= |results|
  {
    && (exists i, j :: 0 <= i <= j <= until && worst == Prefix(results, i) - Prefix(results, j))
    && (forall i, j | 0 <= i <= j <= until :: Prefix(results, i) - Prefix(results, j) <= worst)
  }

  predicate LosingRun(results: seq<real>, from: nat, to: nat)
    requires from <= to <= |results|
  {
    forall k | from <= k < to :: results[k] < 0.0
  }

  /** The length of the longest run of losing trades. */
  ghost predicate IsWorstStreak(results: seq<real>, until: nat, worst: nat)
    requires until <= |results|
  {
    && (exists from, to :: 0 <= from <= to <= until && LosingRun(results, from, to) && worst == to - from)
    && (forall from, to | 0 <= from <= to <= until && LosingRun(results, from, to) :: to - from <= worst)
  }

  ghost predicate IsPeak(results: seq<real>, k: nat, peak: real)
    requires k <= |results|
  {
    && (exists i :: 0 <= i <= k && peak == Prefix(results, i))
    && (forall i | 0 <= i <= k :: Prefix(results, i) <= peak)
  }

  /** Where the scan's three drawdown variables stand after `k` trades. */
  ghost predicate DrawdownSoFar(results: seq<real>, k: nat, cumulative: real, peak: real, worst: real)
    requires k <= |results|
  {
    && cumulative == Prefix(results, k)
    && IsPeak(results, k, peak)
    && IsWorstDrawdown(results, k, worst)
  }

  /** Where its two streak variables stand. */
  ghost predicate StreakSoFar(results: seq<real>, k: nat, current: nat, worst: nat)
    requires k <= |results|
  {
    && current <= k && LosingRun(results, k - current, k)
    && (current < k ==> results[k - current - 1] >= 0.0)
    && IsWorstStreak(results, k, worst)
  }

  method Scan(results: seq<real>) returns (worstDrawdown: real, worstStreak: nat)
    ensures IsWorstDrawdown(results, |results|, worstDrawdown) && worstDrawdown >= 0.0
    ensures IsWorstStreak(results, |results|, worstStreak)
  {
    hide DrawdownSoFar, StreakSoFar, IsWorstDrawdown, IsWorstStreak;
    var cumulative, peak := 0.0, 0.0;
    var currentStreak: nat := 0;
    worstDrawdown, worstStreak := 0.0, 0;
    ScanStarts(results);
    for k := 0 to |results|
      invariant DrawdownSoFar(results, k, cumulative, peak, worstDrawdown) && worstDrawdown >= 0.0
      invariant StreakSoFar(results, k, currentStreak, worstStreak)
    {
      DrawdownStep(results, k, cumulative, peak, worstDrawdown);
      StreakStep(results, k, currentStreak, worstStreak);
      cumulative := cumulative + results[k];
      peak := Max(peak, cumulative);
      worstDrawdown := Max(worstDrawdown, peak - cumulative);
      if results[k] < 0.0 {
        currentStreak := currentStreak + 1;
        worstStreak := if currentStreak > worstStreak then currentStreak else worstStreak;
      } else {
        currentStreak := 0;
      }
    }
    ScanEnds(results, cumulative, peak, worstDrawdown, currentStreak, worstStreak);
  }

  lemma ScanEnds(results: seq<real>, cumulative: real, peak: real, drawdown: real, current: nat, streak: nat)
    requires DrawdownSoFar(results, |results|, cumulative, peak, drawdown)
    requires StreakSoFar(results, |results|, current, streak)
    ensures IsWorstDrawdown(results, |results|, drawdown) && IsWorstStreak(results, |results|, streak)
  {
    hide IsWorstDrawdown, IsWorstStreak;
  }

  lemma ScanStarts(results: seq<real>)
    ensures DrawdownSoFar(results, 0, 0.0, 0.0, 0.0) && StreakSoFar(results, 0, 0, 0)
  {
    assert Prefix(results, 0) == 0.0;
    assert Prefix(results, 0) - Prefix(results, 0) == 0.0;
    assert LosingRun(results, 0, 0);
  }

  lemma PrefixStep(results: seq<real>, k: nat)
    requires k < |results|
    ensures Prefix(results, k + 1) == Prefix(results, k) + results[k]
  {
    assert results[..k + 1][..k] == results[..k];
  }

  lemma DrawdownStep(results: seq<real>, k: nat, cumulative: real, peak: real, worst: real)
    requires k < |results| && DrawdownSoFar(results, k, cumulative, peak, worst)
    ensures var total := cumulative + results[k];
      var top := Max(peak, total);
      DrawdownSoFar(results, k + 1, total, top, Max(worst, top - total))
  {
    hide Prefix, IsPeak, IsWorstDrawdown;
    PrefixStep(results, k);
    PeakGrows(results, k, peak);
    WorstGrows(results, k, worst, Max(peak, cumulative + results[k]));
  }

  lemma PeakGrows(results: seq<real>, k: nat, peak: real)
    requires k < |results| && IsPeak(results, k, peak)
    ensures IsPeak(results, k + 1, Max(peak, Prefix(results, k + 1)))
  {
    hide Prefix;
    var at :| 0 <= at <= k && peak == Prefix(results, at);
    assert Max(peak, Prefix(results, k + 1)) == Prefix(results, if peak < Prefix(results, k + 1) then k + 1 else at);
  }

  lemma WorstGrows(results: seq<real>, k: nat, worst: real, top: real)
    requires k < |results| && IsWorstDrawdown(results, k, worst) && IsPeak(results, k + 1, top)
    ensures IsWorstDrawdown(results, k + 1, Max(worst, top - Prefix(results, k + 1)))
  {
    hide Prefix;
    var next := Max(worst, top - Prefix(results, k + 1));
    if next == worst {
      var i, j :| 0 <= i <= j <= k && worst == Prefix(results, i) - Prefix(results, j);
      assert next == Prefix(results, i) - Prefix(results, j);
    } else {
      var at :| 0 <= at <= k + 1 && top == Prefix(results, at);
      assert next == Prefix(results, at) - Prefix(results, k + 1);
    }
  }

  lemma StreakStep(results: seq<real>, k: nat, current: nat, worst: nat)
    requires k < |results| && StreakSoFar(results, k, current, worst)
    ensures var now := if results[k] < 0.0 then current + 1 else 0;
      StreakSoFar(results, k + 1, now, if now > worst then now else worst)
  {
    var now := if results[k] < 0.0 then current + 1 else 0;
    var next := if now > worst then now else worst;
    assert LosingRun(results, k + 1 - now, k + 1);
    forall from, to | 0 <= from <= to <= k + 1 && LosingRun(results, from, to)
      ensures to - from <= next
    {
      if to == k + 1 && to > from {
        assert results[k] < 0.0;
        LongestEndingHere(results, k, current, from);
      } else if to <= k {
        assert LosingRun(results, from, to);
      }
    }
    if now <= worst {
      var from, to :| 0 <= from <= to <= k && LosingRun(results, from, to) && worst == to - from;
      assert LosingRun(results, from, to) && to <= k + 1;
    }
  }

  lemma LongestEndingHere(results: seq<real>, k: nat, current: nat, from: nat)
    requires k < |results| && current <= k && (current < k ==> results[k - current - 1] >= 0.0)
    requires from <= k && LosingRun(results, from, k + 1)
    ensures k + 1 - from <= current + 1
  {
    if current < k {
      var at := k - current - 1;
      assert results[at] >= 0.0;
      assert at < from;
    }
  }

  // ----- The evaluation ---------------------------------------------------

  function Totals(groups: seq<seq<real>>): seq<real> {
    seq(|groups|, i requires 0 <= i < |groups| => Sum(groups[i]))
  }

  function Winners(totals: seq<real>): seq<real>
    decreases |totals|
  {
    if totals == [] then []
    else
      var last := totals[|totals| - 1];
      Winners(totals[..|totals| - 1]) + if last > 0.0 then [last] else []
  }

  datatype ProfitCheck = ProfitCheck(
    tradeCount: nat, meanR: real, primary: real, sensitivities: seq<real>, reviewRequired: bool, passed: bool)

  datatype ConsistencyCheck = ConsistencyCheck(weekCount: nat, winningWeeks: nat, passed: bool)

  datatype SurvivabilityCheck = SurvivabilityCheck(
    worstDrawdown: real, averageWinningWeek: Option<real>, passed: bool, worstStreak: nat)

  datatype Evaluation = Evaluation(
    profit: ProfitCheck, consistency: ConsistencyCheck, survivability: SurvivabilityCheck, passed: bool)

  datatype EvaluationError = NoTrades

  /** One block length to resample with, and its random starts. */
  datatype Resampling = Resampling(length: nat, starts: seq<seq<nat>>) {
    predicate Fits(n: nat) { length > 0 && StartsFit(starts, length, n) }
  }

  predicate AllFit(resamplings: seq<Resampling>, n: nat) {
    forall i | 0 <= i < |resamplings| :: resamplings[i].Fits(n)
  }

  function Bound(groups: seq<seq<real>>, resampling: Resampling): real
    requires Usable(groups) && resampling.Fits(|groups|)
  {
    LowerBound(Statistics(groups, resampling.starts, resampling.length))
  }

  function Bounds(groups: seq<seq<real>>, resamplings: seq<Resampling>): seq<real>
    requires Usable(groups) && AllFit(resamplings, |groups|)
  {
    seq(|resamplings|, i requires 0 <= i < |resamplings| => Bound(groups, resamplings[i]))
  }

  method LowerBoundOf(groups: seq<seq<real>>, resampling: Resampling) returns (bound: real)
    requires Usable(groups) && resampling.Fits(|groups|)
    ensures bound == Bound(groups, resampling)
  {
    var stats := Bootstrap(groups, resampling.starts, resampling.length);
    bound := LowerBound(stats[..]);
  }

  predicate AllAbove(bounds: seq<real>) { forall i | 0 <= i < |bounds| :: bounds[i] > 0.0 }

  /** Profit passes when every bound is above zero: a disagreement with the primary bound sends it
      to review, and then it does not pass. */
  method CheckProfit(
      results: seq<real>, groups: seq<seq<real>>, primary: Resampling, sensitivities: seq<Resampling>)
    returns (check: ProfitCheck)
    requires results != [] && Usable(groups) && primary.Fits(|groups|) && AllFit(sensitivities, |groups|)
    ensures check.tradeCount == |results| && check.meanR == Mean(TallyOf(results))
    ensures check.primary == Bound(groups, primary) && check.sensitivities == Bounds(groups, sensitivities)
    ensures check.reviewRequired <==> exists i ::
      0 <= i < |check.sensitivities| && (check.sensitivities[i] > 0.0) != (check.primary > 0.0)
    ensures check.passed <==> check.primary > 0.0 && AllAbove(check.sensitivities)
  {
    hide Bound;
    var bound := LowerBoundOf(groups, primary);
    var bounds, review := [], false;
    for i := 0 to |sensitivities|
      invariant |bounds| == i && bounds == Bounds(groups, sensitivities)[..i]
      invariant review <==> exists k :: 0 <= k < i && (bounds[k] > 0.0) != (bound > 0.0)
    {
      var next := LowerBoundOf(groups, sensitivities[i]);
      assert Bounds(groups, sensitivities)[..i + 1] == bounds + [next];
      ghost var before := bounds;
      bounds := bounds + [next];
      review := review || (next > 0.0) != (bound > 0.0);
      assert bounds[i] == next && forall k | 0 <= k < i :: bounds[k] == before[k];
    }
    assert bounds == Bounds(groups, sensitivities);
    check := ProfitCheck(|results|, Mean(TallyOf(results)), bound, bounds, review, bound > 0.0 && !review);
  }

  /** The weeks, by their position, whose results sum to more than nothing. */
  function WonWeeks(groups: seq<seq<real>>): set<nat> { set i | 0 <= i < |groups| && Sum(groups[i]) > 0.0 }

  lemma {:induction false} WinnersCounted(groups: seq<seq<real>>)
    ensures |Winners(Totals(groups))| == |WonWeeks(groups)|
    decreases |groups|
  {
    if groups != [] {
      var n := |groups| - 1;
      WinnersCounted(groups[..n]);
      assert Totals(groups)[..n] == Totals(groups[..n]) && Totals(groups)[n] == Sum(groups[n]);
      assert WonWeeks(groups) == WonWeeks(groups[..n]) + if Sum(groups[n]) > 0.0 then {n} else {};
    }
  }

  /** The winning weeks averaged are exactly the totals above zero, each as often as a week had it. */
  lemma {:induction false} WinnersAreAll(totals: seq<real>, total: real)
    ensures multiset(Winners(totals))[total] == if total > 0.0 then multiset(totals)[total] else 0
    decreases |totals|
  {
    if totals != [] {
      var n := |totals| - 1;
      WinnersAreAll(totals[..n], total);
      assert totals == totals[..n] + [totals[n]];
    }
  }

  method CheckConsistency(groups: seq<seq<real>>) returns (check: ConsistencyCheck)
    requires groups != []
    ensures check.weekCount == |groups| && check.winningWeeks == |WonWeeks(groups)|
    ensures check.passed <==> 10 * check.winningWeeks >= 6 * check.weekCount
  {
    WinnersCounted(groups);
    var winners := Winners(Totals(groups));
    FractionReached(|winners|, |groups|);
    check := ConsistencyCheck(|groups|, |winners|,
      (|winners| as real) / (|groups| as real) >= WINNING_WEEK_FRACTION_REQUIRED);
  }

  /** Survivability passes without a drawdown, or when six average winning weeks make up the worst. */
  method CheckSurvivability(results: seq<real>, groups: seq<seq<real>>) returns (check: SurvivabilityCheck)
    ensures IsWorstDrawdown(results, |results|, check.worstDrawdown)
    ensures IsWorstStreak(results, |results|, check.worstStreak)
    ensures check.averageWinningWeek ==
      if Winners(Totals(groups)) == [] then None else Some(Mean(TallyOf(Winners(Totals(groups)))))
    ensures check.passed <==>
      (check.worstDrawdown == 0.0
       || (check.averageWinningWeek.Some? && Recovers(check.worstDrawdown, check.averageWinningWeek.value)))
  {
    hide IsWorstDrawdown, IsWorstStreak;
    var worstDrawdown, worstStreak := Scan(results);
    var winners := Winners(Totals(groups));
    var average := if winners == [] then None else Some(Mean(TallyOf(winners)));
    if average.Some? {
      WinnersAreWon(Totals(groups));
      MeanAbove(winners);
    }
    var passed;
    if worstDrawdown <= 0.0 {
      passed := true;
    } else if average.None? || average.value <= 0.0 {
      passed := false;
    } else {
      WeeksToRecover(worstDrawdown, average.value);
      passed := worstDrawdown / average.value <= DRAWDOWN_RECOVERY_WINNING_WEEKS;
    }
    check := SurvivabilityCheck(worstDrawdown, average, passed, worstStreak);
  }

  predicate Recovers(drawdown: real, average: real) {
    drawdown <= 6.0 * average
  }

  lemma SomeWeeks(trades: seq<Trade>)
    requires trades != []
    ensures Grouped(trades) != []
  {
    GroupingConserves(trades);
    NothingTallies([]);
    hide Grouped, TallyAll;
    assert TallyAll(Grouped(trades)).count == |trades|;
  }

  /** What one evaluation finds; `groups` are the weeks' results in order. */
  ghost predicate Evaluates(
      r: Evaluation, trades: seq<Trade>, groups: seq<seq<real>>, primary: Resampling, sensitivities: seq<Resampling>)
    requires trades != [] && Usable(groups) && primary.Fits(|groups|) && AllFit(sensitivities, |groups|)
  {
    var results := Results(Chronological(trades));
    && r.profit.tradeCount == |trades| && r.profit.meanR == Mean(TallyOf(Results(trades)))
    && r.profit.primary == Bound(groups, primary) && r.profit.sensitivities == Bounds(groups, sensitivities)
    && (r.profit.passed <==> r.profit.primary > 0.0 && AllAbove(r.profit.sensitivities))
    && r.consistency.weekCount == |groups| && r.consistency.winningWeeks == |WonWeeks(groups)|
    && (r.consistency.passed <==> 10 * r.consistency.winningWeeks >= 6 * |groups|)
    && IsWorstDrawdown(results, |results|, r.survivability.worstDrawdown)
    && IsWorstStreak(results, |results|, r.survivability.worstStreak)
    && r.survivability.averageWinningWeek ==
       (if Winners(Totals(groups)) == [] then None else Some(Mean(TallyOf(Winners(Totals(groups))))))
    && (r.survivability.passed <==>
        (r.survivability.worstDrawdown == 0.0
         || (r.survivability.averageWinningWeek.Some?
             && Recovers(r.survivability.worstDrawdown, r.survivability.averageWinningWeek.value))))
    && (r.passed <==> r.profit.passed && r.consistency.passed && r.survivability.passed)
  }

  method EvaluateD108(trades: seq<Trade>, primary: Resampling, sensitivities: seq<Resampling>)
    returns (r: Result<Evaluation, EvaluationError>)
    requires trades != [] ==>
      var weeks := |Grouped(Chronological(trades))|; primary.Fits(weeks) && AllFit(sensitivities, weeks)
    ensures r.Err? <==> trades == []
    ensures r.Ok? ==> var groups := Grouped(Chronological(trades));
      Usable(groups) && Evaluates(r.value, trades, groups, primary, sensitivities)
    ensures r.Ok? && |Grouped(Chronological(trades))| <= primary.length ==>
      r.value.profit.primary == r.value.profit.meanR
  {
    hide Chronological, Grouped, Bound, Bounds, IsWorstDrawdown, IsWorstStreak, Statistics;
    hide Winners, WonWeeks, Totals, Mean, Recovers, AllFit, Resampling.Fits, AllAbove;
    if trades == [] {
      return Err(NoTrades);
    }
    var ordered := Chronological(trades);
    ChronologicalSorts(trades);
    var groups := Grouped(ordered);
    NoEmptyGroup(ordered);
    SomeWeeks(ordered);
    var results := Results(ordered);
    var profit := CheckProfit(results, groups, primary, sensitivities);
    var consistency := CheckConsistency(groups);
    var survivability := CheckSurvivability(results, groups);
    if |groups| <= primary.length { ShortSampleBoundIsMean(trades, primary); }
    var passed := profit.passed && consistency.passed && survivability.passed;
    return Ok(Evaluation(profit, consistency, survivability, passed));
  }

  lemma FractionReached(part: nat, whole: nat)
    requires whole > 0
    ensures (part as real) / (whole as real) >= WINNING_WEEK_FRACTION_REQUIRED <==> 10 * part >= 6 * whole
  {
    DivCompare(part as real, whole as real, WINNING_WEEK_FRACTION_REQUIRED);
  }

  lemma WeeksToRecover(drawdown: real, average: real)
    requires average > 0.0
    ensures drawdown / average <= DRAWDOWN_RECOVERY_WINNING_WEEKS <==> Recovers(drawdown, average)
  {
    DivCompare(drawdown, average, DRAWDOWN_RECOVERY_WINNING_WEEKS);
  }

  lemma {:induction false} WinnersAreWon(totals: seq<real>)
    ensures forall i | 0 <= i < |Winners(totals)| :: Winners(totals)[i] > 0.0
    decreases |totals|
  {
    if totals != [] {
      WinnersAreWon(totals[..|totals| - 1]);
    }
  }

  lemma {:induction false} SumAbove(values: seq<real>)
    requires forall i | 0 <= i < |values| :: values[i] > 0.0
    ensures values != [] ==> Sum(values) > 0.0
    decreases |values|
  {
    if values != [] {
      SumAbove(values[..|values| - 1]);
    }
  }

  lemma MeanAbove(values: seq<real>)
    requires values != [] && forall i | 0 <= i < |values| :: values[i] > 0.0
    ensures Mean(TallyOf(values)) > 0.0
  {
    SumAbove(values);
    DivCompare(Sum(values), |values| as real, 0.0);
  }

  /** On a sample of no more weeks than a block is long the bound is the mean result, whatever the
      random starts: the bootstrap then adds nothing to the sign of the mean. */
  lemma ShortSampleBoundIsMean(trades: seq<Trade>, resampling: Resampling)
    requires trades != []
    requires |Grouped(Chronological(trades))| <= resampling.length
    requires resampling.Fits(|Grouped(Chronological(trades))|)
    ensures var groups := Grouped(Chronological(trades));
      Usable(groups) && Bound(groups, resampling) == Mean(TallyOf(Results(trades)))
  {
    hide Chronological, Grouped, Statistics;
    var ordered := Chronological(trades);
    ChronologicalSorts(trades);
    NoEmptyGroup(ordered);
    SomeWeeks(ordered);
    GroupingConserves(ordered);
    BoundIsMean(Grouped(ordered), resampling.starts, resampling.length);
  }
}
