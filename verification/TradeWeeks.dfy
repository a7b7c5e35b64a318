/** Trades in order and by calendar week, as `consensus_engine/d108_evaluator.py` groups them.

Results are exact rationals and instants whole UTC seconds; calendar weeks begin on Monday.
*/
module TradeWeeks {

  datatype Trade = Trade(r: real, closedAt: int)

  const WEEK_SECONDS := 604800
  /** From the Monday that opens the week of 1 January 1970. */
  const MONDAY_OFFSET := 259200

  function WeekOf(trade: Trade): int { (trade.closedAt + MONDAY_OFFSET) / WEEK_SECONDS }

  // ----- Totals -----------------------------------------------------------

  /** How many values there are and what they add up to. */
  datatype Tally = Tally(count: nat, total: real) {
    function Plus(other: Tally): Tally { Tally(count + other.count, total + other.total) }
  }

  const NOTHING := Tally(0, 0.0)

  lemma TalliesAdd(a: Tally, b: Tally, c: Tally)
    ensures a.Plus(b).Plus(c) == a.Plus(b.Plus(c))
    ensures a.Plus(b) == b.Plus(a) && a.Plus(NOTHING) == a
  {
  }

  function Sum(values: seq<real>): real
    decreases |values|
  {
    if values == [] then 0.0 else Sum(values[..|values| - 1]) + values[|values| - 1]
  }

  function TallyOf(values: seq<real>): Tally { Tally(|values|, Sum(values)) }

  function TallyAll(groups: seq<seq<real>>): Tally
    decreases |groups|
  {
    if groups == [] then NOTHING else TallyAll(groups[..|groups| - 1]).Plus(TallyOf(groups[|groups| - 1]))
  }

  function Results(trades: seq<Trade>): seq<real> { seq(|trades|, i requires 0 <= i < |trades| => trades[i].r) }

  function Mean(tally: Tally): real
    requires tally.count > 0
  {
    tally.total / (tally.count as real)
  }

  // ----- Trades in order, by week -----------------------------------------

  /** Stable insertion: after everything that closed no later. */
  function Inserted(trade: Trade, ordered: seq<Trade>): seq<Trade>
    decreases |ordered|
  {
    if ordered == [] || ordered[|ordered| - 1].closedAt <= trade.closedAt then ordered + [trade]
    else Inserted(trade, ordered[..|ordered| - 1]) + [ordered[|ordered| - 1]]
  }

  function Chronological(trades: seq<Trade>): seq<Trade>
    decreases |trades|
  {
    if trades == [] then [] else Inserted(trades[|trades| - 1], Chronological(trades[..|trades| - 1]))
  }

  predicate InTime(trades: seq<Trade>) {
    forall i, j | 0 <= i < j < |trades| :: trades[i].closedAt <= trades[j].closedAt
  }

  lemma {:induction false} SumAppends(a: seq<real>, x: real)
    ensures Sum(a + [x]) == Sum(a) + x
  {
    assert (a + [x])[..|a|] == a;
  }

  lemma ResultsAppend(trades: seq<Trade>, trade: Trade)
    ensures Results(trades + [trade]) == Results(trades) + [trade.r]
    ensures Sum(Results(trades + [trade])) == Sum(Results(trades)) + trade.r
  {
    assert Results(trades + [trade]) == Results(trades) + [trade.r];
    SumAppends(Results(trades), trade.r);
  }

  lemma {:induction false} InsertedSorts(trade: Trade, ordered: seq<Trade>)
    requires InTime(ordered)
    ensures var all := Inserted(trade, ordered);
      && InTime(all) && multiset(all) == multiset(ordered) + multiset{trade}
      && |all| == |ordered| + 1 && Sum(Results(all)) == Sum(Results(ordered)) + trade.r
    decreases |ordered|
  {
    hide Results, Sum;
    if ordered == [] || ordered[|ordered| - 1].closedAt <= trade.closedAt {
      ResultsAppend(ordered, trade);
    } else {
      var n := |ordered| - 1;
      var last, rest := ordered[n], Inserted(trade, ordered[..n]);
      InsertedSorts(trade, ordered[..n]);
      assert ordered == ordered[..n] + [last];
      forall x | x in rest ensures x.closedAt <= last.closedAt {
        assert x in multiset(rest);
        assert x == trade || x in ordered[..n];
      }
      ResultsAppend(rest, last);
      ResultsAppend(ordered[..n], last);
    }
  }

  /** `ordered` is `trades` in order of closing. */
  predicate SortsOut(ordered: seq<Trade>, trades: seq<Trade>) {
    && InTime(ordered) && multiset(ordered) == multiset(trades)
    && |ordered| == |trades| && Sum(Results(ordered)) == Sum(Results(trades))
  }

  lemma OneMoreSorts(ordered: seq<Trade>, trades: seq<Trade>, trade: Trade)
    requires SortsOut(ordered, trades)
    ensures SortsOut(Inserted(trade, ordered), trades + [trade])
  {
    hide Results, Sum, Inserted, InTime;
    InsertedSorts(trade, ordered);
    ResultsAppend(trades, trade);
  }

  /** The evaluator works on the same trades in order of closing. */
  lemma {:induction false} ChronologicalSorts(trades: seq<Trade>)
    ensures SortsOut(Chronological(trades), trades)
    decreases |trades|
  {
    if trades != [] {
      hide Inserted, SortsOut;
      var n := |trades| - 1;
      ChronologicalSorts(trades[..n]);
      OneMoreSorts(Chronological(trades[..n]), trades[..n], trades[n]);
      assert trades == trades[..n] + [trades[n]];
    }
  }

  /** A week goes where it belongs in a rising list, once. */
  function WithWeek(weeks: seq<int>, week: int): seq<int>
    decreases |weeks|
  {
    if weeks == [] || weeks[|weeks| - 1] < week then weeks + [week]
    else if weeks[|weeks| - 1] == week then weeks
    else WithWeek(weeks[..|weeks| - 1], week) + [weeks[|weeks| - 1]]
  }

  /** The weeks some trade closed in, in order. */
  function WeeksOf(trades: seq<Trade>): seq<int>
    decreases |trades|
  {
    if trades == [] then [] else WithWeek(WeeksOf(trades[..|trades| - 1]), WeekOf(trades[|trades| - 1]))
  }

  function InWeek(trades: seq<Trade>, week: int): seq<real>
    decreases |trades|
  {
    if trades == [] then []
    else
      var last := trades[|trades| - 1];
      InWeek(trades[..|trades| - 1], week) + if WeekOf(last) == week then [last.r] else []
  }

  function ByWeek(trades: seq<Trade>, weeks: seq<int>): seq<seq<real>> {
    seq(|weeks|, i requires 0 <= i < |weeks| => InWeek(trades, weeks[i]))
  }

  predicate RisingWeeks(weeks: seq<int>) {
    forall i, j | 0 <= i < j < |weeks| :: weeks[i] < weeks[j]
  }

  lemma {:induction false} WithWeekRises(weeks: seq<int>, week: int)
    requires RisingWeeks(weeks)
    ensures RisingWeeks(WithWeek(weeks, week))
    ensures forall w :: w in WithWeek(weeks, week) <==> w in weeks || w == week
    ensures week in weeks ==> WithWeek(weeks, week) == weeks
    decreases |weeks|
  {
    if weeks != [] {
      var n := |weeks| - 1;
      assert weeks == weeks[..n] + [weeks[n]];
      if weeks[n] > week {
        WithWeekRises(weeks[..n], week);
        var inner := WithWeek(weeks[..n], week);
        forall i | 0 <= i < |inner| ensures inner[i] < weeks[n] { assert inner[i] in inner; }
      }
    }
  }

  lemma {:induction false} WeeksRise(trades: seq<Trade>)
    ensures RisingWeeks(WeeksOf(trades))
    ensures forall w :: w in WeeksOf(trades) <==> exists i :: 0 <= i < |trades| && WeekOf(trades[i]) == w
    decreases |trades|
  {
    if trades != [] {
      var n := |trades| - 1;
      WeeksRise(trades[..n]);
      WithWeekRises(WeeksOf(trades[..n]), WeekOf(trades[n]));
      assert trades == trades[..n] + [trades[n]];
    }
  }

  lemma {:induction false} OutsideItsWeeks(trades: seq<Trade>, week: int)
    ensures InWeek(trades, week) == [] <==> forall i | 0 <= i < |trades| :: WeekOf(trades[i]) != week
    decreases |trades|
  {
    if trades != [] {
      var n := |trades| - 1;
      OutsideItsWeeks(trades[..n], week);
      assert trades == trades[..n] + [trades[n]];
    }
  }

  lemma TallyAppends(groups: seq<seq<real>>, group: seq<real>)
    ensures TallyAll(groups + [group]) == TallyAll(groups).Plus(TallyOf(group))
  {
    assert (groups + [group])[..|groups|] == groups;
  }

  lemma WeekGains(trades: seq<Trade>, trade: Trade, week: int)
    ensures TallyOf(InWeek(trades + [trade], week))
         == TallyOf(InWeek(trades, week)).Plus(if WeekOf(trade) == week then Tally(1, trade.r) else NOTHING)
  {
    assert (trades + [trade])[..|trades|] == trades;
    SumAppends(InWeek(trades, week), trade.r);
    assert InWeek(trades, week) + [] == InWeek(trades, week);
  }

  lemma LastWeekApart(trades: seq<Trade>, weeks: seq<int>)
    requires weeks != []
    ensures TallyAll(ByWeek(trades, weeks))
         == TallyAll(ByWeek(trades, weeks[..|weeks| - 1])).Plus(TallyOf(InWeek(trades, weeks[|weeks| - 1])))
  {
    var n := |weeks| - 1;
    assert ByWeek(trades, weeks) == ByWeek(trades, weeks[..n]) + [InWeek(trades, weeks[n])];
    TallyAppends(ByWeek(trades, weeks[..n]), InWeek(trades, weeks[n]));
  }

  function Gain(weeks: seq<int>, trade: Trade): Tally {
    if WeekOf(trade) in weeks then Tally(1, trade.r) else NOTHING
  }

  /** One more trade adds itself to its own week, if that week is listed. */
  lemma {:induction false} OneMoreTrade(trades: seq<Trade>, trade: Trade, weeks: seq<int>)
    requires RisingWeeks(weeks)
    ensures TallyAll(ByWeek(trades + [trade], weeks)) == TallyAll(ByWeek(trades, weeks)).Plus(Gain(weeks, trade))
    decreases |weeks|
  {
    hide ByWeek, TallyAll, RisingWeeks, Gain, Tally.Plus;
    if weeks == [] {
      NoWeeks(trades, trade);
    } else {
      LastWeekOnce(weeks, WeekOf(trade));
      OneMoreTrade(trades, trade, weeks[..|weeks| - 1]);
      LastWeekGains(trades, trade, weeks);
    }
  }

  lemma LastWeekGains(trades: seq<Trade>, trade: Trade, weeks: seq<int>)
    requires weeks != [] && RisingWeeks(weeks)
    requires var before := weeks[..|weeks| - 1];
      TallyAll(ByWeek(trades + [trade], before)) == TallyAll(ByWeek(trades, before)).Plus(Gain(before, trade))
    ensures TallyAll(ByWeek(trades + [trade], weeks)) == TallyAll(ByWeek(trades, weeks)).Plus(Gain(weeks, trade))
  {
    hide ByWeek, InWeek, TallyOf, TallyAll, WeekOf, RisingWeeks;
    LastWeekOnce(weeks, WeekOf(trade));
    LastWeekApart(trades + [trade], weeks);
    LastWeekApart(trades, weeks);
    WeekGains(trades, trade, weeks[|weeks| - 1]);
  }

  lemma NoWeeks(trades: seq<Trade>, trade: Trade)
    ensures TallyAll(ByWeek(trades + [trade], [])) == TallyAll(ByWeek(trades, [])).Plus(Gain([], trade))
  {
  }

  lemma LastWeekOnce(weeks: seq<int>, week: int)
    requires weeks != [] && RisingWeeks(weeks)
    ensures RisingWeeks(weeks[..|weeks| - 1])
    ensures week in weeks <==> week == weeks[|weeks| - 1] || week in weeks[..|weeks| - 1]
    ensures week == weeks[|weeks| - 1] ==> week !in weeks[..|weeks| - 1]
  {
    assert weeks == weeks[..|weeks| - 1] + [weeks[|weeks| - 1]];
  }

  /** A week nothing closed in adds nothing. */
  lemma {:induction false} OneMoreWeek(trades: seq<Trade>, weeks: seq<int>, week: int)
    requires RisingWeeks(weeks) && InWeek(trades, week) == []
    ensures TallyAll(ByWeek(trades, WithWeek(weeks, week))) == TallyAll(ByWeek(trades, weeks))
    decreases |weeks|
  {
    hide TallyAll, ByWeek, InWeek, RisingWeeks;
    if weeks == [] || weeks[|weeks| - 1] < week {
      EmptyWeekAdds(trades, weeks, week);
    } else if weeks[|weeks| - 1] > week {
      var n := |weeks| - 1;
      var inner := WithWeek(weeks[..n], week);
      LastWeekOnce(weeks, week);
      OneMoreWeek(trades, weeks[..n], week);
      LastWeekApart(trades, inner + [weeks[n]]);
      LastWeekApart(trades, weeks);
      assert (inner + [weeks[n]])[..|inner|] == inner;
    }
  }

  lemma EmptyWeekAdds(trades: seq<Trade>, weeks: seq<int>, week: int)
    requires InWeek(trades, week) == []
    ensures TallyAll(ByWeek(trades, weeks + [week])) == TallyAll(ByWeek(trades, weeks))
  {
    hide TallyAll, ByWeek, InWeek;
    LastWeekApart(trades, weeks + [week]);
    assert (weeks + [week])[..|weeks|] == weeks;
  }

  function Grouped(trades: seq<Trade>): seq<seq<real>> { ByWeek(trades, WeeksOf(trades)) }

  lemma NoEmptyGroup(trades: seq<Trade>)
    ensures forall i | 0 <= i < |Grouped(trades)| :: Grouped(trades)[i] != []
  {
    WeeksRise(trades);
    forall i | 0 <= i < |Grouped(trades)| ensures Grouped(trades)[i] != [] {
      assert WeeksOf(trades)[i] in WeeksOf(trades);
      OutsideItsWeeks(trades, WeeksOf(trades)[i]);
    }
  }

  /** Grouping by week loses no trade and no result. */
  lemma {:induction false} GroupingConserves(trades: seq<Trade>)
    ensures TallyAll(Grouped(trades)) == TallyOf(Results(trades))
    decreases |trades|
  {
    if trades != [] {
      var n := |trades| - 1;
      var before, last := trades[..n], trades[n];
      GroupingConserves(before);
      WeeksRise(before);
      WithWeekRises(WeeksOf(before), WeekOf(last));
      assert trades == before + [last];
      ResultsAppend(before, last);
      hide Sum, Results, InWeek, TallyAll, ByWeek;
      if WeekOf(last) !in WeeksOf(before) {
        OutsideItsWeeks(before, WeekOf(last));
        OneMoreWeek(before, WeeksOf(before), WeekOf(last));
      }
      OneMoreTrade(before, last, WeeksOf(trades));
      assert Gain(WeeksOf(trades), last) == Tally(1, last.r);
      assert |Results(trades)| == |Results(before)| + 1;
    }
  }
}
