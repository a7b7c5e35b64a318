/** The circular block bootstrap of `consensus_engine/d108_evaluator.py`, with the random block
starts an input.
*/
module BlockBootstrap {
  import opened Rationals
  import opened TradeWeeks

  // ----- The bootstrap ----------------------------------------------------

  /** How many blocks of `length` cover `n` weeks. */
  function Blocks(n: nat, length: nat): nat
    requires length > 0
  {
    (n + length - 1) / length
  }

  function Block(start: nat, length: nat, n: nat): seq<nat>
    requires n > 0
  {
    seq(length, i requires 0 <= i < length => (start + i) % n)
  }

  function AllBlocks(starts: seq<nat>, length: nat, n: nat): seq<nat>
    requires n > 0
    decreases |starts|
  {
    if starts == [] then [] else AllBlocks(starts[..|starts| - 1], length, n) + Block(starts[|starts| - 1], length, n)
  }

  function Cells(blocks: nat, length: nat): nat { blocks * length }

  lemma OneMoreBlock(blocks: nat, length: nat)
    ensures Cells(blocks + 1, length) == Cells(blocks, length) + length
  {
  }

  lemma BlockWithin(start: nat, length: nat, n: nat)
    requires n > 0
    ensures |Block(start, length, n)| == length && forall i | i in Block(start, length, n) :: i < n
  {
  }

  lemma {:induction false} BlocksFill(starts: seq<nat>, length: nat, n: nat)
    requires n > 0
    ensures |AllBlocks(starts, length, n)| == Cells(|starts|, length)
    ensures forall i | i in AllBlocks(starts, length, n) :: i < n
    decreases |starts|
  {
    if starts != [] {
      hide Block, Cells;
      BlocksFill(starts[..|starts| - 1], length, n);
      BlockWithin(starts[|starts| - 1], length, n);
      OneMoreBlock(|starts| - 1, length);
    }
  }

  lemma BlocksCover(n: nat, length: nat)
    requires length > 0
    ensures Cells(Blocks(n, length), length) >= n
    ensures 0 < n <= length ==> Blocks(n, length) == 1
  {
    var q := (n + length - 1) / length;
    DivisionBounds(n + length - 1, length);
    if 0 < n <= length {
      if q >= 2 { Multiplied(2, q, length); }
      if q <= 0 { Multiplied(q, 0, length); }
    }
  }

  lemma DivisionBounds(a: nat, b: nat)
    requires b > 0
    ensures a / b * b <= a < a / b * b + b
  {
  }

  lemma Multiplied(a: nat, b: nat, c: nat)
    requires a <= b
    ensures a * c <= b * c
  {
  }

  /** The week indexes of one resample: its blocks in turn, cut to the number of weeks. */
  function Indexes(starts: seq<nat>, length: nat, n: nat): (indexes: seq<nat>)
    requires n > 0 && length > 0 && |starts| == Blocks(n, length)
    ensures |indexes| == n && forall i | i in indexes :: i < n
  {
    BlocksFill(starts, length, n);
    BlocksCover(n, length);
    var all := AllBlocks(starts, length, n);
    assert forall i | i in all[..n] :: i in all;
    all[..n]
  }

  function Picked(groups: seq<seq<real>>, indexes: seq<nat>): (picked: seq<seq<real>>)
    requires forall i | i in indexes :: i < |groups|
    ensures |picked| == |indexes|
    ensures forall k | 0 <= k < |picked| :: indexes[k] < |groups| && picked[k] == groups[indexes[k]]
  {
    assert forall k | 0 <= k < |indexes| :: indexes[k] in indexes;
    seq(|indexes|, k requires 0 <= k < |indexes| => groups[indexes[k]])
  }

  /** The mean over every trade of the weeks one resample picks. */
  function Statistic(groups: seq<seq<real>>, starts: seq<nat>, length: nat): real
    requires groups != [] && (forall i | 0 <= i < |groups| :: groups[i] != [])
    requires length > 0 && |starts| == Blocks(|groups|, length)
  {
    var picked := Picked(groups, Indexes(starts, length, |groups|));
    SomeTrades(picked);
    Mean(TallyAll(picked))
  }

  lemma {:induction false} SomeTrades(groups: seq<seq<real>>)
    requires groups != [] && forall i | 0 <= i < |groups| :: groups[i] != []
    ensures TallyAll(groups).count > 0
  {
    assert groups[|groups| - 1] != [];
  }

  // ----- Bounds -----------------------------------------------------------

  /** Every value lies between the two bounds. */
  predicate Within(groups: seq<seq<real>>, low: real, high: real) {
    forall i, j | 0 <= i < |groups| && 0 <= j < |groups[i]| :: low <= groups[i][j] <= high
  }

  lemma {:induction false} SumWithin(values: seq<real>, low: real, high: real)
    requires forall j | 0 <= j < |values| :: low <= values[j] <= high
    ensures Times(low, |values| as real) <= Sum(values) <= Times(high, |values| as real)
    decreases |values|
  {
    if values != [] {
      SumWithin(values[..|values| - 1], low, high);
    }
  }

  lemma {:induction false} TallyWithin(groups: seq<seq<real>>, low: real, high: real)
    requires Within(groups, low, high)
    ensures var all := TallyAll(groups); Times(low, all.count as real) <= all.total <= Times(high, all.count as real)
    decreases |groups|
  {
    if groups != [] {
      var n := |groups| - 1;
      TallyWithin(groups[..n], low, high);
      SumWithin(groups[n], low, high);
      TimesSum(low, TallyAll(groups[..n]).count, |groups[n]|);
      TimesSum(high, TallyAll(groups[..n]).count, |groups[n]|);
      hide Times;
    }
  }

  lemma TimesSum(a: real, m: nat, n: nat)
    ensures Times(a, (m + n) as real) == Times(a, m as real) + Times(a, n as real)
  {
  }

  lemma MeanWithin(tally: Tally, low: real, high: real)
    requires tally.count > 0
    requires Times(low, tally.count as real) <= tally.total <= Times(high, tally.count as real)
    ensures low <= Mean(tally) <= high
  {
    QuotientBelow(tally.total, tally.count as real, high);
    QuotientBelow(tally.total, tally.count as real, low);
    hide Times;
  }

  /** A resample's mean lies between the smallest and the largest result. */
  lemma StatisticWithin(groups: seq<seq<real>>, starts: seq<nat>, length: nat, low: real, high: real)
    requires groups != [] && (forall i | 0 <= i < |groups| :: groups[i] != [])
    requires length > 0 && |starts| == Blocks(|groups|, length)
    requires Within(groups, low, high)
    ensures low <= Statistic(groups, starts, length) <= high
  {
    var indexes := Indexes(starts, length, |groups|);
    var picked := Picked(groups, indexes);
    forall i, j | 0 <= i < |picked| && 0 <= j < |picked[i]| ensures low <= picked[i][j] <= high {
      assert indexes[i] in indexes;
    }
    SomeTrades(picked);
    TallyWithin(picked, low, high);
    MeanWithin(TallyAll(picked), low, high);
  }

  // ----- A block as long as the sample ------------------------------------

  lemma OneMoreJoins(a: seq<seq<real>>, b: seq<seq<real>>, group: seq<real>)
    requires TallyAll(a + b) == TallyAll(a).Plus(TallyAll(b))
    ensures TallyAll(a + (b + [group])) == TallyAll(a).Plus(TallyAll(b + [group]))
  {
    hide TallyAll, TallyOf;
    TallyAppends(a + b, group);
    TallyAppends(b, group);
    assert a + (b + [group]) == (a + b) + [group];
    TalliesAdd(TallyAll(a), TallyAll(b), TallyOf(group));
  }

  lemma NothingTallies(b: seq<seq<real>>)
    requires b == []
    ensures TallyAll(b) == NOTHING
  {
  }

  lemma {:induction false} TallyJoins(a: seq<seq<real>>, b: seq<seq<real>>)
    ensures TallyAll(a + b) == TallyAll(a).Plus(TallyAll(b))
    decreases |b|
  {
    hide TallyAll, Tally.Plus;
    if b == [] {
      NothingTallies(b);
      TalliesAdd(TallyAll(a), NOTHING, NOTHING);
      assert a + b == a;
    } else {
      var n := |b| - 1;
      TallyJoins(a, b[..n]);
      OneMoreJoins(a, b[..n], b[n]);
      assert b[..n] + [b[n]] == b;
    }
  }

  lemma RotationTallies(groups: seq<seq<real>>, s: nat)
    requires s <= |groups|
    ensures TallyAll(groups[s..] + groups[..s]) == TallyAll(groups)
  {
    hide TallyAll, Tally.Plus;
    TallyJoins(groups[s..], groups[..s]);
    TallyJoins(groups[..s], groups[s..]);
    TalliesAdd(TallyAll(groups[..s]), TallyAll(groups[s..]), NOTHING);
    assert groups[..s] + groups[s..] == groups;
  }

  /** When a block spans all the weeks a resample is a rotation of them, so its mean is the plain
      mean, wherever the random start falls. */
  lemma LongBlockGivesMean(groups: seq<seq<real>>, starts: seq<nat>, length: nat)
    requires groups != [] && (forall i | 0 <= i < |groups| :: groups[i] != [])
    requires length >= |groups| && |starts| == Blocks(|groups|, length) && starts[0] < |groups|
    ensures TallyAll(groups).count > 0 && Statistic(groups, starts, length) == Mean(TallyAll(groups))
  {
    hide Indexes, TallyAll, Picked;
    var indexes := Indexes(starts, length, |groups|);
    SomeTrades(groups);
    OneBlock(starts, length, |groups|);
    RotationPicks(groups, indexes, starts[0]);
    RotationTallies(groups, starts[0]);
  }

  lemma RotationPicks(groups: seq<seq<real>>, indexes: seq<nat>, s: nat)
    requires s < |groups| == |indexes| && forall i | i in indexes :: i < |groups|
    requires forall k | 0 <= k < |groups| :: indexes[k] == if s + k < |groups| then s + k else s + k - |groups|
    ensures Picked(groups, indexes) == groups[s..] + groups[..s]
  {
    hide Picked;
    var picked, rotated := Picked(groups, indexes), groups[s..] + groups[..s];
    forall k | 0 <= k < |groups| ensures picked[k] == rotated[k] {}
  }

  lemma OneBlock(starts: seq<nat>, length: nat, n: nat)
    requires 0 < n <= length && |starts| == Blocks(n, length) && starts[0] < n
    ensures var s := starts[0];
      forall k | 0 <= k < n :: Indexes(starts, length, n)[k] == if s + k < n then s + k else s + k - n
  {
    BlocksCover(n, length);
    OnlyBlock(starts, length, n);
    hide Block, AllBlocks, Blocks;
    forall k | 0 <= k < n
      ensures Indexes(starts, length, n)[k] == if starts[0] + k < n then starts[0] + k else starts[0] + k - n {
      BlockAt(starts[0], length, n, k);
    }
  }

  lemma OnlyBlock(starts: seq<nat>, length: nat, n: nat)
    requires n > 0 && |starts| == 1
    ensures AllBlocks(starts, length, n) == Block(starts[0], length, n)
  {
    hide Block;
    assert starts[..0] == [];
  }

  lemma BlockAt(s: nat, length: nat, n: nat, k: nat)
    requires s < n && k < n <= length
    ensures |Block(s, length, n)| == length && Block(s, length, n)[k] == if s + k < n then s + k else s + k - n
  {
    RotatedIndex(s, k, n);
  }

  lemma RotatedIndex(s: nat, k: nat, n: nat)
    requires s < n && k < n
    ensures (s + k) % n == if s + k < n then s + k else s + k - n
  {
  }

  // ----- The lower bound --------------------------------------------------

  function Placed(x: real, sorted: seq<real>): seq<real>
    decreases |sorted|
  {
    if sorted == [] || x <= sorted[0] then [x] + sorted else [sorted[0]] + Placed(x, sorted[1..])
  }

  function Sorted(values: seq<real>): seq<real>
    decreases |values|
  {
    if values == [] then [] else Placed(values[|values| - 1], Sorted(values[..|values| - 1]))
  }

  predicate NeverFalls(values: seq<real>) {
    forall i, j | 0 <= i < j < |values| :: values[i] <= values[j]
  }

  lemma {:induction false} PlacedSorts(x: real, sorted: seq<real>)
    requires NeverFalls(sorted)
    ensures var all := Placed(x, sorted);
      NeverFalls(all) && multiset(all) == multiset(sorted) + multiset{x} && |all| == |sorted| + 1
    decreases |sorted|
  {
    if sorted == [] {
    } else if x <= sorted[0] {
      assert Placed(x, sorted) == [x] + sorted;
    } else {
      var rest := Placed(x, sorted[1..]);
      PlacedSorts(x, sorted[1..]);
      hide Placed;
      assert sorted == [sorted[0]] + sorted[1..];
      forall j | 0 <= j < |rest| ensures sorted[0] <= rest[j] {
        assert rest[j] in multiset(rest);
        assert rest[j] == x || rest[j] in sorted[1..];
      }
      AtFront(sorted[0], rest);
    }
  }

  lemma AtFront(x: real, values: seq<real>)
    requires NeverFalls(values) && forall j | 0 <= j < |values| :: x <= values[j]
    ensures NeverFalls([x] + values)
  {
  }

  lemma {:induction false} SortedSorts(values: seq<real>)
    ensures NeverFalls(Sorted(values)) && multiset(Sorted(values)) == multiset(values) && |Sorted(values)| == |values|
    decreases |values|
  {
    if values != [] {
      var n := |values| - 1;
      SortedSorts(values[..n]);
      hide NeverFalls, Placed;
      PlacedSorts(values[n], Sorted(values[..n]));
      assert values == values[..n] + [values[n]];
    }
  }

  function Clamped(k: int, n: nat): (index: nat)
    requires n > 0
    ensures index < n
  {
    var low := if k < 0 then 0 else k;
    if low < n - 1 then low else n - 1
  }

  /** The nearest-rank quantile of sorted values. */
  function NearestRank(sorted: seq<real>, q: real): real
    requires sorted != []
  {
    sorted[Clamped(Ceil(q * (|sorted| as real)) - 1, |sorted|)]
  }

  const LOWER_BOUND_Q := 0.05

  function LowerBound(statistics: seq<real>): real
    requires statistics != []
  {
    SortedSorts(statistics);
    NearestRank(Sorted(statistics), LOWER_BOUND_Q)
  }

  lemma LowerBoundIsOne(statistics: seq<real>)
    requires statistics != []
    ensures LowerBound(statistics) in statistics
  {
    SortedSorts(statistics);
    hide Sorted;
    var bound := LowerBound(statistics);
    assert bound in Sorted(statistics);
    assert bound in multiset(Sorted(statistics));
  }

  // ----- What rank the bound has ------------------------------------------

  function CountAtMost(values: seq<real>, x: real): nat
    decreases |values|
  {
    if values == [] then 0 else CountAtMost(values[..|values| - 1], x) + if values[|values| - 1] <= x then 1 else 0
  }

  function CountBelow(values: seq<real>, x: real): nat
    decreases |values|
  {
    if values == [] then 0 else CountBelow(values[..|values| - 1], x) + if values[|values| - 1] < x then 1 else 0
  }

  lemma {:induction false} CountsFromFront(values: seq<real>, x: real)
    requires values != []
    ensures CountAtMost(values, x) == (if values[0] <= x then 1 else 0) + CountAtMost(values[1..], x)
    ensures CountBelow(values, x) == (if values[0] < x then 1 else 0) + CountBelow(values[1..], x)
    decreases |values|
  {
    var n := |values| - 1;
    if n > 0 {
      CountsFromFront(values[..n], x);
      assert values[..n][1..] == values[1..][..n - 1];
    }
  }

  lemma {:induction false} PlacedCounts(v: real, sorted: seq<real>, x: real)
    ensures CountAtMost(Placed(v, sorted), x) == CountAtMost(sorted, x) + if v <= x then 1 else 0
    ensures CountBelow(Placed(v, sorted), x) == CountBelow(sorted, x) + if v < x then 1 else 0
    decreases |sorted|
  {
    CountsFromFront(Placed(v, sorted), x);
    if sorted == [] || v <= sorted[0] {
      assert Placed(v, sorted)[1..] == sorted;
    } else {
      PlacedCounts(v, sorted[1..], x);
      assert Placed(v, sorted)[1..] == Placed(v, sorted[1..]);
      CountsFromFront(sorted, x);
    }
  }

  lemma {:induction false} SortedCounts(values: seq<real>, x: real)
    ensures CountAtMost(Sorted(values), x) == CountAtMost(values, x)
    ensures CountBelow(Sorted(values), x) == CountBelow(values, x)
    decreases |values|
  {
    if values != [] {
      hide Placed;
      SortedCounts(values[..|values| - 1], x);
      PlacedCounts(values[|values| - 1], Sorted(values[..|values| - 1]), x);
    }
  }

  /** In a sorted list the value at `k` has at least `k + 1` values at most itself and at most `k` below. */
  lemma {:induction false} RankOf(sorted: seq<real>, k: nat, x: real)
    requires NeverFalls(sorted) && k < |sorted| && x == sorted[k]
    ensures CountAtMost(sorted, x) >= k + 1 && CountBelow(sorted, x) <= k
    decreases |sorted|
  {
    var n := |sorted| - 1;
    if k < n {
      RankOf(sorted[..n], k, x);
    } else {
      CountsAreBounded(sorted, x);
      AllAtMost(sorted, x);
    }
  }

  lemma {:induction false} CountsAreBounded(values: seq<real>, x: real)
    ensures CountBelow(values, x) <= |values|
    ensures values != [] && values[|values| - 1] >= x ==> CountBelow(values, x) <= |values| - 1
    decreases |values|
  {
    if values != [] {
      CountsAreBounded(values[..|values| - 1], x);
    }
  }

  lemma {:induction false} AllAtMost(values: seq<real>, x: real)
    requires forall i | 0 <= i < |values| :: values[i] <= x
    ensures CountAtMost(values, x) == |values|
    decreases |values|
  {
    if values != [] {
      AllAtMost(values[..|values| - 1], x);
    }
  }

  /** The rank, counted from one, of the nearest-rank lower bound among `n` values. */
  function BoundRank(n: nat): int {
    if Ceil(LOWER_BOUND_Q * (n as real)) < 1 then 1 else Ceil(LOWER_BOUND_Q * (n as real))
  }

  /** The lower bound is the nearest-rank quantile of the statistics: it has that rank among them,
      whatever order they came in. */
  lemma LowerBoundHasRank(statistics: seq<real>)
    requires statistics != []
    ensures var bound := LowerBound(statistics);
      CountBelow(statistics, bound) < BoundRank(|statistics|) <= CountAtMost(statistics, bound)
  {
    hide Sorted, CountAtMost, CountBelow, BoundRank, NeverFalls, LowerBound;
    SortedSorts(statistics);
    var bound := LowerBound(statistics);
    BoundIsRanked(statistics);
    RankOf(Sorted(statistics), BoundRank(|statistics|) - 1, bound);
    SortedCounts(statistics, bound);
  }

  lemma BoundIsRanked(statistics: seq<real>)
    requires statistics != []
    ensures |Sorted(statistics)| == |statistics| && 1 <= BoundRank(|statistics|) <= |statistics|
    ensures LowerBound(statistics) == Sorted(statistics)[BoundRank(|statistics|) - 1]
  {
    hide Sorted, NeverFalls, NearestRank, BoundRank;
    SortedSorts(statistics);
    NearestHasRank(Sorted(statistics));
  }

  lemma NearestHasRank(sorted: seq<real>)
    requires sorted != []
    ensures 1 <= BoundRank(|sorted|) <= |sorted|
    ensures NearestRank(sorted, LOWER_BOUND_Q) == sorted[BoundRank(|sorted|) - 1]
  {
    CeilAtMost(LOWER_BOUND_Q * (|sorted| as real), |sorted|);
    hide Ceil;
  }

  lemma CeilAtMost(x: real, n: int)
    requires x <= n as real
    ensures Ceil(x) <= n
  {
  }
}
