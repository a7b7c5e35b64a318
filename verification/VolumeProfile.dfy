/** The prior-session volume profile of `consensus_engine/core_price_features.py`.

Traded one-minute bars are spread over equal-width price bins by interval overlap,
a point of control is chosen, and a value area grows greedily around it until it
holds seven tenths of the session volume. Exact rationals are `real`s.
*/
module VolumeProfile {
  import opened Wrappers
  import opened Rationals

  datatype Bar = Bar(low: real, high: real, volume: real) {
    predicate Valid() {
      low <= high && volume >= 0.0
    }
  }

  predicate ValidBars(bars: seq<Bar>) {
    forall i | 0 <= i < |bars| :: bars[i].Valid()
  }

  // ----- The bins ---------------------------------------------------------

  /** Equal-width bins: bin `k` is the price interval from `Edge(k)` to `Edge(k + 1)`. */
  datatype Grid = Grid(origin: real, width: real, count: nat) {
    function Edge(k: int): real {
      origin + Times(k as real, width)
    }

    function Middle(k: int): real {
      origin + Times((2 * k + 1) as real / 2.0, width)
    }
  }

  function LowestLow(bars: seq<Bar>): (r: real)
    requires bars != []
    ensures forall i | 0 <= i < |bars| :: r <= bars[i].low
    ensures exists i | 0 <= i < |bars| :: r == bars[i].low
  {
    if |bars| == 1 then bars[0].low else Min(bars[0].low, LowestLow(bars[1..]))
  }

  function HighestHigh(bars: seq<Bar>): (r: real)
    requires bars != []
    ensures forall i | 0 <= i < |bars| :: bars[i].high <= r
    ensures exists i | 0 <= i < |bars| :: r == bars[i].high
  {
    if |bars| == 1 then bars[0].high else Max(bars[0].high, HighestHigh(bars[1..]))
  }

  function BinWidth(tick: real, atr: real): real
    requires tick > 0.0
  {
    var ticks := CeilDiv(0.01 * atr, tick);
    Times((if ticks < 1 then 1 else ticks) as real, tick)
  }

  function BuildGrid(bars: seq<Bar>, tick: real, atr: real): Grid
    requires bars != [] && ValidBars(bars) && tick > 0.0
  {
    var width := BinWidth(tick, atr);
    WidthIsPositive(tick, atr);
    var origin := Times(FloorDiv(LowestLow(bars), width) as real, width);
    var bins := CeilDiv(HighestHigh(bars) - origin, width);
    Grid(origin, width, if bins < 1 then 1 else bins)
  }

  lemma WidthIsPositive(tick: real, atr: real)
    requires tick > 0.0
    ensures BinWidth(tick, atr) >= tick
  {
    hide Times, CeilDiv;
    var ticks := CeilDiv(0.01 * atr, tick);
    TimesWeak(1.0, (if ticks < 1 then 1 else ticks) as real, tick);
    TimesUnit(tick);
  }

  lemma EdgesRise(g: Grid, j: int, k: int)
    requires g.width > 0.0 && j <= k
    ensures g.Edge(j) <= g.Edge(k)
  {
    hide Times;
    TimesWeak(j as real, k as real, g.width);
  }

  lemma LowEnd(g: Grid, low: real)
    requires g.width > 0.0 && g.origin == Times(FloorDiv(low, g.width) as real, g.width)
    ensures g.Edge(0) <= low < g.Edge(1)
  {
    hide Times, FloorDiv;
    var f := FloorDiv(low, g.width);
    FloorBounds(low, g.width);
    TimesDistributes(f as real, 1.0, g.width);
    TimesUnit(g.width);
    assert (f + 1) as real == f as real + 1.0;
  }

  lemma HighEnd(g: Grid, high: real)
    requires g.width > 0.0
    requires var bins := CeilDiv(high - g.origin, g.width); g.count == if bins < 1 then 1 else bins
    ensures high <= g.Edge(g.count)
    ensures g.count > 1 ==> g.Edge(g.count - 1) < high
  {
    hide Times, CeilDiv;
    var bins := CeilDiv(high - g.origin, g.width);
    CeilBounds(high - g.origin, g.width);
    TimesWeak(bins as real, g.count as real, g.width);
  }

  lemma GridEnds(bars: seq<Bar>, tick: real, atr: real)
    requires bars != [] && ValidBars(bars) && tick > 0.0
    ensures var g := BuildGrid(bars, tick, atr);
      && g.width >= tick && g.count >= 1
      && g.Edge(0) <= LowestLow(bars) < g.Edge(1)
      && HighestHigh(bars) <= g.Edge(g.count)
      && (g.count > 1 ==> g.Edge(g.count - 1) < HighestHigh(bars))
  {
    hide LowestLow, HighestHigh, CeilDiv, FloorDiv, Times, Grid.Edge, BinWidth;
    var g := BuildGrid(bars, tick, atr);
    WidthIsPositive(tick, atr);
    LowEnd(g, LowestLow(bars));
    HighEnd(g, HighestHigh(bars));
  }

  /** The bins cover every bar's whole range, and no bin could be dropped at either end. */
  lemma GridFits(bars: seq<Bar>, tick: real, atr: real)
    requires bars != [] && ValidBars(bars) && tick > 0.0
    ensures var g := BuildGrid(bars, tick, atr);
      && g.width >= tick
      && CoversAll(g, bars)
      && (exists i | 0 <= i < |bars| :: bars[i].low < g.Edge(1))
      && (g.count > 1 ==> exists i | 0 <= i < |bars| :: g.Edge(g.count - 1) < bars[i].high)
  {
    GridEnds(bars, tick, atr);
    hide BuildGrid, LowestLow, HighestHigh, Grid.Edge;
    var g := BuildGrid(bars, tick, atr);
    var i :| 0 <= i < |bars| && LowestLow(bars) == bars[i].low;
    var j :| 0 <= j < |bars| && HighestHigh(bars) == bars[j].high;
    assert bars[i].low < g.Edge(1);
    assert g.count > 1 ==> g.Edge(g.count - 1) < bars[j].high;
    forall b | 0 <= b < |bars| ensures Covers(g, bars[b]) {
      assert g.Edge(0) <= bars[b].low && bars[b].high <= g.Edge(g.count);
    }
  }

  /** Whole ticks that make up at least a hundredth of the ATR. */
  predicate WideEnough(n: int, tick: real, atr: real) { n >= 1 && atr <= 100.0 * Times(n as real, tick) }

  ghost predicate LeastTicks(n: int, tick: real, atr: real) {
    WideEnough(n, tick, atr) && forall m | WideEnough(m, tick, atr) :: n <= m
  }

  predicate Multiple(x: real, k: int, w: real) { x == Times(k as real, w) }

  /** A bin is the least whole number of ticks, one at least, that is a hundredth of the ATR or more;
      bins start at a multiple of their width and meet edge to edge. */
  lemma GridIsFinest(bars: seq<Bar>, tick: real, atr: real)
    requires bars != [] && ValidBars(bars) && tick > 0.0
    ensures var g := BuildGrid(bars, tick, atr);
      && (exists n :: LeastTicks(n, tick, atr) && Multiple(g.width, n, tick))
      && (exists k :: Multiple(g.origin, k, g.width))
      && (forall k: int :: g.Edge(k + 1) == g.Edge(k) + g.width && 2.0 * g.Middle(k) == g.Edge(k) + g.Edge(k + 1))
  {
    var g := BuildGrid(bars, tick, atr);
    var ticks := CeilDiv(0.01 * atr, tick);
    var n := if ticks < 1 then 1 else ticks;
    TicksAreLeast(tick, atr, n);
    WidthIsPositive(tick, atr);
    hide LowestLow, HighestHigh, CeilDiv, Times, WideEnough;
    assert LeastTicks(n, tick, atr) && Multiple(g.width, n, tick);
    assert Multiple(g.origin, FloorDiv(LowestLow(bars), g.width), g.width);
    forall k: int
      ensures g.Edge(k + 1) == g.Edge(k) + g.width && 2.0 * g.Middle(k) == g.Edge(k) + g.Edge(k + 1)
    {
      EdgesMeet(g, k);
    }
  }

  lemma TicksAreLeast(tick: real, atr: real, n: int)
    requires tick > 0.0 && (var ticks := CeilDiv(0.01 * atr, tick); n == if ticks < 1 then 1 else ticks)
    ensures WideEnough(n, tick, atr) && forall m | WideEnough(m, tick, atr) :: n <= m
  {
    hide Times, CeilDiv;
    var ticks := CeilDiv(0.01 * atr, tick);
    CeilBounds(0.01 * atr, tick);
    TimesWeak(ticks as real, n as real, tick);
    forall m | WideEnough(m, tick, atr) ensures n <= m {
      if m < ticks { TimesWeak(m as real, (ticks - 1) as real, tick); }
    }
  }

  lemma EdgesMeet(g: Grid, k: int)
    ensures g.Edge(k + 1) == g.Edge(k) + g.width && 2.0 * g.Middle(k) == g.Edge(k) + g.Edge(k + 1)
  {
  }

  // ----- Spreading one bar ------------------------------------------------

  function PointBin(g: Grid, price: real): int
    requires g.width > 0.0
  {
    var k := FloorDiv(price - g.origin, g.width);
    if g.count - 1 < k then g.count - 1 else k
  }

  /** The volume of one bar that falls in bin `k`: all of it for a zero-range bar's own
      bin, otherwise the share of its range that overlaps the bin. */
  function Share(g: Grid, bar: Bar, k: int): real
    requires g.width > 0.0 && bar.Valid()
  {
    if bar.high == bar.low then
      if k == PointBin(g, bar.low) then bar.volume else 0.0
    else
      var overlap := Min(bar.high, g.Edge(k + 1)) - Max(bar.low, g.Edge(k));
      if overlap > 0.0 then ShareOf(bar.volume, overlap, bar.high - bar.low) else 0.0
  }

  lemma RangedShare(g: Grid, bar: Bar, k: int, overlap: real)
    requires g.width > 0.0 && bar.Valid() && bar.low < bar.high
    requires overlap == Min(bar.high, g.Edge(k + 1)) - Max(bar.low, g.Edge(k))
    ensures Share(g, bar, k) == if overlap > 0.0 then ShareOf(bar.volume, overlap, bar.high - bar.low) else 0.0
  {
  }

  lemma PointShare(g: Grid, bar: Bar)
    requires g.width > 0.0 && bar.Valid() && bar.low == bar.high
    ensures forall k :: Share(g, bar, k) == if k == PointBin(g, bar.low) then bar.volume else 0.0
  {
  }

  ghost predicate Covers(g: Grid, bar: Bar) {
    g.width > 0.0 && g.count >= 1 && bar.Valid() && g.Edge(0) <= bar.low && bar.high <= g.Edge(g.count)
  }

  ghost predicate CoversAll(g: Grid, bars: seq<Bar>) {
    g.width > 0.0 && g.count >= 1 && ValidBars(bars) && forall i | 0 <= i < |bars| :: Covers(g, bars[i])
  }

  lemma FloorEdges(g: Grid, price: real)
    requires g.width > 0.0
    ensures var k := FloorDiv(price - g.origin, g.width); g.Edge(k) <= price < g.Edge(k + 1)
  {
    hide Times, FloorDiv;
    FloorBounds(price - g.origin, g.width);
  }

  lemma EdgesOrder(g: Grid, j: int, k: int)
    requires g.width > 0.0 && g.Edge(j) < g.Edge(k)
    ensures j < k
  {
    if k <= j {
      EdgesRise(g, k, j);
    }
  }

  lemma PointBinInBounds(g: Grid, bar: Bar)
    requires Covers(g, bar)
    ensures 0 <= PointBin(g, bar.low) < g.count
    ensures g.Edge(PointBin(g, bar.low)) <= bar.low <= g.Edge(PointBin(g, bar.low) + 1)
  {
    hide Grid.Edge, FloorDiv;
    var k := FloorDiv(bar.low - g.origin, g.width);
    FloorEdges(g, bar.low);
    EdgesOrder(g, 0, k + 1);
    if g.count - 1 < k {
      var last := g.count - 1;
      assert PointBin(g, bar.low) == last;
      EdgesRise(g, last, k);
      assert last + 1 == g.count && bar.low <= g.Edge(last + 1);
    } else {
      assert PointBin(g, bar.low) == k;
    }
  }

  function Clamp(bar: Bar, x: real): real {
    Max(bar.low, Min(bar.high, x))
  }

  function ShareSum(g: Grid, bar: Bar, n: nat): real
    requires g.width > 0.0 && bar.Valid()
  {
    if n == 0 then 0.0 else ShareSum(g, bar, n - 1) + Share(g, bar, n - 1)
  }

  /** The overlaps telescope: the first `n` bins hold exactly the part of the bar below `Edge(n)`. */
  lemma {:induction false} OverlapTelescopes(g: Grid, bar: Bar, n: nat)
    requires g.width > 0.0 && bar.Valid() && bar.low < bar.high
    ensures Times(ShareSum(g, bar, n), bar.high - bar.low)
         == Times(Clamp(bar, g.Edge(n)) - Clamp(bar, g.Edge(0)), bar.volume)
  {
    hide Share, Clamp, Times, Grid.Edge;
    if n == 0 {
      TimesUnit(bar.high - bar.low);
      TimesUnit(bar.volume);
    } else {
      var k := n - 1;
      OverlapTelescopes(g, bar, k);
      ShareTimesRange(g, bar, k);
      TimesDistributes(ShareSum(g, bar, k), Share(g, bar, k), bar.high - bar.low);
      var before, piece := Clamp(bar, g.Edge(k)) - Clamp(bar, g.Edge(0)), Clamp(bar, g.Edge(n)) - Clamp(bar, g.Edge(k));
      TimesDistributes(before, piece, bar.volume);
      assert before + piece == Clamp(bar, g.Edge(n)) - Clamp(bar, g.Edge(0));
    }
  }

  lemma ShareTimesRange(g: Grid, bar: Bar, k: int)
    requires g.width > 0.0 && bar.Valid() && bar.low < bar.high
    ensures Times(Share(g, bar, k), bar.high - bar.low)
         == Times(Clamp(bar, g.Edge(k + 1)) - Clamp(bar, g.Edge(k)), bar.volume)
  {
    hide Grid.Edge, Times, Share, ShareOf;
    EdgesRise(g, k, k + 1);
    var overlap := Min(bar.high, g.Edge(k + 1)) - Max(bar.low, g.Edge(k));
    var piece := Clamp(bar, g.Edge(k + 1)) - Clamp(bar, g.Edge(k));
    assert piece == if overlap > 0.0 then overlap else 0.0;
    RangedShare(g, bar, k, overlap);
    ShareTimes(bar.volume, overlap, bar.high - bar.low);
    TimesUnit(bar.high - bar.low);
    TimesUnit(bar.volume);
  }

  lemma {:induction false} PointShareSum(g: Grid, bar: Bar, n: nat)
    requires g.width > 0.0 && bar.Valid() && bar.low == bar.high && 0 <= PointBin(g, bar.low)
    ensures ShareSum(g, bar, n) == if PointBin(g, bar.low) < n then bar.volume else 0.0
  {
    if n == 0 {
    } else {
      PointShareSum(g, bar, n - 1);
    }
  }

  /** No bar gains or loses volume when it is spread over bins that cover it. */
  lemma BarVolumeConserved(g: Grid, bar: Bar)
    requires Covers(g, bar)
    ensures ShareSum(g, bar, g.count) == bar.volume
  {
    if bar.low == bar.high {
      PointBinInBounds(g, bar);
      PointShareSum(g, bar, g.count);
    } else {
      hide ShareSum, Share, Times, Grid.Edge;
      OverlapTelescopes(g, bar, g.count);
      assert Clamp(bar, g.Edge(g.count)) - Clamp(bar, g.Edge(0)) == bar.high - bar.low;
      CancelFactor(ShareSum(g, bar, g.count), bar.volume, bar.high - bar.low);
    }
  }

  lemma ShareIsNonNegative(g: Grid, bar: Bar, k: int)
    requires g.width > 0.0 && bar.Valid()
    ensures Share(g, bar, k) >= 0.0
  {
    hide Share, ShareOf, Grid.Edge, PointBin;
    if bar.low < bar.high {
      var overlap := Min(bar.high, g.Edge(k + 1)) - Max(bar.low, g.Edge(k));
      RangedShare(g, bar, k, overlap);
      if overlap > 0.0 {
        ShareNonNegative(bar.volume, overlap, bar.high - bar.low);
      }
    } else {
      PointShare(g, bar);
    }
  }

  // ----- All bars ---------------------------------------------------------

  function TotalVolume(bars: seq<Bar>): real {
    if bars == [] then 0.0 else TotalVolume(bars[..|bars| - 1]) + bars[|bars| - 1].volume
  }

  function BinVolume(g: Grid, bars: seq<Bar>, k: int): real
    requires g.width > 0.0 && ValidBars(bars)
  {
    if bars == [] then 0.0
    else BinVolume(g, bars[..|bars| - 1], k) + Share(g, bars[|bars| - 1], k)
  }

  function BinSum(g: Grid, bars: seq<Bar>, n: nat): real
    requires g.width > 0.0 && ValidBars(bars)
  {
    if n == 0 then 0.0 else BinSum(g, bars, n - 1) + BinVolume(g, bars, n - 1)
  }

  lemma {:induction false} BinSumSplits(g: Grid, bars: seq<Bar>, n: nat)
    requires g.width > 0.0 && ValidBars(bars) && bars != []
    ensures BinSum(g, bars, n) == BinSum(g, bars[..|bars| - 1], n) + ShareSum(g, bars[|bars| - 1], n)
  {
    if n == 0 {
    } else {
      BinSumSplits(g, bars, n - 1);
    }
  }

  lemma {:induction false} EmptyBinSum(g: Grid, n: nat)
    requires g.width > 0.0
    ensures BinSum(g, [], n) == 0.0
  {
    if n == 0 {
    } else {
      EmptyBinSum(g, n - 1);
    }
  }

  lemma {:induction false} BinsConserveVolume(g: Grid, bars: seq<Bar>)
    requires CoversAll(g, bars)
    ensures BinSum(g, bars, g.count) == TotalVolume(bars)
  {
    if bars == [] {
      EmptyBinSum(g, g.count);
    } else {
      BinSumSplits(g, bars, g.count);
      BinsConserveVolume(g, bars[..|bars| - 1]);
      BarVolumeConserved(g, bars[|bars| - 1]);
    }
  }

  lemma {:induction false} BinVolumeIsNonNegative(g: Grid, bars: seq<Bar>, k: int)
    requires g.width > 0.0 && ValidBars(bars)
    ensures BinVolume(g, bars, k) >= 0.0
  {
    if bars == [] {
    } else {
      BinVolumeIsNonNegative(g, bars[..|bars| - 1], k);
      ShareIsNonNegative(g, bars[|bars| - 1], k);
    }
  }

  function Sum(v: seq<real>, lo: int, hi: int): real
    requires 0 <= lo <= hi <= |v|
    decreases hi
  {
    if lo == hi then 0.0 else Sum(v, lo, hi - 1) + v[hi - 1]
  }

  lemma {:induction false} SumIsBinSum(g: Grid, bars: seq<Bar>, v: seq<real>, n: nat)
    requires g.width > 0.0 && ValidBars(bars) && n <= |v|
    requires forall k | 0 <= k < |v| :: v[k] == BinVolume(g, bars, k)
    ensures Sum(v, 0, n) == BinSum(g, bars, n)
  {
    if n == 0 {
    } else {
      SumIsBinSum(g, bars, v, n - 1);
    }
  }

  lemma {:induction false} SumExtendsBelow(v: seq<real>, lo: int, hi: int)
    requires 0 < lo <= hi <= |v|
    ensures Sum(v, lo - 1, hi) == v[lo - 1] + Sum(v, lo, hi)
    decreases hi
  {
    if lo == hi {
      assert Sum(v, lo - 1, lo - 1) == 0.0;
    } else {
      SumExtendsBelow(v, lo, hi - 1);
    }
  }

  ghost predicate Filled(volumes: seq<real>, g: Grid, bars: seq<Bar>)
    requires g.width > 0.0 && ValidBars(bars)
  {
    |volumes| == g.count && forall k | 0 <= k < g.count :: volumes[k] == BinVolume(g, bars, k)
  }

  lemma BinVolumeStep(g: Grid, bars: seq<Bar>, bar: Bar, k: int)
    requires g.width > 0.0 && ValidBars(bars) && bar.Valid()
    ensures ValidBars(bars + [bar])
    ensures BinVolume(g, bars + [bar], k) == BinVolume(g, bars, k) + Share(g, bar, k)
  {
    assert (bars + [bar])[..|bars|] == bars;
  }

  /** Add one bar to the bins in place. */
  method SpreadBar(g: Grid, bar: Bar, volumes: array<real>, ghost bars: seq<Bar>)
    requires ValidBars(bars) && Covers(g, bar) && Filled(volumes[..], g, bars)
    modifies volumes
    ensures ValidBars(bars + [bar]) && Filled(volumes[..], g, bars + [bar])
  {
    assert volumes.Length == |volumes[..]| == g.count;
    assert forall k | 0 <= k < g.count :: volumes[k] == volumes[..][k];
    hide BinVolume, Share, ShareOf, PointBin, Grid.Edge;
    if bar.high == bar.low {
      PointBinInBounds(g, bar);
      PointShare(g, bar);
      var k := PointBin(g, bar.low);
      volumes[k] := volumes[k] + bar.volume;
    } else {
      for k := 0 to g.count
        invariant forall j | 0 <= j < k :: volumes[j] == BinVolume(g, bars, j) + Share(g, bar, j)
        invariant forall j | k <= j < g.count :: volumes[j] == BinVolume(g, bars, j)
      {
        var overlap := Min(bar.high, g.Edge(k + 1)) - Max(bar.low, g.Edge(k));
        RangedShare(g, bar, k, overlap);
        if overlap > 0.0 {
          volumes[k] := volumes[k] + ShareOf(bar.volume, overlap, bar.high - bar.low);
        }
      }
    }
    forall k | 0 <= k < g.count ensures volumes[k] == BinVolume(g, bars + [bar], k) {
      BinVolumeStep(g, bars, bar, k);
    }
    BinVolumeStep(g, bars, bar, 0);
  }

  /** Fill the bins in place, bar by bar. */
  method FillBins(g: Grid, bars: seq<Bar>) returns (volumes: array<real>)
    requires CoversAll(g, bars)
    ensures fresh(volumes) && Filled(volumes[..], g, bars)
    ensures forall k | 0 <= k < g.count :: volumes[k] >= 0.0
    ensures Sum(volumes[..], 0, g.count) == TotalVolume(bars)
  {
    volumes := new real[g.count](_ => 0.0);
    assert bars[..0] == [];
    for i := 0 to |bars|
      invariant Filled(volumes[..], g, bars[..i])
    {
      SpreadBar(g, bars[i], volumes, bars[..i]);
      assert bars[..i] + [bars[i]] == bars[..i + 1];
    }
    assert bars[..|bars|] == bars;
    forall k | 0 <= k < g.count ensures volumes[k] >= 0.0 {
      BinVolumeIsNonNegative(g, bars, k);
    }
    BinsConserveVolume(g, bars);
    SumIsBinSum(g, bars, volumes[..], g.count);
  }

  // ----- The point of control ---------------------------------------------

  predicate ValidVolumes(v: seq<real>, g: Grid) {
    g.width > 0.0 && g.count >= 1 && |v| == g.count && forall k | 0 <= k < |v| :: v[k] >= 0.0
  }

  /** The order of both choices: more volume, then nearer to the prior close, then lower. */
  predicate Beats(v: seq<real>, g: Grid, close: real, a: int, b: int)
    requires 0 <= a < |v| && 0 <= b < |v|
  {
    v[a] > v[b] || (v[a] == v[b] && Nearer(g, close, a, b))
  }

  predicate Nearer(g: Grid, close: real, a: int, b: int) {
    var da, db := Abs(g.Middle(a) - close), Abs(g.Middle(b) - close);
    da < db || (da == db && g.Middle(a) < g.Middle(b))
  }

  lemma MiddlesRise(g: Grid, a: int, b: int)
    requires g.width > 0.0 && a < b
    ensures g.Edge(a) < g.Middle(a) < g.Edge(a + 1)
    ensures g.Middle(a) < g.Middle(b)
  {
    hide Times;
    TimesStrict(a as real, (2 * a + 1) as real / 2.0, g.width);
    TimesStrict((2 * a + 1) as real / 2.0, (a + 1) as real, g.width);
    TimesStrict((2 * a + 1) as real / 2.0, (2 * b + 1) as real / 2.0, g.width);
  }

  lemma NearerIsTotal(g: Grid, close: real, a: int, b: int)
    requires g.width > 0.0 && a != b
    ensures Nearer(g, close, a, b) != Nearer(g, close, b, a)
  {
    if a < b { MiddlesRise(g, a, b); } else { MiddlesRise(g, b, a); }
  }

  /** How far a bin's middle is from the prior close. */
  function Away(g: Grid, close: real, k: int): real {
    if g.Middle(k) < close then close - g.Middle(k) else g.Middle(k) - close
  }

  /** That order over the bins themselves: of equal volumes the one nearer to the prior close is chosen,
      and of two as near the one further down. */
  lemma BeatsMeans(v: seq<real>, g: Grid, close: real, a: int, b: int)
    requires g.width > 0.0 && 0 <= a < |v| && 0 <= b < |v|
    ensures Beats(v, g, close, a, b) <==>
      || v[a] > v[b]
      || (v[a] == v[b] && Away(g, close, a) < Away(g, close, b))
      || (v[a] == v[b] && Away(g, close, a) == Away(g, close, b) && a < b)
  {
    if a < b { MiddlesRise(g, a, b); } else if b < a { MiddlesRise(g, b, a); }
    hide Grid.Middle;
  }

  function PeakVolume(v: seq<real>): (r: real)
    requires v != []
    ensures forall k | 0 <= k < |v| :: v[k] <= r
    ensures exists k | 0 <= k < |v| :: v[k] == r
  {
    if |v| == 1 then v[0] else Max(v[0], PeakVolume(v[1..]))
  }

  function NearestPeak(v: seq<real>, g: Grid, close: real, peak: real, n: nat): (r: Option<int>)
    requires n <= |v| && g.width > 0.0
    ensures r.None? <==> forall k | 0 <= k < n :: v[k] != peak
    ensures r.Some? ==> 0 <= r.value < n && v[r.value] == peak
    ensures r.Some? ==> forall k | 0 <= k < n && k != r.value && v[k] == peak :: Nearer(g, close, r.value, k)
  {
    if n == 0 then None
    else
      var best := NearestPeak(v, g, close, peak, n - 1);
      if v[n - 1] != peak then best
      else if best.Some? && Nearer(g, close, best.value, n - 1) then best
      else
        (if best.Some? then NearerIsTotal(g, close, best.value, n - 1);
           NearestBeatsAll(v, g, close, peak, n, best.value); Some(n - 1)
         else Some(n - 1))
  }

  lemma NearestBeatsAll(v: seq<real>, g: Grid, close: real, peak: real, n: nat, best: int)
    requires 0 < n <= |v| && 0 <= best < n - 1 && g.width > 0.0 && Nearer(g, close, n - 1, best)
    requires forall k | 0 <= k < n - 1 && k != best && v[k] == peak :: Nearer(g, close, best, k)
    ensures forall k | 0 <= k < n - 1 && v[k] == peak :: Nearer(g, close, n - 1, k)
  {
    hide Grid.Middle;
  }

  /** The bin of greatest volume; it beats every other bin outright, so it is unique. */
  function PointOfControl(v: seq<real>, g: Grid, close: real): (poc: int)
    requires ValidVolumes(v, g)
    ensures 0 <= poc < |v|
    ensures forall k | 0 <= k < |v| && k != poc :: Beats(v, g, close, poc, k)
  {
    hide Nearer;
    NearestPeak(v, g, close, PeakVolume(v), |v|).value
  }

  // ----- The value area ---------------------------------------------------

  datatype Window = Window(first: int, last: int) {
    predicate In(n: int) {
      0 <= first <= last < n
    }

    function Size(): int {
      last - first + 1
    }

    function With(k: int): Window {
      Window(if k < first then k else first, if last < k then k else last)
    }
  }

  function Held(v: seq<real>, w: Window): real
    requires w.In(|v|)
  {
    Sum(v, w.first, w.last + 1)
  }

  predicate Enough(v: seq<real>, w: Window)
    requires w.In(|v|)
  {
    Held(v, w) * 10.0 >= Sum(v, 0, |v|) * 7.0
  }

  /** `k` is the in-range bin next to the window that no other such bin beats. */
  ghost predicate BestNeighbour(v: seq<real>, g: Grid, close: real, w: Window, k: int)
    requires w.In(|v|)
  {
    var below, above := w.first - 1, w.last + 1;
    && (k == below || k == above) && 0 <= k < |v|
    && (k == above && below >= 0 ==> Beats(v, g, close, above, below))
    && (k == below && above < |v| ==> !Beats(v, g, close, above, below))
  }

  /** `picks` are bins added to `w` one at a time, each the best neighbour of a window that
      still held too little, giving `current`. */
  ghost predicate Picked(v: seq<real>, g: Grid, close: real, w: Window, picks: seq<int>, current: Window)
    requires w.In(|v|)
    decreases |picks|
  {
    if picks == [] then w == current
    else
      && !Enough(v, w)
      && BestNeighbour(v, g, close, w, picks[0])
      && Picked(v, g, close, w.With(picks[0]), picks[1..], current)
  }

  /** A whole run: picks are made until the window holds enough, and no longer. */
  ghost predicate GreedyRun(v: seq<real>, g: Grid, close: real, w: Window, picks: seq<int>, final: Window)
    requires w.In(|v|)
  {
    final.In(|v|) && Enough(v, final) && Picked(v, g, close, w, picks, final)
  }

  lemma {:induction false} SumSplits(v: seq<real>, lo: int, mid: int, hi: int)
    requires 0 <= lo <= mid <= hi <= |v|
    ensures Sum(v, lo, hi) == Sum(v, lo, mid) + Sum(v, mid, hi)
    decreases hi
  {
    if mid == hi {
    } else {
      SumSplits(v, lo, mid, hi - 1);
    }
  }

  lemma {:induction false} SumIsNonNegative(v: seq<real>, lo: int, hi: int)
    requires 0 <= lo <= hi <= |v| && forall k | 0 <= k < |v| :: v[k] >= 0.0
    ensures Sum(v, lo, hi) >= 0.0
    decreases hi
  {
    if lo == hi {
    } else {
      SumIsNonNegative(v, lo, hi - 1);
    }
  }

  /** The whole profile always holds enough, so the loop has a bin left to pick. */
  lemma TooLittleIsNotAll(v: seq<real>, g: Grid, w: Window)
    requires ValidVolumes(v, g) && w.In(|v|) && !Enough(v, w)
    ensures 0 < w.first || w.last + 1 < |v|
  {
    SumIsNonNegative(v, 0, |v|);
  }

  lemma HeldWith(v: seq<real>, w: Window, k: int)
    requires w.In(|v|) && 0 <= k < |v| && (k == w.first - 1 || k == w.last + 1)
    ensures w.With(k).In(|v|) && w.With(k).Size() == w.Size() + 1
    ensures Held(v, w.With(k)) == Held(v, w) + v[k]
  {
    if k == w.first - 1 {
      SumExtendsBelow(v, w.first, w.last + 1);
    }
  }

  lemma {:induction false} PickAdded(
      v: seq<real>, g: Grid, close: real, w: Window, picks: seq<int>, current: Window, k: int)
    requires w.In(|v|) && current.In(|v|) && Picked(v, g, close, w, picks, current)
    requires !Enough(v, current) && BestNeighbour(v, g, close, current, k)
    ensures Picked(v, g, close, w, picks + [k], current.With(k))
    decreases |picks|
  {
    hide Enough, Beats;
    if picks == [] {
      assert ([] + [k])[1..] == [];
    } else {
      PickAdded(v, g, close, w.With(picks[0]), picks[1..], current, k);
      assert (picks + [k])[1..] == picks[1..] + [k];
    }
  }

  /** Grow the value area around the point of control until it holds seven tenths. */
  method GrowValueArea(volumes: array<real>, g: Grid, close: real, poc: int)
    returns (first: int, last: int, ghost picks: seq<int>)
    requires ValidVolumes(volumes[..], g) && 0 <= poc < g.count
    ensures 0 <= first <= poc <= last < g.count
    ensures Enough(volumes[..], Window(first, last))
    ensures GreedyRun(volumes[..], g, close, Window(poc, poc), picks, Window(first, last))
  {
    ghost var v := volumes[..];
    var total := SumOf(volumes);
    first, last := poc, poc;
    var included := volumes[poc];
    picks := [];
    assert Sum(v, poc, poc) == 0.0;
    while included * 10.0 < total * 7.0
      invariant 0 <= first <= poc <= last < g.count
      invariant included == Held(v, Window(first, last))
      invariant Picked(v, g, close, Window(poc, poc), picks, Window(first, last))
      decreases g.count - (last - first)
    {
      ghost var w := Window(first, last);
      TooLittleIsNotAll(v, g, w);
      var below, above := first - 1, last + 1;
      var pick;
      if below < 0 {
        pick := above;
      } else if above >= g.count {
        pick := below;
      } else {
        pick := if volumes[above] > volumes[below]
                  || (volumes[above] == volumes[below] && Nearer(g, close, above, below)) then above else below;
      }
      HeldWith(v, w, pick);
      PickAdded(v, g, close, Window(poc, poc), picks, w, pick);
      included := included + volumes[pick];
      first := if pick < first then pick else first;
      last := if last < pick then pick else last;
      picks := picks + [pick];
    }
  }

  method SumOf(volumes: array<real>) returns (total: real)
    ensures total == Sum(volumes[..], 0, volumes.Length)
  {
    total := 0.0;
    for k := 0 to volumes.Length
      invariant total == Sum(volumes[..], 0, k)
    {
      total := total + volumes[k];
    }
  }

  /** The greedy run leaves no freedom: its picks and its window are determined. */
  lemma {:induction false} GreedyRunIsDetermined(
      v: seq<real>, g: Grid, close: real, w: Window,
      picks: seq<int>, final: Window, picks': seq<int>, final': Window)
    requires w.In(|v|)
    requires GreedyRun(v, g, close, w, picks, final) && GreedyRun(v, g, close, w, picks', final')
    ensures picks == picks' && final == final'
    decreases |picks|
  {
    hide Enough, Beats;
    if picks != [] {
      assert picks' != [];
      GreedyRunIsDetermined(v, g, close, w.With(picks[0]), picks[1..], final, picks'[1..], final');
      assert picks == [picks[0]] + picks[1..];
    }
  }

  /** What the run ends on: a contiguous window around its start that holds enough, and that
      held too little before its last pick, which sits at one end of it. */
  lemma {:induction false} GreedyRunEndsTight(
      v: seq<real>, g: Grid, close: real, w: Window, picks: seq<int>, final: Window)
    requires w.In(|v|) && GreedyRun(v, g, close, w, picks, final)
    ensures final.In(|v|) && final.first <= w.first && w.last <= final.last && Enough(v, final)
    ensures final.Size() == w.Size() + |picks|
    ensures picks != [] ==>
      var k := picks[|picks| - 1];
      && (k == final.first || k == final.last)
      && (Held(v, final) - v[k]) * 10.0 < Sum(v, 0, |v|) * 7.0
    decreases |picks|
  {
    if picks != [] {
      HeldWith(v, w, picks[0]);
      GreedyRunEndsTight(v, g, close, w.With(picks[0]), picks[1..], final);
      if |picks| == 1 {
        assert final == w.With(picks[0]);
      } else {
        assert picks[1..][|picks| - 2] == picks[|picks| - 1];
      }
    }
  }

  // ----- A single-peaked profile has a smallest value area -----------------

  ghost predicate SinglePeaked(v: seq<real>, poc: int) {
    && 0 <= poc < |v|
    && (forall j, k | 0 <= j <= k <= poc :: v[j] <= v[k])
    && (forall j, k | poc <= j <= k < |v| :: v[k] <= v[j])
  }

  ghost predicate Dominates(v: seq<real>, w: Window)
    requires w.In(|v|)
  {
    forall i, o | w.first <= i <= w.last && 0 <= o < |v| && !(w.first <= o <= w.last) :: v[o] <= v[i]
  }

  lemma DominanceKept(v: seq<real>, g: Grid, close: real, poc: int, w: Window, k: int)
    requires w.In(|v|) && SinglePeaked(v, poc) && w.first <= poc <= w.last && Dominates(v, w)
    requires BestNeighbour(v, g, close, w, k)
    ensures w.With(k).In(|v|) && Dominates(v, w.With(k))
  {
    hide Nearer;
    forall o | 0 <= o < |v| && !(w.With(k).first <= o <= w.With(k).last) ensures v[o] <= v[k] {
      if o < w.first {
        assert v[o] <= v[w.first - 1];
      } else {
        assert v[o] <= v[w.last + 1];
      }
    }
  }

  function LeastIn(v: seq<real>, lo: int, hi: int): (r: real)
    requires 0 <= lo < hi <= |v|
    ensures forall k | lo <= k < hi :: r <= v[k]
    ensures exists k | lo <= k < hi :: r == v[k]
    decreases hi
  {
    if lo + 1 == hi then v[lo] else Min(LeastIn(v, lo, hi - 1), v[hi - 1])
  }

  /** `n` bins of height `t`. */
  function Flat(t: real, n: nat): real {
    if n == 0 then 0.0 else Flat(t, n - 1) + t
  }

  lemma {:induction false} FlatGrows(t: real, n: nat, m: nat)
    requires t >= 0.0 && n <= m
    ensures Flat(t, n) <= Flat(t, m)
  {
    if n < m {
      FlatGrows(t, n, m - 1);
    }
  }

  lemma {:induction false} ExcessBound(v: seq<real>, e: seq<real>, t: real, lo: int, hi: int)
    requires 0 <= lo <= hi <= |v| == |e|
    requires forall k | lo <= k < hi :: v[k] - t <= e[k]
    ensures Sum(v, lo, hi) - Flat(t, hi - lo) <= Sum(e, lo, hi)
    ensures (forall k | lo <= k < hi :: v[k] - t == e[k]) ==> Sum(v, lo, hi) - Flat(t, hi - lo) == Sum(e, lo, hi)
    decreases hi
  {
    if lo == hi {
    } else {
      ExcessBound(v, e, t, lo, hi - 1);
    }
  }

  lemma {:induction false} ZeroSum(e: seq<real>, lo: int, hi: int)
    requires 0 <= lo <= hi <= |e| && forall k | lo <= k < hi :: e[k] == 0.0
    ensures Sum(e, lo, hi) == 0.0
    decreases hi
  {
    if lo < hi {
      ZeroSum(e, lo, hi - 1);
    }
  }

  function Excess(v: seq<real>, t: real): (e: seq<real>)
    ensures |e| == |v| && forall k | 0 <= k < |v| :: e[k] == Max(v[k] - t, 0.0)
  {
    seq(|v|, k requires 0 <= k < |v| => Max(v[k] - t, 0.0))
  }

  lemma ExcessOfAny(v: seq<real>, t: real, w: Window)
    requires w.In(|v|)
    ensures Held(v, w) - Flat(t, w.Size()) <= Sum(Excess(v, t), 0, |v|)
  {
    hide Excess, Sum;
    var e := Excess(v, t);
    ExcessBound(v, e, t, w.first, w.last + 1);
    SumIsNonNegative(e, 0, w.first);
    SumIsNonNegative(e, w.last + 1, |e|);
    SumSplits(e, 0, w.first, w.last + 1);
    SumSplits(e, 0, w.last + 1, |e|);
  }

  lemma ExcessOfDominant(v: seq<real>, t: real, w: Window)
    requires w.In(|v|)
    requires forall k | w.first <= k <= w.last :: t <= v[k]
    requires forall o | 0 <= o < |v| && !(w.first <= o <= w.last) :: v[o] <= t
    ensures Held(v, w) - Flat(t, w.Size()) == Sum(Excess(v, t), 0, |v|)
  {
    hide Excess, Sum;
    var e := Excess(v, t);
    ExcessBound(v, e, t, w.first, w.last + 1);
    ZeroSum(e, 0, w.first);
    ZeroSum(e, w.last + 1, |e|);
    SumSplits(e, 0, w.first, w.last + 1);
    SumSplits(e, 0, w.last + 1, |e|);
  }

  /** A window whose bins all hold at least as much as the bins outside it holds at least as
      much as any window of no more bins. */
  lemma DominantHoldsMost(v: seq<real>, w: Window, other: Window)
    requires w.In(|v|) && other.In(|v|) && other.Size() <= w.Size()
    requires Dominates(v, w) && forall k | 0 <= k < |v| :: v[k] >= 0.0
    ensures Held(v, other) <= Held(v, w)
  {
    hide Sum, Excess, LeastIn, Flat;
    var t := LeastIn(v, w.first, w.last + 1);
    assert t >= 0.0;
    ExcessOfAny(v, t, other);
    ExcessOfDominant(v, t, w);
    FlatGrows(t, other.Size(), w.Size());
  }

  lemma {:induction false} GreedyRunIsSmallest(
      v: seq<real>, g: Grid, close: real, poc: int, w: Window, picks: seq<int>, final: Window, other: Window)
    requires ValidVolumes(v, g) && SinglePeaked(v, poc)
    requires w.In(|v|) && w.first <= poc <= w.last && Dominates(v, w)
    requires GreedyRun(v, g, close, w, picks, final)
    requires other.In(|v|) && Enough(v, other) && w.Size() <= other.Size()
    ensures final.Size() <= other.Size()
    decreases |picks|
  {
    if picks != [] {
      if other.Size() == w.Size() {
        DominantHoldsMost(v, w, other);
      }
      DominanceKept(v, g, close, poc, w, picks[0]);
      GreedyRunIsSmallest(v, g, close, poc, w.With(picks[0]), picks[1..], final, other);
    }
  }

  /** On a single-peaked profile the value area is optimal: no window of fewer bins, wherever
      it lies, holds seven tenths of the volume. */
  lemma ValueAreaIsSmallest(
      v: seq<real>, g: Grid, close: real, poc: int, picks: seq<int>, final: Window, other: Window)
    requires ValidVolumes(v, g) && SinglePeaked(v, poc)
    requires GreedyRun(v, g, close, Window(poc, poc), picks, final)
    requires other.In(|v|) && Enough(v, other)
    ensures final.Size() <= other.Size()
  {
    GreedyRunIsSmallest(v, g, close, poc, Window(poc, poc), picks, final, other);
  }

  // ----- The whole profile ------------------------------------------------

  datatype MinuteBar = MinuteBar(low: real, high: real, volume: Option<real>)

  datatype Profile = Present(poc: real, val: real, vah: real) | Unknown(reason: string)

  predicate ValidMinutes(minutes: seq<MinuteBar>) {
    forall i | 0 <= i < |minutes| :: minutes[i].low <= minutes[i].high && minutes[i].volume.GetOr(0.0) >= 0.0
  }

  /** The traded bars whose volume is known. */
  function KnownBars(minutes: seq<MinuteBar>): (r: seq<Bar>)
    requires ValidMinutes(minutes)
    ensures ValidBars(r)
    ensures forall bar :: bar in r <==> MinuteBar(bar.low, bar.high, Some(bar.volume)) in minutes
  {
    if minutes == [] then []
    else
      var n := |minutes| - 1;
      var rest := KnownBars(minutes[..n]);
      assert minutes == minutes[..n] + [minutes[n]];
      match minutes[n].volume
      case None => rest
      case Some(volume) =>
        var bar := Bar(minutes[n].low, minutes[n].high, volume);
        assert bar.Valid();
        rest + [bar]
  }

  /** As often as it was traded: no known bar is dropped, made up or counted twice. */
  lemma {:induction false} KnownBarsKeepCounts(minutes: seq<MinuteBar>, bar: Bar)
    requires ValidMinutes(minutes)
    ensures multiset(KnownBars(minutes))[bar] == multiset(minutes)[MinuteBar(bar.low, bar.high, Some(bar.volume))]
    decreases |minutes|
  {
    NoneKnown();
    hide KnownBars, ValidBars;
    if minutes != [] {
      var n := |minutes| - 1;
      KnownBarsKeepCounts(minutes[..n], bar);
      LastKnown(minutes);
      assert minutes == minutes[..n] + [minutes[n]];
    }
  }

  lemma NoneKnown()
    ensures KnownBars([]) == []
  {
  }

  lemma LastKnown(minutes: seq<MinuteBar>)
    requires ValidMinutes(minutes) && minutes != []
    ensures var n := |minutes| - 1;
      KnownBars(minutes) == KnownBars(minutes[..n]) +
        if minutes[n].volume.Some? then [Bar(minutes[n].low, minutes[n].high, minutes[n].volume.value)] else []
  {
    assert KnownBars(minutes[..|minutes| - 1]) + [] == KnownBars(minutes[..|minutes| - 1]);
    hide ValidBars;
  }

  function Volumes(g: Grid, bars: seq<Bar>): seq<real>
    requires g.width > 0.0 && ValidBars(bars)
  {
    seq(g.count, k => BinVolume(g, bars, k))
  }

  /** `r` is the profile of `bars`: its prices frame the one greedy window around the one
      point of control of the one grid of these bars. */
  ghost predicate Describes(
      r: Profile, bars: seq<Bar>, tick: real, atr: real, close: real, w: Window, picks: seq<int>)
    requires bars != [] && ValidBars(bars) && tick > 0.0
  {
    var g := BuildGrid(bars, tick, atr);
    && CoversAll(g, bars)
    && var v := Volumes(g, bars);
    && ValidVolumes(v, g)
    && Sum(v, 0, |v|) == TotalVolume(bars)
    && var poc := PointOfControl(v, g, close);
    && GreedyRun(v, g, close, Window(poc, poc), picks, w)
    && r == Present(g.Middle(poc), g.Edge(w.first), g.Edge(w.last + 1))
  }

  /** All but the bars themselves that a profile needs is there, and nothing is wrong with the coverage. */
  predicate Supplied(minutes: Option<seq<MinuteBar>>, daily: bool, priorClose: Option<real>,
                     dailyAtr: Option<real>, tick: Option<real>, coverage: Option<string>) {
    minutes.Some? && daily && priorClose.Some? && dailyAtr.Some? && tick.Some? && tick.value > 0.0 && coverage.None?
  }

  method BuildPriorSessionProfile(
      minutes: Option<seq<MinuteBar>>, daily: bool, priorClose: Option<real>, dailyAtr: Option<real>,
      tick: Option<real>, coverage: Option<string>)
    returns (r: Profile)
    requires minutes.Some? ==> ValidMinutes(minutes.value)
    ensures !Supplied(minutes, daily, priorClose, dailyAtr, tick, coverage) ==>
      r == Unknown(if minutes.None? then "MISSING_MINUTE_HISTORY"
                   else if !daily then "MISSING_DAILY_HISTORY"
                   else if priorClose.None? || dailyAtr.None? then "MISSING_PRIOR_CLOSE_OR_DAILY_ATR"
                   else if tick.None? || tick.value <= 0.0 then "MISSING_OR_INVALID_TICK"
                   else coverage.GetOr(""))
    ensures Supplied(minutes, daily, priorClose, dailyAtr, tick, coverage) ==>
      if forall bar | bar in minutes.value && bar.volume.Some? :: bar.volume.value <= 0.0
      then r == Unknown("NO_POSITIVE_VOLUME_TRADED_BAR")
      else KnownBars(minutes.value) != [] && exists w, picks ::
        Describes(r, KnownBars(minutes.value), tick.value, dailyAtr.value, priorClose.value, w, picks)
    ensures r.Present? ==> r.val < r.poc < r.vah
  {
    if minutes.None? {
      return Unknown("MISSING_MINUTE_HISTORY");
    }
    if !daily {
      return Unknown("MISSING_DAILY_HISTORY");
    }
    if priorClose.None? || dailyAtr.None? {
      return Unknown("MISSING_PRIOR_CLOSE_OR_DAILY_ATR");
    }
    if tick.None? || tick.value <= 0.0 {
      return Unknown("MISSING_OR_INVALID_TICK");
    }
    if coverage.Some? {
      return Unknown(coverage.value);
    }
    var bars := KnownBars(minutes.value);
    KnownVolumes(minutes.value);
    if forall i | 0 <= i < |bars| :: bars[i].volume <= 0.0 {
      return Unknown("NO_POSITIVE_VOLUME_TRADED_BAR");
    }
    r := BuildFromBars(bars, tick.value, dailyAtr.value, priorClose.value);
  }

  lemma KnownVolumes(minutes: seq<MinuteBar>)
    requires ValidMinutes(minutes)
    ensures var bars := KnownBars(minutes);
      (forall i | 0 <= i < |bars| :: bars[i].volume <= 0.0) <==>
      (forall bar | bar in minutes && bar.volume.Some? :: bar.volume.value <= 0.0)
  {
    var bars := KnownBars(minutes);
    if forall i | 0 <= i < |bars| :: bars[i].volume <= 0.0 {
      forall bar | bar in minutes && bar.volume.Some? ensures bar.volume.value <= 0.0 {
        assert bar == MinuteBar(bar.low, bar.high, Some(bar.volume.value));
        assert Bar(bar.low, bar.high, bar.volume.value) in bars;
      }
    }
    if forall bar | bar in minutes && bar.volume.Some? :: bar.volume.value <= 0.0 {
      forall i | 0 <= i < |bars| ensures bars[i].volume <= 0.0 {
        assert bars[i] in bars && MinuteBar(bars[i].low, bars[i].high, Some(bars[i].volume)) in minutes;
      }
    }
  }

  lemma FrameRises(g: Grid, poc: int, w: Window)
    requires g.width > 0.0 && w.first <= poc <= w.last
    ensures g.Edge(w.first) < g.Middle(poc) < g.Edge(w.last + 1)
  {
    hide Grid.Edge, Grid.Middle;
    EdgesRise(g, w.first, poc);
    EdgesRise(g, poc + 1, w.last + 1);
    MiddlesRise(g, poc, poc + 1);
  }

  method BuildFromBars(bars: seq<Bar>, tick: real, atr: real, close: real) returns (r: Profile)
    requires bars != [] && ValidBars(bars) && tick > 0.0
    ensures exists w, picks :: Describes(r, bars, tick, atr, close, w, picks)
    ensures r.Present? && r.val < r.poc < r.vah
  {
    hide BinVolume, Share, TotalVolume, Sum, PointOfControl, Picked, Enough, Covers, Grid.Edge, Grid.Middle;
    GridFits(bars, tick, atr);
    var g := BuildGrid(bars, tick, atr);
    hide BuildGrid;
    var volumes := FillBins(g, bars);
    assert volumes[..] == Volumes(g, bars);
    var poc := PointOfControl(volumes[..], g, close);
    var first, last, picks := GrowValueArea(volumes, g, close, poc);
    r := Present(g.Middle(poc), g.Edge(first), g.Edge(last + 1));
    FrameRises(g, poc, Window(first, last));
    assert Describes(r, bars, tick, atr, close, Window(first, last), picks);
  }
}
