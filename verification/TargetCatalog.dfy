/** The stop and target catalogue of `consensus_engine/first_pullback_vwap_research_adapter.py`,
over exact rationals, and the risk gate of `PullbackGates` as their consumer.
*/
module TargetCatalog {
  import opened Wrappers
  import opened Rationals
  import opened PullbackGates

  // ----- Rounding ---------------------------------------------------------

  predicate OnIncrement(x: real, increment: real)
    requires increment > 0.0
  {
    Times(FloorDiv(x, increment) as real, increment) == x
  }

  /** The nearest increment at or beyond `raw` on the far side from a trade in this direction. */
  function RoundOutward(raw: real, increment: real, direction: Direction): real
    requires increment > 0.0
  {
    Times((if direction.Short? then CeilDiv(raw, increment) else FloorDiv(raw, increment)) as real, increment)
  }

  /** Rounding goes outward by less than one increment. */
  lemma RoundsOutward(raw: real, increment: real, direction: Direction)
    requires increment > 0.0
    ensures var outward := direction.Signed(raw - RoundOutward(raw, increment, direction));
      0.0 <= outward < increment
  {
    var low, high := FloorDiv(raw, increment), CeilDiv(raw, increment);
    FloorBounds(raw, increment);
    CeilBounds(raw, increment);
    TimesDistributes(low as real, 1.0, increment);
    TimesDistributes(high as real, 1.0, increment);
    TimesUnit(increment);
    hide Times, FloorDiv, CeilDiv;
  }

  /** A price already on an increment stays; any other moves. */
  lemma RoundingMoves(raw: real, increment: real, direction: Direction)
    requires increment > 0.0
    ensures RoundOutward(raw, increment, direction) == raw <==> OnIncrement(raw, increment)
  {
    if RoundOutward(raw, increment, direction) == raw {
      WholeQuotient(if direction.Short? then CeilDiv(raw, increment) else FloorDiv(raw, increment), increment);
    }
    if OnIncrement(raw, increment) {
      WholeQuotient(FloorDiv(raw, increment), increment);
    }
    hide Times, FloorDiv, CeilDiv;
  }

  lemma WholeQuotient(n: int, increment: real)
    requires increment > 0.0
    ensures FloorDiv(Times(n as real, increment), increment) == n == CeilDiv(Times(n as real, increment), increment)
  {
    var x := Times(n as real, increment);
    DivThenMul(x, increment);
    CancelFactor(x / increment, n as real, increment);
  }

  // ----- Half-dollar levels -----------------------------------------------

  const HALF := 0.5

  function Half(n: int): real { n as real * HALF }

  predicate Between(n: int, lower: real, upper: real) { lower < Half(n) < upper }

  /** The round prices a trade would pass on its way from the entry, neither end counted. */
  method DollarHalfLevels(entry: real, furthest: real, direction: Direction) returns (levels: seq<real>)
    ensures var (lower, upper) := if direction.Long? then (entry, furthest) else (furthest, entry);
      && (forall p | p in levels :: exists n :: p == Half(n) && Between(n, lower, upper))
      && (forall n: int | Between(n, lower, upper) :: Half(n) in levels)
  {
    var (lower, upper) := if direction.Long? then (entry, furthest) else (furthest, entry);
    levels := [];
    if lower >= upper {
      return;
    }
    var first := (lower / HALF).Floor + 1;
    var n := first;
    while Half(n) < upper
      invariant first <= n
      invariant forall p | p in levels :: exists m :: p == Half(m) && Between(m, lower, upper)
      invariant forall m: int | first <= m < n :: Half(m) in levels
      decreases (upper / HALF).Floor + 1 - n
    {
      assert Between(n, lower, upper);
      levels := levels + [Half(n)];
      n := n + 1;
    }
    forall m: int | Between(m, lower, upper) ensures Half(m) in levels {
      assert first <= m < n;
    }
  }

  // ----- The catalogue ----------------------------------------------------

  function Distance(entry: real, direction: Direction, price: real): real { direction.Signed(price - entry) }

  function Ahead(prices: seq<real>, entry: real, direction: Direction): seq<real>
    decreases |prices|
  {
    if prices == [] then []
    else
      var last := prices[|prices| - 1];
      Ahead(prices[..|prices| - 1], entry, direction) + if Distance(entry, direction, last) > 0.0 then [last] else []
  }

  lemma {:induction false} AheadIs(prices: seq<real>, entry: real, direction: Direction)
    ensures forall p :: p in Ahead(prices, entry, direction) <==> p in prices && Distance(entry, direction, p) > 0.0
    decreases |prices|
  {
    if prices != [] {
      AheadIs(prices[..|prices| - 1], entry, direction);
      assert prices == prices[..|prices| - 1] + [prices[|prices| - 1]];
    }
  }

  /** The largest price, in either direction: for SHORT that is the nearest level, not the
      furthest. */
  function Furthest(prices: seq<real>): (furthest: real)
    requires prices != []
    ensures furthest in prices && forall p | p in prices :: p <= furthest
    decreases |prices|
  {
    var last := prices[|prices| - 1];
    assert prices == prices[..|prices| - 1] + [last];
    if |prices| == 1 then last else Max(Furthest(prices[..|prices| - 1]), last)
  }

  /** Every price the catalogue chooses from. */
  ghost predicate IsLevel(prices: seq<real>, entry: real, direction: Direction, p: real) {
    var ahead := Ahead(prices, entry, direction);
    ahead != [] &&
    (p in ahead || exists n :: p == Half(n) && HalfLevel(ahead, entry, direction, n))
  }

  predicate HalfLevel(ahead: seq<real>, entry: real, direction: Direction, n: int)
    requires ahead != []
  {
    if direction.Long? then Between(n, entry, Furthest(ahead)) else Between(n, Furthest(ahead), entry)
  }

  ghost predicate ByDistance(levels: seq<real>, entry: real, direction: Direction) {
    forall i, j | 0 <= i < j < |levels| :: Distance(entry, direction, levels[i]) < Distance(entry, direction, levels[j])
  }

  /** One price goes where its distance puts it, once. */
  function WithLevel(levels: seq<real>, entry: real, direction: Direction, p: real): seq<real>
    decreases |levels|
  {
    if levels == [] then [p]
    else
      var last := levels[|levels| - 1];
      if Distance(entry, direction, last) < Distance(entry, direction, p) then levels + [p]
      else if last == p then levels
      else WithLevel(levels[..|levels| - 1], entry, direction, p) + [last]
  }

  lemma {:induction false} WithLevelKeeps(levels: seq<real>, entry: real, direction: Direction, p: real)
    requires ByDistance(levels, entry, direction)
    ensures ByDistance(WithLevel(levels, entry, direction, p), entry, direction)
    ensures forall x :: x in WithLevel(levels, entry, direction, p) <==> x in levels || x == p
    decreases |levels|
  {
    if levels != [] {
      var n := |levels| - 1;
      var last := levels[n];
      assert levels == levels[..n] + [last];
      if Distance(entry, direction, last) >= Distance(entry, direction, p) && last != p {
        WithLevelKeeps(levels[..n], entry, direction, p);
        var inner := WithLevel(levels[..n], entry, direction, p);
        forall i | 0 <= i < |inner| ensures Distance(entry, direction, inner[i]) < Distance(entry, direction, last) {
          assert inner[i] in inner;
        }
      }
    }
  }

  method OrderLevels(prices: seq<real>, entry: real, direction: Direction) returns (ordered: seq<real>)
    ensures ByDistance(ordered, entry, direction)
    ensures forall p :: p in ordered <==> p in prices
  {
    ordered := [];
    for i := 0 to |prices|
      invariant ByDistance(ordered, entry, direction)
      invariant forall p :: p in ordered <==> p in prices[..i]
    {
      assert prices[..i + 1] == prices[..i] + [prices[i]];
      WithLevelKeeps(ordered, entry, direction, prices[i]);
      ordered := WithLevel(ordered, entry, direction, prices[i]);
    }
    assert prices[..|prices|] == prices;
  }

  /** The first of some ordered levels whose distance lies in a window beyond `after`. */
  method FirstIn(
      ordered: seq<real>, entry: real, direction: Direction, after: real, low: real,
      high: Option<real>)
    returns (found: Option<real>)
    requires ByDistance(ordered, entry, direction)
    ensures found == None <==> forall p | p in ordered :: !InWindow(entry, direction, after, low, high, p)
    ensures found.Some? ==> found.value in ordered && InWindow(entry, direction, after, low, high, found.value)
    ensures found.Some? ==> forall p | p in ordered && InWindow(entry, direction, after, low, high, p) ::
      Distance(entry, direction, found.value) <= Distance(entry, direction, p)
  {
    for i := 0 to |ordered|
      invariant forall k | 0 <= k < i :: !InWindow(entry, direction, after, low, high, ordered[k])
    {
      if InWindow(entry, direction, after, low, high, ordered[i]) {
        return Some(ordered[i]);
      }
    }
    return None;
  }

  predicate InWindow(entry: real, direction: Direction, after: real, low: real, high: Option<real>, p: real) {
    var d := Distance(entry, direction, p);
    after < d && low <= d && (high.Some? ==> d <= high.value)
  }

  /** T1 is the nearest level at least one and a half R away. */
  ghost predicate IsFirstTarget(prices: seq<real>, entry: real, direction: Direction, risk: real, p: real) {
    && IsLevel(prices, entry, direction, p) && Distance(entry, direction, p) >= 1.5 * risk
    && forall q | IsLevel(prices, entry, direction, q) && Distance(entry, direction, q) >= 1.5 * risk ::
         Distance(entry, direction, p) <= Distance(entry, direction, q)
  }

  ghost predicate SecondTargetRange(
      prices: seq<real>, entry: real, direction: Direction, risk: real, first: real, q: real) {
    && IsLevel(prices, entry, direction, q) && Distance(entry, direction, first) < Distance(entry, direction, q)
    && 2.5 * risk <= Distance(entry, direction, q) <= 4.0 * risk
  }

  /** T2 is the nearest level beyond T1 from two and a half R through four R. */
  ghost predicate IsSecondTarget(
      prices: seq<real>, entry: real, direction: Direction, risk: real, first: real, p: real) {
    && SecondTargetRange(prices, entry, direction, risk, first, p)
    && forall q | SecondTargetRange(prices, entry, direction, risk, first, q) ::
      Distance(entry, direction, p) <= Distance(entry, direction, q)
  }

  /** What a catalogue holds: no target without a T1, and a T2 exactly when there is one to have. */
  ghost predicate IsCatalog(prices: seq<real>, entry: real, direction: Direction, risk: real, targets: seq<Target>)
    requires risk > 0.0
  {
    && |targets| <= 2
    && (targets == [] <==> forall p | IsLevel(prices, entry, direction, p) ::
         Distance(entry, direction, p) < 1.5 * risk)
    && (forall i | 0 <= i < |targets| ::
         targets[i].rMultiple == RewardMultiple(Distance(entry, direction, targets[i].price), risk))
    && (|targets| > 0 ==> targets[0].name == "T1" && IsFirstTarget(prices, entry, direction, risk, targets[0].price))
    && (|targets| == 1 ==> forall q :: !SecondTargetRange(prices, entry, direction, risk, targets[0].price, q))
    && (|targets| == 2 ==>
        targets[1].name == "T2" && IsSecondTarget(prices, entry, direction, risk, targets[0].price, targets[1].price))
  }

  lemma FirstFound(
      prices: seq<real>, ordered: seq<real>, entry: real, direction: Direction, risk: real, found: Option<real>)
    requires forall p :: p in ordered <==> IsLevel(prices, entry, direction, p)
    requires forall p | p in ordered :: Distance(entry, direction, p) > 0.0
    requires found == None <==> forall p | p in ordered :: !InWindow(entry, direction, 0.0, 1.5 * risk, None, p)
    requires found.Some? ==> found.value in ordered && InWindow(entry, direction, 0.0, 1.5 * risk, None, found.value)
    requires found.Some? ==> forall p | p in ordered && InWindow(entry, direction, 0.0, 1.5 * risk, None, p) ::
      Distance(entry, direction, found.value) <= Distance(entry, direction, p)
    ensures found.None? ==> forall p | IsLevel(prices, entry, direction, p) ::
      Distance(entry, direction, p) < 1.5 * risk
    ensures found.Some? ==> IsFirstTarget(prices, entry, direction, risk, found.value)
  {
    hide IsLevel, Distance;
    forall p | IsLevel(prices, entry, direction, p) && Distance(entry, direction, p) >= 1.5 * risk
      ensures p in ordered && InWindow(entry, direction, 0.0, 1.5 * risk, None, p)
    {
    }
  }

  lemma SecondFound(
      prices: seq<real>, ordered: seq<real>, entry: real, direction: Direction, risk: real, first: real,
      found: Option<real>)
    requires forall p :: p in ordered <==> IsLevel(prices, entry, direction, p)
    requires var after := Distance(entry, direction, first);
      && (found == None <==> forall p | p in ordered ::
           !InWindow(entry, direction, after, 2.5 * risk, Some(4.0 * risk), p))
      && (found.Some? ==>
          && found.value in ordered
          && InWindow(entry, direction, after, 2.5 * risk, Some(4.0 * risk), found.value))
      && (found.Some? ==>
          forall p | p in ordered && InWindow(entry, direction, after, 2.5 * risk, Some(4.0 * risk), p) ::
          Distance(entry, direction, found.value) <= Distance(entry, direction, p))
    ensures found.None? ==> forall q :: !SecondTargetRange(prices, entry, direction, risk, first, q)
    ensures found.Some? ==> IsSecondTarget(prices, entry, direction, risk, first, found.value)
  {
    hide IsLevel, Distance;
    forall q ensures SecondTargetRange(prices, entry, direction, risk, first, q) <==>
      q in ordered && InWindow(entry, direction, Distance(entry, direction, first), 2.5 * risk, Some(4.0 * risk), q)
    {
    }
  }

  method BuildTargetCatalog(
      prices: seq<real>, entry: real, direction: Direction, risk: real)
    returns (targets: seq<Target>)
    requires risk > 0.0
    ensures IsCatalog(prices, entry, direction, risk, targets)
  {
    hide RewardMultiple, IsLevel, IsCatalog, IsFirstTarget, IsSecondTarget;
    hide SecondTargetRange, InWindow, Distance, ByDistance, Ahead;
    var ahead := Ahead(prices, entry, direction);
    if ahead == [] {
      NothingAhead(prices, entry, direction, risk);
      return [];
    }
    var halves := DollarHalfLevels(entry, Furthest(ahead), direction);
    var ordered := OrderLevels(ahead + halves, entry, direction);
    LevelsAre(prices, entry, direction, ahead, halves, ordered);
    var first := FirstIn(ordered, entry, direction, 0.0, 1.5 * risk, None);
    FirstFound(prices, ordered, entry, direction, risk, first);
    if first.None? {
      NoTargets(prices, entry, direction, risk);
      return [];
    }
    var after := Distance(entry, direction, first.value);
    var second := FirstIn(ordered, entry, direction, after, 2.5 * risk, Some(4.0 * risk));
    SecondFound(prices, ordered, entry, direction, risk, first.value, second);
    targets := [Target("T1", first.value, RewardMultiple(after, risk))];
    if second.Some? {
      targets := targets + [Target("T2", second.value, RewardMultiple(Distance(entry, direction, second.value), risk))];
    }
    TargetsCatalogued(prices, entry, direction, risk, targets);
  }

  lemma NothingAhead(prices: seq<real>, entry: real, direction: Direction, risk: real)
    requires risk > 0.0 && Ahead(prices, entry, direction) == []
    ensures IsCatalog(prices, entry, direction, risk, [])
  {
  }

  lemma NoTargets(prices: seq<real>, entry: real, direction: Direction, risk: real)
    requires risk > 0.0 && forall p | IsLevel(prices, entry, direction, p) :: Distance(entry, direction, p) < 1.5 * risk
    ensures IsCatalog(prices, entry, direction, risk, [])
  {
    hide IsLevel;
  }

  lemma TargetsCatalogued(prices: seq<real>, entry: real, direction: Direction, risk: real, targets: seq<Target>)
    requires risk > 0.0 && 1 <= |targets| <= 2
    requires IsFirstTarget(prices, entry, direction, risk, targets[0].price)
    requires |targets| == 1 ==> forall q :: !SecondTargetRange(prices, entry, direction, risk, targets[0].price, q)
    requires |targets| == 2 ==> IsSecondTarget(prices, entry, direction, risk, targets[0].price, targets[1].price)
    requires forall i | 0 <= i < |targets| ::
      targets[i].rMultiple == RewardMultiple(Distance(entry, direction, targets[i].price), risk)
    requires targets[0].name == "T1" && (|targets| == 2 ==> targets[1].name == "T2")
    ensures IsCatalog(prices, entry, direction, risk, targets)
  {
    FirstIsLevel(prices, entry, direction, risk, targets[0].price);
    hide IsLevel, IsFirstTarget, IsSecondTarget, SecondTargetRange, Distance, RewardMultiple;
  }

  lemma FirstIsLevel(prices: seq<real>, entry: real, direction: Direction, risk: real, p: real)
    requires IsFirstTarget(prices, entry, direction, risk, p)
    ensures IsLevel(prices, entry, direction, p) && Distance(entry, direction, p) >= 1.5 * risk
  {
  }

  lemma LevelsAre(
      prices: seq<real>, entry: real, direction: Direction, ahead: seq<real>, halves: seq<real>, ordered: seq<real>)
    requires ahead == Ahead(prices, entry, direction) && ahead != []
    requires var (lower, upper) := if direction.Long? then (entry, Furthest(ahead)) else (Furthest(ahead), entry);
      && (forall p | p in halves :: exists n :: p == Half(n) && Between(n, lower, upper))
      && (forall n: int | Between(n, lower, upper) :: Half(n) in halves)
    requires forall p :: p in ordered <==> p in ahead + halves
    ensures forall p :: p in ordered <==> IsLevel(prices, entry, direction, p)
    ensures forall p | p in ordered :: Distance(entry, direction, p) > 0.0
  {
    AheadIs(prices, entry, direction);
    forall p ensures p in ordered <==> IsLevel(prices, entry, direction, p)
      ensures p in ordered ==> Distance(entry, direction, p) > 0.0
    {
      hide Ahead, Half;
      assert p in ahead + halves <==> p in ahead || p in halves;
      if p in halves {
        var n :| p == Half(n)
          && (if direction.Long? then Between(n, entry, Furthest(ahead)) else Between(n, Furthest(ahead), entry));
        assert HalfLevel(ahead, entry, direction, n);
      }
      if exists n :: p == Half(n) && HalfLevel(ahead, entry, direction, n) {
        var n :| p == Half(n) && HalfLevel(ahead, entry, direction, n);
        assert Half(n) in halves;
      }
    }
  }

  // ----- The structural reading -------------------------------------------

  /** The prices the catalogue may use; absent when any of them is unavailable. */
  datatype Levels = Levels(
    impulseExtreme: real, sessionHigh: real, sessionLow: real, priorHigh: real, priorLow: real, priorClose: real)
  {
    function Prices(): seq<real> { [impulseExtreme, sessionHigh, sessionLow, priorHigh, priorLow, priorClose] }
  }

  datatype StructuralError = UnsupportedPrice

  datatype Frame = Frame(direction: Direction, impulseFrozenAt: int, evaluatedAt: int, availableAt: int)

  function Missing(frame: Frame, reason: string): Structural {
    Structural(frame.direction, frame.impulseFrozenAt, frame.evaluatedAt, frame.availableAt, None, [], Text(reason))
  }

  function RawStop(extreme: real, atr: real, direction: Direction): real { extreme - direction.Signed(0.05 * atr) }

  /** The stop is on an increment, the nearest one at a twentieth of the ATR or more beyond the extreme. */
  ghost predicate StopIs(stop: real, extreme: real, atr: real, increment: real, direction: Direction) {
    && (exists k: int :: OnStep(stop, k, increment))
    && 0.0 <= direction.Signed(extreme - stop) - atr / 20.0 < increment
  }

  predicate OnStep(price: real, k: int, increment: real) { price == Times(k as real, increment) }

  lemma StopIsPlaced(extreme: real, atr: real, increment: real, direction: Direction)
    requires increment > 0.0
    ensures var stop := RoundOutward(RawStop(extreme, atr, direction), increment, direction);
      StopIs(stop, extreme, atr, increment, direction)
  {
    var raw := RawStop(extreme, atr, direction);
    RoundsOutward(raw, increment, direction);
    var k := if direction.Short? then CeilDiv(raw, increment) else FloorDiv(raw, increment);
    assert OnStep(RoundOutward(raw, increment, direction), k, increment);
    hide RoundOutward, Times;
  }

  /** The stop and targets those facts imply, or why they imply none. */
  method BuildPullbackStructural(
      frame: Frame, entry: real, extreme: Option<real>, atr: real, increment: Option<real>, levels: Option<Levels>)
    returns (r: Result<Structural, StructuralError>)
    ensures r.Err? <==> entry <= 0.0 || atr < 0.0 || (extreme.Some? && extreme.value <= 0.0)
                        || (extreme.Some? && increment.Some? && increment.value <= 0.0)
                        || (extreme.Some? && increment.Some? && increment.value > 0.0
                            && StopStands(entry, extreme.value, atr, increment.value, frame.direction)
                            && levels.Some? && levels.value.impulseExtreme <= 0.0)
    ensures r.Ok? ==> r.value.Valid()
    ensures r.Ok? ==>
      && r.value.direction == frame.direction && r.value.impulseFrozenAt == frame.impulseFrozenAt
      && r.value.evaluatedAt == frame.evaluatedAt && r.value.availableAt == frame.availableAt
    ensures r.Ok? && r.value.risk.None? ==> r.value.missing == Text(
      if extreme.None? then "PULLBACK_EXTREME_UNAVAILABLE"
      else if increment.None? then "PRICE_INCREMENT_UNKNOWN"
      else "INVALID_STOP_GEOMETRY")
    ensures r.Ok? ==> (r.value.risk.Some? <==>
      extreme.Some? && increment.Some? && StopStands(entry, extreme.value, atr, increment.value, frame.direction))
    ensures r.Ok? && r.value.risk.Some? ==>
      Implied(r.value, frame, entry, extreme.value, atr, increment.value,
        if levels.Some? then levels.value.Prices() else [])
    ensures r.Ok? && r.value.risk.Some? ==>
      StopIs(r.value.risk.value.stop, extreme.value, atr, increment.value, frame.direction)
    ensures r.Ok? && (r.value.risk.None? || levels.None?) ==> r.value.targets == []
  {
    hide RoundOutward, IsCatalog;
    if entry <= 0.0 || atr < 0.0 {
      return Err(UnsupportedPrice);
    }
    if extreme.None? {
      return Ok(Missing(frame, "PULLBACK_EXTREME_UNAVAILABLE"));
    }
    if extreme.value <= 0.0 {
      return Err(UnsupportedPrice);
    }
    if increment.None? {
      return Ok(Missing(frame, "PRICE_INCREMENT_UNKNOWN"));
    }
    if increment.value <= 0.0 {
      return Err(UnsupportedPrice);
    }
    var stop := RoundOutward(RawStop(extreme.value, atr, frame.direction), increment.value, frame.direction);
    StopIsPlaced(extreme.value, atr, increment.value, frame.direction);
    var perShare := frame.direction.Signed(entry - stop);
    if stop <= 0.0 || perShare <= 0.0 {
      return Ok(Missing(frame, "INVALID_STOP_GEOMETRY"));
    }
    var targets := [];
    if levels.Some? {
      if levels.value.impulseExtreme <= 0.0 {
        return Err(UnsupportedPrice);
      }
      targets := BuildTargetCatalog(levels.value.Prices(), entry, frame.direction, perShare);
    } else {
      NothingToOffer(entry, frame.direction, perShare);
    }
    return Ok(Structural(
      frame.direction, frame.impulseFrozenAt, frame.evaluatedAt, frame.availableAt,
      Some(Risk(entry, stop, perShare)), targets, Text("")));
  }

  /** The implied stop is a price, on the far side of the entry. */
  predicate StopStands(entry: real, extreme: real, atr: real, increment: real, direction: Direction)
    requires increment > 0.0
  {
    var stop := RoundOutward(RawStop(extreme, atr, direction), increment, direction);
    stop > 0.0 && direction.Signed(entry - stop) > 0.0
  }

  lemma NothingToOffer(entry: real, direction: Direction, risk: real)
    requires risk > 0.0
    ensures IsCatalog([], entry, direction, risk, [])
  {
  }

  /** What a built reading says. */
  ghost predicate Implied(
      built: Structural, frame: Frame, entry: real, extreme: real, atr: real, increment: real, prices: seq<real>)
    requires built.risk.Some? && increment > 0.0
  {
    var risk := built.risk.value;
    && risk.entry == entry && risk.perShare == frame.direction.Signed(entry - risk.stop) && risk.perShare > 0.0
    && risk.stop == RoundOutward(RawStop(extreme, atr, frame.direction), increment, frame.direction)
    && IsCatalog(prices, entry, frame.direction, risk.perShare, built.targets)
  }

  // ----- The consumer -----------------------------------------------------

  /** The built stop stands beyond the extreme unless the pad is nothing and the extreme already
      is on an increment. */
  lemma StopBeyondExtreme(extreme: real, atr: real, increment: real, direction: Direction)
    requires atr >= 0.0 && increment > 0.0
    ensures direction.Signed(RoundOutward(RawStop(extreme, atr, direction), increment, direction) - extreme) < 0.0
      <==> atr > 0.0 || !OnIncrement(extreme, increment)
  {
    RoundsOutward(RawStop(extreme, atr, direction), increment, direction);
    RoundingMoves(RawStop(extreme, atr, direction), increment, direction);
    hide RoundOutward, OnIncrement;
  }

  /** No target of a catalogue is behind the entry or claims more than its distance. */
  lemma {:induction false} CatalogTargetsStand(targets: seq<Target>, direction: Direction, risk: Risk)
    requires risk.perShare > 0.0
    requires forall i | 0 <= i < |targets| ::
      && Distance(risk.entry, direction, targets[i].price) > 0.0
      && targets[i].rMultiple == RewardMultiple(Distance(risk.entry, direction, targets[i].price), risk.perShare)
    ensures TargetFault(targets, direction, risk).None?
    decreases |targets|
  {
    hide RewardMultiple;
    if targets != [] {
      CatalogTargetsStand(targets[1..], direction, risk);
    }
  }

  lemma CatalogIsAhead(prices: seq<real>, entry: real, direction: Direction, risk: real, targets: seq<Target>)
    requires risk > 0.0 && IsCatalog(prices, entry, direction, risk, targets)
    ensures forall i | 0 <= i < |targets| :: Distance(entry, direction, targets[i].price) >= 1.5 * risk
    ensures targets != [] ==> targets[0].rMultiple >= 1.5
  {
    hide IsLevel, RewardMultiple, Distance;
    if targets != [] {
      AtLeastOneAndAHalf(Distance(entry, direction, targets[0].price), risk);
    }
  }

  lemma AtLeastOneAndAHalf(distance: real, risk: real)
    requires risk > 0.0 && distance >= 1.5 * risk
    ensures RewardMultiple(distance, risk) >= 1.5
  {
    DivCompare(distance, risk, 1.5);
  }

  /** A built reading with targets, brought to the risk gate in its own frame beside a passing
      measurement that read the same extreme, passes exactly when the entry is beyond the reversal
      bar, the stop had a pad or rounding to move it, and its first target meets the minimum. */
  lemma BuiltGeometryPasses(
      request: Request, built: Structural, frame: Frame, entry: real, extreme: real, atr: real, increment: real,
      prices: seq<real>, reversal: real)
    requires built.Valid() && built.risk.Some? && increment > 0.0 && atr >= 0.0
    requires Implied(built, frame, entry, extreme, atr, increment, prices) && built.targets != []
    requires request.Valid() && request.structural == Some(built)
    requires request.Direction() == frame.direction == built.direction
    requires GeometryFault(request, built).None?
    requires Reading(request, ReversalName(frame.direction)) == Ok(reversal)
    requires Reading(request, PullbackExtreme) == Ok(extreme)
    ensures RiskGate(request) == PASSED <==>
      && frame.direction.Signed(entry - reversal) > 0.0
      && (atr > 0.0 || !OnIncrement(extreme, increment))
      && built.targets[0].rMultiple >= request.policy.minFirstTargetR
    ensures built.targets[0].rMultiple >= 1.5
  {
    var risk := built.risk.value;
    StopBeyondExtreme(extreme, atr, increment, frame.direction);
    CatalogIsAhead(prices, entry, frame.direction, risk.perShare, built.targets);
    CatalogTargets(prices, entry, frame.direction, risk.perShare, built.targets);
    CatalogTargetsStand(built.targets, frame.direction, risk);
    hide RoundOutward, OnIncrement, IsCatalog, TargetFault, GeometryFault, Reading;
    assert RiskGate(request) ==
      GeometryVerdict(built.targets, frame.direction, risk, reversal, extreme, request.policy.minFirstTargetR);
  }

  lemma CatalogTargets(prices: seq<real>, entry: real, direction: Direction, risk: real, targets: seq<Target>)
    requires risk > 0.0 && IsCatalog(prices, entry, direction, risk, targets)
    ensures forall i | 0 <= i < |targets| ::
      targets[i].rMultiple == RewardMultiple(Distance(entry, direction, targets[i].price), risk)
  {
  }
}
