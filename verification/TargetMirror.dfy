/** What the catalogue loses of LONG and SHORT symmetry.

Half-dollar levels reach up to the largest real level in either direction, which for SHORT is the
nearest one. Reflected, a trade has every real level at its old distance from its entry. A reflection
that keeps the half-dollar grid, whatever the entry, keeps the first target exactly when no
half-dollar level lies in the gap that only LONG fills, and then the second target exactly when none
lies in the like gap of its own window.
*/
module TargetMirror {
  import opened Wrappers
  import opened PullbackGates
  import opened TargetCatalog

  /** For LONG the half-dollar levels reach up to the furthest real level; for SHORT every one of
      them is nearer than every real level. */
  lemma HalfLevelsReach(prices: seq<real>, entry: real, direction: Direction, n: int)
    requires Ahead(prices, entry, direction) != [] && HalfLevel(Ahead(prices, entry, direction), entry, direction, n)
    ensures var ahead := Ahead(prices, entry, direction);
      if direction.Long?
      then exists p :: p in ahead && Distance(entry, direction, Half(n)) < Distance(entry, direction, p)
      else forall p | p in ahead :: Distance(entry, direction, Half(n)) < Distance(entry, direction, p)
  {
    var ahead := Ahead(prices, entry, direction);
    assert Furthest(ahead) in ahead;
  }

  lemma NearestQualifies(
      prices: seq<real>, entry: real, direction: Direction, risk: real, targets: seq<Target>, p: real)
    requires risk > 0.0 && IsCatalog(prices, entry, direction, risk, targets)
    requires IsLevel(prices, entry, direction, p) && Distance(entry, direction, p) >= 1.5 * risk
    requires forall q | IsLevel(prices, entry, direction, q) && q != p ::
      Distance(entry, direction, q) < 1.5 * risk || Distance(entry, direction, q) > Distance(entry, direction, p)
    ensures targets != [] && targets[0].price == p
  {
    hide IsLevel, Distance, RewardMultiple;
  }

  /** So reflecting a trade and its levels about the entry may move its first target: LONG finds
      the half-dollar level 106, SHORT passes over 94 for the real level 80. */
  lemma ShortIsNotMirrored(longTargets: seq<Target>, shortTargets: seq<Target>)
    requires IsCatalog([103.0, 120.0], 100.0, Long, 4.0, longTargets)
    requires IsCatalog([97.0, 80.0], 100.0, Short, 4.0, shortTargets)
    ensures longTargets != [] && longTargets[0].price == 106.0
    ensures shortTargets != [] && shortTargets[0].price == 80.0
  {
    hide IsCatalog;
    LongFindsHalf([103.0, 120.0]);
    NearestQualifies([103.0, 120.0], 100.0, Long, 4.0, longTargets, 106.0);
    ShortFindsReal([97.0, 80.0]);
    NearestQualifies([97.0, 80.0], 100.0, Short, 4.0, shortTargets, 80.0);
  }

  lemma LongFindsHalf(prices: seq<real>)
    requires prices == [103.0, 120.0]
    ensures IsLevel(prices, 100.0, Long, 106.0) && Distance(100.0, Long, 106.0) == 6.0
    ensures forall q | IsLevel(prices, 100.0, Long, q) && q != 106.0 ::
      Distance(100.0, Long, q) < 6.0 || Distance(100.0, Long, q) > 6.0
  {
    AheadIs(prices, 100.0, Long);
    var ahead := Ahead(prices, 100.0, Long);
    assert prices[0] in ahead && prices[1] in ahead;
    hide Ahead;
    assert Half(212) == 106.0 && HalfLevel(ahead, 100.0, Long, 212);
  }

  lemma ShortFindsReal(prices: seq<real>)
    requires prices == [97.0, 80.0]
    ensures IsLevel(prices, 100.0, Short, 80.0) && Distance(100.0, Short, 80.0) == 20.0
    ensures forall q | IsLevel(prices, 100.0, Short, q) && q != 80.0 :: Distance(100.0, Short, q) < 6.0
  {
    AheadIs(prices, 100.0, Short);
    var ahead := Ahead(prices, 100.0, Short);
    assert prices[0] in ahead && prices[1] in ahead;
    hide Ahead;
    assert Furthest(ahead) == 97.0;
  }

  // ----- When targets are mirrored ----------------------------------------

  /** Every price reflected about half of `c`; a LONG entry at `entry` becomes a SHORT one at
      `c - entry`, and each level keeps its distance from it. */
  function Reflected(prices: seq<real>, c: real): seq<real> {
    seq(|prices|, i requires 0 <= i < |prices| => c - prices[i])
  }

  /** Reflecting keeps whole and half dollars whole and half dollars. */
  predicate KeepsHalves(c: real) { (2.0 * c).Floor as real == 2.0 * c }

  /** A real level ahead of the entry, by its distance. */
  predicate Real(prices: seq<real>, entry: real, d: real) { d > 0.0 && entry + d in prices }

  ghost predicate HalfAt(entry: real, d: real) { exists n :: entry + d == Half(n) }

  /** The same below a SHORT entry. */
  predicate RealBelow(prices: seq<real>, at: real, d: real) { d > 0.0 && at - d in prices }

  ghost predicate HalfBelow(at: real, d: real) { exists n :: at - d == Half(n) }

  lemma HalvesReflect(entry: real, c: real, d: real)
    requires KeepsHalves(c)
    ensures HalfAt(entry, d) <==> HalfBelow(c - entry, d)
  {
    var k := (2.0 * c).Floor;
    assert Half(k) == c;
    if HalfAt(entry, d) {
      var n :| entry + d == Half(n);
      assert c - entry - d == Half(k - n);
    }
    if HalfBelow(c - entry, d) {
      var n :| c - entry - d == Half(n);
      assert entry + d == Half(k - n);
    }
  }

  lemma RealReflects(prices: seq<real>, entry: real, c: real, d: real)
    ensures RealBelow(Reflected(prices, c), c - entry, d) <==> Real(prices, entry, d)
  {
    var mirrored := Reflected(prices, c);
    if c - entry - d in mirrored {
      var i :| 0 <= i < |mirrored| && mirrored[i] == c - entry - d;
      assert prices[i] == entry + d;
    }
    if entry + d in prices {
      var i :| 0 <= i < |prices| && prices[i] == entry + d;
      assert mirrored[i] == c - entry - d;
    }
  }

  ghost predicate LongHas(prices: seq<real>, entry: real, d: real) { IsLevel(prices, entry, Long, entry + d) }

  ghost predicate ShortHas(prices: seq<real>, entry: real, c: real, d: real) {
    IsLevel(Reflected(prices, c), c - entry, Short, c - entry - d)
  }

  /** LONG lists a half-dollar level nearer than some real level. */
  lemma LongLevels(prices: seq<real>, entry: real, d: real)
    ensures LongHas(prices, entry, d) <==>
      || Real(prices, entry, d)
      || (HalfAt(entry, d) && d > 0.0 && exists q :: Real(prices, entry, q) && d < q)
  {
    var ahead := Ahead(prices, entry, Long);
    AheadIs(prices, entry, Long);
    hide Ahead;
    forall q ensures Real(prices, entry, q) <==> entry + q in ahead {}
    if ahead != [] {
      var f := Furthest(ahead);
      assert Real(prices, entry, f - entry) by { assert entry + (f - entry) == f; }
      if HalfAt(entry, d) && d > 0.0 {
        var n :| entry + d == Half(n);
        assert HalfLevel(ahead, entry, Long, n) <==> d < f - entry;
        if exists q :: Real(prices, entry, q) && d < q {
          var q :| Real(prices, entry, q) && d < q;
          assert entry + q <= f;
        }
      }
    }
  }

  /** SHORT lists one nearer than every real level. */
  lemma ShortLevelsAt(prices: seq<real>, at: real, d: real)
    ensures IsLevel(prices, at, Short, at - d) <==>
      || RealBelow(prices, at, d)
      || (HalfBelow(at, d) && d > 0.0 && (exists q :: RealBelow(prices, at, q))
          && forall q | RealBelow(prices, at, q) :: d < q)
  {
    var ahead := Ahead(prices, at, Short);
    AheadIs(prices, at, Short);
    hide Ahead;
    forall q ensures RealBelow(prices, at, q) <==> at - q in ahead {}
    if ahead != [] {
      var f := Furthest(ahead);
      assert RealBelow(prices, at, at - f) by { assert at - (at - f) == f; }
      if HalfBelow(at, d) && d > 0.0 {
        var n :| at - d == Half(n);
        assert HalfLevel(ahead, at, Short, n) <==> d < at - f;
        forall q | RealBelow(prices, at, q) ensures at - f <= q {
          assert at - q in ahead;
        }
      }
    }
  }

  lemma ShortLevels(prices: seq<real>, entry: real, c: real, d: real)
    requires KeepsHalves(c)
    ensures ShortHas(prices, entry, c, d) <==>
      || Real(prices, entry, d)
      || (HalfAt(entry, d) && d > 0.0 && (exists q :: Real(prices, entry, q))
          && forall q | Real(prices, entry, q) :: d < q)
  {
    hide Reflected, KeepsHalves, HalfAt, HalfBelow, IsLevel, Real, RealBelow;
    var mirrored, at := Reflected(prices, c), c - entry;
    ShortLevelsAt(mirrored, at, d);
    HalvesReflect(entry, c, d);
    forall q ensures RealBelow(mirrored, at, q) <==> Real(prices, entry, q) {
      RealReflects(prices, entry, c, q);
    }
    assert ShortHas(prices, entry, c, d) <==> IsLevel(mirrored, at, Short, at - d);
  }

  // ----- The nearest level in a window ------------------------------------

  /** Distances a target may lie at: beyond `after`, from `low` on, through `high` if there is one. */
  datatype Window = Window(after: real, low: real, high: Option<real>) {
    predicate Has(d: real) { after < d && low <= d && (high.Some? ==> d <= high.value) }
  }

  function FirstWindow(risk: real): Window { Window(0.0, 1.5 * risk, None) }

  function SecondWindow(risk: real, first: real): Window { Window(first, 2.5 * risk, Some(4.0 * risk)) }

  /** In the window, beyond some real level and nearer than another, and before every real level in
      the window. */
  ghost predicate InGap(prices: seq<real>, entry: real, w: Window, d: real) {
    && HalfAt(entry, d) && w.Has(d)
    && (exists p :: Real(prices, entry, p) && p < d)
    && (exists p :: Real(prices, entry, p) && d < p)
    && (forall p | Real(prices, entry, p) && w.Has(p) :: d < p)
  }

  /** The nearest distance in a window at which LONG lists a level, or none if there is none. */
  ghost predicate LongNearest(prices: seq<real>, entry: real, w: Window, found: Option<real>) {
    match found
    case None => forall d | LongHas(prices, entry, d) :: !w.Has(d)
    case Some(d) =>
      LongHas(prices, entry, d) && w.Has(d) && forall e | LongHas(prices, entry, e) && w.Has(e) :: d <= e
  }

  ghost predicate ShortNearest(prices: seq<real>, entry: real, c: real, w: Window, found: Option<real>) {
    match found
    case None => forall d | ShortHas(prices, entry, c, d) :: !w.Has(d)
    case Some(d) =>
      ShortHas(prices, entry, c, d) && w.Has(d) && forall e | ShortHas(prices, entry, c, e) && w.Has(e) :: d <= e
  }

  /** A distance in the window both directions list, no further than one LONG lists, unless that one
      is in the gap. */
  lemma SharedUnlessGap(prices: seq<real>, entry: real, c: real, w: Window, d: real) returns (shared: real)
    requires KeepsHalves(c) && w.after >= 0.0 && w.Has(d) && LongHas(prices, entry, d)
    ensures InGap(prices, entry, w, d) || (w.Has(shared) && shared <= d && ShortHas(prices, entry, c, shared))
  {
    LongLevels(prices, entry, d);
    ShortLevels(prices, entry, c, d);
    shared := d;
    hide LongHas, ShortHas, KeepsHalves, HalfAt, Real;
    if !InGap(prices, entry, w, d) && !ShortHas(prices, entry, c, d) {
      var p :| Real(prices, entry, p) && w.Has(p) && p <= d;
      ShortLevels(prices, entry, c, p);
      shared := p;
    }
  }

  lemma ShortIsLong(prices: seq<real>, entry: real, c: real, d: real)
    requires KeepsHalves(c) && ShortHas(prices, entry, c, d)
    ensures LongHas(prices, entry, d)
  {
    LongLevels(prices, entry, d);
    ShortLevels(prices, entry, c, d);
    hide LongHas, ShortHas, KeepsHalves, HalfAt, Real;
  }

  /** Nothing SHORT lists in the window is as near as a half-dollar level in the gap. */
  lemma GapIsNearer(prices: seq<real>, entry: real, c: real, w: Window, d: real, e: real)
    requires KeepsHalves(c) && InGap(prices, entry, w, d)
    requires ShortHas(prices, entry, c, e) && w.Has(e)
    ensures d < e
  {
    ShortLevels(prices, entry, c, e);
    hide ShortHas, KeepsHalves, HalfAt, Real;
    var p :| Real(prices, entry, p) && p < d;
    assert e < p ==> w.Has(p);
  }

  /** Both directions find their nearest level of a window at one distance, or neither finds any,
      exactly when its gap holds no half-dollar level. */
  lemma NearestMirrors(
      prices: seq<real>, entry: real, c: real, w: Window, long: Option<real>, short: Option<real>)
    requires KeepsHalves(c) && w.after >= 0.0
    requires LongNearest(prices, entry, w, long) && ShortNearest(prices, entry, c, w, short)
    ensures long == short <==> forall d :: !InGap(prices, entry, w, d)
  {
    if short.Some? { ShortIsLong(prices, entry, c, short.value); }
    if gap :| InGap(prices, entry, w, gap) {
      LongLevels(prices, entry, gap);
      assert LongHas(prices, entry, gap) && w.Has(gap);
      if short.Some? { GapIsNearer(prices, entry, c, w, gap, short.value); }
    } else if long.Some? {
      var shared := SharedUnlessGap(prices, entry, c, w, long.value);
      hide InGap, KeepsHalves, LongHas, ShortHas;
      ShortIsLong(prices, entry, c, shared);
    }
    hide InGap, KeepsHalves, LongHas, ShortHas;
  }

  // ----- Catalogues -------------------------------------------------------

  /** The distance of a catalogue's target, counted from 0. */
  function TargetAt(entry: real, direction: Direction, targets: seq<Target>, i: nat): Option<real> {
    if i < |targets| then Some(Distance(entry, direction, targets[i].price)) else None
  }

  lemma LongTargets(prices: seq<real>, entry: real, risk: real, targets: seq<Target>)
    requires risk > 0.0 && IsCatalog(prices, entry, Long, risk, targets)
    ensures |targets| <= 2
    ensures LongNearest(prices, entry, FirstWindow(risk), TargetAt(entry, Long, targets, 0))
    ensures targets != [] ==>
      var first := TargetAt(entry, Long, targets, 0).value;
      first > 0.0 && LongNearest(prices, entry, SecondWindow(risk, first), TargetAt(entry, Long, targets, 1))
  {
    hide IsLevel, RewardMultiple;
    forall d | LongHas(prices, entry, d)
      ensures Distance(entry, Long, entry + d) == d
    {
    }
    forall p ensures entry + Distance(entry, Long, p) == p {}
    if targets != [] {
      var first := targets[0].price;
      forall d | LongHas(prices, entry, d)
        ensures SecondWindow(risk, Distance(entry, Long, first)).Has(d) <==>
          SecondTargetRange(prices, entry, Long, risk, first, entry + d)
      {
      }
    }
  }

  lemma ShortTargets(prices: seq<real>, entry: real, c: real, risk: real, targets: seq<Target>)
    requires risk > 0.0 && IsCatalog(Reflected(prices, c), c - entry, Short, risk, targets)
    ensures |targets| <= 2
    ensures ShortNearest(prices, entry, c, FirstWindow(risk), TargetAt(c - entry, Short, targets, 0))
    ensures targets != [] ==>
      var first := TargetAt(c - entry, Short, targets, 0).value;
      first > 0.0 && ShortNearest(prices, entry, c, SecondWindow(risk, first), TargetAt(c - entry, Short, targets, 1))
  {
    hide IsLevel, RewardMultiple, Reflected;
    var at := c - entry;
    forall d | ShortHas(prices, entry, c, d)
      ensures Distance(at, Short, at - d) == d
    {
    }
    forall p ensures at - Distance(at, Short, p) == p {}
    if targets != [] {
      var first := targets[0].price;
      forall d | ShortHas(prices, entry, c, d)
        ensures SecondWindow(risk, Distance(at, Short, first)).Has(d) <==>
          SecondTargetRange(Reflected(prices, c), at, Short, risk, first, at - d)
      {
      }
    }
  }

  /** Reflected so that the half-dollar grid is kept, a trade at any entry finds its first target at
      the same distance, or misses it alike, exactly when the gap holds no half-dollar level. */
  lemma FirstTargetMirrors(
      prices: seq<real>, entry: real, c: real, risk: real, longTargets: seq<Target>, shortTargets: seq<Target>)
    requires risk > 0.0 && KeepsHalves(c)
    requires IsCatalog(prices, entry, Long, risk, longTargets)
    requires IsCatalog(Reflected(prices, c), c - entry, Short, risk, shortTargets)
    ensures TargetAt(entry, Long, longTargets, 0) == TargetAt(c - entry, Short, shortTargets, 0)
      <==> forall d :: !InGap(prices, entry, FirstWindow(risk), d)
  {
    hide IsCatalog, LongNearest, ShortNearest, TargetAt, InGap, KeepsHalves, Distance, Reflected;
    LongTargets(prices, entry, risk, longTargets);
    ShortTargets(prices, entry, c, risk, shortTargets);
    NearestMirrors(
      prices, entry, c, FirstWindow(risk),
      TargetAt(entry, Long, longTargets, 0), TargetAt(c - entry, Short, shortTargets, 0));
  }

  /** And all its targets are mirrored exactly when, besides, no half-dollar level lies in the gap of
      the second target's window, if there is a first. */
  lemma CatalogMirrors(
      prices: seq<real>, entry: real, c: real, risk: real, longTargets: seq<Target>, shortTargets: seq<Target>)
    requires risk > 0.0 && KeepsHalves(c)
    requires IsCatalog(prices, entry, Long, risk, longTargets)
    requires IsCatalog(Reflected(prices, c), c - entry, Short, risk, shortTargets)
    ensures
      (forall i: nat :: TargetAt(entry, Long, longTargets, i) == TargetAt(c - entry, Short, shortTargets, i)) <==>
      (&& (forall d :: !InGap(prices, entry, FirstWindow(risk), d))
       && (longTargets != [] ==>
           forall d :: !InGap(prices, entry, SecondWindow(risk, TargetAt(entry, Long, longTargets, 0).value), d)))
  {
    hide IsCatalog, LongNearest, ShortNearest, InGap, KeepsHalves, TargetAt, Reflected, Distance;
    var at := c - entry;
    FirstTargetMirrors(prices, entry, c, risk, longTargets, shortTargets);
    LongTargets(prices, entry, risk, longTargets);
    ShortTargets(prices, entry, c, risk, shortTargets);
    BothTargets(entry, at, longTargets, shortTargets);
    FirstIsThere(entry, at, longTargets, shortTargets);
    if TargetAt(entry, Long, longTargets, 0) == TargetAt(at, Short, shortTargets, 0) && longTargets != [] {
      NearestMirrors(
        prices, entry, c, SecondWindow(risk, TargetAt(entry, Long, longTargets, 0).value),
        TargetAt(entry, Long, longTargets, 1), TargetAt(at, Short, shortTargets, 1));
    }
  }

  lemma FirstIsThere(entry: real, at: real, longTargets: seq<Target>, shortTargets: seq<Target>)
    ensures TargetAt(entry, Long, longTargets, 0).None? <==> longTargets == []
    ensures TargetAt(at, Short, shortTargets, 0).None? <==> shortTargets == []
    ensures longTargets == [] ==> TargetAt(entry, Long, longTargets, 1) == None
    ensures shortTargets == [] ==> TargetAt(at, Short, shortTargets, 1) == None
  {
  }

  lemma BothTargets(entry: real, at: real, longTargets: seq<Target>, shortTargets: seq<Target>)
    requires |longTargets| <= 2 && |shortTargets| <= 2
    ensures (forall i: nat :: TargetAt(entry, Long, longTargets, i) == TargetAt(at, Short, shortTargets, i)) <==>
      (&& TargetAt(entry, Long, longTargets, 0) == TargetAt(at, Short, shortTargets, 0)
       && TargetAt(entry, Long, longTargets, 1) == TargetAt(at, Short, shortTargets, 1))
  {
    hide Distance;
  }
}
