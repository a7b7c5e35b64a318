/** The daily-swing scan of `consensus_engine/core_price_features.py`: confirmed plateau
levels of a price series in which a no-trade slot is `None`. */
module Plateaus {
  import opened Wrappers

  type Series = seq<Option<real>>

  predicate Beyond(high: bool, item: real, level: real) {
    if high then item < level else item > level
  }

  predicate Confirms(s: Series, k: int, level: real, high: bool) {
    0 <= k < |s| && s[k].Some? && Beyond(high, s[k].value, level)
  }

  /** Slots `i..j` trade at one level and the two slots on either side trade strictly beyond it. */
  predicate IsPlateau(s: Series, i: int, j: int, high: bool) {
    && 2 <= i <= j && j + 2 < |s| && s[i].Some?
    && (forall k | i <= k <= j :: s[k] == s[i])
    && Confirms(s, i - 2, s[i].value, high) && Confirms(s, i - 1, s[i].value, high)
    && Confirms(s, j + 1, s[i].value, high) && Confirms(s, j + 2, s[i].value, high)
  }

  predicate StartsAt(s: Series, i: int, high: bool) {
    exists j | i <= j < |s| :: IsPlateau(s, i, j, high)
  }

  predicate EndsAt(s: Series, j: int, high: bool) {
    exists i | 0 <= i <= j :: IsPlateau(s, i, j, high)
  }

  /** The levels of the plateaus that start in `lo..hi`, in order. */
  function Starts(s: Series, lo: nat, hi: nat, high: bool): seq<real>
    requires lo <= hi <= |s|
    decreases hi
  {
    if lo == hi then []
    else Starts(s, lo, hi - 1, high) + if StartsAt(s, hi - 1, high) then [s[hi - 1].value] else []
  }

  /** The levels of the plateaus that end in `lo..hi`, in order. */
  function Ends(s: Series, lo: nat, hi: nat, high: bool): seq<real>
    requires lo <= hi <= |s|
    decreases hi
  {
    if lo == hi then []
    else Ends(s, lo, hi - 1, high) + if EndsAt(s, hi - 1, high) then [s[hi - 1].value] else []
  }

  function Plateaus(s: Series, high: bool): seq<real> {
    Starts(s, 0, |s|, high)
  }

  // ----- The scan ---------------------------------------------------------

  /** No run of equal traded slots crosses `b`. */
  predicate Boundary(s: Series, b: int) {
    0 <= b <= |s| && (0 < b < |s| && s[b - 1].Some? ==> s[b] != s[b - 1])
  }

  /** `i..j` is a maximal run of equal traded slots. */
  predicate IsRun(s: Series, i: int, j: int) {
    && 0 <= i <= j < |s| && s[i].Some? && (forall k | i <= k <= j :: s[k] == s[i])
    && Boundary(s, i) && Boundary(s, j + 1)
  }

  /** A plateau is a whole maximal run, so a run decides every start and every end inside it. */
  lemma RunDecides(s: Series, i: int, j: int, high: bool)
    requires IsRun(s, i, j)
    ensures StartsAt(s, i, high) <==> IsPlateau(s, i, j, high)
    ensures EndsAt(s, j, high) <==> IsPlateau(s, i, j, high)
    ensures forall k | i < k <= j :: !StartsAt(s, k, high)
    ensures forall k | i <= k < j :: !EndsAt(s, k, high)
  {
    forall b | i <= b < |s| && IsPlateau(s, i, b, high) ensures b == j {
      if b < j || j < b { assert false; }
    }
    forall a | 0 <= a <= j && IsPlateau(s, a, j, high) ensures a == i {
      if i < a || a < i { assert false; }
    }
    forall k | i < k <= j ensures !StartsAt(s, k, high) {
      assert s[k - 1] == s[k];
    }
    forall k | i <= k < j ensures !EndsAt(s, k, high) {
      assert s[k + 1] == s[k];
    }
  }

  lemma {:induction false} NoStarts(s: Series, lo: nat, hi: nat, high: bool)
    requires lo <= hi <= |s| && forall k | lo <= k < hi :: !StartsAt(s, k, high)
    ensures Starts(s, 0, hi, high) == Starts(s, 0, lo, high)
    decreases hi
  {
    if lo < hi {
      NoStarts(s, lo, hi - 1, high);
    }
  }

  lemma {:induction false} NoEnds(s: Series, lo: nat, hi: nat, high: bool)
    requires lo <= hi <= |s| && forall k | lo <= k < hi :: !EndsAt(s, k, high)
    ensures Ends(s, 0, hi, high) == Ends(s, 0, lo, high)
    decreases hi
  {
    if lo < hi {
      NoEnds(s, lo, hi - 1, high);
    }
  }

  /** Scan run by run, skipping from each run to the slot after it. */
  method FindPlateaus(series: Series, high: bool) returns (found: seq<real>)
    ensures found == Plateaus(series, high)
  {
    found := [];
    var count, i := |series|, 0;
    while i < count
      invariant 0 <= i <= count && Boundary(series, i)
      invariant found == Starts(series, 0, i, high)
    {
      if series[i].None? {
        i := i + 1;
        continue;
      }
      var level := series[i].value;
      var j := i;
      while j + 1 < count && series[j + 1] == Some(level)
        invariant i <= j < count
        invariant forall k | i <= k <= j :: series[k] == Some(level)
      {
        j := j + 1;
      }
      assert IsRun(series, i, j);
      RunDecides(series, i, j, high);
      NoStarts(series, i + 1, j + 1, high);
      if i >= 2 && j + 2 < count {
        var around := [series[i - 2], series[i - 1], series[j + 1], series[j + 2]];
        if forall item | item in around :: item.Some? && Beyond(high, item.value, level) {
          assert around[0] in around && around[1] in around && around[2] in around && around[3] in around;
          found := found + [level];
        }
      }
      i := j + 1;
    }
  }

  /** The result lists exactly the plateau levels. */
  lemma {:induction false} PlateausAreAll(s: Series, hi: nat, high: bool, level: real)
    requires hi <= |s|
    ensures level in Starts(s, 0, hi, high)
      <==> exists i, j | 0 <= i < hi && i <= j < |s| :: IsPlateau(s, i, j, high) && s[i] == Some(level)
  {
    if hi == 0 {
    } else {
      PlateausAreAll(s, hi - 1, high, level);
      if StartsAt(s, hi - 1, high) {
        var j :| hi - 1 <= j < |s| && IsPlateau(s, hi - 1, j, high);
      }
    }
  }

  /** A swing high at `level`: one run of slots traded at it, and two traded slots strictly lower on
      either side; a swing low has them strictly higher. */
  ghost predicate Swing(s: Series, high: bool, level: real, i: int, j: int) {
    && 2 <= i <= j < |s| - 2
    && (forall k | i <= k <= j :: s[k] == Some(level))
    && (forall k | k == i - 2 || k == i - 1 || k == j + 1 || k == j + 2 ::
         s[k].Some? && if high then s[k].value < level else level < s[k].value)
  }

  /** A level is listed exactly when it is a swing's. */
  lemma SwingsAreListed(s: Series, high: bool, level: real)
    ensures level in Plateaus(s, high) <==> exists i, j :: Swing(s, high, level, i, j)
  {
    PlateausAreAll(s, |s|, high, level);
    hide Starts;
    forall i, j ensures IsPlateau(s, i, j, high) && s[i] == Some(level) <==> Swing(s, high, level, i, j) {
      SwingIsPlateau(s, high, level, i, j);
    }
  }

  lemma SwingIsPlateau(s: Series, high: bool, level: real, i: int, j: int)
    ensures IsPlateau(s, i, j, high) && s[i] == Some(level) <==> Swing(s, high, level, i, j)
  {
    if Swing(s, high, level, i, j) { assert s[i] == Some(level); }
  }

  // ----- Time reversal ----------------------------------------------------

  function Reverse<T>(s: seq<T>): (r: seq<T>)
    ensures |r| == |s| && forall k | 0 <= k < |s| :: r[k] == s[|s| - 1 - k]
  {
    if s == [] then [] else Reverse(s[1..]) + [s[0]]
  }

  function RunStart(s: Series, j: int): (i: int)
    requires 0 <= j < |s| && s[j].Some?
    ensures 0 <= i <= j && Boundary(s, i) && forall k | i <= k <= j :: s[k] == s[j]
    decreases j
  {
    if j > 0 && s[j - 1] == s[j] then RunStart(s, j - 1) else j
  }

  /** Listing plateaus by where they end gives the same levels in the same order. */
  lemma {:induction false} StartsAreEnds(s: Series, b: nat, high: bool)
    requires b <= |s| && Boundary(s, b)
    ensures Starts(s, 0, b, high) == Ends(s, 0, b, high)
    decreases b
  {
    if b == 0 {
    } else if s[b - 1].None? {
      StartsAreEnds(s, b - 1, high);
    } else {
      var i, j := RunStart(s, b - 1), b - 1;
      assert IsRun(s, i, j);
      StartsAreEnds(s, i, high);
      RunDecides(s, i, j, high);
      NoStarts(s, i + 1, b, high);
      NoEnds(s, i, j, high);
    }
  }

  lemma ReversedPlateau(s: Series, i: int, j: int, high: bool)
    requires IsPlateau(s, i, j, high)
    ensures IsPlateau(Reverse(s), |s| - 1 - j, |s| - 1 - i, high)
  {
    hide Reverse;
    var r, n := Reverse(s), |s|;
    assert r[n - 1 - j] == s[j] == s[i];
    forall k | n - 1 - j <= k <= n - 1 - i ensures r[k] == s[i] {
      assert r[k] == s[n - 1 - k];
    }
  }

  lemma ReverseTwice<T>(s: seq<T>)
    ensures Reverse(Reverse(s)) == s
  {
    hide Reverse;
  }

  lemma ReversedStart(s: Series, j: int, high: bool)
    requires 0 <= j < |s|
    ensures StartsAt(Reverse(s), |s| - 1 - j, high) <==> EndsAt(s, j, high)
  {
    hide Reverse, IsPlateau;
    var r, n := Reverse(s), |s|;
    if EndsAt(s, j, high) {
      var i :| 0 <= i <= j && IsPlateau(s, i, j, high);
      ReversedPlateau(s, i, j, high);
    }
    if StartsAt(r, n - 1 - j, high) {
      var b :| n - 1 - j <= b < n && IsPlateau(r, n - 1 - j, b, high);
      ReversedPlateau(r, n - 1 - j, b, high);
      ReverseTwice(s);
      assert n - 1 - (n - 1 - j) == j && IsPlateau(s, n - 1 - b, j, high);
    }
  }

  lemma {:induction false} EndsFromBelow(s: Series, lo: nat, hi: nat, high: bool)
    requires lo < hi <= |s|
    ensures Ends(s, lo, hi, high) == (if EndsAt(s, lo, high) then [s[lo].value] else []) + Ends(s, lo + 1, hi, high)
    decreases hi
  {
    if lo + 1 == hi {
    } else {
      EndsFromBelow(s, lo, hi - 1, high);
    }
  }

  lemma {:induction false} ReversedStarts(s: Series, m: nat, high: bool)
    requires m <= |s|
    ensures Starts(Reverse(s), 0, m, high) == Reverse(Ends(s, |s| - m, |s|, high))
  {
    if m == 0 {
    } else {
      ReversedStarts(s, m - 1, high);
      ReversedStart(s, |s| - m, high);
      EndsFromBelow(s, |s| - m, |s|, high);
      var rest := Ends(s, |s| - m + 1, |s|, high);
      if EndsAt(s, |s| - m, high) {
        var level := s[|s| - m].value;
        assert ([level] + rest)[1..] == rest;
      } else {
        assert [] + rest == rest;
      }
    }
  }

  /** Reading the sessions backwards lists the same swings backwards. */
  lemma ReversalReversesPlateaus(s: Series, high: bool)
    ensures Plateaus(Reverse(s), high) == Reverse(Plateaus(s, high))
  {
    ReversedStarts(s, |s|, high);
    StartsAreEnds(s, |s|, high);
  }

  // ----- Negation ---------------------------------------------------------

  function Negated(s: Series): Series {
    seq(|s|, k requires 0 <= k < |s| => if s[k].Some? then Some(-s[k].value) else None)
  }

  function NegatedLevels(levels: seq<real>): seq<real> {
    seq(|levels|, k requires 0 <= k < |levels| => -levels[k])
  }

  lemma NegatedPlateau(s: Series, i: int, j: int, high: bool)
    ensures IsPlateau(Negated(s), i, j, !high) <==> IsPlateau(s, i, j, high)
  {
    if 2 <= i <= j && j + 2 < |s| && s[i].Some? {
      var t := Negated(s);
      assert forall k | i <= k <= j :: t[k] == t[i] <==> s[k] == s[i];
    }
  }

  lemma {:induction false} NegatedStarts(s: Series, hi: nat, high: bool)
    requires hi <= |s|
    ensures Starts(Negated(s), 0, hi, !high) == NegatedLevels(Starts(s, 0, hi, high))
  {
    if hi == 0 {
    } else {
      NegatedStarts(s, hi - 1, high);
      var t, i, low := Negated(s), hi - 1, !high;
      forall j | i <= j < |s| ensures IsPlateau(t, i, j, low) <==> IsPlateau(s, i, j, high) {
        NegatedPlateau(s, i, j, high);
      }
      assert StartsAt(Negated(s), hi - 1, !high) <==> StartsAt(s, hi - 1, high);
    }
  }

  /** Negating the prices swaps swing highs and swing lows. */
  lemma NegationSwapsHighsAndLows(s: Series, high: bool)
    ensures Plateaus(Negated(s), !high) == NegatedLevels(Plateaus(s, high))
  {
    NegatedStarts(s, |s|, high);
  }
}
