/** What supplying a missing ATR, trigger or stop may change in a pair report.

A same-direction relation once decided stays. An opposite-direction relation stays too, but for
one case the code has: a declared transition compares the source's trigger with the broken
boundary, so a missing trigger refuses it, and supplying that very boundary accepts it.
*/
module PairInformation {
  import opened Wrappers
  import opened Rationals
  import opened ColumnOrder
  import opened PairReport

  predicate PriceGrows(before: Option<real>, after: Option<real>) { before.Some? ==> after == before }

  /** The same candidate, with prices that were missing perhaps supplied. */
  predicate CandidateGrows(before: Candidate, after: Candidate) {
    && after == before.(trigger := after.trigger, stop := after.stop)
    && PriceGrows(before.trigger, after.trigger) && PriceGrows(before.stop, after.stop)
  }

  predicate CandidatesGrow(before: seq<Candidate>, after: seq<Candidate>) {
    |after| == |before| && forall i | 0 <= i < |before| :: CandidateGrows(before[i], after[i])
  }

  /** An ATR that had a value keeps it. */
  predicate AtrGrows(before: Option<Atr>, after: Option<Atr>) {
    before.Some? && before.value.value.Some? ==> after.Some? && after.value.value == before.value.value
  }

  // ----- Gates ------------------------------------------------------------

  predicate Decided(gate: Gate) { !gate.status.Unknown? }

  lemma DistanceStays(
      a: Option<real>, b: Option<real>, atr: Option<Atr>, c: Option<real>, d: Option<real>, later: Option<Atr>,
      limit: real, missing: string)
    requires UsableAtr(atr) && UsableAtr(later)
    requires PriceGrows(a, c) && PriceGrows(b, d) && AtrGrows(atr, later)
    requires Decided(DistanceGate(a, b, atr, limit, missing))
    ensures DistanceGate(c, d, later, limit, missing) == DistanceGate(a, b, atr, limit, missing)
  {
    hide AtrDistance;
  }

  /** Three-valued and, three-valued or: a decided region never waits on what is unknown. */
  lemma RegionStays(rule: Rule, trigger: Gate, stop: Gate, laterTrigger: Gate, laterStop: Gate)
    requires Decided(trigger) ==> laterTrigger == trigger
    requires Decided(stop) ==> laterStop == stop
    requires Decided(RegionGate(rule, trigger, stop))
    ensures RegionGate(rule, laterTrigger, laterStop).status == RegionGate(rule, trigger, stop).status
  {
  }

  /** Whatever is accepted between them, the pair's own part of the relation. */
  lemma RelationStays(policy: Policy, a: Candidate, b: Candidate, atr: Option<Atr>, accepted: Option<int>,
      c: Candidate, d: Candidate, later: Option<Atr>, laterAccepted: Option<int>)
    requires UsableAtr(atr) && UsableAtr(later)
    requires CandidateGrows(a, c) && CandidateGrows(b, d) && AtrGrows(atr, later)
    ensures var p := PairOf(policy, a, b, atr, accepted);
      var q := PairOf(policy, c, d, later, laterAccepted);
      && (a.direction == b.direction && !p.relation.SameDirectionUnknown? ==> q.relation == p.relation)
      && (a.direction != b.direction ==> (q.relation == p.relation <==> (accepted.Some? <==> laterAccepted.Some?)))
  {
    var p := PairOf(policy, a, b, atr, accepted);
    var q := PairOf(policy, c, d, later, laterAccepted);
    if Decided(p.trigger) {
      DistanceStays(a.trigger, b.trigger, atr, c.trigger, d.trigger, later, policy.regionAtrMultiple,
        "TRIGGER_PRICE_UNAVAILABLE");
    }
    if Decided(p.stop) {
      DistanceStays(a.stop, b.stop, atr, c.stop, d.stop, later, policy.regionAtrMultiple, "STOP_UNAVAILABLE");
    }
    hide DistanceGate, PlaybookRelationship, RegionGate;
    if Decided(p.region) {
      RegionStays(policy.rule, p.trigger, p.stop, q.trigger, q.stop);
    }
  }

  // ----- Transitions ------------------------------------------------------

  /** All that refuses a transition is its source's missing trigger: with the broken boundary in its
      place, nothing of what was supplied would. */
  predicate OnlyTriggerRefuses(t: Transition, source: Candidate, target: Candidate) {
    source.trigger.None? && Refused(t, source.(trigger := Some(t.evidence.frozen.boundary)), target).None?
  }

  /** That missing trigger is then supplied, and is the boundary. */
  predicate Releases(t: Transition, source: Candidate, target: Candidate, laterSource: Candidate) {
    OnlyTriggerRefuses(t, source, target) && laterSource.trigger == Some(t.evidence.frozen.boundary)
  }

  lemma RefusalStays(
      t: Transition, source: Candidate, target: Candidate, laterSource: Candidate, laterTarget: Candidate)
    requires CandidateGrows(source, laterSource) && CandidateGrows(target, laterTarget)
    ensures Refused(t, source, target).None? ==> Refused(t, laterSource, laterTarget).None?
    ensures Refused(t, laterSource, laterTarget).None? && Refused(t, source, target).Some? <==>
      Releases(t, source, target, laterSource)
  {
    hide OriginalIds, SupportIds;
  }

  lemma {:induction false} LookupGrows(before: seq<Candidate>, after: seq<Candidate>, id: int)
    requires CandidatesGrow(before, after)
    ensures CandidateOf(before, id).Some? <==> CandidateOf(after, id).Some?
    ensures CandidateOf(before, id).Some? ==>
      CandidateGrows(CandidateOf(before, id).value, CandidateOf(after, id).value)
    decreases |before|
  {
    if before != [] {
      var n := |before| - 1;
      assert CandidateGrows(before[n], after[n]);
      LookupGrows(before[..n], after[..n], id);
    }
  }

  predicate ReleasesFor(before: seq<Candidate>, after: seq<Candidate>, t: Transition) {
    var source, target := CandidateOf(before, t.from), CandidateOf(before, t.to);
    var laterSource := CandidateOf(after, t.from);
    source.Some? && target.Some? && laterSource.Some? && Releases(t, source.value, target.value, laterSource.value)
  }

  lemma FindingStays(before: seq<Candidate>, after: seq<Candidate>, t: Transition)
    requires CandidatesGrow(before, after)
    ensures FindingOf(before, t).None? ==> FindingOf(after, t).None?
    ensures FindingOf(after, t).None? && FindingOf(before, t).Some? <==> ReleasesFor(before, after, t)
  {
    LookupGrows(before, after, t.from);
    LookupGrows(before, after, t.to);
    var source, target := CandidateOf(before, t.from), CandidateOf(before, t.to);
    var laterSource, laterTarget := CandidateOf(after, t.from), CandidateOf(after, t.to);
    hide Refused, CandidateOf, CandidateGrows;
    if source.Some? && target.Some? {
      RefusalStays(t, source.value, target.value, laterSource.value, laterTarget.value);
    }
  }

  /** Some transition between the two is released, and none was accepted before. */
  predicate Released(before: seq<Candidate>, after: seq<Candidate>, transitions: seq<Transition>, a: int, b: int) {
    && AcceptedOf(before, transitions, a, b).None?
    && exists t :: t in transitions && Links(t, a, b) && ReleasesFor(before, after, t)
  }

  lemma {:induction false} AcceptedIffSome(candidates: seq<Candidate>, transitions: seq<Transition>, a: int, b: int)
    ensures AcceptedOf(candidates, transitions, a, b).Some? <==>
      exists t :: t in transitions && Links(t, a, b) && FindingOf(candidates, t).None?
    decreases |transitions|
  {
    if transitions != [] {
      hide FindingOf, Links;
      var n := |transitions| - 1;
      AcceptedIffSome(candidates, transitions[..n], a, b);
      assert transitions == transitions[..n] + [transitions[n]];
    }
  }

  lemma AcceptanceChanges(before: seq<Candidate>, after: seq<Candidate>, transitions: seq<Transition>, a: int, b: int)
    requires CandidatesGrow(before, after)
    ensures AcceptedOf(before, transitions, a, b).Some? ==> AcceptedOf(after, transitions, a, b).Some?
    ensures (AcceptedOf(before, transitions, a, b).Some? <==> AcceptedOf(after, transitions, a, b).Some?)
      <==> !Released(before, after, transitions, a, b)
  {
    AcceptedIffSome(before, transitions, a, b);
    AcceptedIffSome(after, transitions, a, b);
    forall t | t in transitions
      ensures FindingOf(before, t).None? ==> FindingOf(after, t).None?
      ensures FindingOf(after, t).None? && FindingOf(before, t).Some? <==> ReleasesFor(before, after, t)
    {
      FindingStays(before, after, t);
    }
    hide FindingOf, ReleasesFor, AcceptedOf, Links, CandidatesGrow;
  }

  // ----- Whole reports ----------------------------------------------------

  /** The same lists with missing ATRs, triggers and stops perhaps supplied. */
  predicate ListsGrow(before: Request, after: Request) {
    && before.policy == after.policy && before.transitions == after.transitions
    && CandidatesGrow(before.candidates, after.candidates)
    && forall i | 0 <= i < |before.candidates| ::
         AtrGrows(AtrOf(before.atrs, before.candidates[i].symbol), AtrOf(after.atrs, before.candidates[i].symbol))
  }

  predicate InformationGrows(r: Request, s: Request)
    requires ValidRequest(r) && ValidRequest(s)
  {
    ListsGrow(Listed(r), Listed(s))
  }

  /** More information never changes a decided same-direction relation, and changes an
      opposite-direction relation exactly when it releases a transition between the two. */
  lemma InformationKeepsRelations(
      r: Request, s: Request, x: Report, y: Report, p: PairFinding, q: PairFinding, a: Candidate, b: Candidate)
    requires ValidRequest(r) && ValidRequest(s) && InformationGrows(r, s)
    requires IsReport(r, x) && IsReport(s, y)
    requires p in x.pairs && q in y.pairs && p.first == q.first == a.id && p.second == q.second == b.id
    requires a in r.candidates && b in r.candidates
    ensures a.direction == b.direction && !p.relation.SameDirectionUnknown? ==> q.relation == p.relation
    ensures a.direction != b.direction ==>
      (q.relation == p.relation <==> !Released(x.candidates, y.candidates, Listed(r).transitions, a.id, b.id))
  {
    hide PairBetween, Released, CandidatesGrow, Listed, Findings;
    var before, after := Listed(r), Listed(s);
    SameElements(before.candidates, r.candidates);
    var i, j := PairAt(before, p);
    var k, m := PairAt(after, q);
    SameAt(before.candidates, after.candidates, i, k);
    SameAt(before.candidates, after.candidates, j, m);
    OneWithId(r.candidates, before.candidates[i], a);
    OneWithId(r.candidates, before.candidates[j], b);
    PairStays(before, after, i, j);
  }

  /** One pair of the sorted candidates, before and after. */
  lemma PairStays(before: Request, after: Request, i: nat, j: nat)
    requires UsableAtrs(before.atrs) && UsableAtrs(after.atrs) && ListsGrow(before, after)
    requires i < |before.candidates| && j < |before.candidates|
    ensures |after.candidates| == |before.candidates|
    ensures var a, b := before.candidates[i], before.candidates[j];
      var p, q := PairBetween(before, a, b), PairBetween(after, after.candidates[i], after.candidates[j]);
      && (a.direction == b.direction && !p.relation.SameDirectionUnknown? ==> q.relation == p.relation)
      && (a.direction != b.direction ==>
          (q.relation == p.relation <==>
           !Released(before.candidates, after.candidates, before.transitions, a.id, b.id)))
  {
    var a, b, c, d := before.candidates[i], before.candidates[j], after.candidates[i], after.candidates[j];
    assert CandidateGrows(a, c) && CandidateGrows(b, d);
    AtrIsUsable(before.atrs, a.symbol);
    AtrIsUsable(after.atrs, a.symbol);
    AcceptanceChanges(before.candidates, after.candidates, before.transitions, a.id, b.id);
    hide AcceptedOf, AtrOf, Released, PairOf, UsableAtrs;
    RelationStays(
      before.policy, a, b, AtrOf(before.atrs, a.symbol), AcceptedOf(before.candidates, before.transitions, a.id, b.id),
      c, d, AtrOf(after.atrs, a.symbol), AcceptedOf(after.candidates, after.transitions, a.id, b.id));
  }

  lemma PairAt(l: Request, p: PairFinding) returns (i: nat, j: nat)
    requires UsableAtrs(l.atrs) && IsPair(l, p)
    ensures i < |l.candidates| && j < |l.candidates| && p == PairBetween(l, l.candidates[i], l.candidates[j])
    ensures p.first == l.candidates[i].id && p.second == l.candidates[j].id
  {
    hide PairBetween;
    var a, b :| SameSymbolInOrder(l.candidates, a, b) && p == PairBetween(l, a, b);
    PairNames(l, a, b);
    var k: nat :| k < |l.candidates| && l.candidates[k] == a;
    var m: nat :| m < |l.candidates| && l.candidates[m] == b;
    i, j := k, m;
  }

  lemma SameAt(before: seq<Candidate>, after: seq<Candidate>, i: nat, k: nat)
    requires CandidatesGrow(before, after) && Apart(after) && i < |before| && k < |after| && before[i].id == after[k].id
    ensures i == k
  {
    assert CandidateGrows(before[i], after[i]);
  }

  lemma OneWithId(candidates: seq<Candidate>, a: Candidate, b: Candidate)
    requires forall i, j | 0 <= i < j < |candidates| :: candidates[i].id != candidates[j].id
    requires a in candidates && b in candidates && a.id == b.id
    ensures a == b
  {
  }

  // ----- A released transition --------------------------------------------

  /** A breakout and the failure that reverses it, the breakout's trigger perhaps missing. */
  function Breakout(trigger: Option<real>): Candidate {
    Candidate(1, 10, 20, 30, 40, ORB, Long, 100, 200, trigger, None, 50.0, 7, {5})
  }

  const FAILED := Candidate(2, 10, 20, 30, 40, FAILURE, Short, 110, 210, None, None, 60.0, 7, {1, 5})

  const HANDOVER := Transition(
    3, 1, 2, Handoff(true, Short, 105, Frozen(5, {5}, Long, 12.0, 95), {}), Some(Session(10, 20, 0)),
    [Support(5, 30, 40, 20, 90)])

  function Declared(trigger: Option<real>): Request {
    Request(300, Policy(60, 1.0, BothRegions), [Breakout(trigger), FAILED], [], [HANDOVER])
  }

  /** Supplying the breakout's missing trigger turns a conflict into a declared transition. */
  lemma SuppliedTriggerReleases()
    ensures var before, after := Declared(None), Declared(Some(12.0));
      && ValidRequest(before) && ValidRequest(after) && InformationGrows(before, after)
      && Released(before.candidates, after.candidates, [HANDOVER], 1, 2)
      && PairBetween(before, Breakout(None), FAILED).relation == OppositeDirectionConflict
      && PairBetween(after, Breakout(Some(12.0)), FAILED).relation == DeclaredTransition
  {
    hide *;
    DeclaredGrows();
    TriggerReleases();
  }

  lemma TriggerReleases()
    ensures UsableAtrs(Declared(None).atrs) && UsableAtrs(Declared(Some(12.0)).atrs)
    ensures Refused(HANDOVER, Breakout(None), FAILED) == Some(EvidenceSetupMismatch)
    ensures Refused(HANDOVER, Breakout(Some(12.0)), FAILED) == None
    ensures Released(Declared(None).candidates, Declared(Some(12.0)).candidates, [HANDOVER], 1, 2)
    ensures PairBetween(Declared(None), Breakout(None), FAILED).relation == OppositeDirectionConflict
    ensures PairBetween(Declared(Some(12.0)), Breakout(Some(12.0)), FAILED).relation == DeclaredTransition
  {
    var s := Support(5, 30, 40, 20, 90);
    assert s in HANDOVER.support;
    assert SupportIds(HANDOVER.support) == {5};
    assert Refused(HANDOVER, Breakout(None), FAILED) == Some(EvidenceSetupMismatch);
    assert Refused(HANDOVER, Breakout(Some(12.0)), FAILED) == None;
    hide Refused;
    FoundAt(Breakout(None));
    FoundAt(Breakout(Some(12.0)));
    hide CandidateOf;
    var none, some := Declared(None).candidates, Declared(Some(12.0)).candidates;
    var declared := [HANDOVER];
    assert declared[..0] == [];
    assert AcceptedOf(none, declared[..0], 1, 2) == None && AcceptedOf(some, declared[..0], 1, 2) == None;
    assert HANDOVER in declared && Links(HANDOVER, 1, 2) && ReleasesFor(none, some, HANDOVER);
    assert AcceptedOf(none, declared, 1, 2) == None && AcceptedOf(some, declared, 1, 2) == Some(3);
  }

  lemma SortedStays(candidates: seq<Candidate>)
    requires |candidates| == 2 && candidates[0].id < candidates[1].id
    ensures Ordered(candidates, CandidateColumns, 1) == candidates
  {
    assert CandidateColumns(candidates[0])[0] != CandidateColumns(candidates[1])[0];
    BeforeOne(candidates[0].id, candidates[1].id);
    assert Unlike(candidates, CandidateColumns) && Rising(candidates, CandidateColumns, 1);
    hide Ordered, Rising, Unlike, Before;
    OrderedRises(candidates, CandidateColumns, 1);
    SameElements(Ordered(candidates, CandidateColumns, 1), candidates);
    RisingIsUnique(Ordered(candidates, CandidateColumns, 1), candidates, CandidateColumns, 1);
  }

  lemma DeclaredListsGrow()
    ensures ListsGrow(Declared(None), Declared(Some(12.0)))
  {
  }

  lemma DeclaredIsValid(trigger: Option<real>)
    ensures ValidRequest(Declared(trigger))
  {
    var r := Declared(trigger);
    assert r.candidates[0].id == 1 && r.candidates[1].id == 2;
    assert r.candidates[0] in r.candidates && r.candidates[1] in r.candidates;
  }

  lemma DeclaredIsListed(trigger: Option<real>)
    ensures ValidRequest(Declared(trigger)) && Listed(Declared(trigger)) == Declared(trigger)
  {
    var r := Declared(trigger);
    DeclaredIsValid(trigger);
    hide ValidRequest;
    var l := Listed(r);
    SortedStays(r.candidates);
    assert r.transitions == [HANDOVER] && r.transitions[..0] == [] && r.atrs == [];
    assert Ordered(r.transitions[..0], TransitionColumns, 1) == [];
    assert l.transitions == [HANDOVER] && l.atrs == [];
  }

  lemma DeclaredGrows()
    ensures ValidRequest(Declared(None)) && ValidRequest(Declared(Some(12.0)))
    ensures InformationGrows(Declared(None), Declared(Some(12.0)))
  {
    hide Listed, ListsGrow, Declared, ValidRequest;
    DeclaredIsListed(None);
    DeclaredIsListed(Some(12.0));
    DeclaredListsGrow();
  }

  lemma FoundAt(source: Candidate)
    requires source.id == 1
    ensures CandidateOf([source, FAILED], 1) == Some(source) && CandidateOf([source, FAILED], 2) == Some(FAILED)
  {
    assert [source, FAILED][..1] == [source];
  }
}
