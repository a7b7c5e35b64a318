/** What each relation of a pair report means, said over the candidates, ATRs and transitions a
request supplies: no gates, no order of checks, distances multiplied out.
*/
module PairMeaning {
  import opened Wrappers
  import opened Rationals
  import opened ColumnOrder
  import opened PairReport

  // ----- Facts ------------------------------------------------------------

  /** A supplied ATR of the symbol has this value. */
  ghost predicate HasAtr(r: Request, symbol: int, value: real) {
    exists a :: a in r.atrs && a.symbol == symbol && a.value == Some(value)
  }

  /** The two prices are known, and within the policy's multiple of a known ATR of each other. */
  ghost predicate Near(r: Request, symbol: int, x: Option<real>, y: Option<real>) {
    && x.Some? && y.Some?
    && exists value :: HasAtr(r, symbol, value) && Abs(x.value - y.value) <= Times(r.policy.regionAtrMultiple, value)
  }

  /** They are known, and farther apart than that. */
  ghost predicate Far(r: Request, symbol: int, x: Option<real>, y: Option<real>) {
    && x.Some? && y.Some?
    && exists value :: HasAtr(r, symbol, value) && Abs(x.value - y.value) > Times(r.policy.regionAtrMultiple, value)
  }

  /** Triggers and stops both near, or under the other rule either. */
  ghost predicate SameRegion(r: Request, a: Candidate, b: Candidate) {
    var trigger, stop := Near(r, a.symbol, a.trigger, b.trigger), Near(r, a.symbol, a.stop, b.stop);
    if r.policy.rule == BothRegions then trigger && stop else trigger || stop
  }

  /** Triggers or stops far, or under the other rule both. */
  ghost predicate OtherRegion(r: Request, a: Candidate, b: Candidate) {
    var trigger, stop := Far(r, a.symbol, a.trigger, b.trigger), Far(r, a.symbol, a.stop, b.stop);
    if r.policy.rule == BothRegions then trigger || stop else trigger && stop
  }

  /** Each was created before the other expires. */
  predicate Alive(a: Candidate, b: Candidate) { a.createdAt < b.expiresAt && b.createdAt < a.expiresAt }

  /** They were created within the policy's seconds of each other. */
  predicate Timely(r: Request, a: Candidate, b: Candidate) {
    -1000000 * r.policy.mergeWindowSeconds <= a.createdAt - b.createdAt <= 1000000 * r.policy.mergeWindowSeconds
  }

  /** Everything a declared transition needs of its evidence and of its two candidates. */
  ghost predicate Stands(t: Transition, source: Candidate, target: Candidate) {
    var e := t.evidence;
    && source.strategy == ORB && target.strategy == FAILURE
    && source.symbol == target.symbol && source.instrumentType == target.instrumentType
    && (if e.Handoff? then e.failureForming else e.handoffPassed && e.armedOrTriggered)
    && t.session.Some? && e.frozen.inputs != {}
    && (forall id | id == e.frozen.anchorBarId || id in e.frozen.inputs ::
         (exists s :: s in t.support && s.id == id) && id in source.inputs && id in target.inputs)
    && (forall id | id in e.gateIds || (e.Reversal? && id in e.structuralIds) ::
         exists s :: s in t.support && s.id == id)
    && (forall s | s in t.support ::
         && s.symbol == source.symbol && s.instrumentType == source.instrumentType
         && s.session == t.session.value.session && s.availableAt <= e.evaluatedAt
         && (s.id == e.frozen.anchorBarId || s.id in e.frozen.inputs ==> s.availableAt <= e.frozen.crossedAt))
    && source.sessionRecordId == target.sessionRecordId == t.session.value.id
    && source.session == target.session == t.session.value.session
    && source.structureId == target.structureId && source.id in target.inputs
    && source.trigger == Some(e.frozen.boundary)
    && t.session.value.startedAt <= e.frozen.crossedAt <= source.createdAt <= e.evaluatedAt <= target.createdAt
    && source.direction == (if e.Handoff? then e.frozen.direction else e.breakDirection)
    && target.direction == e.direction && source.direction != target.direction
  }

  /** A transition supplied between the two, either way, that stands. */
  ghost predicate HandsOver(r: Request, a: Candidate, b: Candidate, t: Transition) {
    && t in r.transitions
    && ((t.from == a.id && t.to == b.id && Stands(t, a, b)) || (t.from == b.id && t.to == a.id && Stands(t, b, a)))
  }

  /** The relation of two candidates of one symbol, from those facts. */
  ghost function Meaning(r: Request, a: Candidate, b: Candidate): Relation {
    if a.direction == b.direction then
      if Alive(a, b) && Timely(r, a, b) && SameRegion(r, a, b) then SameThesisOverlap
      else if Alive(a, b) && Timely(r, a, b) && !OtherRegion(r, a, b) then SameDirectionUnknown
      else SameDirectionSeparate
    else if exists t :: HandsOver(r, a, b, t) then DeclaredTransition
    else if Alive(a, b) then OppositeDirectionConflict
    else OppositeDirectionSequential
  }

  /** A gate on two prices passed for near ones, failed for far ones, and is else unknown for want of a
      price, of an ATR or of the ATR's value. */
  ghost predicate DistanceSays(
      r: Request, symbol: int, x: Option<real>, y: Option<real>, missing: string, gate: Gate) {
    && (gate.status == Pass <==> Near(r, symbol, x, y)) && (gate.status == Fail <==> Far(r, symbol, x, y))
    && match gate.status
       case Pass => gate.reason == ""
       case Fail => gate.reason == "BEYOND_SUPPLIED_REGION"
       case Unknown =>
         || ((x.None? || y.None?) && gate.reason == missing)
         || (x.Some? && y.Some? && (forall a | a in r.atrs :: a.symbol != symbol) && gate.reason == "ATR_NOT_SUPPLIED")
         || (x.Some? && y.Some? && exists a ::
              a in r.atrs && a.symbol == symbol && a.value.None? && gate.reason == a.missing)
  }

  /** The region gate passed in one region, failed in two, and is else unknown. */
  ghost predicate RegionSays(r: Request, a: Candidate, b: Candidate, gate: Gate) {
    && (gate.status == Pass <==> SameRegion(r, a, b)) && (gate.status == Fail <==> OtherRegion(r, a, b))
    && match gate.status
       case Pass => gate.reason == ""
       case Fail =>
         gate.reason ==
         if r.policy.rule == BothRegions then "A_SUPPLIED_REGION_FAILED" else "BOTH_SUPPLIED_REGIONS_FAILED"
       case Unknown => gate.reason == "A_SUPPLIED_REGION_UNKNOWN"
  }

  /** These are the two strategies, either way round. */
  predicate Are(x: string, y: string, u: string, v: string) { (x == u && y == v) || (x == v && y == u) }

  /** The documented label of two strategies. */
  predicate Labelled(x: string, y: string, name: Option<string>) {
    var volume := x == "VP_ACCEPT_LVN" || y == "VP_ACCEPT_LVN";
    && (name == Some("SAME_STRATEGY") <==> x == y)
    && (name == Some("VOLUME_PROFILE_CONTEXT") <==> x != y && volume)
    && (name == Some("ORB_TO_OR_FAILURE") <==> Are(x, y, "CRVOL_ORB5", "OR_FAILURE_REV"))
    && (name == Some("ORB_TO_GAP_FADE") <==> Are(x, y, "CRVOL_ORB5", "GAP_FADE_FAILED_OPEN"))
    && (name == Some("OR_FAILURE_WITH_GAP_FADE") <==> Are(x, y, "OR_FAILURE_REV", "GAP_FADE_FAILED_OPEN"))
    && (name == Some("CATALYST_CONSOLIDATION_THEN_HOD_COMPRESSION") <==>
        Are(x, y, "CAT_FIRST_CONSOL", "HOD_COMP_RS"))
    && (name == None <==>
        x != y && !volume && !Are(x, y, "CRVOL_ORB5", "OR_FAILURE_REV")
        && !Are(x, y, "CRVOL_ORB5", "GAP_FADE_FAILED_OPEN") && !Are(x, y, "OR_FAILURE_REV", "GAP_FADE_FAILED_OPEN")
        && !Are(x, y, "CAT_FIRST_CONSOL", "HOD_COMP_RS"))
  }

  /** What else a finding reports of two candidates: how far apart they were created, how each gate went
      and why, and their strategies' label. */
  ghost predicate Reports(r: Request, a: Candidate, b: Candidate, p: PairFinding) {
    && p.symbol == a.symbol && p.first == a.id && p.second == b.id
    && (p.microsApart == a.createdAt - b.createdAt || p.microsApart == b.createdAt - a.createdAt)
    && p.window == (if Timely(r, a, b) then Gate(Pass, "") else Gate(Fail, "BEYOND_SUPPLIED_WINDOW"))
    && DistanceSays(r, a.symbol, a.trigger, b.trigger, "TRIGGER_PRICE_UNAVAILABLE", p.trigger)
    && DistanceSays(r, a.symbol, a.stop, b.stop, "STOP_UNAVAILABLE", p.stop)
    && RegionSays(r, a, b, p.region) && Labelled(a.strategy, b.strategy, p.playbook)
  }

  // ----- Gates ------------------------------------------------------------

  lemma {:induction false} AtrFound(atrs: seq<Atr>, symbol: int)
    requires forall i, j | 0 <= i < j < |atrs| :: atrs[i].symbol != atrs[j].symbol
    ensures AtrOf(atrs, symbol).None? <==> forall a | a in atrs :: a.symbol != symbol
    ensures AtrOf(atrs, symbol).Some? ==>
      forall a :: a in atrs && a.symbol == symbol <==> a == AtrOf(atrs, symbol).value
    decreases |atrs|
  {
    if atrs != [] {
      var n := |atrs| - 1;
      AtrFound(atrs[..n], symbol);
      assert atrs == atrs[..n] + [atrs[n]];
    }
  }

  lemma DistanceMeans(
      r: Request, symbol: int, atr: Option<Atr>, x: Option<real>, y: Option<real>, missing: string)
    requires UsableAtr(atr)
    requires atr.None? ==> forall a | a in r.atrs :: a.symbol != symbol
    requires atr.Some? ==> forall a :: a in r.atrs && a.symbol == symbol <==> a == atr.value
    ensures DistanceSays(r, symbol, x, y, missing, DistanceGate(x, y, atr, r.policy.regionAtrMultiple, missing))
  {
    forall value ensures HasAtr(r, symbol, value) <==> atr.Some? && atr.value.value == Some(value) {
      if atr.Some? && atr.value.value == Some(value) { assert atr.value in r.atrs; }
    }
    hide Times, HasAtr;
    if x.Some? && y.Some? && atr.Some? && atr.value.value.Some? {
      QuotientBelow(Abs(x.value - y.value), atr.value.value.value, r.policy.regionAtrMultiple);
    }
  }

  lemma RegionMeans(r: Request, a: Candidate, b: Candidate, trigger: Gate, stop: Gate)
    requires trigger.status == Pass <==> Near(r, a.symbol, a.trigger, b.trigger)
    requires trigger.status == Fail <==> Far(r, a.symbol, a.trigger, b.trigger)
    requires stop.status == Pass <==> Near(r, a.symbol, a.stop, b.stop)
    requires stop.status == Fail <==> Far(r, a.symbol, a.stop, b.stop)
    ensures RegionSays(r, a, b, RegionGate(r.policy.rule, trigger, stop))
  {
    hide Near, Far;
  }

  lemma LabelMeans(x: string, y: string)
    ensures Labelled(x, y, PlaybookRelationship(x, y))
  {
    SameTwo(x, y, ORB, FAILURE);
    SameTwo(x, y, ORB, "GAP_FADE_FAILED_OPEN");
    SameTwo(x, y, FAILURE, "GAP_FADE_FAILED_OPEN");
    SameTwo(x, y, "CAT_FIRST_CONSOL", "HOD_COMP_RS");
    if x == y {
    } else if "VP_ACCEPT_LVN" in {x, y} {
    } else if {x, y} == {ORB, FAILURE} {
    } else if {x, y} == {ORB, "GAP_FADE_FAILED_OPEN"} {
    }
  }

  lemma SameTwo(x: string, y: string, u: string, v: string)
    ensures {x, y} == {u, v} <==> Are(x, y, u, v)
  {
    if {x, y} == {u, v} {
      assert x in {u, v} && y in {u, v} && u in {x, y} && v in {x, y};
    }
  }

  /** One pair, apart from where its transition comes from. */
  lemma PairMeans(r: Request, a: Candidate, b: Candidate, atr: Option<Atr>, accepted: Option<int>)
    requires UsableAtr(atr)
    requires atr.None? ==> forall x | x in r.atrs :: x.symbol != a.symbol
    requires atr.Some? ==> forall x :: x in r.atrs && x.symbol == a.symbol <==> x == atr.value
    requires a.direction != b.direction ==> (accepted.Some? <==> exists t :: HandsOver(r, a, b, t))
    ensures var p := PairOf(r.policy, a, b, atr, accepted);
      && p.relation == Meaning(r, a, b)
      && (p.overlap <==> Alive(a, b))
      && (p.higher == if a.score > b.score then Some(a.id) else if b.score > a.score then Some(b.id) else None)
      && p.transition == (if a.direction == b.direction then None else accepted)
      && (p.transition.Some? <==> p.relation == DeclaredTransition)
      && Reports(r, a, b, p)
  {
    LabelMeans(a.strategy, b.strategy);
    DistanceMeans(r, a.symbol, atr, a.trigger, b.trigger, "TRIGGER_PRICE_UNAVAILABLE");
    DistanceMeans(r, a.symbol, atr, a.stop, b.stop, "STOP_UNAVAILABLE");
    var trigger := DistanceGate(a.trigger, b.trigger, atr, r.policy.regionAtrMultiple, "TRIGGER_PRICE_UNAVAILABLE");
    var stop := DistanceGate(a.stop, b.stop, atr, r.policy.regionAtrMultiple, "STOP_UNAVAILABLE");
    hide DistanceGate, RegionGate, Near, Far, SameRegion, OtherRegion, HandsOver, PlaybookRelationship, Labelled;
    RegionMeans(r, a, b, trigger, stop);
  }

  // ----- Transitions ------------------------------------------------------

  /** Nothing refuses a declared transition exactly when it stands. */
  lemma RefusedMeans(t: Transition, source: Candidate, target: Candidate)
    ensures Refused(t, source, target).None? <==> Stands(t, source, target)
  {
    var e := t.evidence;
    forall id ensures id in SupportIds(t.support) <==> exists s :: s in t.support && s.id == id {}
    assert forall id :: id in OriginalIds(t) <==> id == e.frozen.anchorBarId || id in e.frozen.inputs;
    assert forall id :: id in e.EvaluationIds() <==> id in e.gateIds || (e.Reversal? && id in e.structuralIds);
    hide SupportIds, OriginalIds, Evidence.EvaluationIds;
  }

  /** What may be wrong with a declared transition, in the order it is reported. */
  ghost function Faults(t: Transition, source: Candidate, target: Candidate): seq<(Refusal, bool)> {
    var e := t.evidence;
    [ (PairNotSupported, source.strategy != "CRVOL_ORB5" || target.strategy != "OR_FAILURE_REV"),
      (SymbolMismatch, source.symbol != target.symbol || source.instrumentType != target.instrumentType),
      (EvidenceNotHandedOver, if e.Handoff? then !e.failureForming else !e.handoffPassed || !e.armedOrTriggered),
      (EvidenceIdentityUnavailable, t.session.None? || |e.frozen.inputs| == 0 || Unsupported(t)),
      (EvidenceSymbolMismatch, exists s :: s in t.support && Foreign(s, source)),
      (EvidenceSessionMismatch, t.session.Some? && OutOfSession(t, source, target)),
      (EvidenceSetupMismatch,
        || source.structureId != target.structureId || source.id !in target.inputs
        || source.trigger != Some(e.frozen.boundary)
        || exists id :: Original(t, id) && !(id in source.inputs && id in target.inputs)),
      (OrderMismatch, t.session.Some? && OutOfOrder(t, source)),
      (BreakDirectionMismatch, source.direction != if e.Handoff? then e.frozen.direction else e.breakDirection),
      (ReversalDirectionMismatch, e.direction != target.direction || source.direction == target.direction),
      (OrderMismatch, e.evaluatedAt < source.createdAt || target.createdAt < e.evaluatedAt)]
  }

  /** A record of the bars the frozen candidate rests on. */
  predicate Original(t: Transition, id: int) {
    id == t.evidence.frozen.anchorBarId || id in t.evidence.frozen.inputs
  }

  /** One that the evidence rests on, its evaluation's among them. */
  predicate Needed(t: Transition, id: int) {
    Original(t, id) || id in t.evidence.gateIds || (t.evidence.Reversal? && id in t.evidence.structuralIds)
  }

  /** Some such record was not supplied. */
  ghost predicate Unsupported(t: Transition) {
    exists id :: Needed(t, id) && NotSupplied(t, id)
  }

  predicate NotSupplied(t: Transition, id: int) {
    forall s | s in t.support :: s.id != id
  }

  predicate Foreign(s: Support, source: Candidate) {
    s.symbol != source.symbol || s.instrumentType != source.instrumentType
  }

  ghost predicate OutOfSession(t: Transition, source: Candidate, target: Candidate)
    requires t.session.Some?
  {
    var session := t.session.value;
    || source.sessionRecordId != session.id || target.sessionRecordId != session.id
    || source.session != session.session || target.session != session.session
    || exists s :: s in t.support && s.session != session.session
  }

  /** The session, the crossing, the first candidate, the records and the evaluation do not follow one another. */
  ghost predicate OutOfOrder(t: Transition, source: Candidate)
    requires t.session.Some?
  {
    var e := t.evidence;
    || e.frozen.crossedAt < t.session.value.startedAt || source.createdAt < e.frozen.crossedAt
    || exists s :: s in t.support &&
         (e.evaluatedAt < s.availableAt || (Original(t, s.id) && e.frozen.crossedAt < s.availableAt))
  }

  /** The refusal reported is the first of the faults there are. */
  lemma RefusalIsFirst(t: Transition, source: Candidate, target: Candidate)
    ensures var faults := Faults(t, source, target);
      match Refused(t, source, target)
      case None => forall i | 0 <= i < |faults| :: !faults[i].1
      case Some(refusal) => exists i :: FirstFault(faults, i) && faults[i].0 == refusal
  {
    var faults := Faults(t, source, target);
    IdentityMeans(t);
    OriginalsMean(t, source.inputs);
    OriginalsMean(t, target.inputs);
    hide OriginalIds, SupportIds, Evidence.EvaluationIds, Unsupported, Original;
    var i := if !faults[0].1 && !faults[1].1 && !faults[2].1 && !faults[3].1 && !faults[4].1 && !faults[5].1 then
               if faults[6].1 then 6 else if faults[7].1 then 7 else if faults[8].1 then 8
               else if faults[9].1 then 9 else 10
             else if faults[0].1 then 0 else if faults[1].1 then 1 else if faults[2].1 then 2
             else if faults[3].1 then 3 else if faults[4].1 then 4 else 5;
    if faults[i].1 {
      assert FirstFault(faults, i);
    }
  }

  predicate FirstFault(faults: seq<(Refusal, bool)>, i: int) {
    0 <= i < |faults| && faults[i].1 && forall j | 0 <= j < i :: !faults[j].1
  }

  lemma IdentityMeans(t: Transition)
    ensures Unsupported(t) <==> !(OriginalIds(t) + t.evidence.EvaluationIds() <= SupportIds(t.support))
  {
    var needed, supplied := OriginalIds(t) + t.evidence.EvaluationIds(), SupportIds(t.support);
    forall id ensures id in supplied <==> !NotSupplied(t, id) {}
    forall id ensures id in needed <==> Needed(t, id) {}
    if Unsupported(t) {
      assert exists id :: Needed(t, id) && NotSupplied(t, id);
    } else {
      forall id | id in needed ensures id in supplied { assert Needed(t, id); }
    }
  }

  lemma OriginalsMean(t: Transition, inputs: set<int>)
    ensures forall id :: id in OriginalIds(t) <==> Original(t, id)
    ensures OriginalIds(t) <= inputs <==> forall id | Original(t, id) :: id in inputs
  {
    forall id ensures id in OriginalIds(t) <==> Original(t, id) {}
    if forall id | Original(t, id) :: id in inputs {
      forall id | id in OriginalIds(t) ensures id in inputs { assert Original(t, id); }
    }
  }

  lemma {:induction false} CandidateFound(candidates: seq<Candidate>, a: Candidate)
    requires a in candidates
    requires forall i, j | 0 <= i < j < |candidates| :: candidates[i].id != candidates[j].id
    ensures CandidateOf(candidates, a.id) == Some(a)
    decreases |candidates|
  {
    var n := |candidates| - 1;
    if candidates[n] != a {
      assert candidates == candidates[..n] + [candidates[n]];
      CandidateFound(candidates[..n], a);
    }
  }

  lemma {:induction false} AcceptedIsOne(candidates: seq<Candidate>, transitions: seq<Transition>, a: int, b: int)
    ensures AcceptedOf(candidates, transitions, a, b).None? <==>
      forall t | t in transitions && Links(t, a, b) :: FindingOf(candidates, t).Some?
    ensures AcceptedOf(candidates, transitions, a, b).Some? ==> exists t ::
      && t in transitions && Links(t, a, b) && FindingOf(candidates, t).None?
      && AcceptedOf(candidates, transitions, a, b) == Some(t.id)
    decreases |transitions|
  {
    if transitions != [] {
      hide FindingOf, Links;
      var n := |transitions| - 1;
      AcceptedIsOne(candidates, transitions[..n], a, b);
      assert transitions == transitions[..n] + [transitions[n]];
    }
  }

  /** A transition linking two supplied candidates is accepted exactly when it hands over. */
  lemma FoundMeans(r: Request, candidates: seq<Candidate>, a: Candidate, b: Candidate, t: Transition)
    requires a in candidates && b in candidates && a.id != b.id && t in r.transitions
    requires forall i, j | 0 <= i < j < |candidates| :: candidates[i].id != candidates[j].id
    ensures Links(t, a.id, b.id) && FindingOf(candidates, t).None? <==> HandsOver(r, a, b, t)
  {
    CandidateFound(candidates, a);
    CandidateFound(candidates, b);
    RefusedMeans(t, a, b);
    RefusedMeans(t, b, a);
    hide Refused, Stands, CandidateOf;
  }

  lemma ListedHasAll(r: Request)
    requires ValidRequest(r)
    ensures forall a :: a in Listed(r).candidates <==> a in r.candidates
    ensures forall a :: a in Listed(r).atrs <==> a in r.atrs
    ensures forall t :: t in Listed(r).transitions <==> t in r.transitions
    ensures Listed(r).policy == r.policy
    ensures forall i, j | 0 <= i < j < |Listed(r).atrs| :: Listed(r).atrs[i].symbol != Listed(r).atrs[j].symbol
  {
    ColumnsUnlike(r);
    OrderedRises(r.candidates, CandidateColumns, 1);
    OrderedRises(r.atrs, AtrColumns, 1);
    OrderedRises(r.transitions, TransitionColumns, 1);
    hide Ordered, Unlike;
    var l := Listed(r);
    SameElements(l.candidates, r.candidates);
    SameElements(l.atrs, r.atrs);
    SameElements(l.transitions, r.transitions);
    forall i, j | 0 <= i < j < |l.atrs| ensures l.atrs[i].symbol != l.atrs[j].symbol {
      BeforeOne(l.atrs[i].symbol, l.atrs[j].symbol);
      assert Before(AtrColumns(l.atrs[i]), AtrColumns(l.atrs[j]));
    }
  }

  // ----- Reports ----------------------------------------------------------

  /** Whatever a report says of two candidates of one symbol follows from the supplied facts. */
  lemma FindingMeans(r: Request, report: Report, p: PairFinding, a: Candidate, b: Candidate)
    requires ValidRequest(r) && IsReport(r, report) && p in report.pairs
    requires a in r.candidates && b in r.candidates && p.first == a.id && p.second == b.id
    ensures Reports(r, a, b, p)
    ensures p.relation == Meaning(r, a, b)
    ensures p.overlap <==> Alive(a, b)
    ensures p.higher == if a.score > b.score then Some(a.id) else if b.score > a.score then Some(b.id) else None
    ensures p.transition.Some? <==> p.relation == DeclaredTransition
    ensures p.transition.Some? ==> exists t :: HandsOver(r, a, b, t) && p.transition == Some(t.id)
  {
    var l := Listed(r);
    ListedHasAll(r);
    var x, y :| SameSymbolInOrder(l.candidates, x, y) && p == PairBetween(l, x, y);
    PairNames(l, x, y);
    OneById(r, x, a);
    OneById(r, y, b);
    AtrFound(l.atrs, a.symbol);
    AcceptedIsOne(l.candidates, l.transitions, a.id, b.id);
    AtrIsUsable(l.atrs, a.symbol);
    hide Listed, PairOf, AcceptedOf, AtrOf, HandsOver, Links, FindingOf, Findings, IsPair, Reports, Meaning,
      Alive;
    forall t | t in r.transitions
      ensures Links(t, a.id, b.id) && FindingOf(l.candidates, t).None? <==> HandsOver(r, a, b, t)
    {
      FoundMeans(r, l.candidates, a, b, t);
    }
    forall t | HandsOver(r, a, b, t) ensures t in r.transitions { HandsOverIsSupplied(r, a, b, t); }
    PairMeans(
      r, a, b, AtrOf(l.atrs, a.symbol), AcceptedOf(l.candidates, l.transitions, a.id, b.id));
  }

  /** A report says of each transition, and only of those supplied, whether it stands or its first fault. */
  lemma TransitionsAreReported(r: Request, report: Report, t: Transition, source: Candidate, target: Candidate)
    requires ValidRequest(r) && IsReport(r, report) && t in r.transitions
    requires source in r.candidates && target in r.candidates && source.id == t.from && target.id == t.to
    ensures |report.transitions| == |r.transitions|
    ensures forall f :: f in report.transitions && f.transition == t <==>
      f == TransitionFinding(t, Refused(t, source, target))
  {
    ListedHasAll(r);
    SameCount(r);
    var l := Listed(r);
    CandidateFound(l.candidates, source);
    CandidateFound(l.candidates, target);
    hide Listed, Refused, CandidateOf, Rising, IsPair;
    assert FindingOf(l.candidates, t) == Refused(t, source, target);
    var i :| 0 <= i < |l.transitions| && l.transitions[i] == t;
    assert report.transitions[i] == TransitionFinding(t, Refused(t, source, target));
  }

  lemma SameCount(r: Request)
    requires ValidRequest(r)
    ensures |Listed(r).transitions| == |r.transitions|
  {
    ColumnsUnlike(r);
    OrderedRises(r.transitions, TransitionColumns, 1);
    hide Ordered, Unlike;
    assert |multiset(Listed(r).transitions)| == |multiset(r.transitions)|;
  }

  lemma OneById(r: Request, x: Candidate, a: Candidate)
    requires ValidRequest(r) && x in r.candidates && a in r.candidates && x.id == a.id
    ensures x == a
  {
  }

  lemma HandsOverIsSupplied(r: Request, a: Candidate, b: Candidate, t: Transition)
    requires HandsOver(r, a, b, t)
    ensures t in r.transitions
  {
  }
}
