/** The pair report of `consensus_engine/cross_strategy_interaction.py`.

Identifiers and symbols are integers in the order their text sorts; prices, scores and ATRs are
exact rationals and instants whole microseconds.
*/
module PairReport {
  import opened Wrappers
  import opened Rationals
  import opened ColumnOrder

  datatype Direction = Long | Short

  datatype Status = Pass | Fail | Unknown

  datatype Rule = BothRegions | EitherRegion

  datatype Policy = Policy(mergeWindowSeconds: nat, regionAtrMultiple: real, rule: Rule)

  datatype Candidate = Candidate(
    id: int, sessionRecordId: int, session: int, symbol: int, instrumentType: int, strategy: string,
    direction: Direction, createdAt: int, expiresAt: int, trigger: Option<real>, stop: Option<real>,
    score: real, structureId: int, inputs: set<int>)

  datatype Atr = Atr(id: int, symbol: int, availableAt: int, value: Option<real>, missing: string)

  datatype Session = Session(id: int, session: int, startedAt: int)

  datatype Support = Support(id: int, symbol: int, instrumentType: int, session: int, availableAt: int)

  datatype Frozen = Frozen(anchorBarId: int, inputs: set<int>, direction: Direction, boundary: real, crossedAt: int)

  /** A handoff result, or a reversal result that may have passed a handoff and armed or triggered. */
  datatype Evidence =
    | Handoff(failureForming: bool, direction: Direction, evaluatedAt: int, frozen: Frozen, gateIds: set<int>)
    | Reversal(
        handoffPassed: bool, armedOrTriggered: bool, breakDirection: Direction, direction: Direction, evaluatedAt: int,
        frozen: Frozen, gateIds: set<int>, structuralIds: set<int>)
  {
    predicate HandedOver() { if Handoff? then failureForming else handoffPassed && armedOrTriggered }

    function Broken(): Direction { if Handoff? then frozen.direction else breakDirection }

    function EvaluationIds(): set<int> { if Handoff? then gateIds else gateIds + structuralIds }
  }

  datatype Transition = Transition(
    id: int, from: int, to: int, evidence: Evidence, session: Option<Session>, support: seq<Support>)

  datatype Request = Request(
      evaluatedAt: int, policy: Policy, candidates: seq<Candidate>, atrs: seq<Atr>, transitions: seq<Transition>)

  const ORB := "CRVOL_ORB5"
  const FAILURE := "OR_FAILURE_REV"

  // ----- A request the caller may make ------------------------------------

  predicate Links(t: Transition, a: int, b: int) { (t.from == a && t.to == b) || (t.from == b && t.to == a) }

  predicate ValidRequest(r: Request) {
    && r.policy.regionAtrMultiple > 0.0
    && (forall i, j | 0 <= i < j < |r.candidates| :: r.candidates[i].id != r.candidates[j].id)
    && (forall i, j | 0 <= i < j < |r.atrs| :: r.atrs[i].symbol != r.atrs[j].symbol)
    && (forall a | a in r.atrs && a.value.Some? :: a.value.value > 0.0)
    && (forall i, j | 0 <= i < j < |r.transitions| :: r.transitions[i].id != r.transitions[j].id)
    && (forall i, j | 0 <= i < j < |r.transitions| ::
         !Links(r.transitions[i], r.transitions[j].from, r.transitions[j].to))
    && (forall t | t in r.transitions ::
         && t.from != t.to
         && (exists c :: c in r.candidates && c.id == t.from) && (exists c :: c in r.candidates && c.id == t.to))
  }

  // ----- Declared transitions ---------------------------------------------

  datatype Refusal =
    | PairNotSupported | SymbolMismatch | EvidenceNotHandedOver | EvidenceIdentityUnavailable
    | EvidenceSymbolMismatch | EvidenceSessionMismatch | EvidenceSetupMismatch | OrderMismatch
    | BreakDirectionMismatch | ReversalDirectionMismatch

  function SupportIds(support: seq<Support>): set<int> { set s | s in support :: s.id }

  function OriginalIds(t: Transition): set<int> { {t.evidence.frozen.anchorBarId} + t.evidence.frozen.inputs }

  /** Why a declared transition does not stand, in the order the checks are made. */
  function Refused(t: Transition, source: Candidate, target: Candidate): Option<Refusal> {
    var e := t.evidence;
    if !(source.strategy == ORB && target.strategy == FAILURE) then Some(PairNotSupported)
    else if source.symbol != target.symbol || source.instrumentType != target.instrumentType then Some(SymbolMismatch)
    else if !e.HandedOver() then Some(EvidenceNotHandedOver)
    else if t.session.None? || e.frozen.inputs == {} || !(OriginalIds(t) + e.EvaluationIds() <= SupportIds(t.support))
    then Some(EvidenceIdentityUnavailable)
    else if exists s :: s in t.support && (s.symbol != source.symbol || s.instrumentType != source.instrumentType)
    then Some(EvidenceSymbolMismatch)
    else
      var session := t.session.value;
      if source.sessionRecordId != session.id || target.sessionRecordId != session.id
         || source.session != session.session || target.session != session.session
         || (exists s :: s in t.support && s.session != session.session)
      then Some(EvidenceSessionMismatch)
      else if source.structureId != target.structureId || !(OriginalIds(t) <= source.inputs)
              || !(OriginalIds(t) <= target.inputs)
              || source.id !in target.inputs || source.trigger != Some(e.frozen.boundary)
      then Some(EvidenceSetupMismatch)
      else if session.startedAt > e.frozen.crossedAt || e.frozen.crossedAt > source.createdAt
              || (exists s :: s in t.support && s.id in OriginalIds(t) && s.availableAt > e.frozen.crossedAt)
              || (exists s :: s in t.support && s.availableAt > e.evaluatedAt)
      then Some(OrderMismatch)
      else if e.Broken() != source.direction then Some(BreakDirectionMismatch)
      else if e.direction != target.direction || source.direction == target.direction
      then Some(ReversalDirectionMismatch)
      else if !(source.createdAt <= e.evaluatedAt <= target.createdAt) then Some(OrderMismatch)
      else None
  }

  // ----- One pair ---------------------------------------------------------

  datatype Gate = Gate(status: Status, reason: string)

  /** Whether two prices lie within so many ATRs of each other. */
  function DistanceGate(first: Option<real>, second: Option<real>, atr: Option<Atr>, limit: real, missing: string): Gate
    requires atr.Some? && atr.value.value.Some? ==> atr.value.value.value > 0.0
  {
    if first.None? || second.None? then Gate(Unknown, missing)
    else if atr.None? then Gate(Unknown, "ATR_NOT_SUPPLIED")
    else if atr.value.value.None? then Gate(Unknown, atr.value.missing)
    else if AtrDistance(first.value, second.value, atr.value.value.value) <= limit then Gate(Pass, "")
    else Gate(Fail, "BEYOND_SUPPLIED_REGION")
  }

  function AtrDistance(first: real, second: real, atr: real): real
    requires atr > 0.0
  {
    Abs(first - second) / atr
  }

  function RegionGate(rule: Rule, trigger: Gate, stop: Gate): Gate {
    if rule.BothRegions? then
      if Fail in {trigger.status, stop.status} then Gate(Fail, "A_SUPPLIED_REGION_FAILED")
      else if Unknown in {trigger.status, stop.status} then Gate(Unknown, "A_SUPPLIED_REGION_UNKNOWN")
      else Gate(Pass, "")
    else if Pass in {trigger.status, stop.status} then Gate(Pass, "")
    else if Unknown in {trigger.status, stop.status} then Gate(Unknown, "A_SUPPLIED_REGION_UNKNOWN")
    else Gate(Fail, "BOTH_SUPPLIED_REGIONS_FAILED")
  }

  datatype Relation =
    | SameThesisOverlap | SameDirectionSeparate | SameDirectionUnknown
    | OppositeDirectionConflict | OppositeDirectionSequential | DeclaredTransition

  datatype PairFinding = PairFinding(
    symbol: int, first: int, second: int, relation: Relation, playbook: Option<string>, microsApart: nat,
    overlap: bool, window: Gate, trigger: Gate, stop: Gate, region: Gate, higher: Option<int>, transition: Option<int>)

  function PlaybookRelationship(first: string, second: string): Option<string> {
    if first == second then Some("SAME_STRATEGY")
    else if "VP_ACCEPT_LVN" in {first, second} then Some("VOLUME_PROFILE_CONTEXT")
    else if {first, second} == {ORB, FAILURE} then Some("ORB_TO_OR_FAILURE")
    else if {first, second} == {ORB, "GAP_FADE_FAILED_OPEN"} then Some("ORB_TO_GAP_FADE")
    else if {first, second} == {FAILURE, "GAP_FADE_FAILED_OPEN"} then Some("OR_FAILURE_WITH_GAP_FADE")
    else if {first, second} == {"CAT_FIRST_CONSOL", "HOD_COMP_RS"}
    then Some("CATALYST_CONSOLIDATION_THEN_HOD_COMPRESSION")
    else None
  }

  function MicrosApart(first: Candidate, second: Candidate): nat {
    if first.createdAt <= second.createdAt then second.createdAt - first.createdAt
    else first.createdAt - second.createdAt
  }

  predicate Overlap(first: Candidate, second: Candidate) {
    first.createdAt < second.expiresAt && second.createdAt < first.expiresAt
  }

  function RelationOf(
      first: Candidate, second: Candidate, window: Gate, region: Gate, accepted: Option<int>): Relation {
    if first.direction == second.direction then
      if !Overlap(first, second) || window.status == Fail || region.status == Fail then SameDirectionSeparate
      else if region.status == Pass then SameThesisOverlap
      else SameDirectionUnknown
    else if accepted.Some? then DeclaredTransition
    else if Overlap(first, second) then OppositeDirectionConflict
    else OppositeDirectionSequential
  }

  predicate UsableAtr(atr: Option<Atr>) {
    atr.Some? && atr.value.value.Some? ==> atr.value.value.value > 0.0
  }

  function PairOf(
      policy: Policy, first: Candidate, second: Candidate, atr: Option<Atr>, accepted: Option<int>): PairFinding
    requires UsableAtr(atr)
  {
    var apart := MicrosApart(first, second);
    var within := apart <= policy.mergeWindowSeconds * 1000000;
    var window := if within then Gate(Pass, "") else Gate(Fail, "BEYOND_SUPPLIED_WINDOW");
    var trigger := DistanceGate(first.trigger, second.trigger, atr,
      policy.regionAtrMultiple, "TRIGGER_PRICE_UNAVAILABLE");
    var stop := DistanceGate(first.stop, second.stop, atr, policy.regionAtrMultiple, "STOP_UNAVAILABLE");
    var region := RegionGate(policy.rule, trigger, stop);
    PairFinding(
      first.symbol, first.id, second.id, RelationOf(first, second, window, region, accepted),
      PlaybookRelationship(first.strategy, second.strategy), apart, Overlap(first, second),
      window, trigger, stop, region,
      if first.score == second.score then None
      else if first.score > second.score then Some(first.id)
      else Some(second.id),
      if first.direction == second.direction then None else accepted)
  }

  /** What two findings of one pair share however its candidates are taken. */
  predicate SamePair(p: PairFinding, q: PairFinding) {
    && p.relation == q.relation && p.playbook == q.playbook && p.microsApart == q.microsApart && p.overlap == q.overlap
    && p.window == q.window && p.trigger == q.trigger && p.stop == q.stop && p.region == q.region
    && p.higher == q.higher && p.transition == q.transition
  }

  /** A finding does not depend on which candidate of the pair comes first. */
  lemma PairIsSymmetric(policy: Policy, a: Candidate, b: Candidate, atr: Option<Atr>, accepted: Option<int>)
    requires UsableAtr(atr) && a.id != b.id
    ensures SamePair(PairOf(policy, a, b, atr, accepted), PairOf(policy, b, a, atr, accepted))
  {
    PlaybookIsSymmetric(a.strategy, b.strategy);
    hide PlaybookRelationship;
  }

  lemma PlaybookIsSymmetric(first: string, second: string)
    ensures PlaybookRelationship(first, second) == PlaybookRelationship(second, first)
  {
    assert {first, second} == {second, first};
  }

  // ----- Lookups ----------------------------------------------------------

  function CandidateOf(candidates: seq<Candidate>, id: int): Option<Candidate>
    decreases |candidates|
  {
    if candidates == [] then None
    else if candidates[|candidates| - 1].id == id then Some(candidates[|candidates| - 1])
    else CandidateOf(candidates[..|candidates| - 1], id)
  }

  function AtrOf(atrs: seq<Atr>, symbol: int): Option<Atr>
    decreases |atrs|
  {
    if atrs == [] then None
    else if atrs[|atrs| - 1].symbol == symbol then Some(atrs[|atrs| - 1])
    else AtrOf(atrs[..|atrs| - 1], symbol)
  }

  /** The refusal of a transition whose candidates are looked up among those supplied. */
  function FindingOf(candidates: seq<Candidate>, t: Transition): Option<Refusal> {
    var source, target := CandidateOf(candidates, t.from), CandidateOf(candidates, t.to);
    if source.Some? && target.Some? then Refused(t, source.value, target.value) else Some(PairNotSupported)
  }

  /** The accepted transition between two candidates, in either direction. */
  function AcceptedOf(candidates: seq<Candidate>, transitions: seq<Transition>, a: int, b: int): Option<int>
    decreases |transitions|
  {
    if transitions == [] then None
    else
      var last := transitions[|transitions| - 1];
      if Links(last, a, b) && FindingOf(candidates, last).None? then Some(last.id)
      else AcceptedOf(candidates, transitions[..|transitions| - 1], a, b)
  }

  // ----- The report -------------------------------------------------------

  function CandidateColumns(c: Candidate): Columns { [Some(c.id)] }

  function AtrColumns(a: Atr): Columns { [Some(a.symbol)] }

  function TransitionColumns(t: Transition): Columns { [Some(t.id)] }

  function PairColumns(p: PairFinding): Columns { [Some(p.symbol), Some(p.first), Some(p.second)] }

  datatype TransitionFinding = TransitionFinding(transition: Transition, refusal: Option<Refusal>)

  datatype Report = Report(
    evaluatedAt: int, candidates: seq<Candidate>, atrs: seq<Atr>, transitions: seq<TransitionFinding>,
    pairs: seq<PairFinding>, policy: Policy)

  function Findings(candidates: seq<Candidate>, transitions: seq<Transition>): seq<TransitionFinding> {
    seq(|transitions|, i requires 0 <= i < |transitions| =>
      TransitionFinding(transitions[i], FindingOf(candidates, transitions[i])))
  }

  predicate UsableAtrs(atrs: seq<Atr>) { forall a | a in atrs && a.value.Some? :: a.value.value > 0.0 }

  lemma {:induction false} AtrIsUsable(atrs: seq<Atr>, symbol: int)
    requires UsableAtrs(atrs)
    ensures UsableAtr(AtrOf(atrs, symbol))
    decreases |atrs|
  {
    if atrs != [] {
      assert atrs[|atrs| - 1] in atrs;
      AtrIsUsable(atrs[..|atrs| - 1], symbol);
    }
  }

  /** The same request, every list in order. */
  function Listed(r: Request): (l: Request)
    requires ValidRequest(r)
    ensures UsableAtrs(l.atrs) && Apart(l.candidates)
    ensures multiset(l.candidates) == multiset(r.candidates)
  {
    SortedCandidates(r);
    SortedAtrs(r);
    r.(candidates := Ordered(r.candidates, CandidateColumns, 1),
       atrs := Ordered(r.atrs, AtrColumns, 1),
       transitions := Ordered(r.transitions, TransitionColumns, 1))
  }

  function PairBetween(l: Request, a: Candidate, b: Candidate): PairFinding
    requires UsableAtrs(l.atrs)
  {
    AtrIsUsable(l.atrs, a.symbol);
    PairOf(l.policy, a, b, AtrOf(l.atrs, a.symbol), AcceptedOf(l.candidates, l.transitions, a.id, b.id))
  }

  /** A report lists everything in order and one finding for each two candidates of one symbol,
      the lower identifier first. */
  ghost predicate IsReport(r: Request, report: Report)
    requires ValidRequest(r)
  {
    var l := Listed(r);
    && report.evaluatedAt == r.evaluatedAt && report.policy == r.policy
    && report.candidates == l.candidates && report.atrs == l.atrs
    && report.transitions == Findings(l.candidates, l.transitions)
    && Rising(report.pairs, PairColumns, 3)
    && forall p :: p in report.pairs <==> IsPair(l, p)
  }

  predicate SameSymbolInOrder(candidates: seq<Candidate>, a: Candidate, b: Candidate) {
    a in candidates && b in candidates && a.id < b.id && a.symbol == b.symbol
  }

  ghost predicate IsPair(l: Request, p: PairFinding)
    requires UsableAtrs(l.atrs)
  {
    exists a, b :: SameSymbolInOrder(l.candidates, a, b) && p == PairBetween(l, a, b)
  }

  predicate Apart(candidates: seq<Candidate>) {
    forall i, j | 0 <= i < j < |candidates| :: candidates[i].id < candidates[j].id
  }

  lemma SortedCandidates(r: Request)
    requires ValidRequest(r)
    ensures var candidates := Ordered(r.candidates, CandidateColumns, 1);
      multiset(candidates) == multiset(r.candidates) && Apart(candidates)
  {
    ColumnsUnlike(r);
    OrderedRises(r.candidates, CandidateColumns, 1);
    var candidates := Ordered(r.candidates, CandidateColumns, 1);
    hide Ordered;
    forall i, j | 0 <= i < j < |candidates| ensures candidates[i].id < candidates[j].id {
      BeforeOne(candidates[i].id, candidates[j].id);
      assert Before(CandidateColumns(candidates[i]), CandidateColumns(candidates[j]));
    }
  }

  lemma BeforeOne(x: int, y: int)
    ensures Before([Some(x)], [Some(y)]) <==> x < y
  {
    assert [Some(x)][1..] == [];
  }

  lemma ColumnsUnlike(r: Request)
    requires ValidRequest(r)
    ensures Unlike(r.candidates, CandidateColumns) && Unlike(r.atrs, AtrColumns)
    ensures Unlike(r.transitions, TransitionColumns)
  {
    forall i, j | 0 <= i < j < |r.candidates|
      ensures CandidateColumns(r.candidates[i]) != CandidateColumns(r.candidates[j]) {
      assert CandidateColumns(r.candidates[i])[0] != CandidateColumns(r.candidates[j])[0];
    }
    forall i, j | 0 <= i < j < |r.atrs| ensures AtrColumns(r.atrs[i]) != AtrColumns(r.atrs[j]) {
      assert AtrColumns(r.atrs[i])[0] != AtrColumns(r.atrs[j])[0];
    }
    forall i, j | 0 <= i < j < |r.transitions|
      ensures TransitionColumns(r.transitions[i]) != TransitionColumns(r.transitions[j]) {
      assert TransitionColumns(r.transitions[i])[0] != TransitionColumns(r.transitions[j])[0];
    }
  }

  lemma SortedAtrs(r: Request)
    requires ValidRequest(r)
    ensures UsableAtrs(Ordered(r.atrs, AtrColumns, 1))
  {
    ColumnsUnlike(r);
    OrderedRises(r.atrs, AtrColumns, 1);
    SameElements(Ordered(r.atrs, AtrColumns, 1), r.atrs);
  }

  /** One request's lists are the other's in some other order. */
  predicate Reorders(r: Request, s: Request) {
    && r.evaluatedAt == s.evaluatedAt && r.policy == s.policy && multiset(r.candidates) == multiset(s.candidates)
    && multiset(r.atrs) == multiset(s.atrs) && multiset(r.transitions) == multiset(s.transitions)
  }

  /** The order in which candidates, ATRs and transitions are supplied never matters. */
  lemma ReportIsOrderFree(r: Request, s: Request, x: Report, y: Report)
    requires ValidRequest(r) && ValidRequest(s) && Reorders(r, s)
    requires IsReport(r, x) && IsReport(s, y)
    ensures x == y
  {
    ColumnsUnlike(r);
    ColumnsUnlike(s);
    OrderedIsOrderFree(r.candidates, s.candidates, CandidateColumns, 1);
    OrderedIsOrderFree(r.atrs, s.atrs, AtrColumns, 1);
    OrderedIsOrderFree(r.transitions, s.transitions, TransitionColumns, 1);
    assert Listed(r) == Listed(s);
    hide Listed, IsPair, Findings, Unlike;
    RisingIsUnique(x.pairs, y.pairs, PairColumns, 3);
  }

  ghost predicate NamedPair(candidates: seq<Candidate>, p: PairFinding) {
    exists a, b :: SameSymbolInOrder(candidates, a, b) && a.id == p.first && b.id == p.second && a.symbol == p.symbol
  }

  /** Every two candidates of one symbol have exactly one finding, the lower identifier first,
      and there is no other finding. */
  lemma EachPairOnce(r: Request, report: Report)
    requires ValidRequest(r) && IsReport(r, report)
    ensures forall p | p in report.pairs :: NamedPair(r.candidates, p)
    ensures forall a, b | SameSymbolInOrder(r.candidates, a, b) ::
      exists k :: 0 <= k < |report.pairs| && report.pairs[k].first == a.id && report.pairs[k].second == b.id
    ensures forall k, m | 0 <= k < m < |report.pairs| ::
      report.pairs[k].first != report.pairs[m].first || report.pairs[k].second != report.pairs[m].second
  {
    var l := Listed(r);
    SameElements(l.candidates, r.candidates);
    hide Listed, Findings, PairBetween;
    forall p | p in report.pairs ensures NamedPair(r.candidates, p) {
      var a, b :| SameSymbolInOrder(l.candidates, a, b) && p == PairBetween(l, a, b);
      PairNames(l, a, b);
      assert SameSymbolInOrder(r.candidates, a, b);
    }
    forall a, b | SameSymbolInOrder(r.candidates, a, b)
      ensures exists k :: 0 <= k < |report.pairs| && report.pairs[k].first == a.id && report.pairs[k].second == b.id
    {
      var p := PairBetween(l, a, b);
      PairNames(l, a, b);
      assert SameSymbolInOrder(l.candidates, a, b);
      assert IsPair(l, p);
      var k :| 0 <= k < |report.pairs| && report.pairs[k] == p;
    }
    forall k, m | 0 <= k < m < |report.pairs|
      ensures report.pairs[k].first != report.pairs[m].first || report.pairs[k].second != report.pairs[m].second
    {
      var p, q := report.pairs[k], report.pairs[m];
      OneSymbolPerCandidate(r, p, q);
      BeforeIsStrict(PairColumns(p), PairColumns(q), PairColumns(q));
    }
  }

  lemma OneSymbolPerCandidate(r: Request, p: PairFinding, q: PairFinding)
    requires ValidRequest(r) && NamedPair(r.candidates, p) && NamedPair(r.candidates, q)
    ensures p.first == q.first ==> p.symbol == q.symbol
  {
  }

  // ----- The procedure ----------------------------------------------------

  /** The pairs met before position (`i`, `j`) of the nested loops. */
  ghost predicate PairsSoFar(l: Request, i: nat, j: nat, pairs: seq<PairFinding>)
    requires UsableAtrs(l.atrs)
  {
    && (forall p :: p in pairs <==> MetPair(l, i, j, p))
    && Unlike(pairs, PairColumns)
  }

  predicate Met(candidates: seq<Candidate>, i: nat, j: nat, a: nat, b: nat) {
    a < b < |candidates| && candidates[a].symbol == candidates[b].symbol && (a < i || (a == i && b < j))
  }

  ghost predicate MetPair(l: Request, i: nat, j: nat, p: PairFinding)
    requires UsableAtrs(l.atrs)
  {
    exists a: nat, b: nat :: Met(l.candidates, i, j, a, b) && p == PairBetween(l, l.candidates[a], l.candidates[b])
  }

  /** One candidate against each later one of its symbol. */
  method AddPairs(l: Request, i: nat, before: seq<PairFinding>) returns (pairs: seq<PairFinding>)
    requires UsableAtrs(l.atrs) && Apart(l.candidates) && i < |l.candidates|
    requires PairsSoFar(l, i, i + 1, before)
    ensures PairsSoFar(l, i, |l.candidates|, pairs)
  {
    hide PairsSoFar, PairBetween;
    pairs := before;
    for j := i + 1 to |l.candidates|
      invariant PairsSoFar(l, i, j, pairs)
    {
      PairAdded(l, i, j, pairs);
      if l.candidates[i].symbol == l.candidates[j].symbol {
        pairs := pairs + [PairBetween(l, l.candidates[i], l.candidates[j])];
      }
    }
  }

  lemma PairAdded(l: Request, i: nat, j: nat, pairs: seq<PairFinding>)
    requires UsableAtrs(l.atrs) && Apart(l.candidates) && i < j < |l.candidates|
    requires PairsSoFar(l, i, j, pairs)
    ensures var a, b := l.candidates[i], l.candidates[j];
      PairsSoFar(l, i, j + 1, if a.symbol == b.symbol then pairs + [PairBetween(l, a, b)] else pairs)
  {
    hide PairBetween;
    var candidates := l.candidates;
    var next := PairBetween(l, candidates[i], candidates[j]);
    PairNames(l, candidates[i], candidates[j]);
    forall a: nat, b: nat
      ensures Met(candidates, i, j + 1, a, b) <==>
        Met(candidates, i, j, a, b) || (a == i && b == j && candidates[i].symbol == candidates[j].symbol)
    {
    }
    forall p | p in pairs ensures PairColumns(p) != PairColumns(next) {
      var a: nat, b: nat :| Met(candidates, i, j, a, b) && p == PairBetween(l, candidates[a], candidates[b]);
      PairNames(l, candidates[a], candidates[b]);
      assert PairColumns(p)[1] == Some(candidates[a].id) && PairColumns(p)[2] == Some(candidates[b].id);
      assert PairColumns(next)[1] == Some(candidates[i].id) && PairColumns(next)[2] == Some(candidates[j].id);
    }
    hide PairColumns;
    if candidates[i].symbol == candidates[j].symbol {
      assert Met(candidates, i, j + 1, i, j);
      forall p ensures p in pairs + [next] <==> MetPair(l, i, j + 1, p) {}
    }
  }

  lemma PairNames(l: Request, a: Candidate, b: Candidate)
    requires UsableAtrs(l.atrs)
    ensures var p := PairBetween(l, a, b); p.symbol == a.symbol && p.first == a.id && p.second == b.id
  {
  }

  /** Every two candidates of one symbol, in the order the loops meet them. */
  method CollectPairs(l: Request) returns (pairs: seq<PairFinding>)
    requires UsableAtrs(l.atrs) && Apart(l.candidates)
    ensures PairsSoFar(l, |l.candidates|, |l.candidates| + 1, pairs)
  {
    hide PairsSoFar, PairBetween, Apart, UsableAtrs;
    pairs := [];
    NoPairsYet(l);
    for i := 0 to |l.candidates|
      invariant PairsSoFar(l, i, i + 1, pairs)
    {
      pairs := AddPairs(l, i, pairs);
      NextRow(l, i, pairs);
    }
  }

  method ReportCrossStrategyInteraction(r: Request) returns (report: Report)
    requires ValidRequest(r)
    ensures IsReport(r, report)
  {
    hide Listed, PairsSoFar, Findings, UsableAtrs, ValidRequest, IsPair, Rising;
    var l := Listed(r);
    var pairs := CollectPairs(l);
    AllPairs(l, pairs);
    report := Report(
      r.evaluatedAt, l.candidates, l.atrs, Findings(l.candidates, l.transitions),
      Ordered(pairs, PairColumns, 3), r.policy);
  }

  lemma NoPairsYet(l: Request)
    requires UsableAtrs(l.atrs)
    ensures PairsSoFar(l, 0, 1, [])
  {
  }

  lemma NextRow(l: Request, i: nat, pairs: seq<PairFinding>)
    requires UsableAtrs(l.atrs) && i < |l.candidates|
    requires PairsSoFar(l, i, |l.candidates|, pairs)
    ensures PairsSoFar(l, i + 1, i + 2, pairs)
  {
    hide PairBetween, Unlike;
    forall a: nat, b: nat
      ensures Met(l.candidates, i + 1, i + 2, a, b) <==> Met(l.candidates, i, |l.candidates|, a, b)
    {
    }
  }

  lemma EveryPairMet(l: Request, p: PairFinding)
    requires UsableAtrs(l.atrs) && Apart(l.candidates)
    ensures MetPair(l, |l.candidates|, |l.candidates| + 1, p) <==> IsPair(l, p)
  {
    hide PairBetween;
    var candidates, n := l.candidates, |l.candidates|;
    if IsPair(l, p) {
      var a, b :| SameSymbolInOrder(candidates, a, b) && p == PairBetween(l, a, b);
      var i: nat :| i < n && candidates[i] == a;
      var j: nat :| j < n && candidates[j] == b;
      assert Met(candidates, n, n + 1, i, j);
    }
    if MetPair(l, n, n + 1, p) {
      var a: nat, b: nat :| Met(candidates, n, n + 1, a, b) && p == PairBetween(l, candidates[a], candidates[b]);
      assert SameSymbolInOrder(candidates, candidates[a], candidates[b]);
    }
  }

  lemma AllPairs(l: Request, pairs: seq<PairFinding>)
    requires UsableAtrs(l.atrs) && Apart(l.candidates)
    requires PairsSoFar(l, |l.candidates|, |l.candidates| + 1, pairs)
    ensures var sorted := Ordered(pairs, PairColumns, 3);
      Rising(sorted, PairColumns, 3) && forall p :: p in sorted <==> IsPair(l, p)
  {
    hide MetPair, IsPair, Ordered, Rising, Unlike;
    OrderedRises(pairs, PairColumns, 3);
    SameElements(Ordered(pairs, PairColumns, 3), pairs);
    forall p ensures p in pairs <==> IsPair(l, p) {
      EveryPairMet(l, p);
    }
  }
}
