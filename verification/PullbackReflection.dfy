/** Whole runs seen upside down: an owner whose every supplied input is reflected answers every call
as the owner of the inputs themselves does.

Transitions are the same but for what a reason says of a gate, where one owner names the high of a
reversal bar and the other its low.
*/
module PullbackReflection {
  import opened Wrappers
  import opened PullbackGates
  import opened PullbackMirror
  import opened PullbackMachine
  import opened PullbackReplay
  import opened PullbackRuns

  // ----- Reflected inputs -------------------------------------------------

  function MirrorVwap(vwap: Option<VwapContext>, c: real): Option<VwapContext> {
    match vwap
    case None => None
    case Some(v) => Some(v.(level := Reflect(v.level, c), slope := Negate(v.slope)))
  }

  function MirrorStrength(strength: Option<RelativeStrength>): Option<RelativeStrength> {
    match strength
    case None => None
    case Some(s) => Some(s.(value := Negate(s.value)))
  }

  function MirrorTrade(lastTrade: Option<Observation>, c: real): Option<Observation> {
    match lastTrade
    case None => None
    case Some(seen) => Some(seen.(price := Reflect(seen.price, c)))
  }

  function MirrorGeometryOf(structural: Option<Structural>, c: real): Option<Structural> {
    match structural
    case None => None
    case Some(s) => Some(MirrorStructural(s, c))
  }

  function MirrorConfidence(confidence: Option<Confidence>): Option<Confidence> {
    match confidence
    case None => None
    case Some(s) => Some(s.(direction := s.direction.Opposite()))
  }

  function MirrorStep(step: ReplayStep, c: real): ReplayStep {
    step.(measurement := step.measurement.(features := MirrorFeatures(step.measurement.features, c)),
          vwap := MirrorVwap(step.vwap, c), strength := MirrorStrength(step.strength),
          lastTrade := MirrorTrade(step.lastTrade, c), structural := MirrorGeometryOf(step.structural, c),
          confidence := MirrorConfidence(step.confidence))
  }

  /** The same owner seen upside down, every supplied price reflected about half of `c`. */
  function MirrorConfig(cfg: Config, c: real): Config {
    cfg.(policy := cfg.policy.(direction := cfg.policy.direction.Opposite()),
         measurementDirection := cfg.measurementDirection.Opposite(),
         steps := map at | at in cfg.steps :: MirrorStep(cfg.steps[at], c),
         supports := map at | at in cfg.supports ::
           cfg.supports[at].(direction := cfg.supports[at].direction.Opposite()))
  }

  lemma MirrorConfigIsValid(cfg: Config, c: real)
    requires cfg.Valid()
    ensures MirrorConfig(cfg, c).Valid()
  {
    hide MirrorFeatures, MirrorTargets;
    forall at | at in cfg.steps && cfg.steps[at].structural.Some?
      ensures MirrorStep(cfg.steps[at], c).structural.value.Valid()
    {
    }
  }

  /** The reflected owner asks the reflected question, of the reflected reading. */
  lemma MirrorAsks(cfg: Config, c: real, at: int)
    requires cfg.Valid() && MirrorConfig(cfg, c).Valid()
    ensures var there, here := RequestAt(MirrorConfig(cfg, c), at), RequestAt(cfg, at);
      if here.Ok? then there == Ok(Mirror(here.value, c)) else there == here
    ensures MirrorConfig(cfg, c).SupportAt(at) == MirrorAnchored(cfg.SupportAt(at))
  {
    hide MirrorFeatures, MirrorStructural;
  }

  // ----- Answers alike ----------------------------------------------------

  predicate AlikeWhy(a: Why, b: Why) {
    a == b || (a.NotPassed? && b.NotPassed? && a.name == b.name && a.status == b.status)
  }

  predicate AlikeStep(a: Transition, b: Transition) {
    b == a.(reason := b.reason) && AlikeWhy(a.reason, b.reason)
  }

  predicate Alike(a: seq<Transition>, b: seq<Transition>) {
    |a| == |b| && forall i | 0 <= i < |a| :: AlikeStep(a[i], b[i])
  }

  lemma NothingAlike()
    ensures Alike([], [])
  {
  }

  predicate AlikeMachines(a: MachineState, b: MachineState) {
    b == a.(pending := b.pending) && Alike(a.pending, b.pending)
  }

  predicate AlikeOwners(a: OwnerState, b: OwnerState) {
    && b == a.(machine := b.machine, pending := b.pending)
    && AlikeMachines(a.machine, b.machine) && Alike(a.pending, b.pending)
  }

  predicate AlikeAnswers<E(==)>(a: Result<seq<Transition>, E>, b: Result<seq<Transition>, E>) {
    if a.Ok? then b.Ok? && Alike(a.value, b.value) else b == a
  }

  /** Two assessments that agree in state, in candidate and in every verdict. */
  ghost predicate AlikeAssessments(a: Assessment, b: Assessment) {
    && b.state == a.state && b.variant == a.variant
    && forall name: GateName :: SameVerdict(b.gates(name), a.gates(name))
  }

  lemma {:induction false} FirstReasonsAgree(a: Assessment, b: Assessment, from: nat)
    requires AlikeAssessments(a, b) && from <= |ROWS|
    ensures b.FirstReason(from) == a.FirstReason(from)
    decreases |ROWS| - from
  {
    if from < |ROWS| {
      FirstReasonsAgree(a, b, from + 1);
      assert SameVerdict(b.gates(ROWS[from]), a.gates(ROWS[from]));
    }
  }

  lemma ExplainAlike(a: Assessment, b: Assessment)
    requires AlikeAssessments(a, b)
    ensures AlikeWhy(Explain(a), Explain(b))
  {
    FirstReasonsAgree(a, b, 0);
    hide Assessment.FirstReason;
  }

  lemma ChangesAlike(
      m: MachineState, n: MachineState, assessed: StrategyState, at: int, why: Why, other: Why, id: string,
      staged: Option<string>)
    requires n.state == m.state && AlikeWhy(why, other)
    ensures var r, s := Changes(m, assessed, at, why, id, staged), Changes(n, assessed, at, other, id, staged);
      && AlikeAnswers(r, s)
      && (r.Ok? ==> r.value != [] && s.value != [] && s.value[|s.value| - 1].to == r.value[|r.value| - 1].to)
  {
  }

  lemma ProposedAlike(
      m: MachineState, n: MachineState, policy: Policy, r: Request, s: Request, a: Assessment, b: Assessment,
      id: string, staged: Option<string>)
    requires AlikeMachines(m, n) && AlikeAssessments(a, b)
    requires r.policy == policy && s.Window() == r.Window() && s.evaluatedAt == r.evaluatedAt
    ensures var (after, answer) := Proposed(m, policy, r, a, id, staged);
      var (later, reply) := Proposed(n, s.policy, s, b, id, staged);
      AlikeMachines(after, later) && AlikeAnswers(answer, reply)
  {
    assert b.state == a.state;
    hide Explain, AlikeAssessments, Changes, Alike, AlikeWhy, EffectOf;
    ExplainAlike(a, b);
    ChangesAlike(m, n, a.state, r.evaluatedAt, Explain(a), Explain(b), id, staged);
    NothingAlike();
  }

  /** What an owner keeps of its machine's answer to a proposal. */
  function Finished(
      o: OwnerState, two: bool, state: StrategyState, machine: MachineState,
      r: Result<seq<Transition>, MachineError>): (OwnerState, Result<seq<Transition>, OwnerError>)
  {
    var counted := o.(count := o.count + if two then 2 else 1, machine := machine);
    match r
    case Err(error) => (counted, Err(FromMachine(error)))
    case Ok(changes) =>
      var seen := counted.(assessed := Some(state));
      if changes != [] then (seen.(pending := changes), Ok(changes)) else (seen.(note := NoStateChange(state)), Ok([]))
  }

  lemma AfterProposalFinishes(cfg: Config, o: OwnerState, r: Request, a: Assessment)
    ensures var id := TransitionId(cfg.prefix, o.count + 1);
      var staged := if NeedsTwo(o, a) then Some(TransitionId(cfg.prefix, o.count + 2)) else None;
      var (machine, answer) := Proposed(o.machine, cfg.policy, r, a, id, staged);
      AfterProposal(cfg, o, r, a) == Finished(o, NeedsTwo(o, a), a.state, machine, answer)
  {
    hide Proposed, TransitionId;
  }

  lemma FinishedAlike(
      o: OwnerState, p: OwnerState, two: bool, state: StrategyState, m: MachineState, n: MachineState,
      r: Result<seq<Transition>, MachineError>, s: Result<seq<Transition>, MachineError>)
    requires AlikeOwners(o, p) && AlikeMachines(m, n) && AlikeAnswers(r, s)
    ensures var (after, answer) := Finished(o, two, state, m, r);
      var (later, reply) := Finished(p, two, state, n, s);
      AlikeOwners(after, later) && AlikeAnswers(answer, reply)
  {
    if r.Ok? { EmptyAlike(r.value, s.value); }
    NothingAlike();
    hide Alike, AlikeMachines;
  }

  lemma MirrorConfigKeeps(cfg: Config, c: real)
    ensures var other := MirrorConfig(cfg, c);
      && other.prefix == cfg.prefix && other.variant == cfg.variant
      && other.policy == cfg.policy.(direction := cfg.policy.direction.Opposite())
      && forall at :: at in other.steps <==> at in cfg.steps
  {
  }

  lemma OwnersAgree(o: OwnerState, p: OwnerState)
    requires AlikeOwners(o, p)
    ensures p.count == o.count && p.time == o.time && p.machine.state == o.machine.state
    ensures AlikeMachines(o.machine, p.machine) && Alike(o.pending, p.pending)
  {
  }

  lemma NeedsAlike(o: OwnerState, p: OwnerState, a: Assessment, b: Assessment)
    requires AlikeOwners(o, p) && AlikeAssessments(a, b)
    ensures b.state == a.state && (NeedsTwo(p, b) <==> NeedsTwo(o, a))
  {
  }

  lemma AfterProposalAlike(
      cfg: Config, c: real, o: OwnerState, p: OwnerState, r: Request, s: Request, a: Assessment, b: Assessment)
    requires AlikeOwners(o, p) && AlikeAssessments(a, b)
    requires r.policy == cfg.policy && s.policy == MirrorConfig(cfg, c).policy
    requires s.Window() == r.Window() && s.evaluatedAt == r.evaluatedAt
    ensures var (after, answer) := AfterProposal(cfg, o, r, a);
      var (later, reply) := AfterProposal(MirrorConfig(cfg, c), p, s, b);
      AlikeOwners(after, later) && AlikeAnswers(answer, reply)
  {
    hide *;
    MirrorConfigKeeps(cfg, c);
    OwnersAgree(o, p);
    NeedsAlike(o, p, a, b);
    var id := TransitionId(cfg.prefix, o.count + 1);
    var staged := if NeedsTwo(o, a) then Some(TransitionId(cfg.prefix, o.count + 2)) else None;
    AfterProposalFinishes(cfg, o, r, a);
    AfterProposalFinishes(MirrorConfig(cfg, c), p, s, b);
    ProposedAlike(o.machine, p.machine, cfg.policy, r, s, a, b, id, staged);
    var (machine, answer) := Proposed(o.machine, cfg.policy, r, a, id, staged);
    var (other, reply) := Proposed(p.machine, s.policy, s, b, id, staged);
    FinishedAlike(o, p, NeedsTwo(o, a), a.state, machine, other, answer, reply);
  }

  lemma EmptyAlike(a: seq<Transition>, b: seq<Transition>)
    requires Alike(a, b)
    ensures a == [] <==> b == []
  {
  }

  lemma ConfirmAlike(cfg: Config, other: Config, o: OwnerState, p: OwnerState)
    requires AlikeOwners(o, p) && Steady(cfg, o) && Steady(other, p)
    ensures var (after, answer) := AfterConfirm(o);
      var (later, reply) := AfterConfirm(p);
      AlikeOwners(after, later) && reply == answer && answer.Ok?
  {
    ConfirmKeepsSteady(cfg, o);
    ConfirmKeepsSteady(other, p);
    hide Chain;
    if o.pending != [] {
      assert AlikeStep(o.pending[|o.pending| - 1], p.pending[|p.pending| - 1]);
    }
  }

  /** What a candidate makes of an evaluation, it makes of the reflected one. */
  lemma AssessedAlike(variant: Variant, r: Request, support: Option<Anchored>, c: real)
    requires r.Valid()
    ensures Mirror(r, c).Valid()
    ensures var there, here := Assess(variant, Mirror(r, c), MirrorAnchored(support)), Assess(variant, r, support);
      && (there.Err? <==> here.Err?)
      && (here.Ok? ==> AlikeAssessments(here.value, there.value))
  {
    MirrorSymmetry(variant, r, support, c);
    hide Mirror, MirrorAnchored, Row, SupportGate, AnchoredGate, Decide, Matches, SameVerdict;
  }

  lemma MirrorFrames(r: Request, c: real)
    ensures var m := Mirror(r, c);
      && m.Window() == r.Window() && m.evaluatedAt == r.evaluatedAt
      && m.policy == r.policy.(direction := r.policy.direction.Opposite())
  {
  }

  lemma UpdateAlike(cfg: Config, c: real, o: OwnerState, p: OwnerState, matches: bool, at: int)
    requires cfg.Valid() && MirrorConfig(cfg, c).Valid()
    requires AlikeOwners(o, p) && Steady(cfg, o) && Steady(MirrorConfig(cfg, c), p)
    ensures var (after, answer) := AfterUpdate(cfg, o, matches, at);
      var (later, reply) := AfterUpdate(MirrorConfig(cfg, c), p, matches, at);
      AlikeOwners(after, later) && AlikeAnswers(answer, reply)
  {
    var other := MirrorConfig(cfg, c);
    hide AfterConfirm, AfterProposal, Assess, RequestAt, MirrorConfig, MirrorAnchored, Mirror, AlikeMachines, Steady;
    hide Alike, Config.Valid, Config.SupportAt, AlikeAssessments;
    MirrorConfigKeeps(cfg, c);
    OwnersAgree(o, p);
    ConfirmAlike(cfg, other, o, p);
    OwnersAgree(AfterConfirm(o).0, AfterConfirm(p).0);
    MirrorAsks(cfg, c, at);
    if ContextFault(o, matches, at).None? && at in cfg.steps && RequestAt(cfg, at).Ok? {
      var r := RequestAt(cfg, at).value;
      AssessedAlike(cfg.variant, r, cfg.SupportAt(at), c);
      MirrorFrames(r, c);
      if Assess(cfg.variant, r, cfg.SupportAt(at)).Ok? {
        var settled := AfterConfirm(o).0.(time := Some(at), assessed := None, note := Silent);
        var there := AfterConfirm(p).0.(time := Some(at), assessed := None, note := Silent);
        AfterProposalAlike(
          cfg, c, settled, there, r, Mirror(r, c), Assess(cfg.variant, r, cfg.SupportAt(at)).value,
          Assess(cfg.variant, Mirror(r, c), MirrorAnchored(cfg.SupportAt(at))).value);
      }
    }
    NothingAlike();
  }

  lemma ExpiryAlike(cfg: Config, c: real, o: OwnerState, p: OwnerState, matches: bool, at: int, cause: string)
    requires AlikeOwners(o, p) && Steady(cfg, o) && Steady(MirrorConfig(cfg, c), p)
    ensures var (after, answer) := AfterExpiry(cfg, o, matches, at, cause);
      var (later, reply) := AfterExpiry(MirrorConfig(cfg, c), p, matches, at, cause);
      AlikeOwners(after, later) && AlikeAnswers(answer, reply)
  {
    hide AfterConfirm, TransitionId, MirrorConfig, Steady, AlikeMachines, Alike, ExpiryProposed;
    MirrorConfigKeeps(cfg, c);
    OwnersAgree(o, p);
    ConfirmAlike(cfg, MirrorConfig(cfg, c), o, p);
    var settled, there := AfterConfirm(o).0, AfterConfirm(p).0;
    ExpiryProposedAlike(settled.machine, there.machine, at, cause, TransitionId(cfg.prefix, settled.count + 1));
  }

  lemma ExpiryProposedAlike(m: MachineState, n: MachineState, at: int, cause: string, id: string)
    requires AlikeMachines(m, n)
    ensures var (after, answer) := ExpiryProposed(m, at, cause, id);
      var (later, reply) := ExpiryProposed(n, at, cause, id);
      AlikeMachines(after, later) && AlikeAnswers(answer, reply)
  {
  }

  lemma CalledAlike(cfg: Config, c: real, o: OwnerState, p: OwnerState, call: Call)
    requires cfg.Valid() && MirrorConfig(cfg, c).Valid()
    requires AlikeOwners(o, p) && Steady(cfg, o) && Steady(MirrorConfig(cfg, c), p)
    ensures var (after, answer) := Called(cfg, o, call);
      var (later, reply) := Called(MirrorConfig(cfg, c), p, call);
      AlikeOwners(after, later) && AlikeAnswers(answer, reply)
  {
    match call
    case UpdateAt(matches, at) =>
      UpdateAlike(cfg, c, o, p, matches, at);
      hide AfterUpdate, MirrorConfig, AlikeOwners, Alike, Steady;
    case ExpireOwnerAt(matches, at, cause) =>
      ExpiryAlike(cfg, c, o, p, matches, at, cause);
      hide AfterExpiry, MirrorConfig, AlikeOwners, Alike, Steady;
    case RecordPending =>
      ConfirmAlike(cfg, MirrorConfig(cfg, c), o, p);
      NothingAlike();
      hide AfterConfirm, MirrorConfig, AlikeOwners, Alike, Steady;
  }

  // ----- Every run --------------------------------------------------------

  predicate AlikeRuns(a: OwnerRun, b: OwnerRun) {
    && AlikeOwners(a.owner, b.owner) && Alike(a.recorded, b.recorded) && Alike(a.returned, b.returned)
    && b.errors == a.errors
  }

  lemma AlikeJoin(a: seq<Transition>, b: seq<Transition>, c: seq<Transition>, d: seq<Transition>)
    requires Alike(a, b) && Alike(c, d)
    ensures Alike(a + c, b + d)
  {
    hide AlikeStep;
  }

  lemma TakenAlike(cfg: Config, c: real, a: OwnerRun, b: OwnerRun, call: Call)
    requires cfg.Valid() && MirrorConfig(cfg, c).Valid()
    requires AlikeRuns(a, b) && Steady(cfg, a.owner) && Steady(MirrorConfig(cfg, c), b.owner)
    ensures AlikeRuns(Taken(cfg, a, call), Taken(MirrorConfig(cfg, c), b, call))
  {
    var other := MirrorConfig(cfg, c);
    ConfirmAlike(cfg, other, a.owner, b.owner);
    CalledAlike(cfg, c, a.owner, b.owner, call);
    NothingAlike();
    hide AfterConfirm, AfterUpdate, AfterExpiry, MirrorConfig, Steady, Alike, AlikeMachines, Called;
    var (after, answer) := Called(cfg, a.owner, call);
    var (later, reply) := Called(other, b.owner, call);
    assert later.machine.state == after.machine.state by { OwnersAgree(after, later); }
    var pending := if Settles(a.owner.time, call) then a.owner.pending else [];
    var there := if Settles(b.owner.time, call) then b.owner.pending else [];
    AlikeJoin(a.recorded, b.recorded, pending, there);
    AlikeJoin(a.returned, b.returned, if answer.Ok? then answer.value else [], if reply.Ok? then reply.value else []);
  }

  /** Over every run: the reflected owner of any candidate returns and records the same transitions,
      with the same identifiers, instants, states and first failing gates, and meets the same errors. */
  lemma {:induction false} ReflectedRunsAgree(cfg: Config, c: real, calls: seq<Call>)
    requires cfg.Valid()
    ensures MirrorConfig(cfg, c).Valid()
    ensures AlikeRuns(RunCalls(cfg, calls), RunCalls(MirrorConfig(cfg, c), calls))
    decreases |calls|
  {
    MirrorConfigIsValid(cfg, c);
    if calls != [] {
      var before := calls[..|calls| - 1];
      ReflectedRunsAgree(cfg, c, before);
      EveryRunIsOrderly(cfg, before);
      EveryRunIsOrderly(MirrorConfig(cfg, c), before);
      hide Taken, MirrorConfig, Steady, AlikeRuns;
      TakenAlike(
        cfg, c, RunCalls(cfg, before), RunCalls(MirrorConfig(cfg, c), before), calls[|calls| - 1]);
    }
  }
}
