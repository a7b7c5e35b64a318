/** What owners do with the steps they are supplied, over every run: which facts of a step move an
owner where, and that nothing it ever returns is without them.

`PullbackAlert` says what each state of one evaluation means. Here those facts are tied to the step
supplied for an instant, field by field, and to the transitions a whole run returns.
*/
module PullbackLaws {
  import opened Wrappers
  import opened PullbackGates
  import opened PullbackAlert
  import opened PullbackMachine
  import opened PullbackReplay
  import opened PullbackRuns
  import opened PullbackSimulation

  // ----- What a step asks -------------------------------------------------

  /** A step is supplied for this instant, not before the impulse froze, with an ATR above zero and an
      ordinal from one, if any. */
  predicate Accepted(cfg: Config, at: int) {
    && at in cfg.steps && cfg.frozenAt <= at
    && (cfg.steps[at].atr == None || cfg.steps[at].atr.value > 0.0)
    && (cfg.steps[at].ordinal == None || cfg.steps[at].ordinal.value >= 1)
  }

  /** The evaluation of this owner's subject that carries each supplied fact of the step. */
  predicate Asks(cfg: Config, at: int, r: Request)
    requires at in cfg.steps
  {
    var step := cfg.steps[at];
    && r.measurement == step.measurement && r.atr == step.atr && r.ordinal == step.ordinal
    && r.vwap == step.vwap && r.strength == step.strength && r.lastTrade == step.lastTrade
    && r.quote == step.quote && r.structural == step.structural && r.confidence == step.confidence
    && r.measurementDirection == cfg.measurementDirection && r.policy == cfg.policy && r.evaluatedAt == at
    && r.symbol == cfg.symbol && r.strategyVersion == cfg.strategyVersion
    && r.impulseStartedAt == cfg.startedAt && r.impulseFrozenAt == cfg.frozenAt
  }

  /** A step is accepted exactly so, and then asks for just its own evaluation. */
  lemma RequestAsks(cfg: Config, at: int)
    requires cfg.Valid()
    ensures RequestAt(cfg, at).Ok? <==> Accepted(cfg, at)
    ensures RequestAt(cfg, at).Err? ==>
      RequestAt(cfg, at).error == if at in cfg.steps then RequestRefused else NoSuppliedStep
    ensures Accepted(cfg, at) ==> forall r :: Asks(cfg, at, r) <==> r == RequestAt(cfg, at).value
  {
  }

  /** The anchored reading an owner takes at an instant: the one filed there, if it is anchored. */
  lemma SupportIs(cfg: Config, at: int)
    ensures cfg.SupportAt(at).Some? <==> cfg.variant.anchored && at in cfg.supports
    ensures cfg.SupportAt(at).Some? ==> cfg.SupportAt(at).value == cfg.supports[at]
  {
  }

  // ----- Where a step moves an owner --------------------------------------

  /** Where an owner that stands at `from` stands after an evaluation with these facts. */
  function Next(from: StrategyState, closing: bool, actionable: bool, measured: bool): StrategyState {
    if from == INVALIDATED || from == EXPIRED then from
    else if closing then INVALIDATED
    else if actionable then TRIGGERED
    else if from == TRIGGERED then TRIGGERED
    else if measured then ARMED
    else if from == FORMING then FORMING
    else INVALIDATED
  }

  /** An accepted step whose reading fits moves an owner by its own facts alone, and brings a trigger
      exactly when it is actionable to an owner still forming or armed. */
  lemma StepMoves(cfg: Config, o: OwnerState, at: int, r: Request)
    requires cfg.Valid() && Steady(cfg, o) && Settles(o.time, UpdateAt(true, at))
    requires Accepted(cfg, at) && !MisfitAt(cfg, at) && Asks(cfg, at, r)
    ensures r.Valid()
    ensures var after := Called(cfg, o, UpdateAt(true, at)).0;
      var support := cfg.SupportAt(at);
      && Standing(after) ==
         Next(Standing(o), Closing(cfg.variant, r, support), Actionable(cfg.variant, r, support), Measured(r))
      && (Fires(after.pending) <==> Standing(o) in {FORMING, ARMED} && Actionable(cfg.variant, r, support))
  {
    hide RequestAt, Steady, Called, Closing, Actionable, Measured, MisfitAt, Asks, Standing, Fires, Assess, Accepted;
    RequestAsks(cfg, at);
    CallMoves(cfg, o, UpdateAt(true, at));
    MisfitsAreRefused(cfg, at);
    StandingIsKnown(cfg, o);
    StateMeans(cfg.variant, r, cfg.SupportAt(at));
  }

  lemma StandingIsKnown(cfg: Config, o: OwnerState)
    requires Steady(cfg, o)
    ensures Known(Standing(o))
  {
    LastIsKnown(o.machine.state, o.pending);
  }

  /** A pullback counted beyond the policy's maximum never triggers, and closes an owner that was still
      forming, armed or triggered. */
  lemma LatePullbackCloses(cfg: Config, o: OwnerState, at: int)
    requires cfg.Valid() && Steady(cfg, o) && Settles(o.time, UpdateAt(true, at))
    requires Accepted(cfg, at) && !MisfitAt(cfg, at)
    requires cfg.steps[at].ordinal.Some? && cfg.steps[at].ordinal.value > cfg.policy.maxOrdinal
    ensures var after := Called(cfg, o, UpdateAt(true, at)).0;
      && !Fires(after.pending)
      && (Standing(o) in {FORMING, ARMED, TRIGGERED} ==> Standing(after) == INVALIDATED)
  {
    RequestAsks(cfg, at);
    var r := RequestAt(cfg, at).value;
    assert Asks(cfg, at, r);
    StepMoves(cfg, o, at, r);
    MisfitsAreRefused(cfg, at);
    assert Overextended(r);
    hide RequestAt, Steady, Called, MisfitAt, Asks, Standing, Fires, Assess, Actionable;
    StateMeans(cfg.variant, r, cfg.SupportAt(at));
  }

  // ----- Everything an owner returns --------------------------------------

  /** A returned transition is due: an expiry, or what the facts of the step at its instant call for. */
  ghost predicate Due(cfg: Config, t: Transition) {
    if t.to == EXPIRED then t.reason.Expiry?
    else
      && Accepted(cfg, t.at) && !MisfitAt(cfg, t.at)
      && forall r | Asks(cfg, t.at, r) ::
           var support := cfg.SupportAt(t.at);
           && (t.to == TRIGGERED ==> Actionable(cfg.variant, r, support))
           && (t.to == ARMED ==> Measured(r) && !Closing(cfg.variant, r, support))
           && (t.to == INVALIDATED ==> Closing(cfg.variant, r, support) || (t.from == ARMED && !Measured(r)))
           && RightReason(cfg.variant, r, support, t)
  }

  /** An alert's reason is that every gate passed; the staged step before it says so much of ARMED; any
      other names the first gate that did not pass. */
  ghost predicate RightReason(variant: Variant, r: Request, support: Option<Anchored>, t: Transition) {
    match t.reason
    case PullbackFormedArmed => t.to == ARMED && Actionable(variant, r, support)
    case AllGatesPassed => t.to == TRIGGERED
    case NotPassed(name, status, reason) =>
      && t.to in {ARMED, INVALIDATED} && r.Valid() && Assess(variant, r, support).Ok?
      && var assessment := Assess(variant, r, support).value;
      && FirstNotPassed(assessment, name)
      && status == assessment.gates(name).status && reason == assessment.gates(name).reason
    case Expiry(_) => false
  }

  ghost predicate AllDue(cfg: Config, steps: seq<Transition>) {
    forall i | 0 <= i < |steps| :: Due(cfg, steps[i])
  }

  /** What an assessment leads to, one transition at a time. */
  ghost predicate Led(t: Transition, at: int, assessment: Assessment) {
    && t.at == at && t.to in {ARMED, TRIGGERED, INVALIDATED}
    && (t.to == TRIGGERED ==> assessment.state == TRIGGERED)
    && (t.to == ARMED ==> assessment.state in {ARMED, TRIGGERED})
    && (t.to == INVALIDATED ==> assessment.state == INVALIDATED || (t.from == ARMED && assessment.state == FORMING))
    && if t.reason == PullbackFormedArmed then t.to == ARMED && assessment.state == TRIGGERED
       else t.reason == Explain(assessment) && (t.to == TRIGGERED <==> assessment.state == TRIGGERED)
  }

  lemma ProposedLeads(
      m: MachineState, policy: Policy, request: Request, assessment: Assessment, id: string, staged: Option<string>)
    requires assessment.state in {FORMING, ARMED, TRIGGERED, INVALIDATED} && Known(m.state)
    requires Explain(assessment) != PullbackFormedArmed
    ensures var (_, r) := Proposed(m, policy, request, assessment, id, staged);
      r.Ok? ==> forall i | 0 <= i < |r.value| :: Led(r.value[i], request.evaluatedAt, assessment)
  {
    hide Explain;
  }

  /** The reason of an assessment says that all gates passed exactly when it alerts. */
  lemma ReasonMeans(variant: Variant, request: Request, support: Option<Anchored>)
    requires request.Valid() && Fitting(variant, request, support)
    ensures Assess(variant, request, support).Ok?
    ensures var assessment := Assess(variant, request, support).value;
      match Explain(assessment)
      case AllGatesPassed => assessment.state == TRIGGERED
      case NotPassed(name, status, reason) =>
        && assessment.state != TRIGGERED && FirstNotPassed(assessment, name)
        && status == assessment.gates(name).status && reason == assessment.gates(name).reason
      case _ => false
  {
    AssessedRows(variant, request, support);
    VariantKept(variant, request, support);
    hide Assess, Explain, Decide, Row, Plain, AllPass;
    var assessment := Assess(variant, request, support).value;
    ExplainMeans(assessment);
    AlertIffAllPass(request, assessment.gates, variant);
    if Explain(assessment).NotPassed? { PassingHasNoReason(assessment, Explain(assessment).name); }
  }

  lemma VariantKept(variant: Variant, request: Request, support: Option<Anchored>)
    requires request.Valid() && Assess(variant, request, support).Ok?
    ensures Assess(variant, request, support).value.variant == variant
  {
    hide Row, SupportGate, AnchoredGate, Decide;
  }

  lemma PassingHasNoReason(assessment: Assessment, name: GateName)
    requires FirstNotPassed(assessment, name)
    ensures !AllPass(assessment.gates, assessment.variant)
  {
  }

  lemma UpdateIsDue(cfg: Config, o: OwnerState, at: int)
    requires cfg.Valid() && Steady(cfg, o) && ContextFault(o, true, at).None?
    ensures var r := AfterUpdate(cfg, o, true, at).1;
      r.Ok? ==> AllDue(cfg, r.value)
  {
    ConfirmKeepsSteady(cfg, o);
    RequestAsks(cfg, at);
    hide AfterConfirm, AfterProposal, Assess, Closing, Actionable, Measured, MisfitAt, Accepted, Asks, RequestAt, Due;
    var settled := AfterConfirm(o).0.(time := Some(at), assessed := None, note := Silent);
    if RequestAt(cfg, at).Ok? && settled.machine.state != EXPIRED {
      MisfitsAreRefused(cfg, at);
      var request, support := RequestAt(cfg, at).value, cfg.SupportAt(at);
      if !MisfitAt(cfg, at) {
        ProposalIsDue(cfg, settled, at, request, Assess(cfg.variant, request, support).value);
      }
    }
  }

  /** What a step's own assessment leads to is due. */
  lemma LedIsDue(cfg: Config, at: int, request: Request, assessment: Assessment, t: Transition)
    requires cfg.Valid() && Accepted(cfg, at) && !MisfitAt(cfg, at) && Asks(cfg, at, request) && request.Valid()
    requires Assess(cfg.variant, request, cfg.SupportAt(at)) == Ok(assessment) && Led(t, at, assessment)
    ensures Due(cfg, t)
  {
    RequestAsks(cfg, at);
    MisfitsAreRefused(cfg, at);
    hide Assess, Closing, Actionable, Measured, MisfitAt, Accepted, Asks, RequestAt, Explain, FirstNotPassed;
    StateMeans(cfg.variant, request, cfg.SupportAt(at));
    ReasonMeans(cfg.variant, request, cfg.SupportAt(at));
  }

  lemma ProposalIsDue(cfg: Config, o: OwnerState, at: int, request: Request, assessment: Assessment)
    requires cfg.Valid() && o.pending == [] && Known(o.machine.state)
    requires Accepted(cfg, at) && !MisfitAt(cfg, at) && Asks(cfg, at, request) && request.Valid()
    requires Assess(cfg.variant, request, cfg.SupportAt(at)) == Ok(assessment)
    ensures var r := AfterProposal(cfg, o, request, assessment).1;
      r.Ok? ==> AllDue(cfg, r.value)
  {
    RequestAsks(cfg, at);
    MisfitsAreRefused(cfg, at);
    assert request.evaluatedAt == at;
    hide AfterProposal, Proposed, Assess, MisfitAt, Accepted, Asks, RequestAt, TransitionId, Known, Explain, Led, Due;
    ReasonMeans(cfg.variant, request, cfg.SupportAt(at));
    AssessedIsKnown(cfg.variant, request, cfg.SupportAt(at));
    ProposalPassesOn(cfg, o, request, assessment);
    var id := TransitionId(cfg.prefix, o.count + 1);
    var staged := if NeedsTwo(o, assessment) then Some(TransitionId(cfg.prefix, o.count + 2)) else None;
    ProposedLeads(o.machine, cfg.policy, request, assessment, id, staged);
    var r := AfterProposal(cfg, o, request, assessment).1;
    if r.Ok? {
      forall i | 0 <= i < |r.value| ensures Due(cfg, r.value[i]) {
        LedIsDue(cfg, at, request, assessment, r.value[i]);
      }
    }
  }

  lemma CallIsDue(cfg: Config, o: OwnerState, call: Call)
    requires cfg.Valid() && Steady(cfg, o)
    ensures var r := Called(cfg, o, call).1;
      r.Ok? ==> AllDue(cfg, r.value)
  {
    CallAnswers(cfg, o, call);
    match call
    case UpdateAt(matches, at) =>
      if Settles(o.time, call) { UpdateIsDue(cfg, o, at); }
      hide AfterUpdate, Steady;
    case ExpireOwnerAt(matches, at, cause) =>
      hide AfterConfirm, TransitionId, Steady;
    case RecordPending =>
      hide AfterConfirm, Steady;
  }

  /** Over every run of every candidate: each transition the owner ever returned was due at its instant. */
  lemma {:induction false} EveryTransitionIsDue(cfg: Config, calls: seq<Call>)
    requires cfg.Valid()
    ensures AllDue(cfg, RunCalls(cfg, calls).returned)
    decreases |calls|
  {
    if calls != [] {
      var before := calls[..|calls| - 1];
      EveryTransitionIsDue(cfg, before);
      EveryRunIsOrderly(cfg, before);
      hide Called, Steady, Due, AfterConfirm;
      CallIsDue(cfg, RunCalls(cfg, before).owner, calls[|calls| - 1]);
    }
  }
}
