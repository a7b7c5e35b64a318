/** The strict owner against the owners of the three research candidates, fed the same calls.

Relaxing a veto or adding a second support reading can only make a trigger earlier, with two
exceptions that the code has, both through a reading the strict owner never sees. A missing
anchored reading whose reason ends a pullback closes an anchored owner; and one supplied for
another symbol, direction, impulse or instant makes that owner's evaluation an error, so that it
misses what the strict owner takes in at that instant.
*/
module PullbackSimulation {
  import opened Wrappers
  import opened PullbackGates
  import opened PullbackMachine
  import opened PullbackReplay
  import opened PullbackRuns
  import opened PullbackSample
  import PullbackAlert

  function Strictly(cfg: Config): Config { cfg.(variant := STRICT) }

  /** The anchored reading filed under this instant is for this owner's symbol, direction and
      impulse and for that instant. */
  predicate FitsAt(cfg: Config, at: int)
    requires at in cfg.supports
  {
    && cfg.supports[at].symbol == cfg.symbol && cfg.supports[at].direction == cfg.policy.direction
    && cfg.supports[at].anchorAt == cfg.startedAt && cfg.supports[at].evaluatedAt == at
  }

  /** An anchored owner refuses to evaluate at this instant. */
  predicate MisfitAt(cfg: Config, at: int) {
    cfg.variant.anchored && at in cfg.supports && !FitsAt(cfg, at)
  }

  // ----- One evaluation ---------------------------------------------------

  /** Session support does not pass and the anchored reading is missing for a reason that ends a
      pullback. */
  predicate SupportCloses(variant: Variant, request: Request, support: Option<Anchored>) {
    && variant.anchored && support.Some? && support.value.distance.None? && support.value.missing.Invalidates()
    && SupportGate(request).status != Pass
  }

  predicate Fitting(variant: Variant, request: Request, support: Option<Anchored>) {
    variant.anchored && support.Some? ==> Matches(support.value, request)
  }

  function Judged(variant: Variant, request: Request, support: Option<Anchored>): StrategyState
    requires request.Valid() && Fitting(variant, request, support)
  {
    Assess(variant, request, support).value.state
  }

  /** A gate outside support reads the same for every candidate; the candidates' support passes
      whenever the session's does. */
  lemma SupportOnlyHelps(variant: Variant, request: Request, support: Option<Anchored>, name: GateName)
    requires request.Valid() && Fitting(variant, request, support)
    ensures var strict := Assess(STRICT, request, None).value.gates(name);
      var candidate := Assess(variant, request, support).value.gates(name);
      && (name != SupportRow ==> candidate == strict)
      && (strict.status == Pass ==> candidate == strict)
      && (name == SupportRow && candidate.Invalidates() && !strict.Invalidates() ==>
          SupportCloses(variant, request, support))
      && (name == SupportRow && SupportCloses(variant, request, support) ==> candidate.Invalidates())
  {
    hide MeasurementGate, ImpulseGate, ImpulseVwapGate, VwapSideGate, VwapSlopeGate, VwapCrossGate, StrengthGate;
    hide RetracementGate, VolumeGate, TriggerGate, SpreadGate, SequenceGate, RiskGate, ConfidenceGate, Decide;
    assert SupportGate(request).status == Pass ==> SupportGate(request).reason.None?;
    hide SupportGate;
  }

  /** The states two readings of the same rows decide on, when only support may differ. */
  lemma DecisionsCompared(strict: GateName -> Gate, candidate: GateName -> Gate, variant: Variant, closes: bool)
    requires forall name: GateName | name != SupportRow :: candidate(name) == strict(name)
    requires strict(SupportRow).status == Pass ==> candidate(SupportRow) == strict(SupportRow)
    requires candidate(SupportRow).Invalidates() && !strict(SupportRow).Invalidates() ==> closes
    requires closes ==> candidate(SupportRow).Invalidates()
    ensures var s, c := Decide(strict, STRICT), Decide(candidate, variant);
      && (s == TRIGGERED ==> c == TRIGGERED)
      && (c == INVALIDATED ==> s == INVALIDATED || closes)
      && (closes ==> c == INVALIDATED)
      && (s in {FORMING, ARMED} && c in {FORMING, ARMED} ==> s == c)
  {
    if SomeInvalidates(candidate, variant) {
      var name: GateName :| variant.Gating(name) && candidate(name).Invalidates();
      assert STRICT.Gating(name);
      assert strict(name).Invalidates() || closes;
    }
    assert variant.Gating(SupportRow) && STRICT.Gating(SupportRow);
    if AllPass(strict, STRICT) {
      forall name: GateName | variant.Gating(name) ensures candidate(name).status == Pass {
        assert STRICT.Gating(name);
      }
    }
  }

  lemma CandidateAgainstStrict(variant: Variant, request: Request, support: Option<Anchored>)
    requires request.Valid() && Fitting(variant, request, support)
    ensures var strict := Judged(STRICT, request, None);
      var candidate := Judged(variant, request, support);
      && (strict == TRIGGERED ==> candidate == TRIGGERED)
      && (candidate == INVALIDATED ==> strict == INVALIDATED || SupportCloses(variant, request, support))
      && (SupportCloses(variant, request, support) ==> candidate == INVALIDATED)
      && (strict in {FORMING, ARMED} && candidate in {FORMING, ARMED} ==> strict == candidate)
  {
    hide Decide, Row, SupportCloses, SupportGate, AnchoredGate, CombinedSupport;
    var strict := Assess(STRICT, request, None).value;
    var candidate := Assess(variant, request, support).value;
    forall name: GateName
      ensures name != SupportRow ==> candidate.gates(name) == strict.gates(name)
      ensures strict.gates(name).status == Pass ==> candidate.gates(name) == strict.gates(name)
    {
      SupportOnlyHelps(variant, request, support, name);
    }
    SupportOnlyHelps(variant, request, support, SupportRow);
    assert strict.state == Decide(strict.gates, STRICT) && candidate.state == Decide(candidate.gates, variant);
    DecisionsCompared(strict.gates, candidate.gates, variant, SupportCloses(variant, request, support));
  }

  // ----- One call ---------------------------------------------------------

  /** What a call brings to an owner, read off the supplied inputs. */
  datatype Input = Refused | Idle | Assessed(state: StrategyState) | Ended

  function InputOf(cfg: Config, time: Option<int>, call: Call): Input
    requires cfg.Valid()
  {
    if !Settles(time, call) then Refused
    else
      match call
      case RecordPending => Idle
      case ExpireOwnerAt(_, _, _) => Ended
      case UpdateAt(_, at) =>
        if RequestAt(cfg, at).Err? || MisfitAt(cfg, at) then Idle
        else Assessed(Judged(cfg.variant, RequestAt(cfg, at).value, cfg.SupportAt(at)))
  }

  /** Where an owner stands once its pending transitions are recorded. */
  function Standing(o: OwnerState): StrategyState { Last(o.machine.state, o.pending) }

  function Moved(from: StrategyState, input: Input): StrategyState {
    match input
    case Refused => from
    case Idle => from
    case Ended => EXPIRED
    case Assessed(state) =>
      if from in {EXPIRED, INVALIDATED} then from
      else if from == TRIGGERED && state in {FORMING, ARMED} then from
      else if from == ARMED && state == FORMING then INVALIDATED
      else state
  }

  predicate Fires(steps: seq<Transition>) {
    exists i :: 0 <= i < |steps| && steps[i].to == TRIGGERED
  }

  predicate Triggers(from: StrategyState, input: Input) {
    from in {FORMING, ARMED} && input == Assessed(TRIGGERED)
  }

  function ClockAfter(time: Option<int>, call: Call): Option<int> {
    if !Settles(time, call) then time
    else
      match call
      case RecordPending => time
      case ExpireOwnerAt(_, at, _) => Some(at)
      case UpdateAt(_, at) => Some(at)
  }

  /** A settled machine's next standing state is a function of the assessed state alone. */
  lemma MachineMoves(
      m: MachineState, policy: Policy, request: Request, assessment: Assessment, id: string, second: string)
    requires Known(m.state) && m.pending == [] && m.state != EXPIRED
    requires assessment.state in {FORMING, ARMED, TRIGGERED, INVALIDATED}
    requires request.policy == policy && (m.time.Some? ==> m.time.value <= request.evaluatedAt)
    requires m.window.Some? ==> request.Window() == m.window.value
    ensures var staged := if m.state == FORMING && assessment.state.state.AlertTriggered? then Some(second) else None;
      var (after, r) := Proposed(m, policy, request, assessment, id, staged);
      && after.state == m.state
      && Last(m.state, after.pending) == Moved(m.state, Assessed(assessment.state))
      && (Fires(after.pending) <==> Triggers(m.state, Assessed(assessment.state)))
  {
    hide Explain;
    var staged := if m.state == FORMING && assessment.state.state.AlertTriggered? then Some(second) else None;
    var (after, r) := Proposed(m, policy, request, assessment, id, staged);
    if Triggers(m.state, Assessed(assessment.state)) {
      assert after.pending[|after.pending| - 1].to == TRIGGERED;
    }
  }

  lemma ProposalMoves(cfg: Config, o: OwnerState, request: Request, assessment: Assessment)
    requires Steady(cfg, o) && o.pending == [] && o.time == Some(request.evaluatedAt)
    requires request.policy == cfg.policy && request.Window() == (cfg.startedAt, cfg.frozenAt)
    requires assessment.state in {FORMING, ARMED, TRIGGERED, INVALIDATED} && o.machine.state != EXPIRED
    ensures var (after, r) := AfterProposal(cfg, o, request, assessment);
      && Standing(after) == Moved(o.machine.state, Assessed(assessment.state))
      && (Fires(after.pending) <==> Triggers(o.machine.state, Assessed(assessment.state)))
  {
    var id := TransitionId(cfg.prefix, o.count + 1);
    var second := TransitionId(cfg.prefix, o.count + 2);
    var staged := if NeedsTwo(o, assessment) then Some(second) else None;
    MachineMoves(o.machine, cfg.policy, request, assessment, id, second);
    ProposalKeepsSound(o.machine, cfg.policy, request, assessment, id, staged);
    ProposalPassesOn(cfg, o, request, assessment);
    hide AfterProposal, Proposed, TransitionId, Sound, Moved, Fires, Triggers;
  }

  /** An update that is not refused, from the settled owner on. */
  lemma UpdateMoves(cfg: Config, o: OwnerState, at: int)
    requires cfg.Valid() && Steady(cfg, o) && ContextFault(o, true, at).None?
    ensures var after := AfterUpdate(cfg, o, true, at).0;
      var input :=
        if RequestAt(cfg, at).Err? || MisfitAt(cfg, at) then Idle
        else Assessed(Judged(cfg.variant, RequestAt(cfg, at).value, cfg.SupportAt(at)));
      && Standing(after) == Moved(Standing(o), input)
      && (Fires(after.pending) <==> Triggers(Standing(o), input))
  {
    ConfirmKeepsSteady(cfg, o);
    var settled := AfterConfirm(o).0.(time := Some(at), assessed := None, note := Silent);
    hide AfterConfirm, AfterProposal, Assess, TransitionId, Chain, Sound;
    if settled.machine.state != EXPIRED && RequestAt(cfg, at).Ok? {
      var request := RequestAt(cfg, at).value;
      var support := cfg.SupportAt(at);
      MisfitsAreRefused(cfg, at);
      if !MisfitAt(cfg, at) {
        FittingSupport(cfg.variant, request, support);
        ProposalMoves(cfg, settled, request, Assess(cfg.variant, request, support).value);
      }
    }
  }

  lemma MisfitsAreRefused(cfg: Config, at: int)
    requires cfg.Valid() && RequestAt(cfg, at).Ok?
    ensures Fitting(cfg.variant, RequestAt(cfg, at).value, cfg.SupportAt(at)) <==> !MisfitAt(cfg, at)
    ensures Assess(cfg.variant, RequestAt(cfg, at).value, cfg.SupportAt(at)).Ok? <==> !MisfitAt(cfg, at)
  {
    hide Decide, SupportGate, AnchoredGate, Row;
  }

  lemma FittingSupport(variant: Variant, request: Request, support: Option<Anchored>)
    requires request.Valid() && Fitting(variant, request, support)
    ensures Assess(variant, request, support).Ok?
    ensures Judged(variant, request, support) in {FORMING, ARMED, TRIGGERED, INVALIDATED}
  {
  }

  lemma ExpiryMoves(cfg: Config, o: OwnerState, at: int, cause: string)
    requires Steady(cfg, o) && ContextFault(o, true, at).None?
    ensures var after := AfterExpiry(cfg, o, true, at, cause).0;
      Standing(after) == EXPIRED && !Fires(after.pending)
  {
    ConfirmKeepsSteady(cfg, o);
    hide AfterConfirm, TransitionId, Chain;
  }

  /** Every call moves an owner by its input alone. */
  lemma CallMoves(cfg: Config, o: OwnerState, call: Call)
    requires cfg.Valid() && Steady(cfg, o)
    ensures var input := InputOf(cfg, o.time, call);
      var (after, r) := Called(cfg, o, call);
      && Standing(after) == Moved(Standing(o), input)
      && (input.Refused? ==> after == o)
      && (!input.Refused? ==> (Fires(after.pending) <==> Triggers(Standing(o), input)))
      && after.time == ClockAfter(o.time, call)
  {
    CallAnswers(cfg, o, call);
    ConfirmKeepsSteady(cfg, o);
    hide AfterConfirm, AfterUpdate, AfterExpiry, Steady, Judged, Sound;
    match call
    case UpdateAt(matches, at) => if Settles(o.time, call) { UpdateMoves(cfg, o, at); }
    case ExpireOwnerAt(matches, at, cause) => if Settles(o.time, call) { ExpiryMoves(cfg, o, at, cause); }
    case RecordPending =>
  }

  // ----- Two owners -------------------------------------------------------

  datatype Fate = Open | Fired | Blocked | Missed

  /** Read off the supplied inputs: whether a candidate has triggered, was closed by its anchored
      reading before it could, or refused a misfitting reading just when the strict owner triggers. */
  function FateOf(cfg: Config, time: Option<int>, fate: Fate, call: Call): Fate
    requires cfg.Valid()
  {
    NextFate(fate, InputOf(Strictly(cfg), time, call), InputOf(cfg, time, call), CallCloses(cfg, time, call))
  }

  function FateAfter(cfg: Config, calls: seq<Call>): (Fate, Option<int>)
    requires cfg.Valid()
    decreases |calls|
  {
    if calls == [] then (Open, None)
    else
      var (fate, time) := FateAfter(cfg, calls[..|calls| - 1]);
      var call := calls[|calls| - 1];
      (FateOf(cfg, time, fate, call), ClockAfter(time, call))
  }

  /** What a single call decides of a candidate's fate: nothing, or that it fires, is closed or
      misses the strict owner's trigger there. */
  function VerdictAt(cfg: Config, calls: seq<Call>, i: nat): Fate
    requires cfg.Valid() && i < |calls|
  {
    FateOf(cfg, FateAfter(cfg, calls[..i]).1, Open, calls[i])
  }

  predicate Undecided(cfg: Config, calls: seq<Call>, n: nat)
    requires cfg.Valid() && n <= |calls|
  {
    forall i | 0 <= i < n :: VerdictAt(cfg, calls, i) == Open
  }

  /** A candidate's fate is the first verdict any call gives. */
  lemma {:induction false} FateIsFirstVerdict(cfg: Config, calls: seq<Call>)
    requires cfg.Valid()
    ensures FateAfter(cfg, calls).0 == Open <==> Undecided(cfg, calls, |calls|)
    ensures forall i | 0 <= i < |calls| && Undecided(cfg, calls, i) && VerdictAt(cfg, calls, i) != Open ::
      FateAfter(cfg, calls).0 == VerdictAt(cfg, calls, i)
    decreases |calls|
  {
    assert calls == [] ==> FateAfter(cfg, calls).0 == Open;
    hide FateAfter, VerdictAt, Undecided;
    UndecidedBy(cfg, calls);
    if calls != [] {
      var n := |calls| - 1;
      FateIsFirstVerdict(cfg, calls[..n]);
      LastVerdict(cfg, calls);
      PrefixUndecided(cfg, calls, n);
      forall i | 0 <= i < n && Undecided(cfg, calls, i) && VerdictAt(cfg, calls, i) != Open
        ensures FateAfter(cfg, calls).0 == VerdictAt(cfg, calls, i)
      {
        PrefixUndecided(cfg, calls, i);
        VerdictOfPrefix(cfg, calls, i);
      }
    }
  }

  lemma UndecidedBy(cfg: Config, calls: seq<Call>)
    requires cfg.Valid()
    ensures Undecided(cfg, calls, 0)
    ensures calls != [] ==>
      (Undecided(cfg, calls, |calls|)
       <==> Undecided(cfg, calls, |calls| - 1) && VerdictAt(cfg, calls, |calls| - 1) == Open)
  {
    hide VerdictAt;
  }

  lemma VerdictOfPrefix(cfg: Config, calls: seq<Call>, i: nat)
    requires cfg.Valid() && i < |calls| - 1
    ensures VerdictAt(cfg, calls, i) == VerdictAt(cfg, calls[..|calls| - 1], i)
  {
    hide FateAfter, FateOf;
    assert calls[..|calls| - 1][..i] == calls[..i];
  }

  lemma PrefixUndecided(cfg: Config, calls: seq<Call>, n: nat)
    requires cfg.Valid() && n <= |calls| - 1
    ensures Undecided(cfg, calls, n) <==> Undecided(cfg, calls[..|calls| - 1], n)
  {
    hide VerdictAt;
    var before := calls[..|calls| - 1];
    if Undecided(cfg, calls, n) {
      forall i | 0 <= i < n ensures VerdictAt(cfg, before, i) == Open {
        VerdictOfPrefix(cfg, calls, i);
        assert VerdictAt(cfg, calls, i) == Open;
      }
    }
    if Undecided(cfg, before, n) {
      forall i | 0 <= i < n ensures VerdictAt(cfg, calls, i) == Open {
        VerdictOfPrefix(cfg, calls, i);
        assert VerdictAt(cfg, before, i) == Open;
      }
    }
  }

  lemma LastVerdict(cfg: Config, calls: seq<Call>)
    requires cfg.Valid() && calls != []
    ensures var fate := FateAfter(cfg, calls[..|calls| - 1]).0;
      FateAfter(cfg, calls).0 == if fate == Open then VerdictAt(cfg, calls, |calls| - 1) else fate
  {
    hide InputOf, CallCloses;
  }

  predicate Dead(run: OwnerRun) {
    Standing(run.owner) in {INVALIDATED, EXPIRED} && !Fires(run.recorded) && !Fires(run.owner.pending)
  }

  predicate Waiting(run: OwnerRun) {
    Standing(run.owner) in {FORMING, ARMED} && !Fires(run.recorded) && !Fires(run.owner.pending)
  }

  /** How a strict run and a candidate's run of the same calls stand to each other. */
  predicate Tied(strict: OwnerRun, candidate: OwnerRun, fate: Fate) {
    || Dead(strict)
    || (fate == Open && Waiting(strict) && Waiting(candidate)
        && Behind(Standing(candidate.owner), Standing(strict.owner)))
    || (fate == Fired && (Fires(candidate.recorded) || (Fires(candidate.owner.pending) && !Fires(strict.recorded))))
    || (fate == Blocked && Dead(candidate))
    || (fate == Missed && (Fires(strict.recorded) || (Fires(strict.owner.pending) && Waiting(candidate))))
  }

  /** A candidate that refused readings may still be forming when the strict owner is armed. */
  predicate Behind(candidate: StrategyState, strict: StrategyState) {
    candidate == strict || (candidate == FORMING && strict == ARMED)
  }

  lemma FiresJoin(left: seq<Transition>, right: seq<Transition>)
    ensures Fires(left + right) <==> Fires(left) || Fires(right)
  {
    var all := left + right;
    if Fires(left) {
      var i :| 0 <= i < |left| && left[i].to == TRIGGERED;
      assert all[i].to == TRIGGERED;
    }
    if Fires(right) {
      var i :| 0 <= i < |right| && right[i].to == TRIGGERED;
      assert all[|left| + i].to == TRIGGERED;
    }
  }

  /** One call on one run, seen only through where the run stands and what it has fired. */
  predicate Moves(run: OwnerRun, next: OwnerRun, input: Input) {
    && Standing(next.owner) == Moved(Standing(run.owner), input)
    && (input.Refused? ==> next.recorded == run.recorded && next.owner == run.owner)
    && (!input.Refused? ==> (Fires(next.recorded) <==> Fires(run.recorded) || Fires(run.owner.pending)))
    && (!input.Refused? ==> (Fires(next.owner.pending) <==> Triggers(Standing(run.owner), input)))
  }

  lemma RunMoves(cfg: Config, run: OwnerRun, call: Call)
    requires cfg.Valid() && Steady(cfg, run.owner)
    ensures Moves(run, Taken(cfg, run, call), InputOf(cfg, run.owner.time, call))
    ensures Taken(cfg, run, call).owner.time == ClockAfter(run.owner.time, call)
  {
    CallMoves(cfg, run.owner, call);
    CallAnswers(cfg, run.owner, call);
    FiresJoin(run.recorded, run.owner.pending);
    hide Called, Steady, AfterConfirm, Judged, Moved, Triggers, Fires;
    assert run.recorded + [] == run.recorded;
  }

  /** What the strict owner and a candidate take one call for. */
  predicate Compared(strict: Input, candidate: Input, closes: bool, misfits: bool) {
    && (!strict.Assessed? ==> candidate == strict && !closes)
    && (strict.Assessed? ==> strict.state in {FORMING, ARMED, TRIGGERED, INVALIDATED})
    && (strict.Assessed? && misfits ==> candidate == Idle && !closes)
    && (strict.Assessed? && !misfits ==>
        && candidate.Assessed?
        && candidate.state in {FORMING, ARMED, TRIGGERED, INVALIDATED}
        && (strict.state == TRIGGERED ==> candidate.state == TRIGGERED)
        && (candidate.state == INVALIDATED ==> strict.state == INVALIDATED || closes)
        && (closes ==> candidate.state == INVALIDATED)
        && (strict.state in {FORMING, ARMED} && candidate.state in {FORMING, ARMED} ==>
            strict.state == candidate.state))
  }

  /** Whether a call's anchored reading closes the candidate. */
  predicate CallCloses(cfg: Config, time: Option<int>, call: Call)
    requires cfg.Valid()
  {
    && InputOf(cfg, time, call).Assessed?
    && SupportCloses(cfg.variant, RequestAt(cfg, call.at).value, cfg.SupportAt(call.at))
  }

  predicate CallMisfits(cfg: Config, call: Call) { call.UpdateAt? && MisfitAt(cfg, call.at) }

  lemma InputsCompared(cfg: Config, time: Option<int>, call: Call)
    requires cfg.Valid()
    ensures Compared(InputOf(Strictly(cfg), time, call), InputOf(cfg, time, call), CallCloses(cfg, time, call),
      CallMisfits(cfg, call))
  {
    hide Assess, SupportCloses, MisfitAt, Fitting;
    if call.UpdateAt? && RequestAt(cfg, call.at).Ok? {
      var request := RequestAt(cfg, call.at).value;
      assert RequestAt(Strictly(cfg), call.at) == RequestAt(cfg, call.at);
      MisfitsAreRefused(cfg, call.at);
      MisfitsAreRefused(Strictly(cfg), call.at);
      assert !MisfitAt(Strictly(cfg), call.at) by { StrictlyFits(cfg, call.at); }
      FittingSupport(STRICT, request, None);
      if !MisfitAt(cfg, call.at) {
        CandidateAgainstStrict(cfg.variant, request, cfg.SupportAt(call.at));
        FittingSupport(cfg.variant, request, cfg.SupportAt(call.at));
      }
    }
  }

  lemma StrictlyFits(cfg: Config, at: int)
    ensures !MisfitAt(Strictly(cfg), at)
  {
  }

  function NextFate(fate: Fate, strict: Input, candidate: Input, closes: bool): Fate {
    if fate != Open then fate
    else if candidate == Assessed(TRIGGERED) then Fired
    else if closes then Blocked
    else if strict == Assessed(TRIGGERED) then Missed
    else Open
  }

  lemma TiedThrough(
      strict: OwnerRun, candidate: OwnerRun, fate: Fate, nextStrict: OwnerRun, nextCandidate: OwnerRun,
      s: Input, c: Input, closes: bool, misfits: bool)
    requires Tied(strict, candidate, fate) && Compared(s, c, closes, misfits)
    requires Moves(strict, nextStrict, s) && Moves(candidate, nextCandidate, c)
    ensures Tied(nextStrict, nextCandidate, NextFate(fate, s, c, closes))
  {
    hide Fires, Standing;
  }

  lemma CallKeepsTied(cfg: Config, strict: OwnerRun, candidate: OwnerRun, fate: Fate, call: Call)
    requires cfg.Valid()
    requires Steady(Strictly(cfg), strict.owner) && Steady(cfg, candidate.owner)
    requires strict.owner.time == candidate.owner.time && Tied(strict, candidate, fate)
    ensures var nextStrict := Taken(Strictly(cfg), strict, call);
      var nextCandidate := Taken(cfg, candidate, call);
      && nextStrict.owner.time == nextCandidate.owner.time == ClockAfter(strict.owner.time, call)
      && Tied(nextStrict, nextCandidate, FateOf(cfg, strict.owner.time, fate, call))
  {
    hide Moves, Compared, Tied, Taken, InputOf, Steady, CallCloses, ClockAfter;
    var time := strict.owner.time;
    RunMoves(Strictly(cfg), strict, call);
    RunMoves(cfg, candidate, call);
    InputsCompared(cfg, time, call);
    TiedThrough(
      strict, candidate, fate, Taken(Strictly(cfg), strict, call), Taken(cfg, candidate, call),
      InputOf(Strictly(cfg), time, call), InputOf(cfg, time, call), CallCloses(cfg, time, call),
      CallMisfits(cfg, call));
  }

  lemma {:induction false} RunsStayTied(cfg: Config, calls: seq<Call>)
    requires cfg.Valid()
    ensures var strict := RunCalls(Strictly(cfg), calls);
      var candidate := RunCalls(cfg, calls);
      && strict.owner.time == candidate.owner.time == FateAfter(cfg, calls).1
      && Tied(strict, candidate, FateAfter(cfg, calls).0)
    decreases |calls|
  {
    if calls != [] {
      var before := calls[..|calls| - 1];
      RunsStayTied(cfg, before);
      EveryRunIsOrderly(Strictly(cfg), before);
      EveryRunIsOrderly(cfg, before);
      hide Taken, Steady, Tied, FateOf;
      CallKeepsTied(cfg, RunCalls(Strictly(cfg), before), RunCalls(cfg, before), FateAfter(cfg, before).0,
        calls[|calls| - 1]);
    }
  }

  /** A call fires the candidate when its own evaluation does, closes it when its anchored reading
      does, and is missed when the strict owner triggers on a reading that misfits. */
  lemma VerdictMeans(cfg: Config, calls: seq<Call>, i: nat)
    requires cfg.Valid() && i < |calls|
    ensures var time := FateAfter(cfg, calls[..i]).1;
      && (VerdictAt(cfg, calls, i) == Fired <==> InputOf(cfg, time, calls[i]) == Assessed(TRIGGERED))
      && (VerdictAt(cfg, calls, i) == Blocked <==> CallCloses(cfg, time, calls[i]))
      && (VerdictAt(cfg, calls, i) == Missed <==>
          InputOf(Strictly(cfg), time, calls[i]) == Assessed(TRIGGERED) && CallMisfits(cfg, calls[i]))
  {
    InputsCompared(cfg, FateAfter(cfg, calls[..i]).1, calls[i]);
    hide InputOf, CallCloses, CallMisfits, FateAfter;
  }

  /** `RunMoves` for the last of some calls. */
  lemma LastCallMoves(cfg: Config, before: seq<Call>, call: Call)
    requires cfg.Valid()
    ensures var run, next := RunCalls(cfg, before), RunCalls(cfg, before + [call]);
      && Moves(run, next, InputOf(cfg, run.owner.time, call))
      && next.owner.time == ClockAfter(run.owner.time, call)
  {
    hide InputOf, Moves, ClockAfter, Steady, Taken;
    EveryRunIsOrderly(cfg, before);
    assert (before + [call])[..|before|] == before;
    RunMoves(cfg, RunCalls(cfg, before), call);
  }

  /** The same for a call that is not refused, of a run whose standing and clock are known. */
  lemma Went(
      cfg: Config, before: seq<Call>, call: Call, from: StrategyState, time: Option<int>, input: Input)
    requires cfg.Valid() && !input.Refused? && InputOf(cfg, time, call) == input
    requires Standing(RunCalls(cfg, before).owner) == from && RunCalls(cfg, before).owner.time == time
    ensures var run, next := RunCalls(cfg, before), RunCalls(cfg, before + [call]);
      && Standing(next.owner) == Moved(from, input) && next.owner.time == ClockAfter(time, call)
      && (Fires(next.recorded) <==> Fires(run.recorded) || Fires(run.owner.pending))
      && (Fires(next.owner.pending) <==> Triggers(from, input))
  {
    hide RunCalls, Standing, InputOf, Fires, ClockAfter, Moved, Triggers;
    LastCallMoves(cfg, before, call);
  }

  lemma Began(cfg: Config)
    requires cfg.Valid()
    ensures var run := RunCalls(cfg, []);
      && Standing(run.owner) == FORMING && run.owner.time == None
      && !Fires(run.recorded) && !Fires(run.owner.pending)
  {
  }

  lemma RecordingIsIdle(cfg: Config, time: Option<int>)
    requires cfg.Valid()
    ensures InputOf(cfg, time, RecordPending) == Idle
  {
  }

  /** Over every run of the same calls, at the call that records the strict owner's trigger: the
      candidate has recorded its own by then exactly when its fate is to have fired. Closed by its
      anchored reading it never will; after a misfitting reading at that trigger it may, but later. */
  lemma CandidatesTriggerNoLater(cfg: Config, calls: seq<Call>)
    requires cfg.Valid()
    requires Fires(RunCalls(Strictly(cfg), calls).recorded)
    ensures FateAfter(cfg, calls).0 in {Fired, Blocked, Missed}
    ensures FateAfter(cfg, calls).0 == Fired ==> Fires(RunCalls(cfg, calls).recorded)
    ensures FateAfter(cfg, calls).0 == Blocked ==> !Fires(RunCalls(cfg, calls).recorded)
    ensures calls != [] && !Fires(RunCalls(Strictly(cfg), calls[..|calls| - 1]).recorded) ==>
      (Fires(RunCalls(cfg, calls).recorded) <==> FateAfter(cfg, calls).0 == Fired)
  {
    RunsStayTied(cfg, calls);
    if calls != [] && !Fires(RunCalls(Strictly(cfg), calls[..|calls| - 1]).recorded)
       && FateAfter(cfg, calls).0 == Missed {
      assert calls == calls[..|calls| - 1] + [calls[|calls| - 1]];
      MissedIsNotYet(cfg, calls[..|calls| - 1], calls[|calls| - 1]);
    }
    hide RunCalls, FateAfter, Fires, Standing;
  }

  /** The call that records the strict owner's trigger records nothing for a candidate that missed it. */
  lemma MissedIsNotYet(cfg: Config, before: seq<Call>, call: Call)
    requires cfg.Valid() && FateAfter(cfg, before + [call]).0 == Missed
    requires !Fires(RunCalls(Strictly(cfg), before).recorded)
    requires Fires(RunCalls(Strictly(cfg), before + [call]).recorded)
    ensures !Fires(RunCalls(cfg, before + [call]).recorded)
  {
    hide RunCalls, FateAfter, Standing, InputOf, Fires, ClockAfter, Moved, Triggers;
    RunsStayTied(cfg, before);
    LastCallMoves(Strictly(cfg), before, call);
    LastCallMoves(cfg, before, call);
    if FateAfter(cfg, before).0 != Missed { WhenMissed(cfg, before, call); }
  }

  lemma WhenMissed(cfg: Config, before: seq<Call>, call: Call)
    requires cfg.Valid() && FateAfter(cfg, before + [call]).0 == Missed && FateAfter(cfg, before).0 != Missed
    ensures FateAfter(cfg, before).0 == Open
  {
    assert (before + [call])[..|before|] == before;
    hide InputOf, CallCloses;
  }

  predicate SupportsFit(cfg: Config) { forall at | at in cfg.supports :: FitsAt(cfg, at) }

  /** Nothing holds up a candidate that takes no anchored reading, or whose readings all fit and
      are never missing for a reason that ends a pullback: it triggers no later, without more ado. */
  lemma {:induction false} NothingBlocks(cfg: Config, calls: seq<Call>)
    requires cfg.Valid()
    requires || !cfg.variant.anchored
             || (SupportsFit(cfg) && forall at | at in cfg.supports :: !cfg.supports[at].missing.Invalidates())
    ensures FateAfter(cfg, calls).0 in {Open, Fired}
    ensures Fires(RunCalls(Strictly(cfg), calls).recorded) ==> Fires(RunCalls(cfg, calls).recorded)
    decreases |calls|
  {
    if calls != [] {
      var before, call := calls[..|calls| - 1], calls[|calls| - 1];
      NothingBlocks(cfg, before);
      InputsCompared(cfg, FateAfter(cfg, before).1, call);
      hide InputOf, RunCalls;
    }
    if Fires(RunCalls(Strictly(cfg), calls).recorded) {
      CandidatesTriggerNoLater(cfg, calls);
    }
  }

  // ----- Relaxed against unrelaxed ----------------------------------------

  /** The owners that take the same readings with the VWAP's side and slope vetoing, and without. */
  function Unrelaxed(cfg: Config): Config { cfg.(variant := Variant(false, cfg.variant.anchored)) }

  function Relaxed(cfg: Config): Config { cfg.(variant := Variant(true, cfg.variant.anchored)) }

  /** The same rows decide on the same state, or on a later one where fewer of them gate. */
  lemma RelaxingDecides(gates: GateName -> Gate, others: GateName -> Gate, anchored: bool)
    requires forall name: GateName :: others(name) == gates(name)
    ensures var s, c := Decide(gates, Variant(false, anchored)), Decide(others, Variant(true, anchored));
      && (s == TRIGGERED ==> c == TRIGGERED)
      && (c == INVALIDATED ==> s == INVALIDATED)
      && (s in {FORMING, ARMED} && c in {FORMING, ARMED} ==> s == c)
  {
    var unrelaxed, relaxed := Variant(false, anchored), Variant(true, anchored);
    if SomeInvalidates(others, relaxed) {
      var name: GateName :| relaxed.Gating(name) && others(name).Invalidates();
      assert unrelaxed.Gating(name) && gates(name).Invalidates();
    }
    assert forall name: GateName :: unrelaxed.Gating(name);
    assert relaxed.Gating(MeasurementRow);
  }

  lemma RelaxedAgainstUnrelaxed(request: Request, support: Option<Anchored>, anchored: bool)
    requires request.Valid() && Fitting(Variant(false, anchored), request, support)
    ensures var unrelaxed := Judged(Variant(false, anchored), request, support);
      var relaxed := Judged(Variant(true, anchored), request, support);
      && (unrelaxed == TRIGGERED ==> relaxed == TRIGGERED)
      && (relaxed == INVALIDATED ==> unrelaxed == INVALIDATED)
      && (unrelaxed in {FORMING, ARMED} && relaxed in {FORMING, ARMED} ==> unrelaxed == relaxed)
  {
    hide Decide, Row, SupportGate, AnchoredGate, CombinedSupport;
    var unrelaxed := Assess(Variant(false, anchored), request, support).value;
    var relaxed := Assess(Variant(true, anchored), request, support).value;
    RelaxingDecides(unrelaxed.gates, relaxed.gates, anchored);
  }

  lemma RelaxedInputs(cfg: Config, time: Option<int>, call: Call)
    requires cfg.Valid()
    ensures Compared(InputOf(Unrelaxed(cfg), time, call), InputOf(Relaxed(cfg), time, call), false, false)
  {
    hide Assess, Fitting;
    if call.UpdateAt? && RequestAt(cfg, call.at).Ok? && !MisfitAt(cfg, call.at) {
      var request, support := RequestAt(cfg, call.at).value, cfg.SupportAt(call.at);
      assert RequestAt(Unrelaxed(cfg), call.at) == RequestAt(Relaxed(cfg), call.at) == RequestAt(cfg, call.at);
      MisfitsAreRefused(Unrelaxed(cfg), call.at);
      MisfitsAreRefused(Relaxed(cfg), call.at);
      RelaxedAgainstUnrelaxed(request, support, cfg.variant.anchored);
      FittingSupport(Variant(false, cfg.variant.anchored), request, support);
      FittingSupport(Variant(true, cfg.variant.anchored), request, support);
    }
  }

  predicate NoLater(unrelaxed: OwnerRun, relaxed: OwnerRun) {
    Tied(unrelaxed, relaxed, Open) || Tied(unrelaxed, relaxed, Fired)
  }

  lemma {:induction false} RelaxedStaysTied(cfg: Config, calls: seq<Call>)
    requires cfg.Valid()
    ensures RunCalls(Relaxed(cfg), calls).owner.time == RunCalls(Unrelaxed(cfg), calls).owner.time
    ensures NoLater(RunCalls(Unrelaxed(cfg), calls), RunCalls(Relaxed(cfg), calls))
    decreases |calls|
  {
    hide RunCalls, InputOf, Tied, Moves, ClockAfter, Compared, NextFate;
    if calls == [] {
      FreshIsTied(cfg);
    } else {
      var before, call := calls[..|calls| - 1], calls[|calls| - 1];
      RelaxedStaysTied(cfg, before);
      assert before + [call] == calls;
      LastCallMoves(Unrelaxed(cfg), before, call);
      LastCallMoves(Relaxed(cfg), before, call);
      var unrelaxed, relaxed := RunCalls(Unrelaxed(cfg), before), RunCalls(Relaxed(cfg), before);
      var time := unrelaxed.owner.time;
      RelaxedInputs(cfg, time, call);
      var fate := if Tied(unrelaxed, relaxed, Open) then Open else Fired;
      var s, c := InputOf(Unrelaxed(cfg), time, call), InputOf(Relaxed(cfg), time, call);
      TiedThrough(
        unrelaxed, relaxed, fate, RunCalls(Unrelaxed(cfg), calls), RunCalls(Relaxed(cfg), calls), s, c, false, false);
      OpenOrFired(fate, s, c);
    }
  }

  lemma FreshIsTied(cfg: Config)
    requires cfg.Valid()
    ensures Relaxed(cfg).Valid() && Unrelaxed(cfg).Valid()
    ensures RunCalls(Relaxed(cfg), []).owner.time == RunCalls(Unrelaxed(cfg), []).owner.time
    ensures NoLater(RunCalls(Unrelaxed(cfg), []), RunCalls(Relaxed(cfg), []))
  {
    Began(Relaxed(cfg));
    Began(Unrelaxed(cfg));
    hide RunCalls, Fires, Standing;
  }

  lemma OpenOrFired(fate: Fate, s: Input, c: Input)
    requires fate in {Open, Fired} && Compared(s, c, false, false)
    ensures NextFate(fate, s, c, false) in {Open, Fired}
  {
  }

  /** Over every run, and without exception: whatever anchored readings both are given, an owner that
      relaxes the VWAP's vetoes has recorded its trigger once the one that keeps them has. */
  lemma RelaxingNeverDelays(cfg: Config, calls: seq<Call>)
    requires cfg.Valid() && Fires(RunCalls(Unrelaxed(cfg), calls).recorded)
    ensures Fires(RunCalls(Relaxed(cfg), calls).recorded)
  {
    RelaxedStaysTied(cfg, calls);
    hide RunCalls, Fires, Standing;
  }

  // ----- A blocked candidate ----------------------------------------------

  /** Everything passes but session support, which passes exactly when `support` is at least -0.25. */
  function StepWith(at: int, support: real): ReplayStep {
    var r := Sample(at, support);
    ReplayStep(
      r.measurement, r.atr, r.ordinal, r.vwap, r.strength, r.lastTrade, r.quote, r.structural, r.confidence)
  }

  function Sample(at: int, support: real): Request { RequestWith(at, support, 10.0, PLAIN_QUOTE) }

  function Anchoring(steps: map<int, ReplayStep>, supports: map<int, Anchored>): Config {
    Config(Variant(false, true), PolicyWith(10.0), Long, "A", "V", 0, 1, "P", steps, supports)
  }

  /** Session support fails at 2 and passes at 3; the anchored reading at 2 lost its coverage. */
  const BLOCKED := Anchoring(
    map[2 := StepWith(2, -1.0), 3 := StepWith(3, 0.0)],
    map[2 := Anchored("A", Long, 0, 2, None, CoverageLost)])

  /** Session support passes at 3 and 4; the anchored reading at 3 is for another symbol. */
  const MISFIT := Anchoring(
    map[3 := StepWith(3, 0.0), 4 := StepWith(4, 0.0)],
    map[3 := Anchored("B", Long, 0, 3, Some(0.0), Text("NONE"))])

  lemma StepJudged(at: int, support: real)
    ensures Sample(at, support).Valid()
    ensures Judged(STRICT, Sample(at, support), None) == if support >= -0.25 then TRIGGERED else ARMED
  {
    SampleJudged(at, support, 10.0, PLAIN_QUOTE);
    var r := Sample(at, support);
    assert r.quote == Some(QuoteDecision(true, [], Some(1.0), Some(PLAIN_QUOTE))) && r.policy == PolicyWith(10.0);
    hide RequestWith, Assess;
    assert PullbackAlert.QuoteStands(r);
  }

  lemma SampleRequest(cfg: Config, at: int, support: real)
    requires at >= 1 && at in cfg.steps && cfg.steps[at] == StepWith(at, support)
    requires cfg == Anchoring(cfg.steps, cfg.supports) || cfg == Strictly(Anchoring(cfg.steps, cfg.supports))
    requires cfg.Valid()
    ensures RequestAt(cfg, at) == Ok(Sample(at, support))
  {
  }

  /** What the strict owner takes such a step for. */
  lemma StrictInput(cfg: Config, time: Option<int>, at: int, support: real)
    requires cfg.Valid() && cfg == Anchoring(cfg.steps, cfg.supports) && (time.Some? ==> time.value <= at)
    requires at >= 1 && at in cfg.steps && cfg.steps[at] == StepWith(at, support)
    ensures InputOf(Strictly(cfg), time, UpdateAt(true, at)) == Assessed(if support >= -0.25 then TRIGGERED else ARMED)
  {
    StepJudged(at, support);
    SampleRequest(Strictly(cfg), at, support);
    hide Sample, StepWith, RequestAt, Judged, PolicyWith;
  }

  /** An anchored owner without a reading takes a step that passes for the strict owner's trigger. */
  lemma AnchoredInput(cfg: Config, time: Option<int>, at: int, support: real)
    requires cfg.Valid() && cfg == Anchoring(cfg.steps, cfg.supports) && (time.Some? ==> time.value <= at)
    requires at >= 1 && at in cfg.steps && cfg.steps[at] == StepWith(at, support) && support >= -0.25
    requires at !in cfg.supports
    ensures InputOf(cfg, time, UpdateAt(true, at)) == Assessed(TRIGGERED)
  {
    StepJudged(at, support);
    SampleRequest(cfg, at, support);
    CandidateAgainstStrict(cfg.variant, Sample(at, support), None);
    hide Sample, StepWith, RequestAt, Judged, PolicyWith;
  }

  lemma MisfitInput(cfg: Config, at: int)
    requires cfg.Valid() && MisfitAt(cfg, at)
    ensures InputOf(cfg, None, UpdateAt(true, at)) == Idle
  {
    hide RequestAt, MisfitAt, Judged;
  }

  lemma SampleConfigsAreValid()
    ensures BLOCKED.Valid() && BLOCKED.policy.Valid() && MISFIT.Valid() && MISFIT.policy.Valid()
  {
    SampleIsValid(2, -1.0, 10.0, PLAIN_QUOTE);
    SampleIsValid(3, 0.0, 10.0, PLAIN_QUOTE);
    SampleIsValid(4, 0.0, 10.0, PLAIN_QUOTE);
    hide RequestWith;
  }

  /** The strict owner records its trigger and the anchored owner never does. */
  lemma AnchoredReadingBlocks()
    ensures BLOCKED.Valid() && BLOCKED.policy.Valid()
    ensures var calls := [UpdateAt(true, 2), UpdateAt(true, 3), RecordPending];
      && Fires(RunCalls(Strictly(BLOCKED), calls).recorded)
      && !Fires(RunCalls(BLOCKED, calls).recorded)
  {
    var calls := [UpdateAt(true, 2), UpdateAt(true, 3), RecordPending];
    SampleConfigsAreValid();
    StrictFires(calls);
    FateIsBlocked(calls);
    hide RunCalls, Fires, FateAfter;
    CandidatesTriggerNoLater(BLOCKED, calls);
  }

  lemma StrictFires(calls: seq<Call>)
    requires calls == [UpdateAt(true, 2), UpdateAt(true, 3), RecordPending]
    requires BLOCKED.Valid()
    ensures Fires(RunCalls(Strictly(BLOCKED), calls).recorded)
  {
    hide StepWith, RequestAt, Judged, PolicyWith, InputOf, RunCalls;
    StrictInput(BLOCKED, None, 2, -1.0);
    StrictInput(BLOCKED, Some(2), 3, 0.0);
    ArmedThenTriggered(Strictly(BLOCKED), 2, 3, calls);
  }

  lemma ArmedThenTriggered(cfg: Config, first: int, second: int, calls: seq<Call>)
    requires first < second && calls == [UpdateAt(true, first), UpdateAt(true, second), RecordPending]
    requires cfg.Valid()
    requires InputOf(cfg, None, calls[0]) == Assessed(ARMED)
    requires InputOf(cfg, Some(first), calls[1]) == Assessed(TRIGGERED)
    ensures Fires(RunCalls(cfg, calls).recorded)
  {
    hide RunCalls, Standing, InputOf, Fires;
    var one, two := [calls[0]], [calls[0], calls[1]];
    assert [] + [calls[0]] == one && one + [calls[1]] == two && two + [calls[2]] == calls;
    Began(cfg);
    Went(cfg, [], calls[0], FORMING, None, Assessed(ARMED));
    Went(cfg, one, calls[1], ARMED, Some(first), Assessed(TRIGGERED));
    RecordingIsIdle(cfg, Some(second));
    Went(cfg, two, calls[2], TRIGGERED, Some(second), Idle);
  }

  lemma FateIsBlocked(calls: seq<Call>)
    requires calls == [UpdateAt(true, 2), UpdateAt(true, 3), RecordPending]
    requires BLOCKED.Valid()
    ensures FateAfter(BLOCKED, calls).0 == Blocked
  {
    hide StepWith, PolicyWith, InputOf, CallCloses;
    assert calls[..2] == [UpdateAt(true, 2), UpdateAt(true, 3)];
    assert calls[..2][..1] == [UpdateAt(true, 2)] && calls[..2][..1][..0] == [];
    FirstCallCloses();
    assert FateAfter(BLOCKED, calls[..2][..1]).0 == Blocked;
  }

  lemma FirstCallCloses()
    requires BLOCKED.Valid()
    ensures InputOf(BLOCKED, None, UpdateAt(true, 2)) == Assessed(INVALIDATED)
    ensures CallCloses(BLOCKED, None, UpdateAt(true, 2))
  {
    var request, support := Sample(2, -1.0), BLOCKED.SupportAt(2);
    SampleRequest(BLOCKED, 2, -1.0);
    SampleSupport(2, -1.0);
    MisfitsAreRefused(BLOCKED, 2);
    hide Sample, StepWith, PolicyWith, RequestAt, Assess;
    assert SupportCloses(BLOCKED.variant, request, support);
    CandidateAgainstStrict(BLOCKED.variant, request, support);
  }

  lemma SampleSupport(at: int, support: real)
    ensures SupportGate(Sample(at, support)).status == Pass <==> support >= -0.25
  {
  }

  // ----- A candidate held up ----------------------------------------------

  /** The strict owner records its trigger; the anchored owner, whose reading at that instant is for
      another symbol, records its own only after the next evaluation. */
  lemma MisfittingReadingDelays()
    ensures MISFIT.Valid() && MISFIT.policy.Valid()
    ensures var calls := [UpdateAt(true, 3), RecordPending];
      && Fires(RunCalls(Strictly(MISFIT), calls).recorded)
      && !Fires(RunCalls(MISFIT, calls).recorded)
      && Fires(RunCalls(MISFIT, calls + [UpdateAt(true, 4), RecordPending]).recorded)
  {
    SampleConfigsAreValid();
    hide StepWith, PolicyWith, RunCalls, Fires, InputOf;
    StrictInput(MISFIT, None, 3, 0.0);
    AnchoredInput(MISFIT, Some(3), 4, 0.0);
    MisfitInput(MISFIT, 3);
    TriggeredAlone(Strictly(MISFIT), 3);
    IdleThenTriggered(MISFIT, 3, 4);
  }

  lemma TriggeredAlone(cfg: Config, at: int)
    requires cfg.Valid() && InputOf(cfg, None, UpdateAt(true, at)) == Assessed(TRIGGERED)
    ensures Fires(RunCalls(cfg, [UpdateAt(true, at), RecordPending]).recorded)
  {
    hide RunCalls, Standing, InputOf, Fires;
    var update, record := UpdateAt(true, at), RecordPending;
    assert [] + [update] == [update] && [update] + [record] == [update, record];
    Began(cfg);
    Went(cfg, [], update, FORMING, None, Assessed(TRIGGERED));
    RecordingIsIdle(cfg, Some(at));
    Went(cfg, [update], record, TRIGGERED, Some(at), Idle);
  }

  lemma IdleThenTriggered(cfg: Config, first: int, second: int)
    requires cfg.Valid() && first <= second
    requires InputOf(cfg, None, UpdateAt(true, first)) == Idle
    requires InputOf(cfg, Some(first), UpdateAt(true, second)) == Assessed(TRIGGERED)
    ensures var calls := [UpdateAt(true, first), RecordPending];
      && !Fires(RunCalls(cfg, calls).recorded)
      && Fires(RunCalls(cfg, calls + [UpdateAt(true, second), RecordPending]).recorded)
  {
    hide RunCalls, Standing, InputOf, Fires;
    var update, record, again := UpdateAt(true, first), RecordPending, UpdateAt(true, second);
    assert [] + [update] == [update] && [update] + [record] == [update, record];
    assert [update, record] + [again] == [update, record, again];
    assert [update, record, again] + [record] == [update, record] + [again, record];
    Began(cfg);
    Went(cfg, [], update, FORMING, None, Idle);
    RecordingIsIdle(cfg, Some(first));
    Went(cfg, [update], record, FORMING, Some(first), Idle);
    Went(cfg, [update, record], again, FORMING, Some(first), Assessed(TRIGGERED));
    RecordingIsIdle(cfg, Some(second));
    Went(cfg, [update, record, again], record, TRIGGERED, Some(second), Idle);
  }
}
