/** The propose/confirm machine of `consensus_engine/first_pullback_vwap.py` and the two
machines that override it with altered assessments.

A machine proposes transitions and moves only when the caller confirms exactly those. Its
methods are specified by functions on `MachineState`; what every run of them keeps is proved
about the functions.
*/
module PullbackMachine {
  import opened Wrappers
  import opened PullbackGates

  datatype Why =
    | PullbackFormedArmed
    | AllGatesPassed
    | NotPassed(name: GateName, status: Status, reason: Option<Reason>)
    | Expiry(cause: string)

  datatype Transition = Transition(recordId: string, at: int, from: StrategyState, to: StrategyState, reason: Why)

  datatype Effect = Action(at: int) | Take(window: (int, int)) | Close

  datatype MachineError =
    | PolicyChanged | WindowChanged | TimeMovedBackward | ActionFellBack | ClosedReopened
    | SecondIdMissing | SecondIdUnused | NotInRules | NotPending

  datatype MachineState = MachineState(
    state: StrategyState, window: Option<(int, int)>, actionedAt: Option<int>, time: Option<int>,
    pending: seq<Transition>, effect: Option<Effect>)

  const FRESH := MachineState(FORMING, None, None, None, [], None)

  predicate Allowed(from: StrategyState, to: StrategyState) {
    || (from, to) in {(FORMING, ARMED), (ARMED, TRIGGERED)}
    || (from in {FORMING, ARMED, TRIGGERED} && to == INVALIDATED)
    || (from in {FORMING, ARMED, TRIGGERED, INVALIDATED} && to == EXPIRED)
  }

  function Explain(assessment: Assessment): Why {
    match assessment.FirstReason()
    case None => AllGatesPassed
    case Some(name) =>
      var gate := assessment.gates(name);
      NotPassed(name, gate.status, gate.reason)
  }

  /** Of the gates a candidate asks for, in their order, this is the first that did not pass. */
  ghost predicate FirstNotPassed(assessment: Assessment, name: GateName) {
    exists k :: 0 <= k < |ROWS| && ROWS[k] == name && assessment.variant.Gating(name)
                && assessment.gates(name).status != Pass && PassedBefore(assessment, k)
  }

  predicate PassedBefore(assessment: Assessment, k: nat)
    requires k <= |ROWS|
  {
    forall j | 0 <= j < k && assessment.variant.Gating(ROWS[j]) :: assessment.gates(ROWS[j]).status == Pass
  }

  /** The reason recorded is that first gate with its status and reason, and there is none exactly when
      every gate the candidate asks for passed. */
  lemma ExplainMeans(assessment: Assessment)
    ensures match Explain(assessment)
            case AllGatesPassed => AllPass(assessment.gates, assessment.variant)
            case NotPassed(name, status, reason) =>
              && FirstNotPassed(assessment, name) && status == assessment.gates(name).status
              && reason == assessment.gates(name).reason
            case _ => false
  {
    FirstReasonFound(assessment, 0);
    if Explain(assessment).AllGatesPassed? {
      forall name: GateName | assessment.variant.Gating(name) ensures assessment.gates(name).status == Pass {
        var k := RowOf(name);
      }
    }
  }

  /** Every gate has its row. */
  lemma RowOf(name: GateName) returns (k: nat)
    ensures k < |ROWS| && ROWS[k] == name
  {
    k := match name
      case MeasurementRow => 0 case ImpulseRow => 1 case ImpulseVwapRow => 2 case VwapSideRow => 3
      case VwapSlopeRow => 4 case VwapCrossRow => 5 case StrengthRow => 6 case RetracementRow => 7
      case VolumeRow => 8 case SupportRow => 9 case TriggerRow => 10 case SpreadRow => 11
      case SequenceRow => 12 case RiskRow => 13 case ConfidenceRow => 14;
  }

  lemma {:induction false} FirstReasonFound(assessment: Assessment, from: nat)
    requires from <= |ROWS| && PassedBefore(assessment, from)
    ensures match assessment.FirstReason(from)
            case None => PassedBefore(assessment, |ROWS|)
            case Some(name) => FirstNotPassed(assessment, name)
    decreases |ROWS| - from
  {
    if from < |ROWS| && !(assessment.variant.Gating(ROWS[from]) && assessment.gates(ROWS[from]).status != Pass) {
      assert PassedBefore(assessment, from + 1);
      FirstReasonFound(assessment, from + 1);
    }
  }

  function EffectOf(target: StrategyState, at: int, window: (int, int)): Effect {
    if target.state.AlertTriggered? then Action(at)
    else if target.state.Armed? then Take(window)
    else Close
  }

  function Forwarded(m: MachineState, at: int): Result<MachineState, MachineError> {
    if m.time.Some? && at < m.time.value then Err(TimeMovedBackward) else Ok(m.(time := Some(at)))
  }

  /** The transitions a changed target asks for, once the time has moved forward. */
  function Changes(
      m: MachineState, assessed: StrategyState, at: int, why: Why, id: string, staged: Option<string>)
    : Result<seq<Transition>, MachineError>
  {
    var target := if m.state.state.Armed? && assessed.state.SetupForming? then INVALIDATED else assessed;
    if m.state.state.AlertTriggered? && (assessed.state.Armed? || assessed.state.SetupForming?) then Err(ActionFellBack)
    else if m.state.state.Invalidated? then Err(ClosedReopened)
    else if m.state == FORMING && target.state.AlertTriggered? then
      if staged.None? then Err(SecondIdMissing)
      else if !Allowed(ARMED, target) then Err(NotInRules)
      else Ok([Transition(id, at, m.state, ARMED, PullbackFormedArmed),
               Transition(staged.value, at, ARMED, target, why)])
    else if staged.Some? then Err(SecondIdUnused)
    else if !Allowed(m.state, target) then Err(NotInRules)
    else Ok([Transition(id, at, m.state, target, why)])
  }

  /** One proposal: the machine it leaves and what it returns. A refused proposal may still have
      moved the machine's time. */
  function Proposed(
      m: MachineState, policy: Policy, request: Request, assessment: Assessment, id: string, staged: Option<string>)
    : (MachineState, Result<seq<Transition>, MachineError>)
  {
    if request.policy != policy then (m, Err(PolicyChanged))
    else if m.window.Some? && request.Window() != m.window.value then (m, Err(WindowChanged))
    else
      var at := request.evaluatedAt;
      var forward := Forwarded(m, at);
      if forward.Err? then (m, Err(forward.error))
      else if assessment.state == m.state then (forward.value.(pending := [], effect := None), Ok([]))
      else
        var changes := Changes(m, assessment.state, at, Explain(assessment), id, staged);
        match changes
        case Err(error) => (forward.value, Err(error))
        case Ok(steps) =>
          var target := steps[|steps| - 1].to;
          (forward.value.(pending := steps, effect := Some(EffectOf(target, at, request.Window()))), Ok(steps))
  }

  function ExpiryProposed(m: MachineState, at: int, cause: string, id: string)
    : (MachineState, Result<seq<Transition>, MachineError>)
  {
    var forward := Forwarded(m, at);
    if forward.Err? then (m, Err(forward.error))
    else if !Allowed(m.state, EXPIRED) then (forward.value, Err(NotInRules))
    else
      var step := Transition(id, at, m.state, EXPIRED, Expiry(cause));
      (forward.value.(pending := [step], effect := Some(Close)), Ok([step]))
  }

  function Confirmed(
      m: MachineState, transitions: seq<Transition>): (MachineState, Result<StrategyState, MachineError>) {
    if m.pending == [] || transitions != m.pending then (m, Err(NotPending))
    else
      var to := transitions[|transitions| - 1].to;
      var moved := m.(state := to, pending := [], effect := None);
      var settled := match m.effect
        case None => moved
        case Some(Take(window)) => moved.(window := Some(window))
        case Some(Action(at)) => moved.(actionedAt := Some(at))
        case Some(Close) => moved.(window := None);
      (settled, Ok(to))
  }

  // ----- The machine ------------------------------------------------------

  class Machine {
    const policy: Policy
    const variant: Variant
    var state: StrategyState
    var window: Option<(int, int)>
    var actionedAt: Option<int>
    var time: Option<int>
    var pending: seq<Transition>
    var effect: Option<Effect>

    ghost function View(): MachineState
      reads this
    {
      MachineState(state, window, actionedAt, time, pending, effect)
    }

    constructor (policy: Policy, variant: Variant)
      ensures View() == FRESH && this.policy == policy && this.variant == variant
    {
      this.policy, this.variant := policy, variant;
      state, window, actionedAt, time, pending, effect := FORMING, None, None, None, [], None;
    }

    method Forward(at: int) returns (error: Option<MachineError>)
      modifies this`time
      ensures match Forwarded(old(View()), at)
              case Ok(moved) => error == None && View() == moved
              case Err(e) => error == Some(e) && View() == old(View())
    {
      if time.Some? && at < time.value {
        return Some(TimeMovedBackward);
      }
      time := Some(at);
      return None;
    }

    /** Propose over an assessment already made, as the anchored machine is asked to. */
    method ProposeAssessed(request: Request, assessment: Assessment, id: string, staged: Option<string>)
      returns (r: Result<seq<Transition>, MachineError>)
      modifies this
      ensures (View(), r) == Proposed(old(View()), policy, request, assessment, id, staged)
    {
      hide Explain;
      if request.policy != policy {
        return Err(PolicyChanged);
      }
      if window.Some? && request.Window() != window.value {
        return Err(WindowChanged);
      }
      var backward := Forward(request.evaluatedAt);
      if backward.Some? {
        return Err(backward.value);
      }
      var target := assessment.state;
      if target == state {
        pending, effect := [], None;
        return Ok([]);
      }
      if state.state.AlertTriggered? && (target.state.Armed? || target.state.SetupForming?) {
        return Err(ActionFellBack);
      }
      if state.state.Armed? && target.state.SetupForming? {
        target := INVALIDATED;
      }
      if state.state.Invalidated? {
        return Err(ClosedReopened);
      }
      var reason := Explain(assessment);
      var twoSteps := state == FORMING && target.state.AlertTriggered?;
      var changes: seq<Transition> := [];
      var previous := state;
      if twoSteps {
        if staged.None? {
          return Err(SecondIdMissing);
        }
        changes := [Transition(id, request.evaluatedAt, previous, ARMED, PullbackFormedArmed)];
        previous := ARMED;
      } else if staged.Some? {
        return Err(SecondIdUnused);
      }
      if !Allowed(previous, target) {
        return Err(NotInRules);
      }
      var finalId := if twoSteps then staged.value else id;
      changes := changes + [Transition(finalId, request.evaluatedAt, previous, target, reason)];
      assert changes == Changes(old(View()), assessment.state, request.evaluatedAt, reason, id, staged).value;
      pending := changes;
      if target.state.AlertTriggered? {
        effect := Some(Action(request.evaluatedAt));
      } else if target.state.Armed? {
        effect := Some(Take(request.Window()));
      } else {
        effect := Some(Close);
      }
      return Ok(changes);
    }

    /** Evaluate and propose; an unanchored machine never needs a support reading. */
    method Propose(request: Request, id: string, staged: Option<string>)
      returns (assessment: Assessment, r: Result<seq<Transition>, MachineError>)
      requires !variant.anchored && request.Valid()
      modifies this
      ensures Assess(variant, request, None) == Ok(assessment)
      ensures (View(), r) == Proposed(old(View()), policy, request, assessment, id, staged)
    {
      assessment := Assess(variant, request, None).value;
      r := ProposeAssessed(request, assessment, id, staged);
    }

    method Expire(at: int, cause: string, id: string) returns (r: Result<seq<Transition>, MachineError>)
      modifies this
      ensures (View(), r) == ExpiryProposed(old(View()), at, cause, id)
    {
      var backward := Forward(at);
      if backward.Some? {
        return Err(backward.value);
      }
      if !Allowed(state, EXPIRED) {
        return Err(NotInRules);
      }
      var transition := Transition(id, at, state, EXPIRED, Expiry(cause));
      pending, effect := [transition], Some(Close);
      return Ok([transition]);
    }

    method Confirm(transitions: seq<Transition>) returns (r: Result<StrategyState, MachineError>)
      modifies this
      ensures (View(), r) == Confirmed(old(View()), transitions)
    {
      if pending == [] || transitions != pending {
        return Err(NotPending);
      }
      state := transitions[|transitions| - 1].to;
      match effect {
        case None =>
        case Some(Take(taken)) => window := Some(taken);
        case Some(Action(at)) => actionedAt := Some(at);
        case Some(Close) => window := None;
      }
      pending, effect := [], None;
      return Ok(state);
    }
  }

  // ----- What every run keeps ---------------------------------------------

  /** `steps` lead from `from` to `to` along allowed edges. */
  predicate Chain(from: StrategyState, steps: seq<Transition>, to: StrategyState)
    decreases |steps|
  {
    if steps == [] then from == to
    else steps[0].from == from && Allowed(from, steps[0].to) && Chain(steps[0].to, steps[1..], to)
  }

  function Last(from: StrategyState, steps: seq<Transition>): StrategyState {
    if steps == [] then from else steps[|steps| - 1].to
  }

  predicate Known(state: StrategyState) {
    state in {FORMING, ARMED, TRIGGERED, INVALIDATED, EXPIRED}
  }

  /** Pending transitions chain from the confirmed state, the effect belongs to the last of
      them, and a window is held only by an armed or triggered machine. */
  predicate Sound(m: MachineState) {
    && Known(m.state)
    && Chain(m.state, m.pending, Last(m.state, m.pending))
    && (m.effect.Some? <==> m.pending != [])
    && (m.pending != [] ==>
        var to := Last(m.state, m.pending);
        && (m.effect.value.Action? <==> to == TRIGGERED)
        && (m.effect.value.Take? <==> to == ARMED))
    && (m.window.Some? ==> m.state in {ARMED, TRIGGERED})
  }

  lemma ChangesChain(m: MachineState, assessed: StrategyState, at: int, why: Why, id: string, staged: Option<string>)
    requires Known(m.state) && assessed in {FORMING, ARMED, TRIGGERED, INVALIDATED} && assessed != m.state
    ensures var r := Changes(m, assessed, at, why, id, staged);
      && (r.Ok? ==> 1 <= |r.value| <= 2 && Chain(m.state, r.value, Last(m.state, r.value)))
      && (r.Ok? ==> Last(m.state, r.value) in {ARMED, TRIGGERED, INVALIDATED})
      && (r == Err(NotInRules) ==> m.state == EXPIRED)
      && (m.state == EXPIRED ==> r.Err?)
  {
    var r := Changes(m, assessed, at, why, id, staged);
    if r.Ok? {
      assert r.value[1..] == [] || r.value[1..] == [r.value[1]];
      assert |r.value| == 2 ==> r.value[1..][1..] == [];
    }
  }

  lemma ProposalKeepsSound(
      m: MachineState, policy: Policy, request: Request, assessment: Assessment, id: string, staged: Option<string>)
    requires Sound(m) && assessment.state in {FORMING, ARMED, TRIGGERED, INVALIDATED}
    ensures var (after, r) := Proposed(m, policy, request, assessment, id, staged);
      && Sound(after) && after.state == m.state
      && (r.Err? ==> after.pending == m.pending && after.effect == m.effect)
      && (r.Ok? ==> after.pending == r.value && |r.value| <= 2)
      && (r == Err(NotInRules) ==> m.state == EXPIRED)
      && (m.state == EXPIRED ==> r.Err?)
  {
    hide Explain;
    if assessment.state != m.state {
      ChangesChain(m, assessment.state, request.evaluatedAt, Explain(assessment), id, staged);
    }
    hide Changes, Chain;
    assert Chain(m.state, [], m.state) by {
      EmptyChain(m.state);
    }
  }

  lemma EmptyChain(state: StrategyState)
    ensures Chain(state, [], state)
  {
  }

  lemma ExpiryKeepsSound(m: MachineState, at: int, cause: string, id: string)
    requires Sound(m)
    ensures var (after, r) := ExpiryProposed(m, at, cause, id);
      && Sound(after) && after.state == m.state
      && (r.Err? ==> after.pending == m.pending)
      && (r == Err(NotInRules) ==> m.state == EXPIRED)
      && (m.state == EXPIRED ==> r.Err?)
  {
    var (after, r) := ExpiryProposed(m, at, cause, id);
    if r.Ok? {
      assert r.value[1..] == [];
    }
  }

  lemma ConfirmKeepsSound(m: MachineState, transitions: seq<Transition>)
    requires Sound(m)
    ensures var (after, r) := Confirmed(m, transitions);
      && Sound(after)
      && (r.Ok? ==> transitions == m.pending && after.state == Last(m.state, m.pending) && after.pending == [])
      && (r.Err? ==> after == m)
  {
    LastIsKnown(m.state, m.pending);
  }

  lemma {:induction false} LastIsKnown(from: StrategyState, steps: seq<Transition>)
    requires Known(from) && Chain(from, steps, Last(from, steps))
    ensures Known(Last(from, steps))
    decreases |steps|
  {
    if steps != [] {
      assert Last(from, steps) == Last(steps[0].to, steps[1..]);
      LastIsKnown(steps[0].to, steps[1..]);
    }
  }

  datatype Event =
    | Evaluate(request: Request, support: Option<Anchored>, id: string, staged: Option<string>)
    | ExpireAt(at: int, cause: string, id: string)
    | Record(transitions: seq<Transition>)

  /** A machine and the transitions confirmed on it so far. */
  datatype Run = Run(machine: MachineState, recorded: seq<Transition>)

  function Step(policy: Policy, variant: Variant, run: Run, event: Event): (Run, Option<MachineError>)
    requires event.Evaluate? ==> event.request.Valid()
  {
    match event
    case Evaluate(request, support, id, staged) =>
      (match Assess(variant, request, support)
       case Err(_) => (run, None)
       case Ok(assessment) =>
         var (after, r) := Proposed(run.machine, policy, request, assessment, id, staged);
         (run.(machine := after), if r.Err? then Some(r.error) else None))
    case ExpireAt(at, cause, id) =>
      var (after, r) := ExpiryProposed(run.machine, at, cause, id);
      (run.(machine := after), if r.Err? then Some(r.error) else None)
    case Record(transitions) =>
      var (after, r) := Confirmed(run.machine, transitions);
      if r.Err? then (run, Some(r.error)) else (Run(after, run.recorded + transitions), None)
  }

  predicate ValidEvents(events: seq<Event>) {
    forall i | 0 <= i < |events| && events[i].Evaluate? :: events[i].request.Valid()
  }

  /** Every error of a run, in order, and where the run ends. */
  function RunAll(policy: Policy, variant: Variant, events: seq<Event>): (Run, seq<(StrategyState, MachineError)>)
    requires ValidEvents(events)
    decreases |events|
  {
    if events == [] then (Run(FRESH, []), [])
    else
      var n := |events| - 1;
      var (run, errors) := RunAll(policy, variant, events[..n]);
      var (after, error) := Step(policy, variant, run, events[n]);
      (after, errors + if error.Some? then [(run.machine.state, error.value)] else [])
  }

  /** A run starts with a fresh machine and nothing recorded, and takes its events one at a time. */
  lemma RunsContinue(policy: Policy, variant: Variant, events: seq<Event>, event: Event)
    requires ValidEvents(events) && (event.Evaluate? ==> event.request.Valid())
    ensures RunAll(policy, variant, []) == (Run(FRESH, []), [])
    ensures ValidEvents(events + [event])
    ensures var (run, errors) := RunAll(policy, variant, events);
      var (after, error) := Step(policy, variant, run, event);
      RunAll(policy, variant, events + [event]) ==
      (after, errors + if error.Some? then [(run.machine.state, error.value)] else [])
  {
    hide Step;
    assert (events + [event])[..|events|] == events;
  }

  lemma {:induction false} ChainsJoin(
      a: StrategyState, left: seq<Transition>, b: StrategyState, right: seq<Transition>, c: StrategyState)
    requires Chain(a, left, b) && Chain(b, right, c)
    ensures Chain(a, left + right, c)
    decreases |left|
  {
    if left == [] {
      assert left + right == right;
    } else {
      ChainsJoin(left[0].to, left[1..], b, right, c);
      assert (left + right)[1..] == left[1..] + right;
    }
  }

  lemma StepKeepsSound(policy: Policy, variant: Variant, run: Run, event: Event)
    requires Sound(run.machine) && Chain(FORMING, run.recorded, run.machine.state)
    requires event.Evaluate? ==> event.request.Valid()
    ensures var (after, error) := Step(policy, variant, run, event);
      && Sound(after.machine) && Chain(FORMING, after.recorded, after.machine.state)
      && (error == Some(NotInRules) ==> run.machine.state == EXPIRED)
  {
    hide Sound, Chain, Proposed, ExpiryProposed;
    match event
    case Evaluate(request, support, id, staged) =>
      var assessed := Assess(variant, request, support);
      if assessed.Ok? {
        AssessedIsKnown(variant, request, support);
        ProposalKeepsSound(run.machine, policy, request, assessed.value, id, staged);
      }
    case ExpireAt(at, cause, id) =>
      ExpiryKeepsSound(run.machine, at, cause, id);
    case Record(transitions) =>
      ConfirmKeepsSound(run.machine, transitions);
      if Confirmed(run.machine, transitions).1.Ok? {
        PendingChains(run.machine);
        ChainsJoin(FORMING, run.recorded, run.machine.state, transitions, Last(run.machine.state, transitions));
      }
  }

  lemma AssessedIsKnown(variant: Variant, request: Request, support: Option<Anchored>)
    requires request.Valid() && Assess(variant, request, support).Ok?
    ensures Assess(variant, request, support).value.state in {FORMING, ARMED, TRIGGERED, INVALIDATED}
  {
    hide Row, SupportGate, AnchoredGate;
  }

  lemma PendingChains(m: MachineState)
    requires Sound(m)
    ensures Chain(m.state, m.pending, Last(m.state, m.pending))
  {
  }

  /** Over every run from a fresh machine: the machine stays sound, the recorded history is one
      chain of allowed edges from forming to the confirmed state, and the rules guard has fired
      only in the expired state. */
  lemma {:induction false} RunsAreSound(policy: Policy, variant: Variant, events: seq<Event>)
    requires ValidEvents(events)
    ensures var (run, errors) := RunAll(policy, variant, events);
      && Sound(run.machine)
      && Chain(FORMING, run.recorded, run.machine.state)
      && (forall i | 0 <= i < |errors| && errors[i].1 == NotInRules :: errors[i].0 == EXPIRED)
    decreases |events|
  {
    if events == [] {
    } else {
      var n := |events| - 1;
      RunsAreSound(policy, variant, events[..n]);
      hide Step, Sound, Chain;
      StepKeepsSound(policy, variant, RunAll(policy, variant, events[..n]).0, events[n]);
    }
  }

  // ----- What a recorded history looks like -------------------------------

  function Rank(state: StrategyState): int {
    match state.state
    case SetupForming => 0
    case Armed => 1
    case AlertTriggered => 2
    case Invalidated => 3
    case Expired => 4
  }

  /** Every step of a chain starts where the step before it ended. */
  lemma {:induction false} ChainLinks(from: StrategyState, steps: seq<Transition>, to: StrategyState, i: nat)
    requires Chain(from, steps, to) && i < |steps|
    ensures Allowed(steps[i].from, steps[i].to)
    ensures steps[i].from == if i == 0 then from else steps[i - 1].to
    ensures i == |steps| - 1 ==> steps[i].to == to
    decreases |steps|
  {
    if i > 0 {
      ChainLinks(steps[0].to, steps[1..], to, i - 1);
    }
  }

  lemma {:induction false} RanksRise(from: StrategyState, steps: seq<Transition>, to: StrategyState, i: nat, j: nat)
    requires Chain(from, steps, to) && i < j < |steps|
    ensures Rank(from) < Rank(steps[i].to) < Rank(steps[j].to)
    decreases j
  {
    ChainLinks(from, steps, to, j);
    if i + 1 < j {
      RanksRise(from, steps, to, i, j - 1);
    } else {
      FirstRankRises(from, steps, to, i);
    }
  }

  lemma {:induction false} FirstRankRises(from: StrategyState, steps: seq<Transition>, to: StrategyState, i: nat)
    requires Chain(from, steps, to) && i < |steps|
    ensures Rank(from) < Rank(steps[i].to)
    decreases i
  {
    ChainLinks(from, steps, to, i);
    if i > 0 {
      FirstRankRises(from, steps, to, i - 1);
    }
  }

  /** In a recorded history no state appears twice, an alert directly follows ARMED, only
      expiry follows invalidation, and nothing follows expiry. */
  lemma HistoryIsOrdered(history: seq<Transition>, to: StrategyState)
    requires Chain(FORMING, history, to)
    ensures forall i, j | 0 <= i < j < |history| :: history[i].to != history[j].to
    ensures forall i | 0 <= i < |history| :: history[i].to != FORMING
    ensures forall i | 0 <= i < |history| && history[i].to == TRIGGERED :: i > 0 && history[i - 1].to == ARMED
    ensures forall i | 0 <= i < |history| - 1 && history[i].to == INVALIDATED :: history[i + 1].to == EXPIRED
    ensures forall i | 0 <= i < |history| && history[i].to == EXPIRED :: i == |history| - 1
  {
    forall i, j | 0 <= i < j < |history| ensures history[i].to != history[j].to {
      RanksRise(FORMING, history, to, i, j);
    }
    forall i | 0 <= i < |history| ensures history[i].to != FORMING {
      ChainLinks(FORMING, history, to, i);
    }
    forall i | 0 <= i < |history| && history[i].to == TRIGGERED ensures i > 0 && history[i - 1].to == ARMED {
      ChainLinks(FORMING, history, to, i);
    }
    forall i | 0 <= i < |history| - 1
      ensures history[i].to == INVALIDATED ==> history[i + 1].to == EXPIRED
      ensures history[i].to != EXPIRED
    {
      ChainLinks(FORMING, history, to, i + 1);
    }
  }
}
