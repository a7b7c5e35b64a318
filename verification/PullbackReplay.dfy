/** The replay owner of `consensus_engine/first_pullback_vwap_replay.py` and the owners of the
three research candidates, which drive a `PullbackMachine.Machine` over supplied steps.

The candidates' owners differ only in which assessment they use, so one owner carries the
candidate as its `variant`.
*/
module PullbackReplay {
  import opened Wrappers
  import opened PullbackGates
  import opened PullbackMachine

  // ----- Transition identifiers -------------------------------------------

  function Digits(n: nat): (s: string)
    ensures |s| >= 1
  {
    (if n < 10 then [] else Digits(n / 10)) + [(n % 10 + '0' as int) as char]
  }

  function Padded(s: string): string {
    seq(if |s| < 3 then 3 - |s| else 0, _ => '0') + s
  }

  /** A prefix, a dash and a count of at least three digits. */
  function TransitionId(prefix: string, n: nat): string {
    prefix + "-" + Padded(Digits(n))
  }

  function NumberOf(s: string): int {
    if s == [] then 0 else 10 * NumberOf(s[..|s| - 1]) + (s[|s| - 1] as int - '0' as int)
  }

  lemma {:induction false} DigitsRead(n: nat)
    ensures NumberOf(Digits(n)) == n
  {
    if n >= 10 {
      DigitsRead(n / 10);
      assert Digits(n)[..|Digits(n)| - 1] == Digits(n / 10);
    }
  }

  lemma {:induction false} LeadingZero(s: string)
    ensures NumberOf("0" + s) == NumberOf(s)
  {
    if s == [] {
      assert "0" + s == "0";
      assert NumberOf("0") == 10 * NumberOf("0"[..0]);
    } else {
      LeadingZero(s[..|s| - 1]);
      assert ("0" + s)[..|s|] == "0" + s[..|s| - 1];
    }
  }

  lemma PaddedRead(s: string)
    requires |s| >= 1
    ensures NumberOf(Padded(s)) == NumberOf(s)
  {
    hide NumberOf;
    LeadingZero(s);
    LeadingZero("0" + s);
    var zeros := seq(if |s| < 3 then 3 - |s| else 0, _ => '0');
    if |s| == 1 {
      assert zeros == "0" + "0";
      assert zeros + s == "0" + ("0" + s);
    } else if |s| == 2 {
      assert zeros == "0";
    } else {
      assert zeros + s == s;
    }
  }

  /** Different counts give different identifiers. */
  lemma IdsDiffer(prefix: string, n: nat, m: nat)
    requires TransitionId(prefix, n) == TransitionId(prefix, m)
    ensures n == m
  {
    hide Padded, Digits;
    DigitsRead(n);
    DigitsRead(m);
    PaddedRead(Digits(n));
    PaddedRead(Digits(m));
    assert TransitionId(prefix, n)[|prefix| + 1..] == Padded(Digits(n));
    assert TransitionId(prefix, m)[|prefix| + 1..] == Padded(Digits(m));
  }

  // ----- The owner's state ------------------------------------------------

  datatype ReplayStep = ReplayStep(
    measurement: Measurement, atr: Option<real>, ordinal: Option<int>, vwap: Option<VwapContext>,
    strength: Option<RelativeStrength>, lastTrade: Option<Observation>, quote: Option<QuoteDecision>,
    structural: Option<Structural>, confidence: Option<Confidence>)

  datatype Config = Config(
    variant: Variant, policy: Policy, measurementDirection: Direction, symbol: string,
    strategyVersion: string, startedAt: int, frozenAt: int, prefix: string,
    steps: map<int, ReplayStep>, supports: map<int, Anchored>)
  {
    predicate Valid() {
      forall at | at in steps && steps[at].structural.Some? :: steps[at].structural.value.Valid()
    }

    function SupportAt(at: int): Option<Anchored> {
      if variant.anchored && at in supports then Some(supports[at]) else None
    }
  }

  datatype OwnerError =
    | WrongContext | ContextMovedBackward | NoSuppliedStep | RequestRefused | SupportRefused
    | FromMachine(error: MachineError)

  datatype Note = Silent | SessionExpired | NoStateChange(state: StrategyState)

  datatype OwnerState = OwnerState(
    machine: MachineState, pending: seq<Transition>, count: nat, time: Option<int>,
    assessed: Option<StrategyState>, note: Note)

  const FRESH_OWNER := OwnerState(FRESH, [], 0, None, None, Silent)

  /** The request a step makes at an instant, or its refusal by the request's own checks. */
  function RequestAt(cfg: Config, at: int): (r: Result<Request, OwnerError>)
    requires cfg.Valid()
    ensures r.Ok? ==> r.value.Valid() && r.value.policy == cfg.policy && r.value.evaluatedAt == at
    ensures r.Ok? ==> r.value.Window() == (cfg.startedAt, cfg.frozenAt)
  {
    if at !in cfg.steps then Err(NoSuppliedStep)
    else
      var step := cfg.steps[at];
      if at < cfg.frozenAt || (step.atr.Some? && step.atr.value <= 0.0)
         || (step.ordinal.Some? && step.ordinal.value < 1)
      then Err(RequestRefused)
      else Ok(Request(
        step.measurement, cfg.measurementDirection, cfg.policy, at, cfg.symbol, cfg.strategyVersion,
        cfg.startedAt, cfg.frozenAt, step.atr, step.ordinal, step.vwap, step.strength, step.lastTrade,
        step.quote, step.structural, step.confidence))
  }

  function ContextFault(o: OwnerState, matches: bool, at: int): Option<OwnerError> {
    if !matches then Some(WrongContext)
    else if o.time.Some? && at < o.time.value then Some(ContextMovedBackward)
    else None
  }

  function AfterConfirm(o: OwnerState): (OwnerState, Result<StrategyState, OwnerError>) {
    if o.pending == [] then (o, Ok(o.machine.state))
    else
      var (machine, r) := Confirmed(o.machine, o.pending);
      if r.Err? then (o.(machine := machine), Err(FromMachine(r.error)))
      else (o.(machine := machine, pending := []), Ok(machine.state))
  }

  function AfterProposal(cfg: Config, o: OwnerState, request: Request, assessment: Assessment)
    : (OwnerState, Result<seq<Transition>, OwnerError>)
  {
    var needsTwo := o.machine.state == FORMING && assessment.state.state.AlertTriggered?;
    var id := TransitionId(cfg.prefix, o.count + 1);
    var staged := if needsTwo then Some(TransitionId(cfg.prefix, o.count + 2)) else None;
    var counted := o.(count := o.count + if needsTwo then 2 else 1);
    var (machine, r) := Proposed(o.machine, cfg.policy, request, assessment, id, staged);
    match r
    case Err(error) => (counted.(machine := machine), Err(FromMachine(error)))
    case Ok(changes) =>
      var seen := counted.(machine := machine, assessed := Some(assessment.state));
      if changes != [] then (seen.(pending := changes), Ok(changes))
      else (seen.(note := NoStateChange(assessment.state)), Ok([]))
  }

  function AfterUpdate(
      cfg: Config, o: OwnerState, matches: bool, at: int): (OwnerState, Result<seq<Transition>, OwnerError>)
    requires cfg.Valid()
  {
    var fault := ContextFault(o, matches, at);
    if fault.Some? then (o, Err(fault.value))
    else
      var (settled, confirmed) := AfterConfirm(o);
      if confirmed.Err? then (settled, Err(confirmed.error))
      else
        var timed := settled.(time := Some(at));
        if at !in cfg.steps then (timed, Err(NoSuppliedStep))
        else
          var cleared := timed.(assessed := None, note := Silent);
          if cleared.machine.state == EXPIRED then (cleared.(note := SessionExpired), Ok([]))
          else
            var request := RequestAt(cfg, at);
            if request.Err? then (cleared, Err(request.error))
            else
              var assessed := Assess(cfg.variant, request.value, cfg.SupportAt(at));
              if assessed.Err? then (cleared, Err(SupportRefused))
              else AfterProposal(cfg, cleared, request.value, assessed.value)
  }

  function AfterExpiry(cfg: Config, o: OwnerState, matches: bool, at: int, cause: string)
    : (OwnerState, Result<seq<Transition>, OwnerError>)
  {
    var fault := ContextFault(o, matches, at);
    if fault.Some? then (o, Err(fault.value))
    else
      var (settled, confirmed) := AfterConfirm(o);
      if confirmed.Err? then (settled, Err(confirmed.error))
      else
        var counted := settled.(time := Some(at), count := settled.count + 1);
        var (machine, r) := ExpiryProposed(counted.machine, at, cause, TransitionId(cfg.prefix, counted.count));
        match r
        case Err(error) => (counted.(machine := machine), Err(FromMachine(error)))
        case Ok(changes) => (counted.(machine := machine, pending := changes), Ok(changes))
  }

  // ----- The owner --------------------------------------------------------

  class Owner {
    const cfg: Config
    var machine: Machine
    var pending: seq<Transition>
    var count: nat
    var time: Option<int>
    var assessed: Option<StrategyState>
    var note: Note

    ghost predicate Valid()
      reads this
    {
      cfg.Valid() && machine.policy == cfg.policy && machine.variant == cfg.variant
    }

    ghost function View(): OwnerState
      reads this, machine
    {
      OwnerState(machine.View(), pending, count, time, assessed, note)
    }

    constructor (cfg: Config)
      requires cfg.Valid()
      ensures Valid() && fresh(machine) && this.cfg == cfg && View() == FRESH_OWNER
    {
      this.cfg := cfg;
      machine := new Machine(cfg.policy, cfg.variant);
      pending, count, time, assessed, note := [], 0, None, None, Silent;
    }

    method ConfirmRecorded() returns (r: Result<StrategyState, OwnerError>)
      requires Valid()
      modifies this, machine
      ensures Valid() && machine == old(machine)
      ensures (View(), r) == AfterConfirm(old(View()))
    {
      if pending != [] {
        var confirmed := machine.Confirm(pending);
        if confirmed.Err? {
          return Err(FromMachine(confirmed.error));
        }
        pending := [];
      }
      return Ok(machine.state);
    }

    method NextId() returns (id: string)
      requires Valid()
      modifies this`count
      ensures count == old(count) + 1 && id == TransitionId(cfg.prefix, count)
    {
      count := count + 1;
      id := TransitionId(cfg.prefix, count);
    }

    method ProposeStep(request: Request) returns (r: Result<seq<Transition>, OwnerError>)
      requires Valid() && request.Valid()
      modifies this, machine
      ensures Valid() && machine == old(machine)
      ensures match Assess(cfg.variant, request, cfg.SupportAt(request.evaluatedAt))
              case Err(_) => r == Err(SupportRefused) && View() == old(View())
              case Ok(assessment) => (View(), r) == AfterProposal(cfg, old(View()), request, assessment)
    {
      hide Assess, Proposed, TransitionId;
      var assessment := Assess(cfg.variant, request, cfg.SupportAt(request.evaluatedAt));
      if assessment.Err? {
        return Err(SupportRefused);
      }
      var target := assessment.value.state;
      var needsTwo := machine.state == FORMING && target.state.AlertTriggered?;
      var id := NextId();
      var staged := None;
      if needsTwo {
        var second := NextId();
        staged := Some(second);
      }
      var changes;
      if cfg.variant.anchored {
        changes := machine.ProposeAssessed(request, assessment.value, id, staged);
      } else {
        var again;
        again, changes := machine.Propose(request, id, staged);
      }
      if changes.Err? {
        return Err(FromMachine(changes.error));
      }
      assessed := Some(target);
      if changes.value != [] {
        pending := changes.value;
      } else {
        note := NoStateChange(target);
      }
      return Ok(changes.value);
    }

    method Update(matches: bool, at: int) returns (r: Result<seq<Transition>, OwnerError>)
      requires Valid()
      modifies this, machine
      ensures Valid() && machine == old(machine)
      ensures (View(), r) == AfterUpdate(cfg, old(View()), matches, at)
    {
      hide Assess, AfterProposal, Confirmed;
      if !matches {
        return Err(WrongContext);
      }
      if time.Some? && at < time.value {
        return Err(ContextMovedBackward);
      }
      var confirmed := ConfirmRecorded();
      if confirmed.Err? {
        return Err(confirmed.error);
      }
      time := Some(at);
      if at !in cfg.steps {
        return Err(NoSuppliedStep);
      }
      assessed, note := None, Silent;
      if machine.state == EXPIRED {
        note := SessionExpired;
        return Ok([]);
      }
      var request := RequestAt(cfg, at);
      if request.Err? {
        return Err(request.error);
      }
      r := ProposeStep(request.value);
    }

    method Expire(matches: bool, at: int, cause: string) returns (r: Result<seq<Transition>, OwnerError>)
      requires Valid()
      modifies this, machine
      ensures Valid() && machine == old(machine)
      ensures (View(), r) == AfterExpiry(cfg, old(View()), matches, at, cause)
    {
      hide Confirmed, TransitionId;
      if !matches {
        return Err(WrongContext);
      }
      if time.Some? && at < time.value {
        return Err(ContextMovedBackward);
      }
      var confirmed := ConfirmRecorded();
      if confirmed.Err? {
        return Err(confirmed.error);
      }
      time := Some(at);
      var id := NextId();
      var changes := machine.Expire(at, cause, id);
      if changes.Err? {
        return Err(FromMachine(changes.error));
      }
      pending := changes.value;
      return Ok(changes.value);
    }
  }
}
