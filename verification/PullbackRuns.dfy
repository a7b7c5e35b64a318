/** Whole runs of the replay owners: any calls, in any order, with any instants. */
module PullbackRuns {
  import opened Wrappers
  import opened PullbackGates
  import opened PullbackMachine
  import opened PullbackReplay

  datatype Call =
    | UpdateAt(matches: bool, at: int)
    | ExpireOwnerAt(matches: bool, at: int, cause: string)
    | RecordPending

  /** An owner, the transitions it has confirmed, those it has returned, and each error with the
      confirmed state that met it. */
  datatype OwnerRun = OwnerRun(
    owner: OwnerState, recorded: seq<Transition>, returned: seq<Transition>,
    errors: seq<(StrategyState, OwnerError)>)

  const FRESH_RUN := OwnerRun(FRESH_OWNER, [], [], [])

  /** Whether a call reaches the confirmation of what was pending. */
  predicate Settles(time: Option<int>, call: Call) {
    match call
    case UpdateAt(matches, at) => matches && (time.Some? ==> time.value <= at)
    case ExpireOwnerAt(matches, at, _) => matches && (time.Some? ==> time.value <= at)
    case RecordPending => true
  }

  function Called(cfg: Config, o: OwnerState, call: Call): (OwnerState, Result<seq<Transition>, OwnerError>)
    requires cfg.Valid()
  {
    match call
    case UpdateAt(matches, at) => AfterUpdate(cfg, o, matches, at)
    case ExpireOwnerAt(matches, at, cause) => AfterExpiry(cfg, o, matches, at, cause)
    case RecordPending =>
      var (after, r) := AfterConfirm(o);
      (after, if r.Err? then Err(r.error) else Ok([]))
  }

  function Taken(cfg: Config, run: OwnerRun, call: Call): OwnerRun
    requires cfg.Valid()
  {
    var (after, r) := Called(cfg, run.owner, call);
    var settled := Settles(run.owner.time, call) && AfterConfirm(run.owner).1.Ok?;
    OwnerRun(
      after,
      run.recorded + (if settled then run.owner.pending else []),
      run.returned + (if r.Ok? then r.value else []),
      run.errors + (if r.Err? then [(after.machine.state, r.error)] else []))
  }

  function RunCalls(cfg: Config, calls: seq<Call>): OwnerRun
    requires cfg.Valid()
    decreases |calls|
  {
    if calls == [] then FRESH_RUN else Taken(cfg, RunCalls(cfg, calls[..|calls| - 1]), calls[|calls| - 1])
  }

  // ----- One call ---------------------------------------------------------

  /** The owner and its machine agree, and the machine knows no impulse but the owner's. */
  predicate Steady(cfg: Config, o: OwnerState) {
    && Sound(o.machine)
    && o.pending == o.machine.pending
    && (o.machine.time.Some? ==> o.time.Some? && o.machine.time.value <= o.time.value)
    && (o.machine.window.Some? ==> o.machine.window.value == (cfg.startedAt, cfg.frozenAt))
    && (o.machine.effect.Some? && o.machine.effect.value.Take? ==>
        o.machine.effect.value.window == (cfg.startedAt, cfg.frozenAt))
  }

  lemma ConfirmKeepsSteady(cfg: Config, o: OwnerState)
    requires Steady(cfg, o)
    ensures var (after, r) := AfterConfirm(o);
      && r == Ok(Last(o.machine.state, o.pending))
      && Steady(cfg, after)
      && after.pending == [] && after.machine.state == Last(o.machine.state, o.pending)
      && after.count == o.count && after.time == o.time
  {
    ConfirmKeepsSound(o.machine, o.pending);
    hide Chain;
  }

  /** The machine errors an owner can still meet, each in the one state that raises it. */
  predicate Expected(state: StrategyState, error: OwnerError) {
    error.FromMachine? ==>
      || (error.error == ActionFellBack && state == TRIGGERED)
      || (error.error == ClosedReopened && state == INVALIDATED)
      || (error.error == NotInRules && state == EXPIRED)
  }

  /** `changes` carry the identifiers counted just after `count`. */
  predicate Issued(cfg: Config, count: nat, changes: seq<Transition>) {
    forall i | 0 <= i < |changes| :: changes[i].recordId == TransitionId(cfg.prefix, count + 1 + i)
  }

  /** What an owner with nothing pending returned, against where it stood before. */
  predicate Answered(cfg: Config, before: OwnerState, after: OwnerState, r: Result<seq<Transition>, OwnerError>) {
    && Steady(cfg, after)
    && after.time == before.time && after.machine.state == before.machine.state
    && match r
       case Ok(changes) =>
         after.pending == changes && Issued(cfg, before.count, changes) && after.count >= before.count + |changes|
       case Err(error) => after.pending == [] && after.count >= before.count && Expected(before.machine.state, error)
  }

  /** What a machine answers when its policy, its impulse and its clock are respected and it is
      given a second identifier exactly when it needs one. */
  lemma ProposalErrors(
      m: MachineState, policy: Policy, request: Request, assessment: Assessment, id: string, second: string)
    requires Sound(m) && m.state != EXPIRED && assessment.state in {FORMING, ARMED, TRIGGERED, INVALIDATED}
    requires request.policy == policy && (m.time.Some? ==> m.time.value <= request.evaluatedAt)
    requires m.window.Some? ==> request.Window() == m.window.value
    ensures var staged := if m.state == FORMING && assessment.state.state.AlertTriggered? then Some(second) else None;
      var (after, r) := Proposed(m, policy, request, assessment, id, staged);
      && (r.Err? ==> Expected(m.state, FromMachine(r.error)))
      && after.time == Some(request.evaluatedAt) && after.window == m.window
      && (r.Err? ==> after.effect == m.effect)
      && (r.Ok? && after.effect.Some? && after.effect.value.Take? ==> after.effect.value.window == request.Window())
      && (r.Ok? && r.value != [] ==> r.value[0].recordId == id)
      && (r.Ok? && |r.value| == 2 ==> staged.Some? && r.value[1].recordId == second)
  {
    hide Explain, Chain;
  }

  predicate NeedsTwo(o: OwnerState, assessment: Assessment) {
    o.machine.state == FORMING && assessment.state.state.AlertTriggered?
  }

  /** An owner with nothing pending asks its machine with the next identifier, and the one after
      when two transitions are coming, and passes the machine's answer on. */
  lemma ProposalPassesOn(cfg: Config, o: OwnerState, request: Request, assessment: Assessment)
    requires o.pending == []
    ensures var id := TransitionId(cfg.prefix, o.count + 1);
      var staged := if NeedsTwo(o, assessment) then Some(TransitionId(cfg.prefix, o.count + 2)) else None;
      var (machine, r) := Proposed(o.machine, cfg.policy, request, assessment, id, staged);
      var (after, answer) := AfterProposal(cfg, o, request, assessment);
      && after.machine == machine && after.time == o.time
      && after.pending == (if r.Ok? then r.value else [])
      && after.count == o.count + (if staged.Some? then 2 else 1)
      && answer == (if r.Ok? then Ok(r.value) else Err(FromMachine(r.error)))
  {
    hide Proposed, TransitionId;
  }

  lemma ProposalAnswers(cfg: Config, o: OwnerState, request: Request, assessment: Assessment)
    requires Steady(cfg, o) && o.pending == [] && o.time == Some(request.evaluatedAt)
    requires request.policy == cfg.policy && request.Window() == (cfg.startedAt, cfg.frozenAt)
    requires assessment.state in {FORMING, ARMED, TRIGGERED, INVALIDATED} && o.machine.state != EXPIRED
    ensures var (after, r) := AfterProposal(cfg, o, request, assessment);
      Answered(cfg, o, after, r)
  {
    var id := TransitionId(cfg.prefix, o.count + 1);
    var second := TransitionId(cfg.prefix, o.count + 2);
    var staged := if NeedsTwo(o, assessment) then Some(second) else None;
    ProposalErrors(o.machine, cfg.policy, request, assessment, id, second);
    ProposalKeepsSound(o.machine, cfg.policy, request, assessment, id, staged);
    ProposalPassesOn(cfg, o, request, assessment);
    hide AfterProposal, Proposed, TransitionId, Sound, Expected;
  }

  lemma UpdateAnswers(cfg: Config, o: OwnerState, matches: bool, at: int)
    requires cfg.Valid() && Steady(cfg, o) && ContextFault(o, matches, at).None?
    ensures var (after, r) := AfterUpdate(cfg, o, matches, at);
      Answered(cfg, AfterConfirm(o).0.(time := Some(at)), after, r)
  {
    ConfirmKeepsSteady(cfg, o);
    var settled := AfterConfirm(o).0.(time := Some(at));
    hide AfterConfirm, AfterProposal, Assess, TransitionId, Chain;
    if at in cfg.steps && settled.machine.state != EXPIRED && RequestAt(cfg, at).Ok? {
      var request := RequestAt(cfg, at).value;
      var assessed := Assess(cfg.variant, request, cfg.SupportAt(at));
      if assessed.Ok? {
        AssessedIsKnown(cfg.variant, request, cfg.SupportAt(at));
        ProposalAnswers(cfg, settled.(assessed := None, note := Silent), request, assessed.value);
      }
    }
  }

  lemma ExpiryAnswers(cfg: Config, o: OwnerState, matches: bool, at: int, cause: string)
    requires Steady(cfg, o) && ContextFault(o, matches, at).None?
    ensures var (after, r) := AfterExpiry(cfg, o, matches, at, cause);
      Answered(cfg, AfterConfirm(o).0.(time := Some(at)), after, r)
  {
    ConfirmKeepsSteady(cfg, o);
    var settled := AfterConfirm(o).0.(time := Some(at));
    hide AfterConfirm, TransitionId, Chain;
    ExpiryKeepsSound(settled.machine, at, cause, TransitionId(cfg.prefix, settled.count + 1));
  }

  /** Every call either leaves the owner as it was, with an error of its own, or confirms what
      was pending and answers from there. */
  lemma CallAnswers(cfg: Config, o: OwnerState, call: Call)
    requires cfg.Valid() && Steady(cfg, o)
    ensures var (after, r) := Called(cfg, o, call);
      && AfterConfirm(o).1.Ok?
      && if Settles(o.time, call)
         then Answered(cfg, Settled(o, call), after, r)
         else after == o && r.Err? && !r.error.FromMachine?
  {
    ConfirmKeepsSteady(cfg, o);
    hide AfterConfirm, AfterUpdate, AfterExpiry, Chain, TransitionId;
    match call
    case UpdateAt(matches, at) =>
      if ContextFault(o, matches, at).None? { UpdateAnswers(cfg, o, matches, at); } else { FaultyCall(cfg, o, call); }
    case ExpireOwnerAt(matches, at, cause) =>
      if ContextFault(o, matches, at).None? { ExpiryAnswers(cfg, o, matches, at, cause); }
      else { FaultyCall(cfg, o, call); }
    case RecordPending =>
  }

  lemma FaultyCall(cfg: Config, o: OwnerState, call: Call)
    requires cfg.Valid() && !Settles(o.time, call)
    ensures var (after, r) := Called(cfg, o, call);
      after == o && r.Err? && !r.error.FromMachine?
  {
    hide AfterConfirm, AfterProposal, Assess;
  }

  /** The owner once what was pending is confirmed and the call's instant is taken. */
  function Settled(o: OwnerState, call: Call): OwnerState {
    var confirmed := AfterConfirm(o).0;
    match call
    case UpdateAt(_, at) => confirmed.(time := Some(at))
    case ExpireOwnerAt(_, at, _) => confirmed.(time := Some(at))
    case RecordPending => confirmed
  }

  // ----- Every run --------------------------------------------------------

  predicate Counted(cfg: Config, id: string, count: nat) {
    exists n: nat :: 1 <= n <= count && id == TransitionId(cfg.prefix, n)
  }

  /** Every identifier is one the owner has counted, and no two are equal. */
  predicate Numbered(cfg: Config, returned: seq<Transition>, count: nat) {
    && (forall i | 0 <= i < |returned| :: Counted(cfg, returned[i].recordId, count))
    && (forall i, j | 0 <= i < j < |returned| :: returned[i].recordId != returned[j].recordId)
  }

  /** What every run keeps: nothing returned is ever lost or reordered, the recorded history is
      one allowed chain, identifiers are distinct, and no error names an identifier, the impulse
      window, the policy, the pending transitions or the machine's own clock. */
  predicate Orderly(cfg: Config, run: OwnerRun) {
    && Steady(cfg, run.owner)
    && run.returned == run.recorded + run.owner.pending
    && Chain(FORMING, run.recorded, run.owner.machine.state)
    && Numbered(cfg, run.returned, run.owner.count)
    && (forall i | 0 <= i < |run.errors| :: Expected(run.errors[i].0, run.errors[i].1))
  }

  lemma {:induction false} EveryRunIsOrderly(cfg: Config, calls: seq<Call>)
    requires cfg.Valid()
    ensures Orderly(cfg, RunCalls(cfg, calls))
    decreases |calls|
  {
    if calls != [] {
      EveryRunIsOrderly(cfg, calls[..|calls| - 1]);
      CallKeepsOrder(cfg, RunCalls(cfg, calls[..|calls| - 1]), calls[|calls| - 1]);
    }
  }

  lemma CallKeepsOrder(cfg: Config, run: OwnerRun, call: Call)
    requires cfg.Valid() && Orderly(cfg, run)
    ensures Orderly(cfg, Taken(cfg, run, call))
  {
    var o := run.owner;
    var (after, r) := Called(cfg, o, call);
    var next := Taken(cfg, run, call);
    CallAnswers(cfg, o, call);
    ConfirmKeepsSteady(cfg, o);
    assert r.Ok? ==> Settles(o.time, call);
    hide Called, AfterConfirm, Chain, Numbered, Issued, Sound, Settles;
    if Settles(o.time, call) {
      assert Settled(o, call).count == o.count && Settled(o, call).machine.state == Last(o.machine.state, o.pending);
      PendingExtends(run.recorded, o);
      var changes := if r.Ok? then r.value else [];
      IdsStayDistinct(cfg, run.returned, o.count, changes, after.count);
      assert next.recorded == run.returned && next.returned == run.returned + changes;
      if r.Ok? {
        assert next.returned == next.recorded + after.pending;
      } else {
        assert next.errors == run.errors + [(after.machine.state, r.error)];
      }
    } else {
      assert next.recorded == run.recorded && next.returned == run.returned;
    }
  }

  lemma PendingExtends(recorded: seq<Transition>, o: OwnerState)
    requires Chain(FORMING, recorded, o.machine.state) && Sound(o.machine) && o.pending == o.machine.pending
    ensures Chain(FORMING, recorded + o.pending, Last(o.machine.state, o.pending))
  {
    ChainsJoin(FORMING, recorded, o.machine.state, o.pending, Last(o.machine.state, o.pending));
  }

  lemma IdsStayDistinct(cfg: Config, earlier: seq<Transition>, count: nat, changes: seq<Transition>, after: nat)
    requires Numbered(cfg, earlier, count)
    requires Issued(cfg, count, changes) && after >= count + |changes|
    ensures Numbered(cfg, earlier + changes, after)
  {
    hide TransitionId;
    var all := earlier + changes;
    forall i | 0 <= i < |all| ensures Counted(cfg, all[i].recordId, after) {
      if i >= |earlier| {
        assert all[i] == changes[i - |earlier|];
      }
    }
    forall i, j | 0 <= i < j < |all| ensures all[i].recordId != all[j].recordId {
      if j >= |earlier| {
        assert all[j] == changes[j - |earlier|];
        if i >= |earlier| {
          assert all[i] == changes[i - |earlier|];
          IdsDifferUnless(cfg.prefix, count + 1 + i - |earlier|, count + 1 + j - |earlier|);
        } else {
          assert all[i] == earlier[i] && Counted(cfg, earlier[i].recordId, count);
          var n: nat :| 1 <= n <= count && all[i].recordId == TransitionId(cfg.prefix, n);
          IdsDifferUnless(cfg.prefix, n, count + 1 + j - |earlier|);
        }
      }
    }
  }

  lemma IdsDifferUnless(prefix: string, n: nat, m: nat)
    requires n != m
    ensures TransitionId(prefix, n) != TransitionId(prefix, m)
  {
    if TransitionId(prefix, n) == TransitionId(prefix, m) {
      IdsDiffer(prefix, n, m);
    }
  }

  /** Over every run, of all an owner ever returned: no state comes twice, an alert directly
      follows ARMED, only expiry follows invalidation, and nothing follows expiry. */
  lemma ReturnedHistoryIsOrdered(cfg: Config, calls: seq<Call>)
    requires cfg.Valid()
    ensures var history := RunCalls(cfg, calls).returned;
      && (forall i, j | 0 <= i < j < |history| :: history[i].to != history[j].to)
      && (forall i | 0 <= i < |history| && history[i].to == TRIGGERED :: i > 0 && history[i - 1].to == ARMED)
      && (forall i | 0 <= i < |history| - 1 && history[i].to == INVALIDATED :: history[i + 1].to == EXPIRED)
      && (forall i | 0 <= i < |history| && history[i].to == EXPIRED :: i == |history| - 1)
  {
    hide RunCalls, Chain, Last, Numbered, Sound, Expected;
    EveryRunIsOrderly(cfg, calls);
    var run := RunCalls(cfg, calls);
    PendingExtends(run.recorded, run.owner);
    HistoryIsOrdered(run.returned, Last(run.owner.machine.state, run.owner.pending));
  }
}
