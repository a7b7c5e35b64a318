/** When things happened in a machine's runs: recorded instants never go back, and the machine
remembers exactly when its alert was recorded for.
*/
module PullbackHistory {
  import opened Wrappers
  import opened PullbackGates
  import opened PullbackMachine

  /** The instant of the last alert in a history. */
  function AlertTime(history: seq<Transition>): Option<int>
    decreases |history|
  {
    if history == [] then None
    else if history[|history| - 1].to == TRIGGERED then Some(history[|history| - 1].at)
    else AlertTime(history[..|history| - 1])
  }

  /** Recorded instants never fall, pending ones share one instant no earlier than any recorded,
      none is later than the machine's clock, and the remembered action is the recorded alert. */
  predicate Timed(m: MachineState, recorded: seq<Transition>) {
    && (forall i, j | 0 <= i < j < |recorded| :: recorded[i].at <= recorded[j].at)
    && (forall i | 0 <= i < |recorded| :: m.time.Some? && recorded[i].at <= m.time.value)
    && (forall k | 0 <= k < |m.pending| ::
         m.time.Some? && m.pending[k].at <= m.time.value && m.pending[k].at == m.pending[0].at)
    && (forall i, k | 0 <= i < |recorded| && 0 <= k < |m.pending| :: recorded[i].at <= m.pending[k].at)
    && (m.effect.Some? && m.effect.value.Action? ==> m.pending != [] && m.effect.value.at == m.pending[0].at)
    && |m.pending| <= 2 && (|m.pending| == 2 ==> m.pending[0].to == ARMED)
    && m.actionedAt == AlertTime(recorded)
  }

  lemma ProposalStaysTimed(
      m: MachineState, recorded: seq<Transition>, policy: Policy, request: Request,
      assessment: Assessment, id: string, staged: Option<string>)
    requires Timed(m, recorded)
    ensures Timed(Proposed(m, policy, request, assessment, id, staged).0, recorded)
  {
    hide Explain, AlertTime, Allowed;
  }

  lemma ExpiryStaysTimed(m: MachineState, recorded: seq<Transition>, at: int, cause: string, id: string)
    requires Timed(m, recorded)
    ensures Timed(ExpiryProposed(m, at, cause, id).0, recorded)
  {
    hide AlertTime, Allowed;
  }

  lemma {:induction false} AlertTimeJoins(history: seq<Transition>, more: seq<Transition>)
    ensures AlertTime(history + more) == if AlertTime(more).Some? then AlertTime(more) else AlertTime(history)
    decreases |more|
  {
    if more == [] {
      assert history + more == history;
    } else {
      AlertTimeJoins(history, more[..|more| - 1]);
      assert (history + more)[..|history + more| - 1] == history + more[..|more| - 1];
    }
  }

  /** Only the last pending transition may be an alert, and then the staged effect is its action. */
  lemma PendingAlert(m: MachineState, recorded: seq<Transition>)
    requires Sound(m) && Timed(m, recorded) && m.pending != []
    ensures AlertTime(m.pending) == if m.effect.value.Action? then Some(m.effect.value.at) else None
  {
    var last := |m.pending| - 1;
    if last == 1 {
      assert m.pending[..1] == [m.pending[0]] && [m.pending[0]][..0] == [];
      assert AlertTime([m.pending[0]]) == None;
    } else {
      assert m.pending[..0] == [];
    }
  }

  lemma ConfirmStaysTimed(m: MachineState, recorded: seq<Transition>, transitions: seq<Transition>)
    requires Sound(m) && Timed(m, recorded)
    ensures Confirmed(m, transitions).1.Ok? ==> Timed(Confirmed(m, transitions).0, recorded + transitions)
  {
    var (after, r) := Confirmed(m, transitions);
    if r.Ok? {
      PendingAlert(m, recorded);
      AlertTimeJoins(recorded, m.pending);
      hide AlertTime, Sound;
      var all := recorded + m.pending;
      forall i, j | 0 <= i < j < |all| ensures all[i].at <= all[j].at {
        assert i >= |recorded| ==> all[i] == m.pending[i - |recorded|];
        assert j >= |recorded| ==> all[j] == m.pending[j - |recorded|];
      }
    }
  }

  /** Over every run: recorded instants never go back, and the machine remembers the instant of
      its recorded alert and no other. */
  lemma {:induction false} RunsAreTimed(policy: Policy, variant: Variant, events: seq<Event>)
    requires ValidEvents(events)
    ensures var run := RunAll(policy, variant, events).0; Timed(run.machine, run.recorded)
    decreases |events|
  {
    if events != [] {
      var n := |events| - 1;
      RunsAreTimed(policy, variant, events[..n]);
      RunsAreSound(policy, variant, events[..n]);
      StepStaysTimed(policy, variant, RunAll(policy, variant, events[..n]).0, events[n]);
    }
  }

  lemma StepStaysTimed(policy: Policy, variant: Variant, run: Run, event: Event)
    requires event.Evaluate? ==> event.request.Valid()
    requires Sound(run.machine) && Timed(run.machine, run.recorded)
    ensures var after := Step(policy, variant, run, event).0; Timed(after.machine, after.recorded)
  {
    hide Timed, Sound, Assess, Proposed, ExpiryProposed, Confirmed;
    match event
    case Evaluate(request, support, id, staged) =>
      var assessed := Assess(variant, request, support);
      if assessed.Ok? {
        ProposalStaysTimed(run.machine, run.recorded, policy, request, assessed.value, id, staged);
      }
    case ExpireAt(at, cause, id) => ExpiryStaysTimed(run.machine, run.recorded, at, cause, id);
    case Record(transitions) => ConfirmStaysTimed(run.machine, run.recorded, transitions);
  }
}
