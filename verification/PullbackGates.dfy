/** The fifteen gates of `consensus_engine/first_pullback_vwap.py`, the state they support,
and the three research variants that re-derive that state from altered gates.

A gate keeps its status and its reason; the numbers it also reports are not modelled.
*/
module PullbackGates {
  import opened Wrappers
  import opened Rationals

  datatype Direction = Long | Short {
    /** `x` times the direction's sign. */
    function Signed(x: real): real { if Long? then x else -x }

    function Opposite(): Direction { if Long? then Short else Long }
  }

  datatype Status = Pass | Fail | Unknown

  datatype FeatureName =
    | ImpulseComplete | ImpulseOrdered | ImpulseDistanceAtr | ImpulseFromVwap
    | PullbackComplete | PullbackExtreme | PullbackFromVwap
    | ReversalHigh | ReversalLow | Retracement | VolumeRatio

  /** Why a gate did not pass. The first four are the reasons that end a formed pullback;
      `Text` is any other fixed or supplied code, and the last two build longer codes. */
  datatype Reason =
    | CoverageLost
    | OrdinalBeyondMaximum
    | RetracementBeyondKill
    | CrossesAboveMaximum
    | Text(text: string)
    | Absent(name: FeatureName)
    | Tagged(tag: string, inner: Reason)
  {
    predicate Invalidates() {
      CoverageLost? || OrdinalBeyondMaximum? || RetracementBeyondKill? || CrossesAboveMaximum?
    }
  }

  datatype Gate = Gate(status: Status, reason: Option<Reason>) {
    predicate Invalidates() {
      reason.Some? && reason.value.Invalidates()
    }
  }

  const PASSED := Gate(Pass, None)

  function Failed(reason: Reason): Gate { Gate(Fail, Some(reason)) }

  function NotKnown(reason: Reason): Gate { Gate(Unknown, Some(reason)) }

  function Judge(passed: bool, reason: Reason): Gate {
    if passed then PASSED else Failed(reason)
  }

  // ----- What the caller supplies -----------------------------------------

  datatype Policy = Policy(
    direction: Direction, mode: string, maxAge: real, minImpulseAtr: real, minImpulseVwapAtr: real,
    minSlope: real, maxCrosses: int, minStrength: real,
    minRetracement: real, maxRetracement: real, killRetracement: real,
    maxVolumeRatio: real, maxSupportAtr: real, minTriggerOffset: real, minTriggerAtr: real,
    maxSpreadBps: real, maxOrdinal: int, minFirstTargetR: real)
  {
    /** What a policy must satisfy to be constructed at all. */
    predicate Valid() {
      && mode in MODES && maxAge >= 0.0 && maxSupportAtr >= 0.0 && minStrength >= 0.0
      && maxCrosses >= 1 && maxOrdinal >= 1
      && minImpulseAtr > 0.0 && minImpulseVwapAtr > 0.0 && minSlope > 0.0 && maxVolumeRatio > 0.0
      && minTriggerOffset > 0.0 && minTriggerAtr > 0.0 && maxSpreadBps > 0.0 && minFirstTargetR > 0.0
      && 0.0 < minRetracement < maxRetracement <= killRetracement <= 1.0
    }
  }

  const MODES := {"TAPE", "QUOTE_PROJECTED"}

  datatype Feature = Feature(value: Option<real>, missing: Option<Reason>)

  datatype Measurement = Measurement(
    supportedVersion: bool, supportedDataMode: bool, symbol: string, evaluatedAt: int,
    features: map<FeatureName, Feature>)

  datatype VwapContext = VwapContext(
    availableAt: int, coverageComplete: bool, level: Option<real>, slope: Option<real>,
    crosses: Option<int>, missing: Reason)

  datatype RelativeStrength = RelativeStrength(
    availableAt: int, coverageComplete: bool, value: Option<real>, missing: Reason)

  datatype Observation = Observation(
    mode: string, availableAt: int, coverageKnown: bool, price: Option<real>,
    ageSeconds: Option<real>, missing: Option<Reason>)

  datatype Quote = Quote(valid: bool, realtime: bool, bid: Option<real>, ask: Option<real>)

  datatype QuoteDecision = QuoteDecision(
    usable: bool, reasons: seq<Reason>, ageSeconds: Option<real>, quote: Option<Quote>)

  datatype Risk = Risk(entry: real, stop: real, perShare: real)

  datatype Target = Target(name: string, price: real, rMultiple: real)

  datatype Structural = Structural(
    direction: Direction, impulseFrozenAt: int, evaluatedAt: int, availableAt: int,
    risk: Option<Risk>, targets: seq<Target>, missing: Reason)
  {
    predicate Valid() {
      risk.Some? ==> risk.value.perShare > 0.0
    }
  }

  datatype Confidence = Confidence(
    forThisStrategy: bool, strategyVersion: string, direction: Direction, evaluatedAt: int,
    ready: bool, reason: Reason)

  datatype Request = Request(
    measurement: Measurement, measurementDirection: Direction, policy: Policy, evaluatedAt: int,
    symbol: string, strategyVersion: string, impulseStartedAt: int, impulseFrozenAt: int,
    atr: Option<real>, ordinal: Option<int>, vwap: Option<VwapContext>,
    strength: Option<RelativeStrength>, lastTrade: Option<Observation>,
    quote: Option<QuoteDecision>, structural: Option<Structural>, confidence: Option<Confidence>)
  {
    function Direction(): Direction { policy.direction }

    function Window(): (int, int) { (impulseStartedAt, impulseFrozenAt) }

    predicate Valid() {
      structural.Some? ==> structural.value.Valid()
    }
  }

  // ----- The gates --------------------------------------------------------

  function Reading(request: Request, name: FeatureName): Result<real, Reason> {
    if name !in request.measurement.features then Err(Absent(name))
    else
      var feature := request.measurement.features[name];
      match feature.value
      case Some(value) => Ok(value)
      case None => Err(feature.missing.GetOr(Text("MEASUREMENT_VALUE_UNAVAILABLE")))
  }

  function CompletionFault(request: Request, name: FeatureName, leg: FeatureName, code: string): Option<Reason> {
    match Reading(request, name)
    case Err(reason) => Some(reason)
    case Ok(value) =>
      if value != 0.0 then None
      else
        match Reading(request, leg)
        case Ok(_) => Some(Text(code))
        case Err(reason) => Some(Tagged(code, reason))
  }

  function MeasurementGate(request: Request): Gate {
    var supplied := request.measurement;
    if !supplied.supportedVersion then NotKnown(Text("MEASUREMENT_VERSION_MISMATCH"))
    else if !supplied.supportedDataMode then NotKnown(Text("MEASUREMENT_DATA_MODE_MISMATCH"))
    else if supplied.symbol != request.symbol then NotKnown(Text("MEASUREMENT_SYMBOL_MISMATCH"))
    else if request.measurementDirection != request.Direction() then NotKnown(Text("MEASUREMENT_DIRECTION_MISMATCH"))
    else if supplied.evaluatedAt != request.evaluatedAt then NotKnown(Text("MEASUREMENT_NOT_CURRENT"))
    else
      var impulse := CompletionFault(request, ImpulseComplete, ImpulseDistanceAtr, "IMPULSE_INCOMPLETE");
      if impulse.Some? then NotKnown(impulse.value)
      else
        var pullback := CompletionFault(request, PullbackComplete, PullbackExtreme, "PULLBACK_INCOMPLETE");
        if pullback.Some? then NotKnown(pullback.value) else PASSED
  }

  function MinimumGate(request: Request, name: FeatureName, limit: real, code: string): Gate {
    match Reading(request, name)
    case Err(reason) => NotKnown(reason)
    case Ok(value) => Judge(value >= limit, Text(code))
  }

  function ImpulseGate(request: Request): Gate {
    match Reading(request, ImpulseOrdered)
    case Err(reason) => NotKnown(reason)
    case Ok(ordered) =>
      if ordered == 0.0 then Failed(Text("IMPULSE_EXTREME_BEFORE_ITS_ORIGIN"))
      else MinimumGate(request, ImpulseDistanceAtr, request.policy.minImpulseAtr, "IMPULSE_BELOW_SUPPLIED_MINIMUM")
  }

  function ImpulseVwapGate(request: Request): Gate {
    MinimumGate(request, ImpulseFromVwap, request.policy.minImpulseVwapAtr, "IMPULSE_TOO_CLOSE_TO_VWAP")
  }

  /** The first reason, if any, not to read this observation at `instant`: its price is usable only
      without one. */
  function Unusable(seen: Observation, policy: Policy, instant: int): Option<Reason> {
    if seen.mode != policy.mode then Some(Text("WRONG_ARM"))
    else if seen.availableAt > instant then Some(Text("OBSERVATION_NOT_AVAILABLE"))
    else if !seen.coverageKnown then Some(CoverageLost)
    else if seen.price.None? then Some(seen.missing.GetOr(Text("OBSERVATION_VALUE_UNAVAILABLE")))
    else if seen.ageSeconds.None? then Some(Text("OBSERVATION_AGE_UNKNOWN"))
    else if seen.ageSeconds.value > policy.maxAge then Some(Text("STALE_OBSERVATION"))
    else None
  }

  function LastPrice(request: Request): Result<real, Reason> {
    match request.lastTrade
    case None => Err(Text("LAST_TRADE_UNAVAILABLE"))
    case Some(seen) =>
      var unusable := Unusable(seen, request.policy, request.evaluatedAt);
      if unusable.Some? then Err(unusable.value) else Ok(seen.price.value)
  }

  /** The gate of an absent last trade: lost coverage fails and keeps its own closing reason. */
  function NoLastTrade(missing: Reason): Gate {
    if missing == CoverageLost then Failed(CoverageLost) else NotKnown(Tagged("LAST_TRADE_", missing))
  }

  function VwapFault(request: Request): Option<Reason> {
    match request.vwap
    case None => Some(Text("VWAP_CONTEXT_ABSENT"))
    case Some(supplied) =>
      if supplied.availableAt > request.evaluatedAt then Some(Text("VWAP_NOT_AVAILABLE"))
      else if !supplied.coverageComplete then Some(Text("VWAP_COVERAGE_INCOMPLETE"))
      else None
  }

  function VwapSideGate(request: Request): Gate {
    var fault := VwapFault(request);
    if fault.Some? then NotKnown(fault.value)
    else
      var supplied := request.vwap.value;
      match supplied.level
      case None => NotKnown(supplied.missing)
      case Some(level) =>
        match LastPrice(request)
        case Err(missing) => NoLastTrade(missing)
        case Ok(last) => Judge(request.Direction().Signed(last - level) > 0.0, Text("LAST_ON_THE_WRONG_SIDE_OF_VWAP"))
  }

  function VwapSlopeGate(request: Request): Gate {
    var fault := VwapFault(request);
    if fault.Some? then NotKnown(fault.value)
    else
      var supplied := request.vwap.value;
      match supplied.slope
      case None => NotKnown(supplied.missing)
      case Some(slope) =>
        Judge(request.Direction().Signed(slope) >= request.policy.minSlope, Text("VWAP_SLOPE_BELOW_SUPPLIED_MINIMUM"))
  }

  function VwapCrossGate(request: Request): Gate {
    var fault := VwapFault(request);
    if fault.Some? then NotKnown(fault.value)
    else
      var supplied := request.vwap.value;
      match supplied.crosses
      case None => NotKnown(supplied.missing)
      case Some(crosses) => Judge(crosses <= request.policy.maxCrosses, CrossesAboveMaximum)
  }

  function StrengthGate(request: Request): Gate {
    match request.strength
    case None => NotKnown(Text("RELATIVE_STRENGTH_ABSENT"))
    case Some(supplied) =>
      if supplied.availableAt > request.evaluatedAt then NotKnown(Text("RELATIVE_STRENGTH_NOT_AVAILABLE"))
      else if !supplied.coverageComplete then NotKnown(Text("RELATIVE_STRENGTH_COVERAGE_INCOMPLETE"))
      else
        match supplied.value
        case None => NotKnown(supplied.missing)
        case Some(value) =>
          Judge(request.Direction().Signed(value) > request.policy.minStrength,
                Text("RELATIVE_STRENGTH_NOT_BEYOND_SUPPLIED_MINIMUM"))
  }

  function RetracementGate(request: Request): Gate {
    match Reading(request, Retracement)
    case Err(reason) => NotKnown(reason)
    case Ok(value) =>
      if value > request.policy.killRetracement then Failed(RetracementBeyondKill)
      else if value < request.policy.minRetracement then Failed(Text("RETRACEMENT_BELOW_SUPPLIED_BAND"))
      else Judge(value <= request.policy.maxRetracement, Text("RETRACEMENT_ABOVE_SUPPLIED_BAND"))
  }

  function VolumeGate(request: Request): Gate {
    match Reading(request, VolumeRatio)
    case Err(reason) => NotKnown(reason)
    case Ok(value) => Judge(value <= request.policy.maxVolumeRatio, Text("PULLBACK_VOLUME_ABOVE_SUPPLIED_LIMIT"))
  }

  function SupportGate(request: Request): Gate {
    MinimumGate(request, PullbackFromVwap, -request.policy.maxSupportAtr, "PULLBACK_BEYOND_SUPPLIED_VWAP_PAD")
  }

  function ReversalName(direction: Direction): FeatureName {
    if direction.Long? then ReversalHigh else ReversalLow
  }

  function TriggerOffset(policy: Policy, atr: real): real {
    Max(policy.minTriggerOffset, Times(policy.minTriggerAtr, atr))
  }

  function TriggerGate(request: Request): Gate {
    match Reading(request, ReversalName(request.Direction()))
    case Err(reason) => NotKnown(reason)
    case Ok(extreme) =>
      match request.atr
      case None => NotKnown(Text("MISSING_ATR_1M"))
      case Some(atr) =>
        var level := extreme + request.Direction().Signed(TriggerOffset(request.policy, atr));
        match LastPrice(request)
        case Err(missing) => NoLastTrade(missing)
        case Ok(last) => Judge(request.Direction().Signed(last - level) >= 0.0, Text("LAST_NOT_BEYOND_REVERSAL_BAR"))
  }

  function SpreadBps(bid: real, ask: real): real
    requires bid > 0.0 && ask > 0.0
  {
    10000.0 * (ask - bid) / ((ask + bid) / 2.0)
  }

  function QuoteFault(decision: QuoteDecision, quote: Quote, policy: Policy): Option<Reason> {
    if !decision.usable then
      Some(Tagged("QUOTE_STREAM_", if decision.reasons != [] then decision.reasons[0] else Text("UNKNOWN")))
    else if !quote.valid || !quote.realtime then Some(Text("QUOTE_NOT_VALID_REALTIME"))
    else if quote.bid.None? || quote.ask.None? then Some(Text("QUOTE_NOT_TWO_SIDED"))
    else if quote.bid.value <= 0.0 || quote.ask.value <= 0.0 then Some(Text("NONPOSITIVE_QUOTE"))
    else if quote.bid.value > quote.ask.value then Some(Text("CROSSED_QUOTE"))
    else if decision.ageSeconds.None? then Some(Text("QUOTE_AGE_UNKNOWN"))
    else if decision.ageSeconds.value > policy.maxAge then Some(Text("STALE_QUOTE"))
    else None
  }

  function SpreadGate(request: Request): Gate {
    match request.quote
    case None => NotKnown(Text("QUOTE_DECISION_ABSENT"))
    case Some(decision) =>
      match decision.quote
      case None => NotKnown(Text("QUOTE_RECORD_ABSENT"))
      case Some(quote) =>
        var fault := QuoteFault(decision, quote, request.policy);
        if fault.Some? then NotKnown(fault.value)
        else Judge(SpreadBps(quote.bid.value, quote.ask.value) <= request.policy.maxSpreadBps,
                   Text("SPREAD_ABOVE_SUPPLIED_LIMIT"))
  }

  function SequenceGate(request: Request): Gate {
    match request.ordinal
    case None => NotKnown(Text("PULLBACK_ORDINAL_UNAVAILABLE"))
    case Some(ordinal) => Judge(ordinal <= request.policy.maxOrdinal, OrdinalBeyondMaximum)
  }

  function RewardMultiple(reward: real, perShare: real): real
    requires perShare > 0.0
  {
    reward / perShare
  }

  /** The first target that does not stand, in the order supplied. */
  function TargetFault(targets: seq<Target>, direction: Direction, risk: Risk): Option<Reason>
    requires risk.perShare > 0.0
  {
    if targets == [] then None
    else
      var reward := direction.Signed(targets[0].price - risk.entry);
      if reward <= 0.0 then Some(Text("TARGET_NOT_BEYOND_ENTRY"))
      else if targets[0].rMultiple > RewardMultiple(reward, risk.perShare)
      then Some(Text("TARGET_R_MULTIPLE_OVERSTATED"))
      else TargetFault(targets[1..], direction, risk)
  }

  /** Why the supplied geometry cannot be compared with the measurement at all. */
  function GeometryFault(request: Request, supplied: Structural): Option<Reason> {
    if supplied.direction != request.Direction() then Some(Text("GEOMETRY_DIRECTION_MISMATCH"))
    else if supplied.impulseFrozenAt != request.impulseFrozenAt then Some(Text("GEOMETRY_IMPULSE_WINDOW_MISMATCH"))
    else if supplied.evaluatedAt != request.evaluatedAt then Some(Text("GEOMETRY_NOT_CURRENT"))
    else if supplied.availableAt > request.evaluatedAt then Some(Text("GEOMETRY_NOT_YET_AVAILABLE"))
    else if supplied.risk.None? then Some(Tagged("GEOMETRY_", supplied.missing))
    else if supplied.targets == [] then Some(Text("GEOMETRY_TARGETS_UNAVAILABLE"))
    else if MeasurementGate(request).status != Pass then Some(Text("GEOMETRY_MEASUREMENT_UNAVAILABLE"))
    else
      match Reading(request, ReversalName(request.Direction()))
      case Err(reason) => Some(Tagged("GEOMETRY_", reason))
      case Ok(_) =>
        match Reading(request, PullbackExtreme)
        case Err(reason) => Some(Tagged("GEOMETRY_", reason))
        case Ok(_) => None
  }

  /** The supplied stop and targets against the measured reversal bar and pullback extreme. */
  function GeometryVerdict(
      targets: seq<Target>, direction: Direction, risk: Risk, reversal: real, extreme: real, minimum: real): Gate
    requires risk.perShare > 0.0 && targets != []
  {
    if direction.Signed(risk.entry - reversal) <= 0.0 then Failed(Text("ENTRY_NOT_BEYOND_REVERSAL_BAR"))
    else if direction.Signed(risk.entry - risk.stop) <= 0.0 then Failed(Text("STOP_ON_THE_WRONG_SIDE"))
    else if direction.Signed(risk.stop - extreme) >= 0.0 then Failed(Text("STOP_NOT_BEYOND_PULLBACK_EXTREME"))
    else
      var overstated := TargetFault(targets, direction, risk);
      if overstated.Some? then Failed(overstated.value)
      else Judge(targets[0].rMultiple >= minimum, Text("FIRST_TARGET_BELOW_SUPPLIED_MINIMUM"))
  }

  function RiskGate(request: Request): Gate
    requires request.Valid()
  {
    match request.structural
    case None => NotKnown(Text("GEOMETRY_UNAVAILABLE"))
    case Some(supplied) =>
      var fault := GeometryFault(request, supplied);
      if fault.Some? then NotKnown(fault.value)
      else
        GeometryVerdict(
          supplied.targets, request.Direction(), supplied.risk.value,
          Reading(request, ReversalName(request.Direction())).value,
          Reading(request, PullbackExtreme).value, request.policy.minFirstTargetR)
  }

  function ConfidenceGate(request: Request): Gate {
    match request.confidence
    case None => NotKnown(Text("CONFIDENCE_UNAVAILABLE"))
    case Some(supplied) =>
      if !supplied.forThisStrategy then NotKnown(Text("CONFIDENCE_STRATEGY_MISMATCH"))
      else if supplied.strategyVersion != request.strategyVersion then NotKnown(Text("CONFIDENCE_VERSION_MISMATCH"))
      else if supplied.direction != request.Direction() then NotKnown(Text("CONFIDENCE_DIRECTION_MISMATCH"))
      else if supplied.evaluatedAt != request.evaluatedAt then NotKnown(Text("CONFIDENCE_NOT_CURRENT"))
      else if !supplied.ready then NotKnown(Tagged("CONFIDENCE_", supplied.reason))
      else PASSED
  }

  // ----- The assessment ---------------------------------------------------

  datatype GateName =
    | MeasurementRow | ImpulseRow | ImpulseVwapRow | VwapSideRow | VwapSlopeRow | VwapCrossRow
    | StrengthRow | RetracementRow | VolumeRow | SupportRow | TriggerRow | SpreadRow
    | SequenceRow | RiskRow | ConfidenceRow

  const ROWS: seq<GateName> := [
    MeasurementRow, ImpulseRow, ImpulseVwapRow, VwapSideRow, VwapSlopeRow, VwapCrossRow, StrengthRow,
    RetracementRow, VolumeRow, SupportRow, TriggerRow, SpreadRow, SequenceRow, RiskRow, ConfidenceRow]

  datatype Setup = SetupForming | Armed | AlertTriggered | Invalidated | Expired

  /** A setup state and whether it carries the `PULLBACK_FORMING` substate. */
  datatype StrategyState = StrategyState(state: Setup, pullbackForming: bool)

  const FORMING := StrategyState(SetupForming, true)
  const ARMED := StrategyState(Armed, false)
  const TRIGGERED := StrategyState(AlertTriggered, false)
  const INVALIDATED := StrategyState(Invalidated, false)
  const EXPIRED := StrategyState(Expired, false)

  /** The gates of one evaluation: the ten measured outright and the support gate, which the
      anchored variants replace. */
  function Row(request: Request, support: Gate, name: GateName): Gate
    requires request.Valid()
  {
    match name
    case MeasurementRow => MeasurementGate(request)
    case ImpulseRow => ImpulseGate(request)
    case ImpulseVwapRow => ImpulseVwapGate(request)
    case VwapSideRow => VwapSideGate(request)
    case VwapSlopeRow => VwapSlopeGate(request)
    case VwapCrossRow => VwapCrossGate(request)
    case StrengthRow => StrengthGate(request)
    case RetracementRow => RetracementGate(request)
    case VolumeRow => VolumeGate(request)
    case SupportRow => support
    case TriggerRow => TriggerGate(request)
    case SpreadRow => SpreadGate(request)
    case SequenceRow => SequenceGate(request)
    case RiskRow => RiskGate(request)
    case ConfidenceRow => ConfidenceGate(request)
  }

  /** Which of the four candidates evaluates: whether VWAP side and slope veto, and whether
      anchored-VWAP support may stand in for session-VWAP support. */
  datatype Variant = Variant(relaxed: bool, anchored: bool) {
    predicate Gating(name: GateName) {
      !(relaxed && (name == VwapSideRow || name == VwapSlopeRow))
    }
  }

  const STRICT := Variant(false, false)

  /** One supplied pullback distance from the impulse-origin anchored VWAP. */
  datatype Anchored = Anchored(
    symbol: string, direction: Direction, anchorAt: int, evaluatedAt: int,
    distance: Option<real>, missing: Reason)

  predicate Matches(support: Anchored, request: Request) {
    && support.symbol == request.symbol && support.direction == request.Direction()
    && support.anchorAt == request.impulseStartedAt && support.evaluatedAt == request.evaluatedAt
  }

  /** The anchored-VWAP reading by itself. */
  function AnchoredGate(request: Request, support: Option<Anchored>): Gate {
    match support
    case None => NotKnown(Text("AVWAP_SUPPORT_UNAVAILABLE"))
    case Some(supplied) =>
      match supplied.distance
      case None => NotKnown(supplied.missing)
      case Some(value) => Judge(value >= -request.policy.maxSupportAtr, Text("PULLBACK_BEYOND_SUPPLIED_AVWAP_PAD"))
  }

  /** Session support stands alone when it passes; otherwise either reading may carry it. */
  function CombinedSupport(session: Gate, anchored: Gate): Gate {
    if session.status == Pass then session
    else if anchored.status == Pass then PASSED
    else if session.status == Fail && anchored.status == Fail then
      Failed(Text("PULLBACK_BEYOND_SESSION_VWAP_AND_AVWAP_PAD"))
    else Gate(Unknown, if anchored.reason.Some? then anchored.reason else session.reason)
  }

  /** Combined support passes with either and fails only with both, for a reason of its own; else it is
      unknown, for the anchored reading's reason if it has one. */
  lemma CombinedSupportMeans(session: Gate, anchored: Gate)
    ensures var combined := CombinedSupport(session, anchored);
      && (combined.status == Pass <==> session.status == Pass || anchored.status == Pass)
      && (combined.status == Fail <==> session.status == Fail && anchored.status == Fail)
      && (combined.status == Fail ==> combined.reason == Some(Text("PULLBACK_BEYOND_SESSION_VWAP_AND_AVWAP_PAD")))
      && (combined.status == Unknown && anchored.reason.Some? ==> combined.reason == anchored.reason)
      && (combined.status == Unknown && anchored.reason.None? ==> combined.reason == session.reason)
  {
  }

  datatype Assessment = Assessment(state: StrategyState, gates: GateName -> Gate, variant: Variant) {
    /** The first gating row that did not pass. */
    function FirstReason(from: nat := 0): Option<GateName>
      requires from <= |ROWS|
      decreases |ROWS| - from
    {
      if from == |ROWS| then None
      else if variant.Gating(ROWS[from]) && gates(ROWS[from]).status != Pass then Some(ROWS[from])
      else FirstReason(from + 1)
    }
  }

  predicate SomeInvalidates(gates: GateName -> Gate, variant: Variant) {
    exists name: GateName :: variant.Gating(name) && gates(name).Invalidates()
  }

  predicate AllPass(gates: GateName -> Gate, variant: Variant) {
    forall name: GateName :: variant.Gating(name) ==> gates(name).status == Pass
  }

  function Decide(gates: GateName -> Gate, variant: Variant): (state: StrategyState)
    ensures state in {FORMING, ARMED, TRIGGERED, INVALIDATED}
    ensures state == INVALIDATED <==> SomeInvalidates(gates, variant)
    ensures state == TRIGGERED <==> !SomeInvalidates(gates, variant) && AllPass(gates, variant)
    ensures state == FORMING <==> !SomeInvalidates(gates, variant) && gates(MeasurementRow).status != Pass
  {
    if SomeInvalidates(gates, variant) then INVALIDATED
    else if gates(MeasurementRow).status != Pass then FORMING
    else if AllPass(gates, variant) then TRIGGERED
    else ARMED
  }

  datatype AssessmentError = SupportDoesNotMatch

  /** The assessment of each candidate; an anchored candidate refuses support read for another
      symbol, direction, impulse or instant. */
  function Assess(variant: Variant, request: Request, support: Option<Anchored>): Result<Assessment, AssessmentError>
    requires request.Valid()
  {
    var session := SupportGate(request);
    if variant.anchored && support.Some? && !Matches(support.value, request) then Err(SupportDoesNotMatch)
    else
      var used := if variant.anchored then CombinedSupport(session, AnchoredGate(request, support)) else session;
      var gates := name => Row(request, used, name);
      Ok(Assessment(Decide(gates, variant), gates, variant))
  }
}
