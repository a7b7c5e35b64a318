/** What each state of a candidate means, said once in terms of the supplied facts and apart from
the gates that find them: prices in the trade's direction, spreads and reward multiples
multiplied out, and no order of checks. `AlertMeansActionable` is about alerts,
`InvalidationMeansClosing` about invalidations, and `StateMeans` about all four states.
*/
module PullbackAlert {
  import opened Wrappers
  import opened Rationals
  import opened PullbackGates

  // ----- Facts ------------------------------------------------------------

  function Value(request: Request, name: FeatureName): Option<real> {
    if name in request.measurement.features then request.measurement.features[name].value else None
  }

  predicate Nonzero(value: Option<real>) { value.Some? && value.value != 0.0 }

  predicate AtLeast(value: Option<real>, limit: real) { value.Some? && value.value >= limit }

  predicate AtMost(value: Option<real>, limit: real) { value.Some? && value.value <= limit }

  /** The measurement is of this subject and this instant. */
  predicate InFrame(request: Request) {
    var m := request.measurement;
    && m.supportedVersion && m.supportedDataMode && m.symbol == request.symbol
    && request.measurementDirection == request.Direction() && m.evaluatedAt == request.evaluatedAt
  }

  /** It is in frame and both legs are complete. */
  predicate Measured(request: Request) {
    InFrame(request) && Nonzero(Value(request, ImpulseComplete)) && Nonzero(Value(request, PullbackComplete))
  }

  predicate ImpulseStands(request: Request) {
    && Nonzero(Value(request, ImpulseOrdered))
    && AtLeast(Value(request, ImpulseDistanceAtr), request.policy.minImpulseAtr)
    && AtLeast(Value(request, ImpulseFromVwap), request.policy.minImpulseVwapAtr)
  }

  predicate PullbackStands(request: Request) {
    && AtLeast(Value(request, Retracement), request.policy.minRetracement)
    && AtMost(Value(request, Retracement), request.policy.maxRetracement)
    && AtMost(Value(request, Retracement), request.policy.killRetracement)
    && AtMost(Value(request, VolumeRatio), request.policy.maxVolumeRatio)
  }

  /** The pullback held the session VWAP or, for an anchored candidate, the anchored one. */
  predicate SupportStands(variant: Variant, request: Request, support: Option<Anchored>) {
    || AtLeast(Value(request, PullbackFromVwap), -request.policy.maxSupportAtr)
    || (variant.anchored && support.Some? && AtLeast(support.value.distance, -request.policy.maxSupportAtr))
  }

  predicate LastUsable(request: Request) {
    && request.lastTrade.Some?
    && var seen := request.lastTrade.value;
    && seen.mode == request.policy.mode && seen.availableAt <= request.evaluatedAt && seen.coverageKnown
    && seen.price.Some? && AtMost(seen.ageSeconds, request.policy.maxAge)
  }

  predicate VwapUsable(request: Request) {
    request.vwap.Some? && request.vwap.value.availableAt <= request.evaluatedAt && request.vwap.value.coverageComplete
  }

  /** The VWAP side and slope hold unless the candidate ignores them; the crosses always count. */
  predicate VwapStands(variant: Variant, request: Request) {
    && VwapUsable(request)
    && var v := request.vwap.value;
    && v.crosses.Some? && v.crosses.value <= request.policy.maxCrosses
    && (variant.relaxed ||
        (&& v.slope.Some? && request.Direction().Signed(v.slope.value) >= request.policy.minSlope
         && v.level.Some? && LastUsable(request)
         && request.Direction().Signed(request.lastTrade.value.price.value - v.level.value) > 0.0))
  }

  predicate StrengthStands(request: Request) {
    && request.strength.Some? && request.strength.value.availableAt <= request.evaluatedAt
    && request.strength.value.coverageComplete && request.strength.value.value.Some?
    && request.Direction().Signed(request.strength.value.value.value) > request.policy.minStrength
  }

  /** The last price cleared the reversal bar by both the price and the ATR offset. */
  predicate TriggerStands(request: Request) {
    && Value(request, ReversalName(request.Direction())).Some? && request.atr.Some? && LastUsable(request)
    && var beyond := request.Direction().Signed(
         request.lastTrade.value.price.value - Value(request, ReversalName(request.Direction())).value);
    && beyond >= request.policy.minTriggerOffset && beyond >= Times(request.policy.minTriggerAtr, request.atr.value)
  }

  /** A fresh, valid, two-sided, uncrossed quote whose width is within so many hundredths of a percent of its middle. */
  predicate QuoteStands(request: Request) {
    && request.quote.Some? && request.quote.value.quote.Some?
    && var decision := request.quote.value;
    var quote := decision.quote.value;
    && decision.usable && quote.valid && quote.realtime && AtMost(decision.ageSeconds, request.policy.maxAge)
    && quote.bid.Some? && quote.ask.Some? && 0.0 < quote.bid.value <= quote.ask.value
    && 20000.0 * (quote.ask.value - quote.bid.value) <=
         Times(request.policy.maxSpreadBps, quote.ask.value + quote.bid.value)
  }

  predicate TargetStands(target: Target, direction: Direction, risk: Risk) {
    var reward := direction.Signed(target.price - risk.entry);
    reward > 0.0 && Times(target.rMultiple, risk.perShare) <= reward
  }

  /** Entry beyond the reversal bar, stop beyond the pullback's extreme, and no target overstated. */
  predicate GeometryStands(request: Request) {
    && request.structural.Some?
    && var s := request.structural.value;
    var direction := request.Direction();
    && s.direction == direction && s.impulseFrozenAt == request.impulseFrozenAt && s.evaluatedAt == request.evaluatedAt
    && s.availableAt <= request.evaluatedAt && s.risk.Some? && s.targets != [] && Measured(request)
    && Value(request, ReversalName(direction)).Some? && Value(request, PullbackExtreme).Some?
    && direction.Signed(s.risk.value.entry - Value(request, ReversalName(direction)).value) > 0.0
    && direction.Signed(s.risk.value.entry - s.risk.value.stop) > 0.0
    && direction.Signed(s.risk.value.stop - Value(request, PullbackExtreme).value) < 0.0
    && (forall i | 0 <= i < |s.targets| :: TargetStands(s.targets[i], direction, s.risk.value))
    && s.targets[0].rMultiple >= request.policy.minFirstTargetR
  }

  predicate ConfidenceStands(request: Request) {
    && request.confidence.Some?
    && var c := request.confidence.value;
    && c.forThisStrategy && c.strategyVersion == request.strategyVersion && c.direction == request.Direction()
    && c.evaluatedAt == request.evaluatedAt && c.ready
  }

  /** Every fact an alert needs but the quote's. */
  predicate StandsButForQuote(variant: Variant, request: Request, support: Option<Anchored>) {
    && Measured(request) && ImpulseStands(request) && PullbackStands(request)
    && SupportStands(variant, request, support)
    && VwapStands(variant, request) && StrengthStands(request) && TriggerStands(request)
    && (request.ordinal.Some? && request.ordinal.value <= request.policy.maxOrdinal)
    && GeometryStands(request) && ConfidenceStands(request)
  }

  predicate Actionable(variant: Variant, request: Request, support: Option<Anchored>) {
    StandsButForQuote(variant, request, support) && QuoteStands(request)
  }

  // ----- Facts that end a pullback ----------------------------------------

  predicate Closes(reason: Option<Reason>) { reason.Some? && reason.value.Invalidates() }

  /** A measured value is missing for a supplied reason that ends a pullback. */
  predicate Lost(request: Request, name: FeatureName) {
    && name in request.measurement.features
    && request.measurement.features[name].value.None? && Closes(request.measurement.features[name].missing)
  }

  /** A limit is passed that no later evaluation can come back under. */
  predicate Overextended(request: Request) {
    || (request.ordinal.Some? && request.ordinal.value > request.policy.maxOrdinal)
    || (Value(request, Retracement).Some? && Value(request, Retracement).value > request.policy.killRetracement)
    || (VwapUsable(request) && request.vwap.value.crosses.Some?
        && request.vwap.value.crosses.value > request.policy.maxCrosses)
  }

  /** A second leg's completion is read only once the first leg is complete, and the impulse's
      distance only once its extremes are known to be in order. */
  predicate MeasurementLost(request: Request) {
    || (InFrame(request) && Lost(request, ImpulseComplete))
    || (InFrame(request) && Nonzero(Value(request, ImpulseComplete)) && Lost(request, PullbackComplete))
    || Lost(request, ImpulseOrdered)
    || (Nonzero(Value(request, ImpulseOrdered)) && Lost(request, ImpulseDistanceAtr))
    || Lost(request, ImpulseFromVwap) || Lost(request, Retracement) || Lost(request, VolumeRatio)
    || Lost(request, ReversalName(request.Direction()))
  }

  /** An anchored candidate never reads why the session's support is missing, only why the anchored
      one is, and that only when session support does not hold. */
  predicate SupportLost(variant: Variant, request: Request, support: Option<Anchored>) {
    if variant.anchored then
      && !AtLeast(Value(request, PullbackFromVwap), -request.policy.maxSupportAtr)
      && support.Some? && support.value.distance.None? && support.value.missing.Invalidates()
    else Lost(request, PullbackFromVwap)
  }

  predicate VwapLost(variant: Variant, request: Request) {
    && VwapUsable(request) && request.vwap.value.missing.Invalidates()
    && (request.vwap.value.crosses.None?
        || (!variant.relaxed && (request.vwap.value.level.None? || request.vwap.value.slope.None?)))
  }

  predicate StrengthLost(request: Request) {
    && request.strength.Some? && request.strength.value.availableAt <= request.evaluatedAt
    && request.strength.value.coverageComplete && request.strength.value.value.None?
    && request.strength.value.missing.Invalidates()
  }

  /** The last trade lost its coverage, or has no price for that very reason. */
  predicate LastLost(request: Request) {
    && request.lastTrade.Some?
    && var seen := request.lastTrade.value;
    && seen.mode == request.policy.mode && seen.availableAt <= request.evaluatedAt
    && (!seen.coverageKnown || (seen.price.None? && seen.missing == Some(CoverageLost)))
  }

  /** Something reads the last trade: the trigger, when there is a reversal bar and an ATR, or the
      VWAP side of a candidate that asks for it. */
  predicate LastIsRead(variant: Variant, request: Request) {
    || (Value(request, ReversalName(request.Direction())).Some? && request.atr.Some?)
    || (!variant.relaxed && VwapUsable(request) && request.vwap.value.level.Some?)
  }

  /** Everything that ends a pullback. Quote, geometry and confidence never do. */
  predicate Closing(variant: Variant, request: Request, support: Option<Anchored>) {
    || Overextended(request) || MeasurementLost(request) || SupportLost(variant, request, support)
    || VwapLost(variant, request) || StrengthLost(request)
    || (LastLost(request) && LastIsRead(variant, request))
  }

  // ----- Gate by gate -----------------------------------------------------

  lemma MeasurementGateMeans(request: Request)
    ensures MeasurementGate(request).status == Pass <==> Measured(request)
  {
  }

  lemma MeasuredGates(request: Request)
    ensures ImpulseGate(request).status == Pass && ImpulseVwapGate(request).status == Pass <==> ImpulseStands(request)
    ensures RetracementGate(request).status == Pass && VolumeGate(request).status == Pass <==> PullbackStands(request)
  {
  }

  lemma StrengthGateMeans(request: Request)
    ensures StrengthGate(request).status == Pass <==> StrengthStands(request)
  {
  }

  lemma SuppliedGates(request: Request)
    ensures ConfidenceGate(request).status == Pass <==> ConfidenceStands(request)
    ensures SequenceGate(request).status == Pass <==>
      request.ordinal.Some? && request.ordinal.value <= request.policy.maxOrdinal
  {
  }

  lemma SupportGates(variant: Variant, request: Request, support: Option<Anchored>)
    requires variant.anchored && support.Some? ==> Matches(support.value, request)
    requires request.Valid()
    ensures Assess(variant, request, support).value.gates(SupportRow).status == Pass <==>
      SupportStands(variant, request, support)
  {
  }

  lemma MarketGates(variant: Variant, request: Request)
    ensures VwapRowsPass(variant, request) <==> VwapStands(variant, request)
  {
  }

  predicate VwapRowsPass(variant: Variant, request: Request) {
    && VwapCrossGate(request).status == Pass
    && (variant.relaxed || (VwapSideGate(request).status == Pass && VwapSlopeGate(request).status == Pass))
  }

  lemma TriggerGateMeans(request: Request)
    ensures TriggerGate(request).status == Pass <==> TriggerStands(request)
  {
    hide Times;
  }

  lemma SpreadGateMeans(request: Request)
    ensures SpreadGate(request).status == Pass <==> QuoteStands(request)
  {
    hide SpreadBps, Times;
    if request.quote.Some? && request.quote.value.quote.Some? {
      var quote := request.quote.value.quote.value;
      if quote.bid.Some? && quote.ask.Some? && 0.0 < quote.bid.value <= quote.ask.value {
        SpreadMultipliedOut(quote.bid.value, quote.ask.value, request.policy.maxSpreadBps);
      }
    }
  }

  lemma SpreadMultipliedOut(bid: real, ask: real, limit: real)
    requires 0.0 < bid <= ask
    ensures SpreadBps(bid, ask) <= limit <==> 20000.0 * (ask - bid) <= Times(limit, ask + bid)
  {
    DivCompare(10000.0 * (ask - bid), (ask + bid) / 2.0, limit);
  }

  lemma {:induction false} NoFaultMeansAllStand(targets: seq<Target>, direction: Direction, risk: Risk)
    requires risk.perShare > 0.0
    ensures TargetFault(targets, direction, risk).None? <==> forall i | 0 <= i < |targets| ::
      TargetStands(targets[i], direction, risk)
    decreases |targets|
  {
    if targets != [] {
      NoFaultMeansAllStand(targets[1..], direction, risk);
      var reward := direction.Signed(targets[0].price - risk.entry);
      DivThenMul(reward, risk.perShare);
      MultipleOverstated(targets[0].rMultiple, reward, risk.perShare);
      hide RewardMultiple, Times;
      assert forall i | 1 <= i < |targets| :: targets[i] == targets[1..][i - 1];
    }
  }

  lemma MultipleOverstated(multiple: real, reward: real, perShare: real)
    requires perShare > 0.0
    ensures multiple > RewardMultiple(reward, perShare) <==> Times(multiple, perShare) > reward
  {
    DivCompare(reward, perShare, multiple);
  }

  /** The readings the geometry is compared with, and its frame. */
  predicate GeometryComparable(request: Request, s: Structural) {
    && s.direction == request.Direction() && s.impulseFrozenAt == request.impulseFrozenAt
    && s.evaluatedAt == request.evaluatedAt
    && s.availableAt <= request.evaluatedAt && s.risk.Some? && s.targets != [] && Measured(request)
    && Value(request, ReversalName(request.Direction())).Some? && Value(request, PullbackExtreme).Some?
  }

  lemma NoFaultMeansComparable(request: Request, s: Structural)
    ensures GeometryFault(request, s).None? <==> GeometryComparable(request, s)
    ensures GeometryComparable(request, s) ==>
      && Reading(request, ReversalName(request.Direction()))
         == Ok(Value(request, ReversalName(request.Direction())).value)
      && Reading(request, PullbackExtreme) == Ok(Value(request, PullbackExtreme).value)
  {
    MeasurementGateMeans(request);
    hide MeasurementGate, Measured;
  }

  lemma VerdictMeans(
      targets: seq<Target>, direction: Direction, risk: Risk, reversal: real, extreme: real, minimum: real)
    requires risk.perShare > 0.0 && targets != []
    ensures GeometryVerdict(targets, direction, risk, reversal, extreme, minimum).status == Pass <==>
      && direction.Signed(risk.entry - reversal) > 0.0 && direction.Signed(risk.entry - risk.stop) > 0.0
      && direction.Signed(risk.stop - extreme) < 0.0
      && (forall i | 0 <= i < |targets| :: TargetStands(targets[i], direction, risk))
      && targets[0].rMultiple >= minimum
  {
    NoFaultMeansAllStand(targets, direction, risk);
    hide TargetFault, TargetStands;
  }

  lemma RiskGateMeans(request: Request)
    requires request.Valid()
    ensures RiskGate(request).status == Pass <==> GeometryStands(request)
  {
    hide GeometryFault, GeometryVerdict, Reading, Value, Measured, TargetStands;
    if request.structural.Some? {
      var s := request.structural.value;
      NoFaultMeansComparable(request, s);
      if GeometryComparable(request, s) {
        VerdictMeans(s.targets, request.Direction(), s.risk.value,
          Value(request, ReversalName(request.Direction())).value,
          Value(request, PullbackExtreme).value, request.policy.minFirstTargetR);
      }
    }
  }

  /** A gate that passes carries no reason. */
  predicate Plain(gate: Gate) { gate.status == Pass ==> gate.reason.None? }

  lemma MeasuredGatesArePlain(request: Request)
    ensures Plain(MeasurementGate(request)) && Plain(ImpulseGate(request)) && Plain(ImpulseVwapGate(request))
    ensures Plain(RetracementGate(request)) && Plain(VolumeGate(request))
    ensures Plain(SupportGate(request)) && Plain(SequenceGate(request))
  {
    hide Reading, CompletionFault;
  }

  lemma VwapGatesArePlain(request: Request)
    ensures Plain(VwapSideGate(request)) && Plain(VwapSlopeGate(request)) && Plain(VwapCrossGate(request))
  {
    hide LastPrice, VwapFault;
  }

  lemma MarketGatesArePlain(request: Request)
    ensures Plain(StrengthGate(request)) && Plain(TriggerGate(request))
  {
    hide Reading, LastPrice, TriggerOffset;
  }

  lemma QuoteAndConfidenceArePlain(request: Request)
    ensures Plain(SpreadGate(request)) && Plain(ConfidenceGate(request))
  {
    hide QuoteFault, SpreadBps;
  }

  lemma RiskGateIsPlain(request: Request)
    requires request.Valid()
    ensures Plain(RiskGate(request))
  {
    hide Reading, GeometryFault, TargetFault;
    if request.structural.Some? && GeometryFault(request, request.structural.value).None? {
      NoFaultMeansComparable(request, request.structural.value);
    }
  }

  lemma RowsSpelled(request: Request, support: Gate)
    requires request.Valid()
    ensures Row(request, support, MeasurementRow) == MeasurementGate(request)
    ensures Row(request, support, ImpulseRow) == ImpulseGate(request)
    ensures Row(request, support, ImpulseVwapRow) == ImpulseVwapGate(request)
    ensures Row(request, support, VwapSideRow) == VwapSideGate(request)
    ensures Row(request, support, VwapSlopeRow) == VwapSlopeGate(request)
    ensures Row(request, support, VwapCrossRow) == VwapCrossGate(request)
    ensures Row(request, support, StrengthRow) == StrengthGate(request)
    ensures Row(request, support, RetracementRow) == RetracementGate(request)
    ensures Row(request, support, VolumeRow) == VolumeGate(request)
    ensures Row(request, support, SupportRow) == support && Row(request, support, TriggerRow) == TriggerGate(request)
    ensures Row(request, support, SpreadRow) == SpreadGate(request)
    ensures Row(request, support, SequenceRow) == SequenceGate(request)
    ensures Row(request, support, RiskRow) == RiskGate(request)
    ensures Row(request, support, ConfidenceRow) == ConfidenceGate(request)
  {
    hide MeasurementGate, ImpulseGate, ImpulseVwapGate, RetracementGate;
    hide VolumeGate, StrengthGate, ConfidenceGate, SpreadGate;
    hide VwapSideGate, VwapSlopeGate, VwapCrossGate, TriggerGate, RiskGate, SequenceGate;
  }

  lemma RowsArePlain(request: Request, support: Gate, name: GateName)
    requires request.Valid() && Plain(support)
    ensures Plain(Row(request, support, name))
  {
    hide MeasurementGate, ImpulseGate, ImpulseVwapGate, RetracementGate;
    hide VolumeGate, StrengthGate, ConfidenceGate, SpreadGate;
    hide VwapSideGate, VwapSlopeGate, VwapCrossGate, TriggerGate, RiskGate, SequenceGate, Plain, Row;
    MeasuredGatesArePlain(request);
    VwapGatesArePlain(request);
    MarketGatesArePlain(request);
    QuoteAndConfidenceArePlain(request);
    RiskGateIsPlain(request);
    RowsSpelled(request, support);
    match name
    case MeasurementRow | ImpulseRow | ImpulseVwapRow | RetracementRow | VolumeRow | SequenceRow | SupportRow =>
    case VwapSideRow | VwapSlopeRow | VwapCrossRow =>
    case StrengthRow | TriggerRow | SpreadRow | ConfidenceRow | RiskRow =>
  }

  /** A candidate's gates as a function of its own support gate. */
  lemma AssessedRows(variant: Variant, request: Request, support: Option<Anchored>)
    requires request.Valid() && (variant.anchored && support.Some? ==> Matches(support.value, request))
    ensures Assess(variant, request, support).Ok?
    ensures var assessed := Assess(variant, request, support).value;
      && assessed.state == Decide(assessed.gates, variant)
      && Plain(assessed.gates(SupportRow))
      && forall name: GateName :: assessed.gates(name) == Row(request, assessed.gates(SupportRow), name)
  {
    hide Decide, MeasurementGate, ImpulseGate, ImpulseVwapGate;
    hide RetracementGate, VolumeGate, StrengthGate, ConfidenceGate, SpreadGate;
    hide VwapSideGate, VwapSlopeGate, VwapCrossGate, TriggerGate, RiskGate, SequenceGate;
    MeasuredGatesArePlain(request);
    hide SupportGate;
  }

  /** Every row passes but perhaps the quote's. */
  predicate OthersPass(gates: GateName -> Gate, variant: Variant) {
    forall name: GateName :: name != SpreadRow && variant.Gating(name) ==> gates(name).status == Pass
  }

  lemma OthersMean(variant: Variant, request: Request, support: Option<Anchored>)
    requires request.Valid() && (variant.anchored && support.Some? ==> Matches(support.value, request))
    ensures OthersPass(Assess(variant, request, support).value.gates, variant)
      <==> StandsButForQuote(variant, request, support)
  {
    hide Assess, Row, Plain, OthersPass, Decide, MeasurementGate;
    hide ImpulseGate, ImpulseVwapGate, RetracementGate, VolumeGate, StrengthGate, ConfidenceGate, SpreadGate;
    hide VwapSideGate, VwapSlopeGate, VwapCrossGate, TriggerGate, RiskGate, SequenceGate;
    hide Measured, ImpulseStands, PullbackStands, SupportStands, VwapStands;
    hide StrengthStands, TriggerStands, QuoteStands, GeometryStands, ConfidenceStands;
    MeasurementGateMeans(request);
    MeasuredGates(request);
    StrengthGateMeans(request);
    SuppliedGates(request);
    SupportGates(variant, request, support);
    MarketGates(variant, request);
    TriggerGateMeans(request);
    RiskGateMeans(request);
    AssessedRows(variant, request, support);
    var gates := Assess(variant, request, support).value.gates;
    RowsSpelled(request, gates(SupportRow));
    EveryOtherRow(gates, variant);
  }

  /** A candidate alerts exactly when every fact above stands. */
  lemma AlertMeansActionable(variant: Variant, request: Request, support: Option<Anchored>)
    requires request.Valid() && (variant.anchored && support.Some? ==> Matches(support.value, request))
    ensures Assess(variant, request, support).value.state == TRIGGERED <==> Actionable(variant, request, support)
  {
    hide Assess, Row, Plain, Decide, SpreadGate, StandsButForQuote, QuoteStands, AllPass, OthersPass;
    OthersMean(variant, request, support);
    SpreadGateMeans(request);
    AssessedRows(variant, request, support);
    var gates := Assess(variant, request, support).value.gates;
    SpreadSpelled(request, gates(SupportRow));
    AlertIffAllPass(request, gates, variant);
    OthersAndSpread(gates, variant);
  }

  lemma SpreadSpelled(request: Request, support: Gate)
    requires request.Valid()
    ensures Row(request, support, SpreadRow) == SpreadGate(request)
  {
    hide SpreadGate;
  }

  lemma OthersAndSpread(gates: GateName -> Gate, variant: Variant)
    ensures AllPass(gates, variant) <==> OthersPass(gates, variant) && gates(SpreadRow).status == Pass
  {
    assert variant.Gating(SpreadRow);
  }

  lemma AlertIffAllPass(request: Request, gates: GateName -> Gate, variant: Variant)
    requires request.Valid() && Plain(gates(SupportRow)) && forall name: GateName ::
      gates(name) == Row(request, gates(SupportRow), name)
    ensures Decide(gates, variant) == TRIGGERED <==> AllPass(gates, variant)
  {
    hide Row;
    if AllPass(gates, variant) && SomeInvalidates(gates, variant) {
      var name: GateName :| variant.Gating(name) && gates(name).Invalidates();
      RowsArePlain(request, gates(SupportRow), name);
    }
  }

  predicate EachOtherPasses(gates: GateName -> Gate, variant: Variant) {
    && gates(MeasurementRow).status == Pass && gates(ImpulseRow).status == Pass && gates(ImpulseVwapRow).status == Pass
    && (variant.relaxed || (gates(VwapSideRow).status == Pass && gates(VwapSlopeRow).status == Pass))
    && gates(VwapCrossRow).status == Pass && gates(StrengthRow).status == Pass && gates(RetracementRow).status == Pass
    && gates(VolumeRow).status == Pass && gates(SupportRow).status == Pass && gates(TriggerRow).status == Pass
    && gates(SequenceRow).status == Pass && gates(RiskRow).status == Pass && gates(ConfidenceRow).status == Pass
  }

  lemma EveryOtherRow(gates: GateName -> Gate, variant: Variant)
    ensures OthersPass(gates, variant) <==> EachOtherPasses(gates, variant)
  {
    if OthersPass(gates, variant) {
      assert variant.Gating(MeasurementRow) && variant.Gating(ImpulseRow);
      assert variant.Gating(ImpulseVwapRow) && variant.Gating(VwapCrossRow);
      assert variant.Gating(StrengthRow) && variant.Gating(RetracementRow);
      assert variant.Gating(VolumeRow) && variant.Gating(SupportRow);
      assert variant.Gating(TriggerRow) && variant.Gating(SequenceRow);
      assert variant.Gating(RiskRow) && variant.Gating(ConfidenceRow);
      assert !variant.relaxed ==> variant.Gating(VwapSideRow) && variant.Gating(VwapSlopeRow);
    }
    if EachOtherPasses(gates, variant) {
      forall name: GateName | name != SpreadRow && variant.Gating(name) ensures gates(name).status == Pass {
        match name
        case MeasurementRow | ImpulseRow | ImpulseVwapRow | VwapSideRow | VwapSlopeRow | VwapCrossRow | StrengthRow =>
        case RetracementRow | VolumeRow | SupportRow | TriggerRow | SequenceRow | RiskRow | ConfidenceRow =>
      }
    }
  }

  // ----- Which gate ends a pullback ---------------------------------------

  lemma ReadingLost(request: Request, name: FeatureName)
    ensures Reading(request, name).Err? && Reading(request, name).error.Invalidates() <==> Lost(request, name)
    ensures Reading(request, name).Ok? <==> Value(request, name).Some?
    ensures Reading(request, name).Ok? ==> Reading(request, name).value == Value(request, name).value
  {
  }

  lemma MeasurementGateCloses(request: Request)
    ensures MeasurementGate(request).Invalidates() <==>
      && InFrame(request)
      && (Lost(request, ImpulseComplete)
          || (Nonzero(Value(request, ImpulseComplete)) && Lost(request, PullbackComplete)))
  {
    ReadingLost(request, ImpulseComplete);
    ReadingLost(request, PullbackComplete);
    hide Reading, Lost, Value;
  }

  lemma MeasuredGatesClose(request: Request)
    ensures ImpulseGate(request).Invalidates() <==>
      Lost(request, ImpulseOrdered) || (Nonzero(Value(request, ImpulseOrdered)) && Lost(request, ImpulseDistanceAtr))
    ensures ImpulseVwapGate(request).Invalidates() <==> Lost(request, ImpulseFromVwap)
    ensures RetracementGate(request).Invalidates() <==>
      || Lost(request, Retracement)
      || (Value(request, Retracement).Some? && Value(request, Retracement).value > request.policy.killRetracement)
    ensures VolumeGate(request).Invalidates() <==> Lost(request, VolumeRatio)
    ensures SupportGate(request).Invalidates() <==> Lost(request, PullbackFromVwap)
  {
    ReadingLost(request, ImpulseOrdered);
    ReadingLost(request, ImpulseDistanceAtr);
    ReadingLost(request, ImpulseFromVwap);
    ReadingLost(request, Retracement);
    ReadingLost(request, VolumeRatio);
    ReadingLost(request, PullbackFromVwap);
    hide Reading, Lost, Value;
  }

  lemma SupportRowCloses(variant: Variant, request: Request, support: Option<Anchored>)
    requires request.Valid() && (variant.anchored && support.Some? ==> Matches(support.value, request))
    ensures Assess(variant, request, support).value.gates(SupportRow).Invalidates() <==>
      SupportLost(variant, request, support)
  {
    MeasuredGatesClose(request);
    SessionSupport(request);
    hide Decide, MeasurementGate, ImpulseGate, ImpulseVwapGate, SupportGate, Lost, AtLeast;
    hide RetracementGate, VolumeGate, StrengthGate, ConfidenceGate, SpreadGate;
    hide VwapSideGate, VwapSlopeGate, VwapCrossGate, TriggerGate, RiskGate, SequenceGate, Reason.Invalidates;
    NotClosing("AVWAP_SUPPORT_UNAVAILABLE");
    NotClosing("PULLBACK_BEYOND_SUPPLIED_AVWAP_PAD");
    NotClosing("PULLBACK_BEYOND_SESSION_VWAP_AND_AVWAP_PAD");
  }

  lemma NotClosing(text: string)
    ensures !Text(text).Invalidates()
  {
  }

  lemma SessionSupport(request: Request)
    ensures SupportGate(request).status == Pass <==>
      AtLeast(Value(request, PullbackFromVwap), -request.policy.maxSupportAtr)
    ensures SupportGate(request).status == Pass ==> SupportGate(request).reason.None?
  {
    ReadingLost(request, PullbackFromVwap);
    hide Reading, Value;
  }

  /** What the last price is missing for, when that ends a pullback, is lost coverage. */
  lemma LastPriceLost(request: Request)
    ensures LastLost(request) <==> LastPrice(request) == Err(CoverageLost)
  {
  }

  lemma VwapRowsClose(request: Request)
    ensures VwapCrossGate(request).Invalidates() <==>
      && VwapUsable(request)
      && var v := request.vwap.value;
      if v.crosses.Some? then v.crosses.value > request.policy.maxCrosses else v.missing.Invalidates()
    ensures VwapSlopeGate(request).Invalidates() <==>
      VwapUsable(request) && request.vwap.value.slope.None? && request.vwap.value.missing.Invalidates()
    ensures VwapSideGate(request).Invalidates() <==>
      && VwapUsable(request)
      && if request.vwap.value.level.Some? then LastLost(request) else request.vwap.value.missing.Invalidates()
  {
    LastPriceLost(request);
    hide LastPrice, LastLost;
  }

  lemma StrengthCloses(request: Request)
    ensures StrengthGate(request).Invalidates() <==> StrengthLost(request)
  {
  }

  lemma QuoteFaultIsPlain(decision: QuoteDecision, quote: Quote, policy: Policy)
    ensures QuoteFault(decision, quote, policy).Some? ==> !QuoteFault(decision, quote, policy).value.Invalidates()
  {
  }

  lemma OtherRowsClose(request: Request)
    ensures SequenceGate(request).Invalidates() <==>
      request.ordinal.Some? && request.ordinal.value > request.policy.maxOrdinal
    ensures !SpreadGate(request).Invalidates() && !ConfidenceGate(request).Invalidates()
  {
    if request.quote.Some? && request.quote.value.quote.Some? {
      QuoteFaultIsPlain(request.quote.value, request.quote.value.quote.value, request.policy);
    }
    hide SpreadBps, QuoteFault;
  }

  lemma TriggerCloses(request: Request)
    ensures TriggerGate(request).Invalidates() <==>
      || Lost(request, ReversalName(request.Direction()))
      || (Value(request, ReversalName(request.Direction())).Some? && request.atr.Some? && LastLost(request))
  {
    ReadingLost(request, ReversalName(request.Direction()));
    LastPriceLost(request);
    hide Reading, Lost, Value, LastPrice, LastLost, TriggerOffset;
  }

  lemma {:induction false} TargetFaultIsPlain(targets: seq<Target>, direction: Direction, risk: Risk)
    requires risk.perShare > 0.0 && TargetFault(targets, direction, risk).Some?
    ensures !TargetFault(targets, direction, risk).value.Invalidates()
    decreases |targets|
  {
    hide RewardMultiple;
    if targets != [] && TargetFault(targets[1..], direction, risk).Some? {
      TargetFaultIsPlain(targets[1..], direction, risk);
    }
  }

  lemma RiskNeverCloses(request: Request)
    requires request.Valid()
    ensures !RiskGate(request).Invalidates()
  {
    hide Reading, TargetFault, MeasurementGate;
    if request.structural.Some? {
      var s := request.structural.value;
      assert GeometryFault(request, s).Some? ==> !GeometryFault(request, s).value.Invalidates();
      if GeometryFault(request, s).None? && TargetFault(s.targets, request.Direction(), s.risk.value).Some? {
        TargetFaultIsPlain(s.targets, request.Direction(), s.risk.value);
      }
    }
  }

  predicate EachCloses(gates: GateName -> Gate, variant: Variant) {
    || gates(MeasurementRow).Invalidates() || gates(ImpulseRow).Invalidates() || gates(ImpulseVwapRow).Invalidates()
    || (!variant.relaxed && (gates(VwapSideRow).Invalidates() || gates(VwapSlopeRow).Invalidates()))
    || gates(VwapCrossRow).Invalidates() || gates(StrengthRow).Invalidates() || gates(RetracementRow).Invalidates()
    || gates(VolumeRow).Invalidates() || gates(SupportRow).Invalidates() || gates(TriggerRow).Invalidates()
    || gates(SpreadRow).Invalidates() || gates(SequenceRow).Invalidates() || gates(RiskRow).Invalidates()
    || gates(ConfidenceRow).Invalidates()
  }

  lemma SomeRowCloses(gates: GateName -> Gate, variant: Variant)
    ensures SomeInvalidates(gates, variant) <==> EachCloses(gates, variant)
  {
    if SomeInvalidates(gates, variant) {
      var name: GateName :| variant.Gating(name) && gates(name).Invalidates();
      match name
      case MeasurementRow | ImpulseRow | ImpulseVwapRow | VwapSideRow | VwapSlopeRow | VwapCrossRow | StrengthRow =>
      case RetracementRow | VolumeRow | SupportRow | TriggerRow | SpreadRow | SequenceRow | RiskRow | ConfidenceRow =>
    }
    if EachCloses(gates, variant) {
      assert variant.Gating(MeasurementRow) && variant.Gating(ImpulseRow) && variant.Gating(ImpulseVwapRow);
      assert variant.Gating(VwapCrossRow) && variant.Gating(StrengthRow) && variant.Gating(RetracementRow);
      assert variant.Gating(VolumeRow) && variant.Gating(SupportRow) && variant.Gating(TriggerRow);
      assert variant.Gating(SpreadRow) && variant.Gating(SequenceRow) && variant.Gating(RiskRow);
      assert variant.Gating(ConfidenceRow);
      assert !variant.relaxed ==> variant.Gating(VwapSideRow) && variant.Gating(VwapSlopeRow);
    }
  }

  /** A candidate ends its pullback exactly on the facts listed above. A relaxed candidate that loses
      its last trade is closed only through the trigger, so only with a reversal bar and an ATR. */
  lemma InvalidationMeansClosing(variant: Variant, request: Request, support: Option<Anchored>)
    requires request.Valid() && (variant.anchored && support.Some? ==> Matches(support.value, request))
    ensures Assess(variant, request, support).value.state == INVALIDATED <==> Closing(variant, request, support)
  {
    hide Assess, Row, Plain, SomeInvalidates, EachCloses, Closing;
    AssessedRows(variant, request, support);
    RowsClose(variant, request, support);
    SomeRowCloses(Assess(variant, request, support).value.gates, variant);
  }

  lemma RowsClose(variant: Variant, request: Request, support: Option<Anchored>)
    requires request.Valid() && (variant.anchored && support.Some? ==> Matches(support.value, request))
    ensures EachCloses(Assess(variant, request, support).value.gates, variant) <==> Closing(variant, request, support)
  {
    hide Assess, Row, Plain, Decide, MeasurementGate, Gate.Invalidates, Reason.Invalidates;
    hide ImpulseGate, ImpulseVwapGate, RetracementGate, VolumeGate, StrengthGate, ConfidenceGate, SpreadGate;
    hide VwapSideGate, VwapSlopeGate, VwapCrossGate, TriggerGate, RiskGate, SequenceGate, SupportGate;
    hide InFrame, Lost, Value, SupportLost, StrengthLost, LastLost;
    MeasurementGateCloses(request);
    MeasuredGatesClose(request);
    SupportRowCloses(variant, request, support);
    VwapRowsClose(request);
    StrengthCloses(request);
    OtherRowsClose(request);
    TriggerCloses(request);
    RiskNeverCloses(request);
    AssessedRows(variant, request, support);
    var gates := Assess(variant, request, support).value.gates;
    RowsSpelled(request, gates(SupportRow));
  }

  /** The state of any evaluation, from its facts: no alert is ever on facts that end the pullback,
      and between those two a pullback is armed once it is measured. */
  lemma StateMeans(variant: Variant, request: Request, support: Option<Anchored>)
    requires request.Valid() && (variant.anchored && support.Some? ==> Matches(support.value, request))
    ensures Assess(variant, request, support).value.state ==
      if Closing(variant, request, support) then INVALIDATED
      else if Actionable(variant, request, support) then TRIGGERED
      else if Measured(request) then ARMED
      else FORMING
    ensures Actionable(variant, request, support) ==> Measured(request) && !Closing(variant, request, support)
  {
    InvalidationMeansClosing(variant, request, support);
    AlertMeansActionable(variant, request, support);
    MeasurementGateMeans(request);
    AssessedRows(variant, request, support);
    var gates := Assess(variant, request, support).value.gates;
    RowsSpelled(request, gates(SupportRow));
    hide Assess, Closing, Row, Plain, Measured, MeasurementGate, SomeInvalidates, AllPass;
  }
}
