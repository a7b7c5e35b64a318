/** LONG and SHORT are mirror images: reflecting every price about a constant and reversing
every signed reading leaves all fifteen gate verdicts and every candidate's state unchanged.

`Mirror` leaves the bid and the ask: their spread is measured against their own middle, which a
reflection moves. `MirrorAll` reflects them too, and `ReflectedVerdicts` and `ReflectedState` say
exactly when that keeps the verdicts and the state.
*/
module PullbackMirror {
  import opened Wrappers
  import opened Rationals
  import opened PullbackGates
  import opened PullbackAlert
  import opened PullbackSample

  function MirrorName(name: FeatureName): FeatureName {
    match name
    case ReversalHigh => ReversalLow
    case ReversalLow => ReversalHigh
    case _ => name
  }

  predicate IsPrice(name: FeatureName) {
    name.PullbackExtreme? || name.ReversalHigh? || name.ReversalLow?
  }

  function Reflect(price: Option<real>, c: real): Option<real> {
    match price
    case None => None
    case Some(p) => Some(c - p)
  }

  function Negate(value: Option<real>): Option<real> {
    match value
    case None => None
    case Some(v) => Some(-v)
  }

  function MirrorFeatures(features: map<FeatureName, Feature>, c: real): map<FeatureName, Feature> {
    map name: FeatureName | MirrorName(name) in features ::
      var f := features[MirrorName(name)];
      if IsPrice(name) then f.(value := Reflect(f.value, c)) else f
  }

  function MirrorTargets(targets: seq<Target>, c: real): seq<Target> {
    seq(|targets|, k requires 0 <= k < |targets| => targets[k].(price := c - targets[k].price))
  }

  function MirrorStructural(s: Structural, c: real): Structural {
    s.(direction := s.direction.Opposite(),
       risk := match s.risk
               case None => None
               case Some(risk) => Some(Risk(c - risk.entry, c - risk.stop, risk.perShare)),
       targets := MirrorTargets(s.targets, c))
  }

  /** The same evaluation seen upside down, every price reflected about half of `c`. */
  function Mirror(r: Request, c: real): Request {
    r.(measurement := r.measurement.(features := MirrorFeatures(r.measurement.features, c)),
       measurementDirection := r.measurementDirection.Opposite(),
       policy := r.policy.(direction := r.policy.direction.Opposite()),
       vwap := match r.vwap
               case None => None
               case Some(v) => Some(v.(level := Reflect(v.level, c), slope := Negate(v.slope))),
       strength := match r.strength
                   case None => None
                   case Some(s) => Some(s.(value := Negate(s.value))),
       lastTrade := match r.lastTrade
                    case None => None
                    case Some(seen) => Some(seen.(price := Reflect(seen.price, c))),
       structural := match r.structural
                     case None => None
                     case Some(s) => Some(MirrorStructural(s, c)),
       confidence := match r.confidence
                     case None => None
                     case Some(s) => Some(s.(direction := s.direction.Opposite())))
  }

  function MirrorAnchored(support: Option<Anchored>): Option<Anchored> {
    match support
    case None => None
    case Some(s) => Some(s.(direction := s.direction.Opposite()))
  }

  lemma MirrorFeaturesTwice(f: map<FeatureName, Feature>, c: real)
    ensures MirrorFeatures(MirrorFeatures(f, c), c) == f
  {
    var m := MirrorFeatures(f, c);
    var g := MirrorFeatures(m, c);
    forall name: FeatureName ensures (name in g <==> name in f) && (name in f ==> g[name] == f[name]) {
      assert MirrorName(MirrorName(name)) == name;
      assert MirrorName(name) in m <==> name in f;
    }
  }

  lemma MirrorStructuralTwice(s: Structural, c: real)
    ensures MirrorStructural(MirrorStructural(s, c), c) == s
  {
    assert MirrorTargets(MirrorTargets(s.targets, c), c) == s.targets;
  }

  /** Reflecting twice about the same constant gives the evaluation back. */
  lemma MirrorTwice(r: Request, c: real)
    ensures Mirror(Mirror(r, c), c) == r
  {
    var m := Mirror(r, c);
    var t := Mirror(m, c);
    MirrorFeaturesTwice(r.measurement.features, c);
    if r.structural.Some? {
      MirrorStructuralTwice(r.structural.value, c);
    }
    hide MirrorFeatures, MirrorStructural;
    assert t.measurement == r.measurement;
    assert t.vwap == r.vwap;
    assert t.strength == r.strength;
    assert t.lastTrade == r.lastTrade;
    assert t.structural == r.structural;
    assert t.confidence == r.confidence;
  }

  /** Two gates that agree in status and in whether they end the pullback. */
  predicate SameVerdict(a: Gate, b: Gate) {
    a.status == b.status && (a.Invalidates() <==> b.Invalidates())
  }

  lemma MirrorReading(r: Request, c: real, name: FeatureName)
    ensures var there, here := Reading(Mirror(r, c), name), Reading(r, MirrorName(name));
      && (here.Ok? ==> there == Ok(if IsPrice(name) then c - here.value else here.value))
      && (here.Err? ==>
          && there.Err?
          && (there.error == here.error || (there.error == Absent(name) && here.error == Absent(MirrorName(name)))))
  {
    var f, g := r.measurement.features, MirrorFeatures(r.measurement.features, c);
    assert name in g <==> MirrorName(name) in f;
  }

  lemma MirrorCompletion(r: Request, c: real, name: FeatureName, leg: FeatureName, code: string)
    requires MirrorName(name) == name && !IsPrice(name) && MirrorName(leg) == leg
    ensures CompletionFault(Mirror(r, c), name, leg, code).Some? <==> CompletionFault(r, name, leg, code).Some?
    ensures CompletionFault(r, name, leg, code).Some? ==>
      (CompletionFault(Mirror(r, c), name, leg, code).value.Invalidates()
       <==> CompletionFault(r, name, leg, code).value.Invalidates())
  {
    MirrorReading(r, c, name);
    MirrorReading(r, c, leg);
    hide MirrorFeatures, Reading;
  }

  lemma MirrorMeasurement(r: Request, c: real)
    ensures SameVerdict(MeasurementGate(Mirror(r, c)), MeasurementGate(r))
  {
    MirrorCompletion(r, c, ImpulseComplete, ImpulseDistanceAtr, "IMPULSE_INCOMPLETE");
    MirrorCompletion(r, c, PullbackComplete, PullbackExtreme, "PULLBACK_INCOMPLETE");
    hide CompletionFault, MirrorFeatures;
  }

  lemma MirrorMinimum(r: Request, c: real, name: FeatureName, limit: real, code: string)
    requires MirrorName(name) == name && !IsPrice(name)
    ensures MinimumGate(Mirror(r, c), name, limit, code) == MinimumGate(r, name, limit, code)
  {
    MirrorReading(r, c, name);
    hide MirrorFeatures;
    assert Reading(Mirror(r, c), name) == Reading(r, name);
  }

  lemma MirrorMeasured(r: Request, c: real)
    ensures ImpulseGate(Mirror(r, c)) == ImpulseGate(r)
    ensures ImpulseVwapGate(Mirror(r, c)) == ImpulseVwapGate(r)
    ensures SupportGate(Mirror(r, c)) == SupportGate(r)
    ensures RetracementGate(Mirror(r, c)) == RetracementGate(r)
    ensures VolumeGate(Mirror(r, c)) == VolumeGate(r)
  {
    hide MirrorFeatures, MinimumGate, Reading, Mirror;
    assert Mirror(r, c).policy == r.policy.(direction := r.policy.direction.Opposite()) by { MirrorPolicy(r, c); }
    MirrorReading(r, c, ImpulseOrdered);
    MirrorReading(r, c, Retracement);
    MirrorReading(r, c, VolumeRatio);
    MirrorMinimum(r, c, ImpulseDistanceAtr, r.policy.minImpulseAtr, "IMPULSE_BELOW_SUPPLIED_MINIMUM");
    MirrorMinimum(r, c, ImpulseFromVwap, r.policy.minImpulseVwapAtr, "IMPULSE_TOO_CLOSE_TO_VWAP");
    MirrorMinimum(r, c, PullbackFromVwap, -r.policy.maxSupportAtr, "PULLBACK_BEYOND_SUPPLIED_VWAP_PAD");
  }

  lemma MirrorPolicy(r: Request, c: real)
    ensures Mirror(r, c).policy == r.policy.(direction := r.policy.direction.Opposite())
  {
  }

  lemma MirrorLastPrice(r: Request, c: real)
    ensures var there, here := LastPrice(Mirror(r, c)), LastPrice(r);
      if here.Ok? then there == Ok(c - here.value) else there == here
  {
    hide MirrorFeatures;
  }

  lemma MirrorVwapAndStrength(r: Request, c: real)
    ensures VwapSideGate(Mirror(r, c)) == VwapSideGate(r)
    ensures VwapSlopeGate(Mirror(r, c)) == VwapSlopeGate(r)
    ensures VwapCrossGate(Mirror(r, c)) == VwapCrossGate(r)
    ensures StrengthGate(Mirror(r, c)) == StrengthGate(r)
  {
    MirrorLastPrice(r, c);
    hide MirrorFeatures, LastPrice;
  }

  lemma MirrorTrigger(r: Request, c: real)
    ensures SameVerdict(TriggerGate(Mirror(r, c)), TriggerGate(r))
  {
    MirrorReading(r, c, ReversalName(r.policy.direction.Opposite()));
    MirrorLastPrice(r, c);
    hide MirrorFeatures, LastPrice, Reading, Times;
  }

  lemma {:induction false} MirrorTargetFault(targets: seq<Target>, direction: Direction, risk: Risk, c: real)
    requires risk.perShare > 0.0
    ensures TargetFault(MirrorTargets(targets, c), direction.Opposite(),
      Risk(c - risk.entry, c - risk.stop, risk.perShare))
         == TargetFault(targets, direction, risk)
    decreases |targets|
  {
    hide RewardMultiple;
    if targets == [] {
    } else {
      MirrorTargetFault(targets[1..], direction, risk, c);
      assert MirrorTargets(targets, c)[1..] == MirrorTargets(targets[1..], c);
    }
  }

  lemma MirrorGeometry(r: Request, c: real, supplied: Structural)
    ensures var there, here := GeometryFault(Mirror(r, c), MirrorStructural(supplied, c)), GeometryFault(r, supplied);
      && (there.Some? <==> here.Some?)
      && (here.Some? ==> !here.value.Invalidates() && !there.value.Invalidates())
  {
    MirrorReading(r, c, ReversalName(r.policy.direction.Opposite()));
    MirrorReading(r, c, PullbackExtreme);
    MirrorMeasurement(r, c);
    hide MirrorFeatures, Reading, MeasurementGate;
  }

  lemma MirrorVerdict(
      targets: seq<Target>, direction: Direction, risk: Risk, reversal: real, extreme: real, minimum: real, c: real)
    requires risk.perShare > 0.0 && targets != []
    ensures GeometryVerdict(MirrorTargets(targets, c), direction.Opposite(),
                        Risk(c - risk.entry, c - risk.stop, risk.perShare),
                            c - reversal, c - extreme, minimum)
         == GeometryVerdict(targets, direction, risk, reversal, extreme, minimum)
  {
    MirrorTargetFault(targets, direction, risk, c);
    hide TargetFault;
  }

  lemma MirrorRisk(r: Request, c: real)
    requires r.Valid()
    ensures Mirror(r, c).Valid() && SameVerdict(RiskGate(Mirror(r, c)), RiskGate(r))
  {
    hide Mirror, MirrorStructural, MirrorTargets, Reading, RiskGate, GeometryFault, GeometryVerdict;
    MirrorKeepsFrame(r, c);
    RiskGateIs(r);
    RiskGateIs(Mirror(r, c));
    if r.structural.Some? {
      var m, supplied, direction := Mirror(r, c), r.structural.value, r.policy.direction;
      var there := m.structural.value;
      MirrorGeometry(r, c, supplied);
      MirrorReading(r, c, ReversalName(direction.Opposite()));
      MirrorReading(r, c, PullbackExtreme);
      if GeometryFault(r, supplied).None? {
        MirrorVerdict(supplied.targets, direction, supplied.risk.value, Reading(r, ReversalName(direction)).value,
          Reading(r, PullbackExtreme).value, r.policy.minFirstTargetR, c);
      }
    }
  }

  lemma RiskGateIs(r: Request)
    requires r.Valid()
    ensures r.structural.None? ==> RiskGate(r) == NotKnown(Text("GEOMETRY_UNAVAILABLE"))
    ensures r.structural.Some? && GeometryFault(r, r.structural.value).Some? ==>
      RiskGate(r) == NotKnown(GeometryFault(r, r.structural.value).value)
    ensures r.structural.Some? && GeometryFault(r, r.structural.value).None? ==>
      && r.structural.value.risk.Some? && r.structural.value.targets != []
      && Reading(r, ReversalName(r.policy.direction)).Ok? && Reading(r, PullbackExtreme).Ok?
      && RiskGate(r) == GeometryVerdict(
           r.structural.value.targets, r.policy.direction, r.structural.value.risk.value,
           Reading(r, ReversalName(r.policy.direction)).value, Reading(r, PullbackExtreme).value,
           r.policy.minFirstTargetR)
  {
    hide Reading, MeasurementGate, GeometryVerdict;
  }

  lemma MirrorKeepsFrame(r: Request, c: real)
    requires r.Valid()
    ensures var m := Mirror(r, c);
      && m.Valid() && (m.structural.Some? <==> r.structural.Some?)
      && m.policy.direction == r.policy.direction.Opposite() && m.policy.minFirstTargetR == r.policy.minFirstTargetR
    ensures r.structural.Some? ==>
      var s, there := r.structural.value, Mirror(r, c).structural.value;
      && there == MirrorStructural(s, c) && there.targets == MirrorTargets(s.targets, c)
      && (s.risk.Some? ==>
          there.risk == Some(Risk(c - s.risk.value.entry, c - s.risk.value.stop, s.risk.value.perShare)))
  {
    hide MirrorFeatures, MirrorTargets;
  }

  lemma MirrorRest(r: Request, c: real)
    ensures SpreadGate(Mirror(r, c)) == SpreadGate(r)
    ensures SequenceGate(Mirror(r, c)) == SequenceGate(r)
    ensures ConfidenceGate(Mirror(r, c)) == ConfidenceGate(r)
  {
    hide MirrorFeatures, SpreadBps;
  }

  lemma MirrorAnchoredGate(r: Request, c: real, support: Option<Anchored>)
    ensures AnchoredGate(Mirror(r, c), MirrorAnchored(support)) == AnchoredGate(r, support)
    ensures support.Some? ==> (Matches(MirrorAnchored(support).value, Mirror(r, c)) <==> Matches(support.value, r))
  {
    hide MirrorFeatures;
  }

  /** All fifteen gates keep their verdicts. */
  lemma MirrorRow(r: Request, c: real, support: Gate, name: GateName)
    requires r.Valid()
    ensures Mirror(r, c).Valid() && SameVerdict(Row(Mirror(r, c), support, name), Row(r, support, name))
  {
    MirrorRisk(r, c);
    hide Mirror, MeasurementGate, ImpulseGate, ImpulseVwapGate, VwapSideGate, VwapSlopeGate, VwapCrossGate,
      StrengthGate, RetracementGate, VolumeGate, TriggerGate, SpreadGate, SequenceGate, RiskGate, ConfidenceGate;
    match name
    case MeasurementRow => MirrorMeasurement(r, c);
    case ImpulseRow | ImpulseVwapRow | RetracementRow | VolumeRow => MirrorMeasured(r, c);
    case VwapSideRow | VwapSlopeRow | VwapCrossRow | StrengthRow => MirrorVwapAndStrength(r, c);
    case TriggerRow => MirrorTrigger(r, c);
    case SpreadRow | SequenceRow | ConfidenceRow => MirrorRest(r, c);
    case SupportRow | RiskRow =>
  }

  /** Gates that agree row by row support the same state. */
  lemma SameVerdictsSameState(a: GateName -> Gate, b: GateName -> Gate, variant: Variant)
    requires forall name: GateName :: SameVerdict(a(name), b(name))
    ensures Decide(a, variant) == Decide(b, variant)
  {
    assert SomeInvalidates(a, variant) <==> SomeInvalidates(b, variant);
    assert AllPass(a, variant) <==> AllPass(b, variant);
  }

  /** Every candidate reaches the same state on the mirrored evaluation, or refuses both. */
  lemma MirrorSymmetry(variant: Variant, r: Request, support: Option<Anchored>, c: real)
    requires r.Valid()
    ensures Mirror(r, c).Valid()
    ensures var there, here := Assess(variant, Mirror(r, c), MirrorAnchored(support)), Assess(variant, r, support);
      && (there.Err? <==> here.Err?)
      && (here.Ok? ==> there.value.state == here.value.state)
      && (here.Ok? ==> forall name: GateName :: SameVerdict(there.value.gates(name), here.value.gates(name)))
  {
    MirrorRisk(r, c);
    MirrorMeasured(r, c);
    MirrorAnchoredGate(r, c, support);
    var m := Mirror(r, c);
    hide Mirror, SupportGate, AnchoredGate, Row, CombinedSupport, Matches, Decide;
    var there, here := Assess(variant, m, MirrorAnchored(support)), Assess(variant, r, support);
    if here.Ok? {
      var used := if variant.anchored then CombinedSupport(SupportGate(r), AnchoredGate(r, support))
        else SupportGate(r);
      forall name: GateName ensures SameVerdict(there.value.gates(name), here.value.gates(name)) {
        MirrorRow(r, c, used, name);
      }
      SameVerdictsSameState(there.value.gates, here.value.gates, variant);
    }
  }

  // ----- Reflecting the quote as well -------------------------------------

  /** What a seller would be bid is what a buyer would be asked. */
  function MirrorQuote(quote: Quote, c: real): Quote {
    quote.(bid := Reflect(quote.ask, c), ask := Reflect(quote.bid, c))
  }

  function MirrorAll(r: Request, c: real): Request {
    Mirror(r, c).(quote := match r.quote
                           case None => None
                           case Some(d) =>
                             match d.quote
                             case None => Some(d)
                             case Some(quote) => Some(d.(quote := Some(MirrorQuote(quote, c)))))
  }

  /** A fresh, valid, two-sided, uncrossed quote, of whatever sign. */
  predicate QuoteReadable(r: Request) {
    && r.quote.Some? && r.quote.value.quote.Some?
    && var decision := r.quote.value;
    var quote := decision.quote.value;
    && decision.usable && quote.valid && quote.realtime && AtMost(decision.ageSeconds, r.policy.maxAge)
    && quote.bid.Some? && quote.ask.Some? && quote.bid.value <= quote.ask.value
  }

  predicate Within(bid: real, ask: real, limit: real) { 20000.0 * (ask - bid) <= Times(limit, ask + bid) }

  /** The quote is positive before and after reflection or neither, and its spread is within the
      limit of both middles or of neither. */
  predicate SpreadSurvives(r: Request, c: real) {
    QuoteReadable(r) ==>
      var bid, ask := r.quote.value.quote.value.bid.value, r.quote.value.quote.value.ask.value;
      && (bid > 0.0 <==> ask < c)
      && (bid > 0.0 && ask < c ==>
          (Within(bid, ask, r.policy.maxSpreadBps) <==> Within(c - ask, c - bid, r.policy.maxSpreadBps)))
  }

  /** The same, of what lets an alert through: a positive quote within the limit. */
  predicate PassingSurvives(r: Request, c: real) {
    QuoteReadable(r) ==>
      var bid, ask := r.quote.value.quote.value.bid.value, r.quote.value.quote.value.ask.value;
      (bid > 0.0 && Within(bid, ask, r.policy.maxSpreadBps))
      <==> (ask < c && Within(c - ask, c - bid, r.policy.maxSpreadBps))
  }

  lemma SpreadStatusMeans(r: Request)
    ensures SpreadGate(r).status == Unknown <==> !QuoteReadable(r) || r.quote.value.quote.value.bid.value <= 0.0
    ensures SpreadGate(r).status == Pass <==>
      && QuoteReadable(r)
      && var quote := r.quote.value.quote.value;
      quote.bid.value > 0.0 && Within(quote.bid.value, quote.ask.value, r.policy.maxSpreadBps)
  {
    SpreadGateMeans(r);
    hide SpreadBps, Times;
  }

  lemma ReadableMirrored(r: Request, c: real)
    ensures QuoteReadable(MirrorAll(r, c)) <==> QuoteReadable(r)
    ensures QuoteReadable(r) ==>
      && MirrorAll(r, c).quote.value.quote.value.bid.value == c - r.quote.value.quote.value.ask.value
      && MirrorAll(r, c).quote.value.quote.value.ask.value == c - r.quote.value.quote.value.bid.value
    ensures MirrorAll(r, c).policy.maxSpreadBps == r.policy.maxSpreadBps
  {
    hide MirrorFeatures, MirrorStructural;
  }

  /** Reflecting every price, the quote too, keeps the spread gate's status exactly when the
      spread survives. */
  lemma ReflectedSpreadGate(r: Request, c: real)
    ensures SpreadGate(MirrorAll(r, c)).status == SpreadGate(r).status <==> SpreadSurvives(r, c)
    ensures (SpreadGate(MirrorAll(r, c)).status == Pass <==> SpreadGate(r).status == Pass) <==> PassingSurvives(r, c)
  {
    SpreadStatusMeans(r);
    SpreadStatusMeans(MirrorAll(r, c));
    ReadableMirrored(r, c);
    hide MirrorAll, QuoteReadable, SpreadGate, Within;
  }

  lemma MeasuredIgnoreQuote(m: Request, q: Option<QuoteDecision>)
    ensures var a := m.(quote := q);
      && (forall name: FeatureName :: Reading(a, name) == Reading(m, name))
      && LastPrice(a) == LastPrice(m) && MeasurementGate(a) == MeasurementGate(m)
      && SupportGate(a) == SupportGate(m)
  {
    var a := m.(quote := q);
    forall name: FeatureName ensures Reading(a, name) == Reading(m, name) {}
    hide Reading;
    assert CompletionFault(a, ImpulseComplete, ImpulseDistanceAtr, "IMPULSE_INCOMPLETE")
        == CompletionFault(m, ImpulseComplete, ImpulseDistanceAtr, "IMPULSE_INCOMPLETE");
    assert CompletionFault(a, PullbackComplete, PullbackExtreme, "PULLBACK_INCOMPLETE")
        == CompletionFault(m, PullbackComplete, PullbackExtreme, "PULLBACK_INCOMPLETE");
  }

  lemma RowsIgnoreQuote(m: Request, q: Option<QuoteDecision>, support: Gate, name: GateName)
    requires m.Valid() && name != SpreadRow
    ensures Row(m.(quote := q), support, name) == Row(m, support, name)
  {
    var a := m.(quote := q);
    hide Reading, LastPrice, MeasurementGate, TargetFault, TriggerOffset, GeometryVerdict;
    MeasuredIgnoreQuote(m, q);
    match name
    case MeasurementRow | ImpulseRow | ImpulseVwapRow | RetracementRow | VolumeRow | SupportRow =>
    case VwapSideRow | VwapSlopeRow | VwapCrossRow | StrengthRow | SequenceRow | ConfidenceRow | TriggerRow =>
    case RiskRow =>
      if m.structural.Some? {
        assert GeometryFault(a, m.structural.value) == GeometryFault(m, m.structural.value);
      }
  }

  /** What an assessment reads of a quote, only its spread row tells. */
  lemma AssessmentIgnoresQuote(variant: Variant, m: Request, q: Option<QuoteDecision>, support: Option<Anchored>)
    requires m.Valid() && (variant.anchored && support.Some? ==> Matches(support.value, m))
    ensures var a := m.(quote := q);
      && Assess(variant, a, support).Ok? && Assess(variant, m, support).Ok?
      && (forall name: GateName | name != SpreadRow ::
           Assess(variant, a, support).value.gates(name) == Assess(variant, m, support).value.gates(name))
      && Assess(variant, a, support).value.gates(SpreadRow) == SpreadGate(a)
  {
    var a := m.(quote := q);
    MeasuredIgnoreQuote(m, q);
    assert AnchoredGate(a, support) == AnchoredGate(m, support);
    hide Row, SupportGate, AnchoredGate, SpreadGate, Decide, CombinedSupport;
    var used := if variant.anchored then CombinedSupport(SupportGate(m), AnchoredGate(m, support)) else SupportGate(m);
    forall name: GateName | name != SpreadRow
      ensures Assess(variant, a, support).value.gates(name) == Assess(variant, m, support).value.gates(name)
    {
      RowsIgnoreQuote(m, q, used, name);
    }
    SpreadSpelled(a, used);
  }

  lemma OnlySpreadMoves(variant: Variant, r: Request, support: Option<Anchored>, c: real)
    requires r.Valid() && (variant.anchored && support.Some? ==> Matches(support.value, r))
    ensures MirrorAll(r, c).Valid()
    ensures var there, here := Assess(variant, MirrorAll(r, c), MirrorAnchored(support)), Assess(variant, r, support);
      && there.Ok? && here.Ok?
      && there.value.state == Decide(there.value.gates, variant)
      && here.value.state == Decide(here.value.gates, variant)
      && (forall name: GateName | name != SpreadRow :: SameVerdict(there.value.gates(name), here.value.gates(name)))
      && there.value.gates(SpreadRow) == SpreadGate(MirrorAll(r, c)) && here.value.gates(SpreadRow) == SpreadGate(r)
      && !SpreadGate(MirrorAll(r, c)).Invalidates() && !SpreadGate(r).Invalidates()
  {
    var m, a := Mirror(r, c), MirrorAll(r, c);
    MirrorSymmetry(variant, r, support, c);
    MirrorAnchoredGate(r, c, support);
    OtherRowsClose(a);
    OtherRowsClose(r);
    assert a == m.(quote := a.quote);
    hide Mirror, MirrorAll, Assess, SpreadGate, SameVerdict, Matches, Decide;
    AssessmentIgnoresQuote(variant, m, a.quote, MirrorAnchored(support));
    AssessmentIgnoresQuote(variant, r, r.quote, support);
    assert r.(quote := r.quote) == r;
    AssessedState(variant, a, MirrorAnchored(support));
    AssessedState(variant, r, support);
  }

  lemma AssessedState(variant: Variant, r: Request, support: Option<Anchored>)
    requires r.Valid() && Assess(variant, r, support).Ok?
    ensures Assess(variant, r, support).value.state == Decide(Assess(variant, r, support).value.gates, variant)
  {
    hide Decide, Row, SupportGate, AnchoredGate;
  }

  /** All fifteen verdicts are kept when the quote is reflected too exactly when the spread
      survives. */
  lemma ReflectedVerdicts(variant: Variant, r: Request, support: Option<Anchored>, c: real)
    requires r.Valid() && (variant.anchored && support.Some? ==> Matches(support.value, r))
    ensures MirrorAll(r, c).Valid()
    ensures var there, here := Assess(variant, MirrorAll(r, c), MirrorAnchored(support)), Assess(variant, r, support);
      && there.Ok? && here.Ok?
      && ((forall name: GateName :: SameVerdict(there.value.gates(name), here.value.gates(name)))
          <==> SpreadSurvives(r, c))
  {
    OnlySpreadMoves(variant, r, support, c);
    ReflectedSpreadGate(r, c);
    hide MirrorAll, Assess, SpreadGate, SpreadSurvives, Decide, MirrorAnchored;
    var there := Assess(variant, MirrorAll(r, c), MirrorAnchored(support)).value;
    var here := Assess(variant, r, support).value;
    assert SameVerdict(there.gates(SpreadRow), here.gates(SpreadRow)) <==> SpreadSurvives(r, c);
  }

  /** Gates that differ only in the spread row support different states only when every other row
      passes and just one of the two spreads does. */
  lemma SpreadDecides(a: GateName -> Gate, b: GateName -> Gate, variant: Variant)
    requires forall name: GateName | name != SpreadRow :: SameVerdict(a(name), b(name))
    requires !a(SpreadRow).Invalidates() && !b(SpreadRow).Invalidates()
    requires forall name: GateName | name != SpreadRow && variant.Gating(name) && b(name).status == Pass ::
      !b(name).Invalidates()
    ensures Decide(a, variant) == Decide(b, variant) <==>
      (OthersPass(b, variant) ==> (a(SpreadRow).status == Pass <==> b(SpreadRow).status == Pass))
    ensures Decide(a, variant) == TRIGGERED <==> OthersPass(b, variant) && a(SpreadRow).status == Pass
  {
    assert SomeInvalidates(a, variant) <==> SomeInvalidates(b, variant);
    assert OthersPass(a, variant) <==> OthersPass(b, variant);
    OthersAndSpread(a, variant);
    OthersAndSpread(b, variant);
    assert variant.Gating(MeasurementRow);
    if OthersPass(b, variant) {
      assert !SomeInvalidates(b, variant);
    }
    hide AllPass;
  }

  /** A candidate reaches the same state when the quote is reflected too, unless every other fact
      stands and just one of the two quotes passes. */
  lemma ReflectedState(variant: Variant, r: Request, support: Option<Anchored>, c: real)
    requires r.Valid() && (variant.anchored && support.Some? ==> Matches(support.value, r))
    ensures MirrorAll(r, c).Valid()
    ensures var there, here := Assess(variant, MirrorAll(r, c), MirrorAnchored(support)), Assess(variant, r, support);
      && there.Ok? && here.Ok?
      && (there.value.state == here.value.state <==> (StandsButForQuote(variant, r, support) ==> PassingSurvives(r, c)))
      && (there.value.state == TRIGGERED <==> StandsButForQuote(variant, r, support) && QuoteStands(MirrorAll(r, c)))
  {
    OnlySpreadMoves(variant, r, support, c);
    ReflectedSpreadGate(r, c);
    OthersMean(variant, r, support);
    SpreadGateMeans(MirrorAll(r, c));
    AssessedRows(variant, r, support);
    hide QuoteStands, MirrorAll, Assess, SpreadGate, PassingSurvives, Decide, MirrorAnchored, Matches;
    hide StandsButForQuote, OthersPass, Row, Plain, SameVerdict;
    var there := Assess(variant, MirrorAll(r, c), MirrorAnchored(support)).value;
    var here := Assess(variant, r, support).value;
    forall name: GateName | here.gates(name).status == Pass ensures !here.gates(name).Invalidates() {
      RowsArePlain(r, here.gates(SupportRow), name);
      PlainMeans(here.gates(name));
    }
    SpreadDecides(there.gates, here.gates, variant);
  }

  lemma PlainMeans(gate: Gate)
    requires Plain(gate) && gate.status == Pass
    ensures !gate.Invalidates()
  {
  }

  /** Reflected about 105, a quote two dollars wide on 100 is two dollars wide on 110: it comes
      within a limit of 190 basis points, and the armed pullback alerts. */
  lemma ReflectingTheQuoteCanChangeTheState()
    ensures var r := RequestWith(2, 0.0, 190.0, Quote(true, true, Some(99.0), Some(101.0)));
      && r.policy.Valid() && r.Valid() && MirrorAll(r, 210.0).Valid()
      && Assess(STRICT, r, None).value.state == ARMED
      && Assess(STRICT, MirrorAll(r, 210.0), None).value.state == TRIGGERED
  {
    var quote := Quote(true, true, Some(99.0), Some(101.0));
    var r := RequestWith(2, 0.0, 190.0, quote);
    SampleIsValid(2, 0.0, 190.0, quote);
    SampleJudged(2, 0.0, 190.0, quote);
    assert r.quote == Some(QuoteDecision(true, [], Some(1.0), Some(quote))) && r.policy == PolicyWith(190.0);
    hide RequestWith;
    assert !QuoteStands(r);
    ReadableMirrored(r, 210.0);
    ReflectedState(STRICT, r, None, 210.0);
    ReflectedSpreadGate(r, 210.0);
    SpreadStatusMeans(MirrorAll(r, 210.0));
    SpreadGateMeans(MirrorAll(r, 210.0));
    assert QuoteReadable(r) && Within(109.0, 111.0, 190.0);
    hide MirrorAll, Assess, SpreadGate, QuoteReadable, QuoteStands, PassingSurvives, StandsButForQuote;
  }
}
