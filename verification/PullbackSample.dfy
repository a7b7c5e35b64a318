/** One LONG evaluation on which every gate passes but perhaps session support and the quote: what
the concrete cases of the other modules vary.
*/
module PullbackSample {
  import opened Wrappers
  import opened Rationals
  import opened PullbackGates
  import opened PullbackAlert

  function Given(value: real): Feature { Feature(Some(value), None) }

  /** A policy the program accepts, with this spread limit. */
  function PolicyWith(limit: real): Policy {
    Policy(
      Long, "TAPE", 5.0, 1.0, 1.0, 0.5, 3, 0.0, 0.25, 0.5, 0.75, 1.0, 0.25, 0.5, 0.5, limit, 1, 1.0)
  }

  const PLAIN_QUOTE := Quote(true, true, Some(100.0), Some(100.0))

  /** Session support holds exactly when `support` is at least -0.25. */
  function RequestWith(at: int, support: real, limit: real, quote: Quote): Request {
    Request(
      Measurement(true, true, "A", at, map[
        ImpulseComplete := Given(1.0), ImpulseOrdered := Given(1.0), ImpulseDistanceAtr := Given(2.0),
        ImpulseFromVwap := Given(2.0), PullbackComplete := Given(1.0), PullbackExtreme := Given(98.0),
        PullbackFromVwap := Given(support), ReversalHigh := Given(99.0), Retracement := Given(0.4),
        VolumeRatio := Given(0.5)]),
      Long, PolicyWith(limit), at, "A", "V", 0, 1, Some(1.0), Some(1),
      Some(VwapContext(at, true, Some(97.0), Some(1.0), Some(0), Text("NONE"))),
      Some(RelativeStrength(at, true, Some(1.0), Text("NONE"))),
      Some(Observation("TAPE", at, true, Some(100.0), Some(1.0), None)),
      Some(QuoteDecision(true, [], Some(1.0), Some(quote))),
      Some(Structural(Long, 1, at, at, Some(Risk(100.0, 97.0, 3.0)), [Target("T1", 106.0, 2.0)], Text("NONE"))),
      Some(Confidence(true, "V", Long, at, true, Text("NONE"))))
  }

  lemma SampleIsValid(at: int, support: real, limit: real, quote: Quote)
    requires limit > 0.0
    ensures PolicyWith(limit).Valid() && RequestWith(at, support, limit, quote).Valid()
  {
  }

  lemma SampleMeasured(at: int, support: real, limit: real, quote: Quote)
    ensures var request := RequestWith(at, support, limit, quote);
      && Measured(request) && ImpulseStands(request) && PullbackStands(request)
      && (AtLeast(Value(request, PullbackFromVwap), -0.25) <==> support >= -0.25)
      && !MeasurementLost(request) && !Lost(request, PullbackFromVwap)
  {
  }

  lemma SampleMarket(at: int, support: real, limit: real, quote: Quote)
    ensures var request := RequestWith(at, support, limit, quote);
      && VwapStands(STRICT, request) && StrengthStands(request) && TriggerStands(request)
      && !LastLost(request) && !StrengthLost(request) && !VwapLost(STRICT, request) && !Overextended(request)
  {
  }

  lemma SampleGeometry(at: int, support: real, limit: real, quote: Quote)
    ensures var request := RequestWith(at, support, limit, quote);
      GeometryStands(request) && ConfidenceStands(request)
  {
  }

  /** The strict candidate alerts on it exactly when session support holds and the quote stands,
      and is armed otherwise. */
  lemma SampleJudged(at: int, support: real, limit: real, quote: Quote)
    requires limit > 0.0
    ensures var request := RequestWith(at, support, limit, quote);
      && request.Valid()
      && (StandsButForQuote(STRICT, request, None) <==> support >= -0.25)
      && Assess(STRICT, request, None).value.state ==
         if support >= -0.25 && QuoteStands(request) then TRIGGERED else ARMED
  {
    var request := RequestWith(at, support, limit, quote);
    SampleIsValid(at, support, limit, quote);
    SampleMeasured(at, support, limit, quote);
    SampleMarket(at, support, limit, quote);
    SampleGeometry(at, support, limit, quote);
    assert request.policy.maxSupportAtr == 0.25 && request.ordinal == Some(1) && request.policy.maxOrdinal == 1;
    hide RequestWith, Assess, Measured, ImpulseStands, PullbackStands, VwapStands, StrengthStands, TriggerStands;
    hide GeometryStands, ConfidenceStands, QuoteStands, MeasurementLost, Lost, LastLost, StrengthLost, VwapLost, Value;
    hide Overextended;
    StateMeans(STRICT, request, None);
  }
}
