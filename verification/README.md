# Verified models of the consensus engine's offline cores

These Dafny modules model the pure and transactional cores of `consensus_engine` and prove what
those cores are for: that spreading volume over price bins loses none of it, that a pullback owner's
recorded history is always one allowed path, that an alert is sent at most once however deliveries
interleave and crash, that a crash during publication never leaves a half-published set, and so on.
All arithmetic that the program does in `Fraction` or `Decimal` is done here over exact rationals.

| module | what it models |
|---|---|
| `VolumeProfile` | prior-session volume bins, point of control and value area |
| `Plateaus` | the daily-swing plateau scan |
| `PullbackGates`, `PullbackAlert`, `PullbackMirror` | the fifteen pullback gates and the state they support for the strict candidate and the three research candidates, what each state means apart from the gates, and LONG/SHORT symmetry |
| `PullbackSample` | one evaluation every gate passes, which concrete cases vary |
| `PullbackMachine`, `PullbackHistory`, `PullbackReplay`, `PullbackRuns` | the propose/confirm machine, the replay owner that drives it, and every run of either |
| `PullbackReflection` | LONG/SHORT symmetry of whole runs |
| `PullbackLaws` | what the facts of each supplied step move an owner to, and that nothing it returns is without them |
| `PullbackSimulation` | the strict owner against each research candidate's owner on the same calls, and relaxed owners against unrelaxed |
| `EventStore`, `AlertDelivery` | the append-only event table with its triggers and transactions, and the delivery protocol over it |
| `Publication` | crash-safe publication of immutable option sets |
| `DiskMerge`, `ColumnOrder` | the bounded disk merge and the streamed digest; sorting by columns |
| `TradeWeeks`, `BlockBootstrap`, `SuccessBar` | weekly grouping, circular block bootstrap, drawdown and streak scan of the success bar |
| `TargetCatalog`, `TargetMirror` | stop and target catalogue, the risk gate as its consumer, and when the catalogue is mirrored |
| `PairReport`, `PairMeaning`, `PairInformation` | the cross-strategy pair report, what each relation means, and what more information may change in it |
| `MessageClaims` | atomic message claims under any interleaving |
| `Rationals`, `Wrappers` | exact rounding and named products; option and result types |

Code that updates state in place is a class or a method over an array, specified by functions on
plain values; what every run keeps is proved about those functions. Code made of expressions is
functions. A state machine (`PullbackRuns`, `AlertDelivery`, `MessageClaims`) is a step function
folded over an arbitrary list of calls, so a statement about its result is one about every run and
every prefix of it.

## Properties that do not hold as one might hope

Five expected properties are false of the code. Each has a concrete input here and the exact
condition under which it does hold.

* Reflecting the bid and the ask of a pullback evaluation with all its other prices need not keep
  the spread gate's verdict (`ReflectingTheQuoteCanChangeTheState`). All fifteen verdicts are kept
  exactly when the quote is positive on both sides or on neither, and its spread is within the limit
  of both middles or of neither (`ReflectedVerdicts`); the state is kept exactly when, should every
  other fact stand, both quotes pass or neither does (`ReflectedState`). With the quote left alone
  everything is kept (`MirrorSymmetry`).
* A research owner with anchored readings need not have triggered when the strict owner records its
  trigger (`AnchoredReadingBlocks`, `MisfittingReadingDelays`). It has exactly when, of all calls so
  far, the first that decides its fate is one its own evaluation triggers on
  (`CandidatesTriggerNoLater`, `FateIsFirstVerdict`): not one where a missing anchored reading,
  session support not passing, gives a reason that ends a pullback, nor the strict owner's trigger
  met with a reading for another symbol, direction, impulse or instant (`VerdictMeans`).
* A stored `EXPIRED` or `INVALID_SETUP` result does not by itself mean nothing was sent, because a
  sink may answer with such a reason after being called (`SinkMayClaimExpiry`). It means so exactly
  when the dispatch was blocked, that is expired, or actionable and not mechanically valid, which is
  known before any call (`StoppedMeansUnsent`, `SentIffUnblocked`).
* Supplying a missing trigger price can change an opposite-direction relation, because a declared
  transition compares that price with the broken boundary (`SuppliedTriggerReleases`). It does
  exactly when that price is the boundary and nothing else refused a transition between the two
  (`InformationKeepsRelations`).
* A SHORT trade's first target need not mirror a LONG one's (`ShortIsNotMirrored`). Under any
  reflection that keeps the half-dollar grid, and at whatever entry, it does exactly when no
  half-dollar level at one and a half R or more lies beyond the nearest real level and before every
  real level that far, of which there is one (`FirstTargetMirrors`); and then the second target does
  exactly when none lies so in its own window (`CatalogMirrors`).

Three facts are modelled as the code has them where its comments might suggest otherwise. The
half-dollar levels "between entry and furthest" stop, for SHORT, at the nearest real level
(`HalfLevelsReach`, `ShortIsNotMirrored`). An identical retry keeps the stored row, but a delivery
intent cannot be retried even identically (`RetryIsNoOp`). A pointer temporary file that another
set's run finished writing stops publication (`ForeignPointerTempBlocks`).

## Model

| member | source | states |
|---|---|---|
| VolumeProfile.GridFits | consensus_engine/core_price_features.py:519-527 | for any bars with low ≤ high, any positive tick and any ATR, the bins cover every bar's whole range, and neither the first nor the last could be dropped |
| VolumeProfile.GridIsFinest | consensus_engine/core_price_features.py:521-526 | the bin width is the least positive whole number of ticks that reaches a hundredth of the ATR, the origin a whole multiple of it, and the edges follow one another at that width |
| VolumeProfile.PointBinInBounds | consensus_engine/core_price_features.py:530-532 | a zero-range bar's bin index is in bounds, also at the very top edge, and that bin holds its price |
| VolumeProfile.OverlapTelescopes | consensus_engine/core_price_features.py:533-537 | the first n bins receive exactly the part of a bar's volume that lies below the n-th edge |
| VolumeProfile.BarVolumeConserved | consensus_engine/core_price_features.py:528-537 | spreading one bar over bins that cover it neither gains nor loses volume |
| VolumeProfile.BinsConserveVolume | consensus_engine/core_price_features.py:527-538 | the bins of all bars sum to the bars' total volume |
| VolumeProfile.SpreadBar | consensus_engine/core_price_features.py:528-537 | adding a bar to the bins in place gives every bin exactly its old volume and its share of the bar |
| VolumeProfile.FillBins | consensus_engine/core_price_features.py:527-538 | the filled array holds each bin's share of every bar, nothing negative, and in sum the total volume |
| VolumeProfile.PointOfControl | consensus_engine/core_price_features.py:540-544 | the chosen bin beats every other outright, so it is unique |
| VolumeProfile.BeatsMeans | consensus_engine/core_price_features.py:540-553 | one bin beats another, here and in every pick, exactly when it has more volume, or as much and its middle is nearer to the prior close, or as much and as near and it lies lower |
| VolumeProfile.GrowValueArea | consensus_engine/core_price_features.py:545-557 | the loop ends, never leaves the bins, keeps its running total equal to the window's volume, and makes exactly a greedy run that ends on a window round the point of control holding seven tenths |
| VolumeProfile.GreedyRunIsDetermined | consensus_engine/core_price_features.py:547-557 | the greedy rule leaves no freedom: two runs from one start make the same picks and end on the same window |
| VolumeProfile.GreedyRunEndsTight | consensus_engine/core_price_features.py:545-557 | the final window is contiguous round its start, grew by one bin a pick, and held less than seven tenths before its last pick |
| VolumeProfile.ValueAreaIsSmallest | consensus_engine/core_price_features.py:545-557 | on a single-peaked profile no window of fewer bins anywhere holds seven tenths: the greedy result is optimal |
| VolumeProfile.KnownBars | consensus_engine/core_price_features.py:516 | exactly the traded bars whose volume is known take part |
| VolumeProfile.KnownBarsKeepCounts | consensus_engine/core_price_features.py:516 | each as often as it was traded |
| VolumeProfile.BuildFromBars | consensus_engine/core_price_features.py:519-560 | the reported prices frame the one greedy window round the one point of control, with value-area low below it and high above |
| VolumeProfile.BuildPriorSessionProfile | consensus_engine/core_price_features.py:481-560 | each missing input gives its own reason in the order checked, no positive volume gives its reason, and anything else the profile of the bars over the grid that `GridFits` and `GridIsFinest` describe |
| Plateaus.FindPlateaus | consensus_engine/core_price_features.py:404-422 | the run-skipping scan returns the levels of the declarative plateaus, in order |
| Plateaus.PlateausAreAll | consensus_engine/core_price_features.py:404-422 | a level is listed exactly when some maximal traded run at it has two strictly beyond, traded neighbours on each side |
| Plateaus.SwingsAreListed | consensus_engine/core_price_features.py:404-422 | a level is listed exactly when some maximal run of sessions at it has its two neighbours on each side traded and, for a high, all below it, for a low, all above |
| Plateaus.StartsAreEnds | consensus_engine/core_price_features.py:413-421 | listing plateaus where they start or where they end gives the same list |
| Plateaus.ReversalReversesPlateaus | consensus_engine/core_price_features.py:404-422 | reading the sessions backwards lists the same swings backwards |
| Plateaus.NegationSwapsHighsAndLows | consensus_engine/core_price_features.py:404-422 | negating every price swaps swing highs and swing lows |
| PullbackAlert.SupportGates | consensus_engine/first_pullback_vwap_avwap_stage1_run.py:107-147 | support passes exactly when the session VWAP held or, for an anchored candidate, the anchored one |
| PullbackGates.CombinedSupportMeans | consensus_engine/first_pullback_vwap_avwap_stage1_run.py:131-147 | combined support fails only when both readings failed, and is else unknown for the anchored reading's reason if it has one |
| PullbackAlert.TriggerGateMeans | consensus_engine/first_pullback_vwap.py:837-866 | the trigger row passes exactly when a usable last price cleared the reversal bar by the price offset and by the ATR offset |
| PullbackAlert.SpreadGateMeans | consensus_engine/first_pullback_vwap.py:869-900 | the spread row passes exactly for a fresh two-sided uncrossed quote within the limit, multiplied out with no division |
| PullbackAlert.RiskGateMeans | consensus_engine/first_pullback_vwap.py:921-978 | the risk row passes exactly for comparable geometry with entry, stop and every target on their right sides and no reward overstated |
| PullbackAlert.AlertMeansActionable | consensus_engine/first_pullback_vwap.py:1003-1042 | each of the four candidates alerts exactly when a list of facts about the supplied inputs stands, stated apart from the gates and with no order of checks |
| PullbackAlert.InvalidationMeansClosing | consensus_engine/first_pullback_vwap.py:1003-1042 | each candidate ends its pullback exactly on listed facts: a limit passed for good, a supplied reason for a missing value where that value is read, or lost last-trade coverage where the last trade is read; for a relaxed candidate only the trigger reads it, and an anchored one never reads why session support is missing |
| PullbackAlert.StateMeans | consensus_engine/first_pullback_vwap.py:1035-1042 | the state of every evaluation of every candidate from those facts alone; what alerts never also ends the pullback, and is measured |
| PullbackMirror.MirrorTwice | consensus_engine/first_pullback_vwap.py:414-483 | reflecting an evaluation twice gives it back |
| PullbackMirror.MirrorReading | consensus_engine/first_pullback_vwap.py:587-596 | a reflected evaluation reads the mirrored feature, its price reflected |
| PullbackMirror.MirrorSymmetry | consensus_engine/first_pullback_vwap.py:1003-1042 | with the quote left as it is, every candidate keeps all fifteen verdicts and its state under reflection, or refuses both |
| PullbackMirror.ReflectedSpreadGate | consensus_engine/first_pullback_vwap.py:869-900 | for any quote, reflecting it too keeps the spread gate's status, and whether it passes, exactly under the stated conditions on its two prices, the constant and the limit |
| PullbackMirror.ReflectedVerdicts | consensus_engine/first_pullback_vwap.py:1003-1042 | with the quote reflected too, all fifteen verdicts of any candidate are kept exactly when the spread's is |
| PullbackMirror.ReflectedState | consensus_engine/first_pullback_vwap.py:1003-1042 | with the quote reflected too, any candidate's state is kept exactly when, should every fact but the quote's stand, both quotes pass or neither does |
| PullbackMirror.ReflectingTheQuoteCanChangeTheState | consensus_engine/first_pullback_vwap.py:869-900 | an evaluation under an accepted policy that is armed and, reflected with its quote, alerts |
| PullbackReflection.ReflectedRunsAgree | consensus_engine/first_pullback_vwap_replay.py:205-326 | over every run of any candidate, the owner of the reflected inputs returns and records the same transitions, with the same identifiers, instants, states and first failing gates, and meets the same errors |
| PullbackMachine.Machine.constructor | consensus_engine/first_pullback_vwap.py:1078-1099 | a fresh machine stands in forming with no window, time or pending transition |
| PullbackMachine.Machine.Forward | consensus_engine/first_pullback_vwap.py:1146-1149 | time moves only forward, and a backward instant changes nothing |
| PullbackMachine.Machine.ProposeAssessed | consensus_engine/first_pullback_vwap.py:1151-1208 | over a given assessment the machine ends in the state, with the pending transitions and the answer or refusal, that `Proposed` gives; `ProposalKeepsSound`, `RunsAreSound` and `RunsAreTimed` are about that function |
| PullbackMachine.Machine.Propose | consensus_engine/first_pullback_vwap.py:1151-1208 | the machine evaluates for itself and then proposes over that assessment |
| PullbackMachine.Machine.Expire | consensus_engine/first_pullback_vwap.py:1210-1220 | an expiry ends in the state and answer that `ExpiryProposed` gives, which `ExpiryKeepsSound` is about |
| PullbackMachine.Machine.Confirm | consensus_engine/first_pullback_vwap.py:1222-1235 | only exactly the pending transitions advance the machine, and the effect they staged is then taken |
| PullbackMachine.ProposalKeepsSound | consensus_engine/first_pullback_vwap.py:1151-1208 | a proposal never moves the state, leaves pending transitions that chain from it along allowed edges, a refusal leaves pending and effect alone, and the rules guard fires only in the expired state |
| PullbackMachine.ExpiryKeepsSound | consensus_engine/first_pullback_vwap.py:1210-1220 | the same for an expiry, which fails exactly when time goes back or the owner has expired |
| PullbackMachine.ConfirmKeepsSound | consensus_engine/first_pullback_vwap.py:1222-1235 | a confirmation ends where the pending chain ends with nothing pending, and any other leaves the machine as it was |
| PullbackMachine.RunsAreSound | consensus_engine/first_pullback_vwap.py:1068-1235 | over every run of evaluations, expiries and confirmations the recorded history is one chain of allowed edges from forming to the confirmed state, and the rules guard has fired only when expired |
| PullbackMachine.HistoryIsOrdered | consensus_engine/first_pullback_vwap.py:567-584 | in a recorded history no state repeats, an alert directly follows ARMED, only expiry follows invalidation, and nothing follows expiry |
| PullbackMachine.ExplainMeans | consensus_engine/first_pullback_vwap.py:1181-1182 | the reason recorded is the first gate, in row order, that the candidate asks for and that does not pass, with its status and reason; there is none exactly when all pass |
| PullbackHistory.RunsAreTimed | consensus_engine/first_pullback_vwap.py:1146-1235 | over every run recorded instants never go back, none is past the machine's clock, and the remembered action time is that of the recorded alert |
| PullbackReplay.IdsDiffer | consensus_engine/first_pullback_vwap_replay.py:298-300 | two counts never give one identifier, past three digits too |
| PullbackReplay.RequestAt | consensus_engine/first_pullback_vwap_replay.py:302-310 | an accepted step's request carries the owner's own policy, impulse window and instant; `PullbackLaws.RequestAsks` ties it to the supplied step |
| PullbackReplay.Owner.ConfirmRecorded | consensus_engine/first_pullback_vwap_replay.py:205-210 | the owner's pending transitions are confirmed on its machine and cleared |
| PullbackReplay.Owner.NextId | consensus_engine/first_pullback_vwap_replay.py:298-300 | the count rises by one and names the identifier |
| PullbackReplay.Owner.ProposeStep | consensus_engine/first_pullback_vwap_replay.py:312-326 | two identifiers are drawn exactly for a two-step advance, and the answer is that of `AfterProposal` |
| PullbackReplay.Owner.Update | consensus_engine/first_pullback_vwap_replay.py:228-237 | an update first confirms what was pending, then answers as `AfterUpdate` does; `CallAnswers` and `EveryRunIsOrderly` are about that function |
| PullbackReplay.Owner.Expire | consensus_engine/first_pullback_vwap_replay.py:255-265 | an owner's expiry first confirms what was pending, then answers as `AfterExpiry` does |
| PullbackRuns.ProposalErrors | consensus_engine/first_pullback_vwap_replay.py:312-326 | given its own policy, impulse, a forward clock and a second identifier exactly when needed, a machine can refuse only a fall back from an alert or a reopening |
| PullbackRuns.CallAnswers | consensus_engine/first_pullback_vwap_replay.py:205-326 | any call either changes nothing and errs by itself, or confirms what was pending and answers from there with the next identifiers |
| PullbackRuns.EveryRunIsOrderly | consensus_engine/first_pullback_vwap_replay.py:205-326 | over every run of calls at any instants: what was returned is what was recorded and then what is pending, the recorded history is one allowed chain, all identifiers are distinct, and no error is ever about a second identifier, the impulse window, the policy, pending transitions or the machine's clock |
| PullbackRuns.ReturnedHistoryIsOrdered | consensus_engine/first_pullback_vwap_replay.py:205-326 | of all an owner ever returned, over every run, no state comes twice, an alert directly follows ARMED, only expiry follows invalidation and nothing follows expiry |
| PullbackLaws.RequestAsks | consensus_engine/first_pullback_vwap_replay.py:302-310 | a step is accepted exactly when it is supplied, not before the freeze, with a positive ATR and an ordinal from one, and then asks for the one request that carries each of its nine facts and the owner's subject |
| PullbackLaws.StepMoves | consensus_engine/first_pullback_vwap_replay.py:205-326 | where an accepted step moves an owner follows from the facts of that step alone, and it brings a trigger exactly when they are actionable and the owner was forming or armed |
| PullbackLaws.LatePullbackCloses | consensus_engine/first_pullback_vwap.py:908-918 | a step whose ordinal is beyond the maximum never triggers, and closes an owner still forming, armed or triggered |
| PullbackLaws.EveryTransitionIsDue | consensus_engine/first_pullback_vwap_replay.py:205-326 | over every run of every candidate each transition returned was due: an alert has every actionable fact at the step of its own instant, an arming a measured pullback that nothing closes, an invalidation a closing fact or a lost measurement, and each its right reason |
| PullbackSimulation.SupportOnlyHelps | consensus_engine/first_pullback_vwap_avwap_stage1_run.py:107-147 | outside support every candidate's gates read the same, a passing support stays, and support newly ends a pullback exactly for a closing missing reason |
| PullbackSimulation.CandidateAgainstStrict | consensus_engine/first_pullback_vwap_relaxed_avwap_stage1_run.py:39-55 | a strict alert is every candidate's alert; a candidate's invalidation is the strict one's or comes from its anchored reading; otherwise forming and armed agree |
| PullbackSimulation.CallMoves | consensus_engine/first_pullback_vwap_relaxed_stage1_run.py:59-133 | where an owner stands after a call depends only on where it stood and on what the supplied inputs assess to; a misfitting anchored reading moves it nowhere |
| PullbackSimulation.RunsStayTied | consensus_engine/first_pullback_vwap_avwap_stage1_run.py:219-261 | on the same calls the strict and the candidate run stand together, the candidate at most still forming, until one triggers or closes |
| PullbackSimulation.CandidatesTriggerNoLater | consensus_engine/first_pullback_vwap_relaxed_avwap_stage1_run.py:58-76 | over every run of every configuration: at the call that records the strict owner's alert a candidate has recorded its own if and only if its fate is to have fired, and one its anchored reading closed never will |
| PullbackSimulation.FateIsFirstVerdict | consensus_engine/first_pullback_vwap_avwap_stage1_run.py:219-261 | a candidate's fate is the verdict of the first call that gives one |
| PullbackSimulation.VerdictMeans | consensus_engine/first_pullback_vwap_avwap_stage1_run.py:107-147 | a call's verdict is to fire exactly when the candidate's evaluation alerts, to close exactly when its anchored reading does, and to miss exactly when the strict evaluation alerts on a misfitting reading |
| PullbackSimulation.NothingBlocks | consensus_engine/first_pullback_vwap_relaxed_stage1_run.py:110-133 | a candidate without anchored readings, or whose readings all fit and are never missing for a closing reason, has recorded its alert whenever the strict owner has |
| PullbackSimulation.RelaxedAgainstUnrelaxed | consensus_engine/first_pullback_vwap_relaxed_avwap_stage1_run.py:39-55 | over the same anchored setting and reading, an unrelaxed alert is the relaxed candidate's, a relaxed invalidation is the unrelaxed one's, and forming and armed agree |
| PullbackSimulation.RelaxingNeverDelays | consensus_engine/first_pullback_vwap_relaxed_avwap_stage1_run.py:39-76 | over every run, whatever anchored readings both are given and with no exception, the relaxed owner has recorded its alert whenever the unrelaxed one has |
| PullbackSimulation.AnchoredReadingBlocks | consensus_engine/first_pullback_vwap_avwap_stage1_run.py:123-149 | a concrete run, under an accepted policy, in which the strict owner records its alert and the anchored owner never does |
| PullbackSimulation.MisfittingReadingDelays | consensus_engine/first_pullback_vwap_avwap_stage1_run.py:118-121 | a concrete run, under an accepted policy, in which a reading for another symbol holds the anchored owner's alert up until the next evaluation |
| EventStore.InsertedIffJoins | consensus_engine/db.py:1691-1765 | against a table holding some rows, the trigger lets a row in exactly when it is compatible both ways with each and with itself, agrees with any row of its identifier, and is then no intent |
| EventStore.AcceptanceIsOrderFree | consensus_engine/db.py:1691-1765 | a list of rows, repeated identifiers included, is accepted in full exactly when it agrees as a collection, so one order works exactly when all do |
| EventStore.EveryStoreIsConsistent | consensus_engine/event_store.py:149-159 | over any run of transactions the store is what its accepted rows alone build, every stored link is allowed, and the next transaction is accepted exactly when it agrees with all accepted before |
| EventStore.StoredLinksAreRight | consensus_engine/db.py:1703-1765 | over any run of transactions, whichever row came first, every stored link whose target is stored joins the kinds and the shared fields its role demands |
| EventStore.StoredRowsNeverChange | consensus_engine/db.py:1683-1688 | stored rows stay as first stored over any later transactions |
| EventStore.RetryIsNoOp | consensus_engine/db.py:1694-1701 | retrying stored facts changes nothing, except that a stored delivery intent refuses any retry |
| EventStore.Connection.Insert | consensus_engine/db.py:1691-1765 | one statement is refused, ignored or stored as the trigger says |
| EventStore.Connection.ExecuteTransaction | consensus_engine/db.py:81-91 | a group of statements commits whole, or the first refusal leaves the table as it was |
| EventStore.ResearchEventStore.Append | consensus_engine/event_store.py:161-167 | an append reads back the first stored row of those facts, and a refused one changes nothing |
| EventStore.ResearchEventStore.SaveIntent | consensus_engine/event_store.py:295-318 | an intent is stored with its whole bundle or not at all: refused for no candidate or another one, for another rendering or a status that is not pending, and for an assembly that does not rebuild, in that order |
| EventStore.IntentIsKept | consensus_engine/event_store.py:295-318 | once stored, the table holds the whole bundle, the pending delivery and the intent's envelope, each with exactly its own facts and candidate link |
| EventStore.ResearchEventStore.SaveResult | consensus_engine/event_store.py:320-330 | the delivery fact and its receipt are stored together or not at all |
| EventStore.ResultIsKept | consensus_engine/event_store.py:320-330 | once stored, the table holds the delivery and an envelope with the receipt's reason, time and attempts |
| EventStore.ResearchEventStore.Links | consensus_engine/event_store.py:332-343 | every stored link is listed in order, unresolved ones as such, and in a consistent store each resolved one names a kind its role allows |
| AlertDelivery.DeliverCandidate | consensus_engine/alert_delivery.py:262-293 | run alone, the procedure changes the store as the protocol's steps do; on success it has called the sink once if the dispatch was not expired nor an actionable setup gone invalid and else not at all, and returns the sink's receipt or the reason it was stopped for |
| AlertDelivery.IntentWasNew | consensus_engine/db.py:1694-1701 | an intent is stored only if its identifier was free |
| AlertDelivery.StartIsKept | consensus_engine/alert_delivery.py:275-280 | a stored start says SEND_STARTED, at the dispatch's own instant and with no attempt |
| AlertDelivery.ReceiptIsKept | consensus_engine/alert_delivery.py:284-293 | a stored result says the receipt's status by name, reason, time, attempts and reference |
| AlertDelivery.StepKeeps | consensus_engine/alert_delivery.py:262-293 | every scheduled step of any delivery, stop, storage failure or other writer keeps what each delivery's stage says of the store |
| AlertDelivery.AtMostOneSend | consensus_engine/alert_delivery.py:262-293 | over every interleaving no two sends are for one delivery identifier, and each sent one has its intent and start stored |
| AlertDelivery.StoredBeforeSent | consensus_engine/alert_delivery.py:271-281 | when a step calls a sink, the intent and the start are stored already |
| AlertDelivery.EnvelopeWriter | consensus_engine/event_store.py:320-330 | a stored delivery envelope was written by one delivery of that identifier at the stage it names |
| AlertDelivery.SentIffStarted | consensus_engine/alert_delivery.py:273-293 | a stored result was sent for exactly when its start is stored, and a stored confirmation always was |
| AlertDelivery.SentIffUnblocked | consensus_engine/alert_delivery.py:271-288 | a stored result has one writer and was sent for exactly when that dispatch was neither expired nor actionable without being mechanically valid; unsent, the stored reason is EXPIRED exactly when it was expired and else INVALID_SETUP |
| AlertDelivery.StoppedMeansUnsent | consensus_engine/alert_delivery.py:273-288 | a stored EXPIRED or INVALID_SETUP means nothing was sent exactly when its dispatch was expired, or actionable and not mechanically valid; otherwise the sink was called and answered with that reason |
| AlertDelivery.SinkMayClaimExpiry | consensus_engine/alert_delivery.py:281-288 | a run, keeping a whole candidate bundle, that stores EXPIRED for an unblocked dispatch after calling its sink |
| Publication.ReadLooksOnlyAt | consensus_engine/full_chain_storage.py:618-671 | the reader depends only on the pointer, the source parts and the pointed set |
| Publication.ReadVouches | consensus_engine/full_chain_storage.py:618-671 | the reader returns a publication exactly when a current pointer names the manifest's very bytes, the manifest is current, complete and its own, every source and member is there with the digest and rows it lists, and there is some open interest |
| Publication.ReadersAgree | consensus_engine/full_chain_storage.py:618-671 | two disks that read as one publication hold the same bytes in both data members and every source it names, and with one pointer in its manifest |
| Publication.AnyChangeUnpublishes | consensus_engine/full_chain_storage.py:643-668 | changing or removing any one file a publication names makes the day unreadable, whatever else happens to files other than the pointer |
| Publication.RemovedSourceUnpublishes | consensus_engine/full_chain_storage.py:646-653 | removing any one source part makes a published day unreadable |
| Publication.NewPointerReads | consensus_engine/full_chain_storage.py:559-671 | the whole new set with its pointer reads as published |
| Publication.BuiltMeans | consensus_engine/full_chain_storage.py:465-578 | a job's set is named after just its sources' bytes and the day's completeness; its manifest lists them and both members, and is complete exactly when some open interest was found |
| Publication.OutcomeMeans | consensus_engine/full_chain_storage.py:493-605 | when each of the seven outcomes is met, on the files themselves: sources missing, repeated or left out of a complete day; the set standing already; a pointer in the way; a member with other bytes, a temporary sibling that does not start its member, or an unknown file; no open interest; a foreign pointer temporary file; and a new publication exactly when none of these |
| Publication.ReaderSeesOldOrNew | consensus_engine/full_chain_storage.py:531-671 | at every state a crash may leave, the reader returns just the earlier publication or the complete new one |
| Publication.CrashKeepsOutcome | consensus_engine/full_chain_storage.py:531-605 | after a crash anywhere, the same job over unchanged sources ends as it would have, or finds its own publication |
| Publication.SafeAgain | consensus_engine/full_chain_storage.py:531-605 | what a rerun may leave is safe from where the first run started |
| Publication.RerunsRecover | consensus_engine/full_chain_storage.py:531-605 | after any number of interruptions a run left to finish succeeds exactly when the first would have |
| Publication.ForeignPointerTempBlocks | consensus_engine/full_chain_storage.py:143-149 | a pointer temporary file another set's run finished writing stops publication |
| Publication.Publisher.Stage | consensus_engine/full_chain_storage.py:549-563 | staging the outputs touches scratch only, torn writes included |
| Publication.Publisher.Fill | consensus_engine/full_chain_storage.py:564-588 | members that were there are kept and the missing ones appear whole, each state between safe |
| Publication.Publisher.Point | consensus_engine/full_chain_storage.py:140-157 | the pointer changes by one rename onto a complete set, torn writes of its temporary file included |
| Publication.Publisher.Publish | consensus_engine/full_chain_storage.py:473-605 | whatever the files were, an earlier pointer lacking its fields among them, a run ends as `OutcomeOf` decides from them, which `OutcomeMeans` says in full, and every state a crash may leave meanwhile is safe |
| ColumnOrder.BeforeIsStrict | consensus_engine/full_chain_storage.py:303-306 | column order with nulls last is a strict total order |
| ColumnOrder.OrderedIsOrderFree | consensus_engine/cross_strategy_interaction.py:586-600 | sorting rows no two of which share their key gives one list whatever order they came in |
| DiskMerge.LastWriteWins | consensus_engine/full_chain_storage.py:333-337 | an upserted table holds, of every key, what was written last, and no key twice |
| DiskMerge.ChainIsLastWritten | consensus_engine/full_chain_storage.py:308-368 | the chain output is every key's last-written row, each key once, in column order |
| DiskMerge.InterestIsLatest | consensus_engine/full_chain_storage.py:348-388 | each open-interest row is its contract's latest capture with a value, every contract with a value has one, in contract order |
| DiskMerge.LoadBatches | consensus_engine/full_chain_storage.py:308-339 | loading in any batches gives the table of the rows alone, or refuses exactly when some key is missing |
| DiskMerge.PutChain | consensus_engine/full_chain_storage.py:348-375 | frames of any size put the rows out in order and upsert the same open interest |
| DiskMerge.MergeToDisk | consensus_engine/full_chain_storage.py:274-391 | what comes out is a function of the rows: neither source batches nor frame size matters |
| DiskMerge.StreamHash | consensus_engine/full_chain_storage.py:210-223 | the digest fed frame by frame, empty frames included, is the digest of the whole table's serialization |
| DiskMerge.WriteRecords | consensus_engine/full_chain_storage.py:226-261 | a written file read back in any batches verifies exactly when it holds as many records of the same serialization, under the schema's column names if it holds any |
| TradeWeeks.ChronologicalSorts | consensus_engine/d108_evaluator.py:229 | the evaluator works on the same trades, in order of closing |
| TradeWeeks.WeeksRise | consensus_engine/d108_evaluator.py:232 | the weeks listed are those some trade closed in, rising, each once |
| TradeWeeks.GroupingConserves | consensus_engine/d108_evaluator.py:181-185 | grouping by week keeps the number of trades and their total |
| BlockBootstrap.Indexes | consensus_engine/d108_evaluator.py:199-206 | a resample uses exactly as many week indexes as there are weeks, all in range, whatever the starts |
| BlockBootstrap.StatisticWithin | consensus_engine/d108_evaluator.py:207-212 | a resample's mean lies between the smallest and the largest result |
| BlockBootstrap.LongBlockGivesMean | consensus_engine/d108_evaluator.py:199-212 | when a block spans all weeks a resample is a rotation and its mean the plain mean, for any start |
| BlockBootstrap.LowerBoundIsOne | consensus_engine/d108_evaluator.py:175-178 | the nearest-rank bound is one of the statistics |
| BlockBootstrap.LowerBoundHasRank | consensus_engine/d108_evaluator.py:175-178 | the bound has its nearest rank among the unsorted statistics: fewer than that many lie below it and at least that many do not exceed it |
| SuccessBar.ResampleMean | consensus_engine/d108_evaluator.py:203-212 | the loops over blocks and picked weeks compute that statistic, over at least one trade |
| SuccessBar.Bootstrap | consensus_engine/d108_evaluator.py:201-213 | the array is filled with one statistic a row of starts |
| SuccessBar.BoundWithin | consensus_engine/d108_evaluator.py:241-245 | any lower bound lies between the smallest and the largest result |
| SuccessBar.BoundIsMean | consensus_engine/d108_evaluator.py:241-245 | with no more weeks than a block is long the lower bound is the plain mean for any random starts |
| SuccessBar.Scan | consensus_engine/d108_evaluator.py:259-272 | one pass finds the largest fall from any running total to any later one, the empty total included, and the longest run of losing trades |
| SuccessBar.WinnersCounted | consensus_engine/d108_evaluator.py:253-257 | the winning weeks counted are the weeks whose results sum above zero |
| SuccessBar.WinnersAreAll | consensus_engine/d108_evaluator.py:274-276 | the weeks averaged are exactly those totals above zero, each as often as it occurs |
| SuccessBar.CheckProfit | consensus_engine/d108_evaluator.py:238-251 | profit passes exactly when the primary and every sensitivity bound are above zero, and review is asked for exactly when one disagrees with the primary |
| SuccessBar.CheckConsistency | consensus_engine/d108_evaluator.py:253-257 | consistency passes exactly when at least six of ten weeks sum above zero |
| SuccessBar.CheckSurvivability | consensus_engine/d108_evaluator.py:259-292 | survivability passes without a drawdown, or when six average winning weeks make up the worst |
| SuccessBar.EvaluateD108 | consensus_engine/d108_evaluator.py:216-299 | for any block lengths the verdict is the three checks together over the sorted, grouped trades, each with what passing it means, and with no more weeks than its block is long the primary bound is the mean |
| SuccessBar.ShortSampleBoundIsMean | consensus_engine/d108_evaluator.py:241-251 | on no more weeks than a block is long a bound is the mean result whatever the random starts |
| TargetCatalog.RoundsOutward | consensus_engine/first_pullback_vwap_research_adapter.py:407-414 | rounding goes outward from the trade by less than one increment |
| TargetCatalog.RoundingMoves | consensus_engine/first_pullback_vwap_research_adapter.py:407-414 | rounding keeps exactly the prices already on an increment |
| TargetCatalog.DollarHalfLevels | consensus_engine/first_pullback_vwap_research_adapter.py:481-493 | the loop ends and lists exactly the multiples of a half dollar strictly between its bounds |
| TargetCatalog.BuildTargetCatalog | consensus_engine/first_pullback_vwap_research_adapter.py:496-536 | the target named T1 is the nearest level at 1.5R or more and missing only if there is none, the one named T2 the nearest later one from 2.5R through 4R and missing only if there is none, each with its exact multiple |
| TargetCatalog.BuildPullbackStructural | consensus_engine/first_pullback_vwap_research_adapter.py:586-668 | it refuses exactly the unsupported prices it comes to read, an impulse extreme among them; else a reading keeps its frame and has a stop exactly when its facts imply one beyond the entry, that stop is the one `StopIsPlaced` describes, and a missing one has its reason |
| TargetCatalog.StopIsPlaced | consensus_engine/first_pullback_vwap_research_adapter.py:610-614 | the stop is the increment nearest the trade of those at or beyond a twentieth of the ATR past the extreme |
| TargetCatalog.StopBeyondExtreme | consensus_engine/first_pullback_vwap_research_adapter.py:610-614 | the stop is strictly beyond the extreme exactly when there was a pad or the extreme was off an increment |
| TargetCatalog.BuiltGeometryPasses | consensus_engine/first_pullback_vwap.py:921-978 | a built reading with targets passes the risk gate exactly when the entry is beyond the reversal bar, the stop moved off the extreme, and its first target, always at 1.5R or more, meets the minimum |
| TargetMirror.HalfLevelsReach | consensus_engine/first_pullback_vwap_research_adapter.py:512-517 | for LONG every half-dollar level is nearer than some real level, for SHORT nearer than all |
| TargetMirror.ShortIsNotMirrored | consensus_engine/first_pullback_vwap_research_adapter.py:509-519 | a LONG catalogue whose reflection has a different first target |
| TargetMirror.FirstTargetMirrors | consensus_engine/first_pullback_vwap_research_adapter.py:509-519 | at any entry, under any reflection that keeps the half-dollar grid, the two first targets lie at one distance, or are both missing, exactly when no half-dollar level lies in the stated gap |
| TargetMirror.CatalogMirrors | consensus_engine/first_pullback_vwap_research_adapter.py:509-525 | and the whole catalogues are mirrored exactly when, besides, no half-dollar level lies in the like gap of the second target's window |
| PairReport.ReportCrossStrategyInteraction | consensus_engine/cross_strategy_interaction.py:582-601 | the loops and the sort give a report in order with exactly the findings its candidates call for, each of which `PairMeaning.FindingMeans` describes |
| PairReport.ReportIsOrderFree | consensus_engine/cross_strategy_interaction.py:582-601 | any order of candidates, ATRs and transitions gives the same report |
| PairReport.EachPairOnce | consensus_engine/cross_strategy_interaction.py:591-597 | every two candidates of one symbol have exactly one finding, the lower identifier first, and there is no other |
| PairReport.PairIsSymmetric | consensus_engine/cross_strategy_interaction.py:539-579 | a finding's relation, gates, distance verdicts and higher-confidence side do not depend on which candidate comes first |
| PairMeaning.RefusedMeans | consensus_engine/cross_strategy_interaction.py:437-493 | nothing refuses a declared transition exactly when every demand on its evidence, records, times and two candidates stands |
| PairMeaning.RefusalIsFirst | consensus_engine/cross_strategy_interaction.py:437-493 | a refusal is the first of eleven faults a transition has, in a fixed order, each said over its own fields |
| PairMeaning.TransitionsAreReported | consensus_engine/cross_strategy_interaction.py:496-507 | each supplied transition is reported once, as standing or with that refusal |
| PairMeaning.FindingMeans | consensus_engine/cross_strategy_interaction.py:539-601 | a finding over the candidates' own fields: the three same-direction relations by directions, lifetimes, the merge window and trigger and stop distances multiplied out, the three opposite ones by a standing transition or overlap; how far apart they were created; each gate's verdict and reason; the strategies' documented label; the side with the larger score; and an accepted transition, which is one that stands |
| PairInformation.DistanceStays | consensus_engine/cross_strategy_interaction.py:509-521 | a decided distance gate keeps its verdict when missing prices or ATRs are supplied |
| PairInformation.RegionStays | consensus_engine/cross_strategy_interaction.py:524-536 | a decided region never waits on what is unknown, under either rule |
| PairInformation.RefusalStays | consensus_engine/cross_strategy_interaction.py:437-493 | an accepted transition stays accepted, and a refused one is released exactly when its missing trigger alone refused it and is then supplied as the boundary |
| PairInformation.AcceptanceChanges | consensus_engine/cross_strategy_interaction.py:589-590 | whether two candidates have an accepted transition changes exactly when one is released |
| PairInformation.InformationKeepsRelations | consensus_engine/cross_strategy_interaction.py:539-601 | more information never changes a decided same-direction relation, and changes an opposite-direction one exactly when it releases a transition |
| PairInformation.SuppliedTriggerReleases | consensus_engine/cross_strategy_interaction.py:474-479 | two valid requests, one growing from the other, between which a pair turns from conflict to declared transition |
| MessageClaims.ProcessedMessages.InsertOrIgnore | consensus_engine/db.py:3865-3869 | a message is claimed at once only when it is new |
| MessageClaims.ProcessedMessages.UpdateStale | consensus_engine/db.py:3876-3880 | an existing claim is taken over only when it is more than 300 seconds old and not done |
| MessageClaims.ProcessedMessages.ClaimMessage | consensus_engine/db.py:3854-3882 | undisturbed, a claim succeeds exactly for a new message or a stale claim |
| MessageClaims.ProcessedMessages.MarkMessageDone | consensus_engine/db.py:3885-3893 | an existing row becomes done and no row is made |
| MessageClaims.StatementKeeps | consensus_engine/db.py:3854-3893 | every statement of every caller keeps claims apart and remembered |
| MessageClaims.EveryRunIsSeparated | consensus_engine/db.py:3851-3893 | over any interleaving what is remembered of claims and finishes stays true of the table |
| MessageClaims.ClaimsAreSeparated | consensus_engine/db.py:3851-3893 | over any interleaving and any clock readings, successful claims of one message carry times rising by more than 300 seconds, and none comes after a statement that finished it |

## Left out

- Floating-point conversion at the edges: reported prices and multiples are the exact values before they become floats.
- Floating-point arithmetic in `d108_evaluator.py`, which adds and divides in floats throughout: totals, means and bounds are exact here, so that a bound equals the mean there only up to rounding.
- What a gate reports beside its status and reason: observed values, thresholds and input record identifiers.
- `FirstPullbackVwapMachine.restore` and the checks that labels, policies and instants are well formed.
- The ordering and uniqueness checks on supplied replay steps and anchored readings, which are maps from their instants here.
- The 63-session window, deduplication and sorting of daily swings around the plateau scan.
- Coverage, calendar and basis checks of the price features and of the target catalogue; they enter as a supplied reason or as absent levels.
- The labels and source record identifiers that a target carries.
- VolumeProfile.BuildPriorSessionProfile: the calendar, coverage and basis reasons enter as one supplied reason, so which of them is reported first is not stated.
- EventStore.ResearchEventStore.SaveIntent: whether the rendering and the assembly are the candidate's own is supplied, as is that each record is canonical and of the stated session.
- DiskMerge.WriteRecords: the digest and the size of the file's bytes, which are reported but not compared.
- The checks of a delivery's arguments and assembly before its intent is stored, alert text, and the fingerprint column, which is a function of the body.
- How `event_store.py` derives a record's links; rows are supplied with their links.
- Storage admission, byte bounds, resource guards, fsync, symbolic links, retention and the sorting of source paths in `full_chain_storage.py`.
- Source parts changing while one publication runs, and the identity re-checks that catch it.
- The scratch database's own file format and size cap, Parquet, and JSON encodings: encoders are deterministic functions whose readers undo them, and digests are injective.
- Set identity and seed derivation by SHA-256, and the random number generator: identities are constructors and random starts are inputs.
- Of a pullback gate's reason, only whether it ends the pullback, and that the first failing gate's is recorded, is stated apart from the gate itself: the texts are the code's, but no theorem is about them.
- The channel of a claimed message, and reading back which messages were seen.
- The stage-1 runners around the replay owners, and every module not named above.
