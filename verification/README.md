# Verification model of the quality-control agent

A Dafny model of the deterministic core of the quality-control agent and of the hand-written
concurrency control around it, with proofs of what that code guarantees. `dafny verify
dfyconfig.toml` checks everything.

Floats are modelled as reals, integers as unbounded integers, clocks and random draws as
parameters, provider replies as arbitrary answers or errors. Code that updates state is a class or
a method proved against a specification function; the laws are lemmas about those functions.

| module | what it models |
|---|---|
| `Reals`, `Wrappers` | shared arithmetic and the optional value |
| `LeastSquares` | prefix sums and the constant-time line fit |
| `Signature` | the breakpoint sweep, the torque features, the generic piecewise extractor |
| `Generator` | the synthetic torque curve, step by step |
| `RoundTrip` | what the analyser reads back from a generated curve |
| `Scoring` | both noisy-OR scorers |
| `Baselines` | learning tolerances from known-good runs |
| `Adjudicating` | reconciling signals into one verdict |
| `Detection` | generator, analyser, scorer and adjudicator together |
| `Cost` | expected-cost triage and its sensitivity sweep |
| `Pipelines` | the agent graph and the inspection service |
| `Breaker` | the circuit breaker under arbitrary interleavings |
| `FallbackChain` | breaker registry, provider chains, downgrade, response cache |
| `RateLimit` | the sliding-window limiter |
| `LiveFeed` | bounded subscriber queues with drop counters and station scope |
| `ViewCache` | the rendered-view cache over repository and assignments, step by step between awaits |

## What the proofs found

- **The fit is not always least squares.** When the angular spread of a slice is below 1e-12 but not
  zero, the horizontal fallback loses to a sloped line whenever the two coordinates covary; so it
  does on a ten-sample curve that starts with four samples at the origin and one at (1e-7, 1)
  (`FlatFallbackCounterexample`). `FitLeastSquaresIff`, `FitResidualIff` and `SegmentsLeastSquaresIff`
  say exactly when fits are right, and `EndsResolveAll` gives a check on ten samples that makes the
  whole sweep exact.
- **The knee can hide.** On clean noise-free runs with a positive knee it is recovered exactly when
  the last run-down sample is off the elastic line (`KneeRecoveredIff`); otherwise the sweep stops
  early (`HiddenKneeExample`).
- **The two engines do not count the same reversals.** Their equivalence test speaks of exact
  agreement; the floors are 0.05 Nm and 1e-6 (`ReversalsDisagree`, `ReversalsAgreeIff`), and are
  one exactly when the largest absolute torque is 5 Nm or more and is the peak or 5 itself
  (`FloorsAgreeIff`).
- **The runaway guard can cut a run short**, exactly when the torque has not reached the target by the
  last round the guard allows (`EndsOnTargetIff`, in closed form without decay
  `StraightEndsOnTargetIff`). It happens at yield ratio 8 on a rise of 1 Nm (`GuardCounterexample`),
  which is an input of `_emit` alone, `generate` passing ratios of at most 1, and at ratio 1 with a
  slope of 0.001 (`FlatCounterexample`). It does not happen while four times the least slope in force
  covers the rate the guard is sized for (`EndsOnTarget`, `AmpleGuards`).
- **A late knee alone is never flagged**: on a readable noise-free run whose slope and run-down torque
  are in tolerance the signature is not anomalous however late the knee (`DelayAloneIsNotFlagged`).
- **An empty inspection.** The service quarantines and asks a human; the graph prices P(defect) = 0
  and accepts. `EmptyGraphUnattendedIff` says exactly for which cost models nobody is asked.
- **The ambiguous branch of adjudication is dead**, and on scored outcomes the confidence never lies
  in the human-review band (`InBandIff`, `ConfidenceOutsideBand`), so only the triage flag can summon
  a human.
- **A cancelled probe wedges a half-open breaker** exactly when it took the last slot
  (`CancelledProbeWedgesIff`); then no ask is ever admitted again, and any report, fault injection or
  reset ends it (`WedgedIff`, `AnythingElseUnwedges`).
- **The advertised retry delay is wrong for a full half-open quota**: the refusal says zero seconds and
  no time will do (`FullQuotaAdvertisesNothing`); it is exact if and only if the breaker is open
  (`RetryAfterExactIff`).
- **After a downgrade `tier_used` still names the requested tier** (`DegradationsExact`).
- **Names that collide.** Two providers share a breaker exactly when they are the same, or the name of
  one runs a colon and more into the model of the other (`BreakerNamesIff`).
- **Conversations that collide.** The hashed payload of two or more messages is always that of some
  other conversation too, and that of a single message exactly when a later line of it reads like a
  message (`PayloadSharedIff`); conversations without such lines are told apart
  (`PayloadIdentifies`), and `CachedTogetherIff` says when two requests share a cached answer.
- **The limiter** indexes an empty deque exactly for a limit of zero or less with no live hit
  (`DeniedIff`). Its reset time is that of the oldest hit; it is the time to an empty window, as its
  comment says, exactly when oldest and newest live hit round up to the same wait
  (`ResetEmptiesIff`, `ResetTooEarly`).
- **Custody and narratives can be lost.** Custody asked for while a defective unit is still being
  saved is accepted and then replaced by the automatic assignment (`EarlyCustodyIsOverwritten`);
  with no assignment under way, custody changes only on request exactly when no such save is pending
  (`CustodyKeptIff`). A read that missed before a record was first cached can put an untold view back
  (`LateReadLosesNarrative`); a narrative still in the cache is safe from all but reassignment and eviction exactly when no handler
  is at work on its record (`NarrativeKeptIff`).

## Model

| member | source | states |
|---|---|---|
| LeastSquares.SliceIsDifference | src/forge/domain/torque.py:266-289 | the moments of any slice are the difference of two prefix entries |
| LeastSquares.PrefixSums.constructor | src/forge/domain/torque.py:266-280 | the five arrays hold the sums over every prefix |
| LeastSquares.PrefixSums.FitSlice | src/forge/domain/torque.py:282-304 | the constant-time fit equals the fit of the slice's own samples |
| LeastSquares.PrefixSums.TotalSumSquares | src/forge/domain/torque.py:306-312 | constant-time total squares of the slice's own samples |
| LeastSquares.SpreadNonNegative | src/forge/domain/torque.py:291 | Cauchy–Schwarz: the slope's denominator is never negative |
| LeastSquares.FitResidual | src/forge/domain/torque.py:290-304 | for two or more samples the closed-form SSE is the residual sum of the returned line and the clamp to 0 changes nothing |
| LeastSquares.FitResidualIff | src/forge/domain/torque.py:282-304 | exactly when the reported SSE is that of the returned line, single samples included |
| LeastSquares.FitLeastSquaresIff | src/forge/domain/torque.py:282-304 | no line does better than the fitted one exactly when the spread is at least 1e-12 or the coordinates do not covary; for a single sample, exactly when it lies on the axis |
| LeastSquares.LeastLineIsFitted | src/forge/domain/torque.py:282-304 | with a spread of at least 1e-12 there is only one least-squares line, and the fit returns it |
| LeastSquares.FitBeatsMean | src/forge/domain/torque.py:370-371 | the residual share lies between 0 and the total squares, so R squared is in [0, 1] |
| Signature.SweepSplits | src/forge/domain/torque.py:354-360 | the sweep returns the earliest cheapest split |
| Signature.ExtractFeatures | src/forge/domain/torque.py:341-406 | the step-by-step extraction computes the feature specification, and its slope ratio compares the least-squares slopes of the last quarter and the first half of the loaded segment |
| Signature.BestSplitIsEarliestMinimum | src/forge/domain/torque.py:354-360 | no admissible split is cheaper and every earlier one is strictly dearer |
| Signature.SweepIsGloballyExact | src/forge/domain/torque.py:343-363 | on resolved slices, chosen split and fitted lines have the least total squared residual over all admissible splits and all pairs of lines, earliest winning ties |
| Signature.EndsResolveAll | src/forge/domain/torque.py:291-294 | angular spread in the first five and last five samples makes every fit of the sweep exact |
| Signature.SegmentsLeastSquaresIff | src/forge/domain/torque.py:354-363 | on every curve each line reported for the chosen split is the least-squares line of its segment exactly when that segment's spread is at least 1e-12 or its coordinates do not covary |
| Signature.FlatFallbackCounterexample | src/forge/domain/torque.py:294-297 | a ten-sample curve in angle order that starts with four samples at the origin and one at (1e-7, 1): the chosen split's first line is not the least-squares line |
| Signature.SegmentsMeasured | src/forge/domain/torque.py:363-403 | at the earliest cheapest split, for the least-squares lines of two segments with spread at least 1e-12: knee angle and torque, both slopes, and the elastic variance as residual sum over n − 2 |
| Signature.LevelsMeasured | src/forge/domain/torque.py:370-373 | likewise the mean run-down torque, and R squared as the share of the squares about the mean that the least-squares line explains; 1 when those squares are at most 1e-12 |
| Signature.ReversalsMeasured | src/forge/domain/torque.py:387-405 | span, final torque, peak, and the number of drops of more than 1 % of the peak and more than 0.05 Nm |
| Signature.GenericReversalsMeasured | src/forge/domain/signals.py:266-279 | the generic engine counts the drops of more than 1 % of the largest size and more than 1e-6 |
| Signature.FlatteningIsMeasured | src/forge/domain/torque.py:375-384 | on every curve, at the earliest cheapest split, with ten samples after it and a first-half slope beyond 1e-9 in size: both extractors' ratio times that slope is how steep the last quarter is; otherwise the ratio is 1 |
| Signature.FitHasSlope | src/forge/domain/torque.py:282-304 | every slice has exactly one slope in that sense (its least-squares line's, or 0 below a spread of 1e-12), and it is the one the fit returns |
| Signature.FeaturesInRange | src/forge/domain/torque.py:370-406 | R squared in [0, 1], a non-negative residual variance, a knee at a sample's angle past the fifth, a final torque no higher than the peak |
| Signature.PiecewiseLinear | src/forge/domain/signals.py:199-252 | the generic extractor's own sweep ends on the earliest cheapest split and reports its nine values there, the slope ratio comparing the least-squares slopes of the last quarter and the first half of the segment after it |
| Signature.EarliestCheapestIsBest | src/forge/domain/signals.py:215-219 | there is only one earliest cheapest split, so the two sweeps end on the same one |
| Signature.AnalyseBoth | src/forge/domain/signals.py:215-252 | both extractors run on the same samples report equal breakpoint, slopes, mean, variance, R squared, span and slope ratio |
| Signature.ReversalsAgreeIff | src/forge/domain/signals.py:266-279 | the two reversal counts agree exactly when no drop falls between the two floors |
| Signature.ReversalsDisagree | src/forge/domain/signals.py:266-279 | ten samples on which the two engines count differently |
| Signature.FloorsAgreeIff | src/forge/domain/torque.py:389-390 | both engines use one floor exactly when the largest absolute torque is at least 5 Nm and is the peak or 5 itself |
| Signature.FloorsAgree | src/forge/domain/torque.py:389-390 | so they do on a curve that peaks at 5 Nm or more and goes no further below zero |
| Generator.Emit | data/generators/torque_curve.py:66-122 | the integration loop terminates and emits exactly the specified samples, or the curve is refused |
| Generator.EndsOnTarget | data/generators/torque_curve.py:96-115 | when four times the least slope in force covers the guard's rate and target − seating ≥ 1e-6, the run ends on its target, in [target, target + slope/4), never on the guard |
| Generator.FlattensWithLoad | data/generators/torque_curve.py:101-109 | the slope in force by load: full up to half load, straight down to the yield ratio of it at full load, no further |
| Generator.SampleSpacing | data/generators/torque_curve.py:79-113 | elastic samples a quarter of a degree apart; from 1.75 degrees of run-down on, run-down samples evenly spaced at 0.25 to 2/7 of a degree, and six of them on a shorter one |
| Generator.AmpleGuards | data/generators/torque_curve.py:96-97 | that holds for yield ratios up to 1 with slope × ratio ≥ 0.025 and up to 4 with slope × ratio ≥ 0.1 |
| Generator.EndsOnTargetIff | data/generators/torque_curve.py:96-115 | for every knee, decay and non-negative slope and ratio: the run ends on target if and only if the torque is there by the last round the guard allows |
| Generator.GuardCounterexample | data/generators/torque_curve.py:97 | at yield ratio 8 the guard fires half way up a rise of 1 Nm |
| Generator.FlatCounterexample | data/generators/torque_curve.py:97 | at yield ratio 1 and slope 0.001 the guard fires 0.001 Nm into a rise of 0.025 |
| Generator.StraightEndsOnTargetIff | data/generators/torque_curve.py:96-115 | without decay the run ends on target exactly when the rise, in rounds rounded up, takes no more than the guard's rounds |
| Generator.AnglesIncreaseIff | data/generators/torque_curve.py:84-115 | emitted angles increase strictly exactly for a positive knee |
| Generator.AcceptedIff | src/forge/domain/torque.py:114-128 | a generated curve is accepted exactly when its knee is not negative and it has ten samples |
| RoundTrip.SweepFindsKnee | src/forge/domain/torque.py:354-360 | on a clean noise-free run (no yield decay, positive slope, five elastic samples or more, torque clear of the clamp) whose last run-down sample is off the elastic line, the sweep splits exactly at the generated knee |
| RoundTrip.RoundTrip | data/generators/torque_curve.py:84-115 | on such a run extraction returns the knee angle and torque, elastic slope, run-down torque, span, ratio 1, variance 0 and R squared 1 it was generated with |
| RoundTrip.HiddenKneeSplitsEarly | src/forge/domain/torque.py:354-360 | on a clean run whose last run-down sample is on the elastic line the split comes too early |
| RoundTrip.HiddenKneeExample | data/generators/torque_curve.py:84-115 | knee 2, slope 4, seating 6, run-down 5: a clean curve whose last run-down sample is on the elastic line |
| RoundTrip.KneeRecoveredIff | src/forge/domain/torque.py:341-366 | on a clean run with a positive knee the angle is recovered exactly when the last run-down sample is off the elastic line |
| RoundTrip.GenerateAndAnalyse | data/generators/torque_curve.py:66-122 | generator and analyser composed, on undecayed phases with a visible knee, an ample guard and a rise of more than 0.75 degrees' worth: accepted, read back exactly, final torque within one step of the target |
| RoundTrip.BendIsReadBack | src/forge/domain/torque.py:375-384 | on a loaded segment whose first half and last quarter follow two lines, both slices with spread, ten samples and a first slope beyond 1e-9: the ratio is second slope over first |
| Scoring.Combine | src/forge/domain/torque.py:592-596 | the loop computes the noisy-OR of the weighted strengths |
| Scoring.ShownCorrect | src/forge/domain/torque.py:603 | a verdict lists exactly the recorded deviations, weight times distance falling |
| Scoring.ScoreSignature | src/forge/domain/torque.py:490-607 | the six rules in order, their deviations as listed, the spec check and the threshold; the score is one minus what six clamped excesses of the measurements spare |
| Scoring.ScoreFromExcesses | src/forge/domain/torque.py:507-598 | the score from the measurements alone: one minus the product of 1 − weight × share, a share growing from 0 at the edge of tolerance to 1 one and a half tolerances further; critical from 0.60 and major from 0.45 |
| Scoring.DeviationsListedIff | src/forge/domain/torque.py:509-588 | a verdict lists a deviation under a rule's name exactly when the measurement breaks the rule (variance, run-down torque and reversals above their ceiling by more than that ceiling again, or than 1e-6, 1e-6 and 1 where those are larger; knee and slope by more than a tolerance; ratio below the flattening ratio), with the measured and the nominal number |
| Scoring.DeviationOfIff | src/forge/domain/torque.py:454-487 | a deviation is recorded exactly when the observation lies more than one tolerance out on a side that counts, with that distance in tolerances |
| Scoring.ScoreFeatures | src/forge/domain/signals.py:528-595 | the generic engine's score, deviations as listed, spec limits and flag |
| Scoring.RuleDeviationIff | src/forge/domain/signals.py:549-575 | a generic rule records a deviation exactly when its feature is measured and known and lies out of tolerance on a side that counts |
| Scoring.RuleScoreRange | src/forge/domain/signals.py:549-590 | with weights in [0, 1] the score is in [0, 1] and at least every weighted strength |
| Scoring.RuleScoreZeroIff | src/forge/domain/signals.py:549-590 | with weights in [0, 1], zero exactly when no positively weighted rule is out of tolerance |
| Scoring.RuleOrderIrrelevant | src/forge/domain/signals.py:549-590 | any permutation of the rules gives the same score |
| Scoring.AddingRuleNeverLowers | src/forge/domain/signals.py:549-590 | with weights in [0, 1], inserting a rule anywhere never lowers the score |
| Scoring.MovingOutNeverLowers | src/forge/domain/signals.py:549-590 | with weights in [0, 1], moving one feature in a way that is no improvement for any rule on it, across its mean or not, never lowers the score |
| Scoring.SignatureScoreRange | src/forge/domain/torque.py:507-598 | the torque score is a probability, zero exactly when the measurement breaks no rule, at least every weighted excess |
| Scoring.LoneDeviationIff | src/forge/domain/torque.py:507-598 | a measurement that breaks one rule alone is anomalous at 0.45 exactly when the flattening ratio is undercut by one and a half times itself (or 1e-6 if larger), and then it scores 0.45 and is major |
| Scoring.SignatureScoreMonotone | src/forge/domain/torque.py:507-598 | a later knee, shallower slope, more scatter, reversals, run-down torque or flattening never lower the score |
| Scoring.ContaminationIsAnomalous | src/forge/domain/torque.py:437-452 | with positive tolerances, knee and slope both 2.5 tolerances out are anomalous and critical whatever else was measured |
| Baselines.FromCleanRuns | src/forge/domain/torque.py:187-242 | too few runs are refused (and a minimum below two lets one run divide by zero); otherwise both learned tolerances are positive, the flattening ratio is 0.60 and the specification limits are the given ones, never learned |
| Baselines.LearnedRuleBreaksIff | src/forge/domain/torque.py:217-240 | exactly when a run breaks a learned rule: knee and slope beyond sigma deviations, 2 % of the mean and 1e-6; variance and run-down torque above twice mean plus sigma deviations, and 1e-6 above that sum; reversals above twice that sum and above 2 |
| Baselines.Chebyshev | src/forge/domain/torque.py:212-215 | with the sample standard deviation, at most (n − 1)/sigma² of the values lie more than sigma deviations from their mean |
| Baselines.RuleFiresRarely | src/forge/domain/torque.py:187-242 | for two runs or more and a positive sigma, any learned rule fires on at most (n − 1)/sigma² of its own training runs |
| Baselines.TrainingRunsRarelyFlagged | src/forge/domain/torque.py:187-242 | of any training set of two runs or more, with a positive sigma, at most 2.5 (n − 1)/sigma² runs that did not flatten are flagged as anomalous |
| Adjudicating.VerdictIff | src/forge/domain/adjudication.py:65-174 | ESCALATE exactly on no outcomes, PASS exactly when verifiers pass and every outcome is in spec and not anomalous; severity, fusion and conflict flags likewise |
| Adjudicating.ConfidenceExact | src/forge/domain/adjudication.py:73-174 | the deciding signal and exact confidence by outcome: 0.99, 0.60 + 0.35 × the worst fusion-only score up to 0.97, 0.95, 0.94, and 0 on no outcomes |
| Adjudicating.ConfidenceOutsideBand | src/forge/domain/adjudication.py:177-195 | on scored outcomes the confidence is outside 0.45–0.70, so the human gate is the triage flag |
| Adjudicating.InBandIff | src/forge/domain/adjudication.py:96-195 | for outcomes from anywhere the confidence is in the band exactly when the unit is verified and its worst fusion-only score lies in [−3/7, 2/7] |
| Detection.SilentScoreZeroIff | src/forge/domain/torque.py:490-607 | a readable run (clean, knee visible, run-down no higher than the seating torque) scores zero, for a sane baseline, exactly when its generated knee, slope and run-down torque are in tolerance |
| Detection.DelayAloneIsNotFlagged | src/forge/domain/torque.py:507-598 | a readable run with slope and run-down in tolerance is not flagged, whatever its knee delay |
| Detection.WrongTorqueFailsEndpoint | data/generators/torque_curve.py:179-182 | a readable run in tolerance, with an ample guard and a sane baseline, that stops short of the specification or beyond it scores zero and fails the endpoint check |
| Detection.WorseRunNeverScoresLower | data/generators/torque_curve.py:158-166 | between readable runs a later knee, shallower slope and higher run-down never lower the score |
| Detection.ContaminationIsFusionOnly | data/generators/torque_curve.py:158-166 | a clean run with a visible knee, an ample guard and knee and slope 2.5 tolerances out, driven to a target in spec, passes the endpoint check and is anomalous and critical |
| Detection.ContaminatedUnitIsCaught | src/forge/domain/adjudication.py:96-133 | one such fastener among any others makes a verified unit a critical fusion-only defect of confidence at least 0.81 |
| Cost.StableSortCorrect | src/forge/domain/cost.py:302 | ranking is a sorted permutation headed by the first cheapest row |
| Cost.KeepSorted | src/forge/domain/cost.py:308-309 | dropping the halt row commutes with ranking |
| Cost.Triage | src/forge/domain/cost.py:268-359 | pricing, ranking, choice among autonomous actions and the human gate follow the specification, for any indifference ratio and high-consequence threshold; every ranked cost is its action's price in the cost model's fields |
| Cost.RankedAtPrice | src/forge/domain/cost.py:158-265 | every action on offer is ranked once, cheapest first, at its expected cost in the fields of the cost model: escapes, rework, hold and inspection, scrap, halt |
| Cost.RecommendedIff | src/forge/domain/cost.py:302-309 | exactly when each action is recommended, as inequalities between those prices, ties to ACCEPT, REWORK, QUARANTINE, SCRAP in order |
| Cost.HumanIff | src/forge/domain/cost.py:304-350 | exactly when a human is asked: halt cheaper, price above the limit, safety-critical ACCEPT, another autonomous price within the indifference limit, or a price interval over the uncertainty wider than half of the price or of 1, whichever is larger |
| Cost.Sensitivity | src/forge/domain/cost.py:385-405 | the sweep returns the recommendation and best cost at each probability |
| Cost.RecommendationIsChoose | src/forge/domain/cost.py:176-253 | the recommendation depends on P(defect) and the cost model alone, not on scope, halt hours, uncertainty, safety flag or limits, and never halts the line |
| Cost.ChoiceIsInterval | src/forge/domain/cost.py:256-309 | each disposition is recommended on an interval of P(defect) |
| Cost.SweepNeverReturns | src/forge/domain/cost.py:385-405 | an increasing sweep never returns to an abandoned disposition |
| Cost.SweptCostRises | src/forge/domain/cost.py:385-405 | with non-negative costs the swept minimum never falls |
| Cost.SweptCostConcave | src/forge/domain/cost.py:385-405 | the swept minimum is concave in P(defect) on [0, 1] |
| Cost.EscalationRules | src/forge/domain/cost.py:308-330 | a cheapest halt and an accepted safety-critical unit always go to a human; the first ranked cost is the least of all |
| Cost.ZeroProbabilityGate | src/forge/domain/cost.py:326-350 | with non-negative costs, exactly when an ACCEPT of a unit that is not safety-critical at P(defect) = 0 still goes to a human |
| Pipelines.InspectionInputs.RunSpecialists | src/forge/agents/graph.py:172-285 | whatever order the three specialists run in, the shared outcomes are the same |
| Pipelines.InspectionInputs.Run | src/forge/agents/graph.py:402-423 | one graph run: quality, verdict, triage and trace as functions of the curves, for every order |
| Pipelines.Inspect | src/forge/application/usecases/inspect.py:114-271 | the service's steps compute the decision specification, rejection included |
| Pipelines.OutcomesInOrder | src/forge/application/usecases/inspect.py:167-171 | every curve is measured, nothing else is, and outcomes come in fastener order |
| Pipelines.ReconcileAgreesIff | src/forge/application/usecases/inspect.py:273-346 | the service's own reconciliation equals the shared adjudication exactly on non-empty outcomes |
| Pipelines.PipelinesAgree | src/forge/application/usecases/inspect.py:114-346 | on every non-empty list of valid curves service and graph give the same verdict, severity, confidence, primary signal, fusion flag, disposition, cost, interval, human gate and quality |
| Pipelines.SpansPermute | src/forge/agents/graph.py:402-423 | the specialists' spans are the same three in every order |
| Pipelines.RunBoth | src/forge/agents/graph.py:402-423 | both pipelines run side by side, in every specialist order, return equal decisions and six spans |
| Pipelines.UnattendedAcceptMeansPass | src/forge/agents/graph.py:334-396 | on non-empty valid curves, an ACCEPT nobody reviews means every outcome nominal and every verifier passed, and conversely |
| Pipelines.DefectIsPriced | src/forge/application/usecases/inspect.py:189-225 | on valid curves a DEFECT is priced at its confidence ± 0.06 as safety-critical: the recommendation is the cheapest autonomous price, the cost reported the least of all on offer, an ACCEPT never unattended |
| Pipelines.EmptyInputDiverges | src/forge/application/usecases/inspect.py:348-372 | on no curves, with non-negative costs, the service quarantines with a human and the graph recommends ACCEPT |
| Pipelines.EmptyGraphUnattendedIff | src/forge/agents/graph.py:334-396 | with non-negative costs, exactly when the graph accepts an unmeasured unit with nobody asked |
| Breaker.CircuitBreaker.BeforeCall | src/forge/infrastructure/resilience/breaker.py:104-122 | admission, the delay a refusal advertises, and the new state, half-opening included |
| Breaker.CircuitBreaker.OnSuccess | src/forge/infrastructure/resilience/breaker.py:124-134 | the new state after a success report, late or not |
| Breaker.CircuitBreaker.OnFailure | src/forge/infrastructure/resilience/breaker.py:136-153 | the new state after a failure report; a closed breaker counts it and stays closed exactly below the failure threshold |
| Breaker.RunKeepsInvariant | src/forge/infrastructure/resilience/breaker.py:88-169 | over every run: CLOSED iff no opening time, failures and successes below their thresholds, 0 ≤ in-flight ≤ maximum |
| Breaker.ClosedCountsFailures | src/forge/infrastructure/resilience/breaker.py:124-153 | over every run a closed breaker has counted exactly the failure reports since the last success or reset |
| Breaker.ClosedOpensIff | src/forge/infrastructure/resilience/breaker.py:104-160 | over every run a closed breaker opens exactly on fault injection or on a failure report that is at least the threshold-th since the last success or reset, and admits every ask until then |
| Breaker.ClosedThroughoutIff | src/forge/infrastructure/resilience/breaker.py:88-153 | a run without fault injection leaves the breaker closed throughout exactly when no threshold of failures comes without a success or reset among them |
| Breaker.NoAdmissionBeforeWindow | src/forge/infrastructure/resilience/breaker.py:88-122 | from an opening, every ask before the window ends is refused, through any events but a reset |
| Breaker.AdmissionWaitsOutWindow | src/forge/infrastructure/resilience/breaker.py:88-122 | in every run, an admission after an opening comes at least the open duration later unless reset |
| Breaker.OpeningStartsWindow | src/forge/infrastructure/resilience/breaker.py:136-160 | only failures and fault injection open, and the window starts at that moment |
| Breaker.HalfOpenFailureReopens | src/forge/infrastructure/resilience/breaker.py:136-153 | any failure report in half-open restarts the full window |
| Breaker.RetryAfterExactIff | src/forge/infrastructure/resilience/breaker.py:98-119 | for a refused call the advertised delay is exactly when the breaker admits again if and only if it is open |
| Breaker.FullQuotaAdvertisesNothing | src/forge/infrastructure/resilience/breaker.py:118-119 | a full half-open quota advertises zero seconds and refuses at every time |
| Breaker.StreakIsCounter | src/forge/infrastructure/resilience/breaker.py:124-134 | the half-open success counter is the current streak of success reports |
| Breaker.HalfOpenClosesIff | src/forge/infrastructure/resilience/breaker.py:124-134 | a success report closes a half-open breaker exactly when it completes a streak of the success threshold |
| Breaker.RecoveryNeedsSuccesses | src/forge/infrastructure/resilience/breaker.py:112-153 | OPEN to CLOSED takes a reset or a failure-free stretch with at least the threshold of half-open successes |
| Breaker.LeakedSlotsWedge | src/forge/infrastructure/resilience/breaker.py:104-122 | with the half-open quota taken and nothing left to report, every ask is refused for ever |
| Breaker.WedgedIff | src/forge/infrastructure/resilience/breaker.py:104-122 | asks alone are never admitted again exactly in half-open with every slot taken |
| Breaker.AnythingElseUnwedges | src/forge/infrastructure/resilience/breaker.py:124-169 | any report, late or not, fault injection or reset ends the wedge |
| Breaker.CancelledProbeWedgesIff | src/forge/agents/graph.py:501 | an admitted call that is cancelled wedges the breaker exactly when it was a half-open probe on the last slot |
| Breaker.SettledCallKeepsSlots | src/forge/infrastructure/resilience/breaker.py:104-153 | an admitted and settled call takes no slot away |
| FallbackChain.BreakerRegistry.Get | src/forge/infrastructure/resilience/breaker.py:185-208 | one breaker per name: an existing one is returned as it is, a new one is fresh, others untouched |
| FallbackChain.CallGuarded | src/forge/infrastructure/llm/service.py:171-191 | ask, call, and report the outcome once |
| FallbackChain.ModelService.RunChain | src/forge/infrastructure/llm/service.py:159-234 | the recursive chain with downgrade stops at the first answer of the tier's own list, followed for reasoning by the fast one, and leaves every breaker as the flat search does |
| FallbackChain.Search | src/forge/infrastructure/llm/service.py:142-234 | a reasoning request visits the reasoning providers, then the fast ones if declared, any other request its own only; the first that is admitted and succeeds answers with its own text and name, marked as downgraded off the head; it raises only when none does |
| FallbackChain.SearchAnswersInOrder | src/forge/infrastructure/llm/service.py:42-46 | the same order written out on the two chains |
| FallbackChain.Generate | src/forge/infrastructure/llm/service.py:142-157 | cache hit, or flat search and store; the cache and every breaker afterwards, the cache by one lookup and at most one store; every served completion says nothing twice, `cache_served` exactly when from the cache, `budget_exceeded` exactly when truncated, and nothing only when fresh, untruncated and from the real head; the cache keeps only such fresh answers |
| FallbackChain.DegradationsExact | src/forge/infrastructure/llm/service.py:166-234 | a fresh answer's degradations are duplicate-free and state exactly what happened; none means a fresh untruncated answer from the real head; the provider named is the configured one, or "fake" for the fake adapter; the tier named is the requested one |
| FallbackChain.HeadOfFlat | src/forge/infrastructure/llm/service.py:192-203 | only the first provider of a non-empty requested chain counts as the head |
| FallbackChain.HitIsHonest | src/forge/infrastructure/llm/service.py:75-94 | a hit adds `cache_served` once, at the end, and repeats nothing |
| FallbackChain.SearchIsHonest | src/forge/infrastructure/llm/service.py:145-157 | whatever the search serves may be stored: fresh, duplicate-free, and without degradations only from the real head |
| FallbackChain.ServedIsLatestIff | src/forge/infrastructure/llm/service.py:75-94 | over every interleaving of lookups and stores, a lookup is served exactly when an answer was stored under its key and the latest is no older than the time to live, and then with that answer, marked and aged |
| FallbackChain.SearchKeepsSlots | src/forge/infrastructure/llm/service.py:166-223 | a search whose providers answer or raise takes no half-open slot on any breaker, shared by two tiers or not |
| FallbackChain.NoSlotStaysTaken | src/forge/infrastructure/llm/service.py:166-223 | with no slot taken before a request none is taken after it |
| FallbackChain.SearchIsARun | src/forge/infrastructure/llm/service.py:166-223 | for every name a search is a run of that breaker in which each admitted question is followed by exactly one report, success or failure, and a refused one by none |
| FallbackChain.SearchCountsVisits | src/forge/infrastructure/llm/service.py:166-223 | each breaker's call and failure totals grow by exactly its own admitted and failed visits |
| FallbackChain.BreakerNamesIff | src/forge/infrastructure/llm/service.py:123-139 | two providers share a breaker exactly when name and model agree or one name runs a colon and more into the other's model |
| FallbackChain.BreakerNamesDistinct | src/forge/infrastructure/llm/service.py:123-139 | names without a colon never share a breaker across providers or models |
| FallbackChain.BreakerNamesCollide | src/forge/infrastructure/llm/service.py:123-139 | with a colon two providers share a breaker |
| FallbackChain.CacheKeysDistinct | src/forge/infrastructure/llm/service.py:69-73 | with digests of one length, keys are equal exactly when tier, pack and digest are |
| FallbackChain.PayloadIdentifies | src/forge/infrastructure/llm/service.py:69-73 | over role names without colon or line break, contents without an embedded role line: payloads are equal exactly when roles and contents are |
| FallbackChain.PayloadSharedIff | src/forge/infrastructure/llm/service.py:69-73 | some other conversation has the same payload exactly when there are two messages or more, or the single one embeds a role line |
| FallbackChain.CachedTogetherIff | src/forge/infrastructure/llm/service.py:69-73 | two such requests share a cached answer exactly when tier, pack, roles and contents agree, whatever images and schema |
| RateLimit.SlidingWindowLimiter.Check | apps/api/ratelimit.py:101-122 | the deque loop and the decision follow the step specification |
| RateLimit.SlidingWindowLimiter.Prune | apps/api/ratelimit.py:124-128 | exactly the idle keys are dropped |
| RateLimit.DecisionsAreNaive | apps/api/ratelimit.py:101-122 | with a non-decreasing clock, every decision is the one counting over the key's full allowed history would make |
| RateLimit.DeniedIff | apps/api/ratelimit.py:106-112 | with a non-decreasing clock, denied exactly when the live count has reached the limit; the index error exactly for a limit of 0 or less and no live hit |
| RateLimit.OnlyOwnChecksMatter | apps/api/ratelimit.py:101-128 | other keys and prunes never change a key's history |
| RateLimit.PruneInvisible | apps/api/ratelimit.py:124-128 | with a non-decreasing clock, a prune inserted anywhere changes no later decision |
| RateLimit.WindowTheorem | apps/api/ratelimit.py:101-122 | with a non-decreasing clock and one limit of at least 1 for the key, every half-open interval of window length holds at most `limit` allowed requests of a key |
| RateLimit.RetryAfterSound | apps/api/ratelimit.py:108-113 | with a non-decreasing clock and a fixed limit, a denied key that stays silent is allowed once `retry_after` is up, and exactly when the oldest live hit leaves |
| RateLimit.DecisionNumbers | apps/api/ratelimit.py:106-122 | with a non-decreasing clock: the room reported is limit − live hits − 1, and retry and reset are the time until the oldest hit leaves, rounded up to whole seconds and at least 1 |
| RateLimit.ResetEmptiesIff | apps/api/ratelimit.py:84-118 | with a non-decreasing clock, after the advertised reset the window is empty exactly when the oldest and newest live hits round up to the same wait |
| RateLimit.ResetTooEarly | apps/api/ratelimit.py:117-118 | window 60, hits at 0 and 59: reset 1, and a second later the newer hit is still live |
| LiveFeed.Feed.Broadcast | apps/api/main.py:215-235 | each subscriber in scope is offered the message, in any order; a full queue counts a drop |
| LiveFeed.Subscriber.Receive | apps/api/main.py:1012-1019 | the front message goes out with the drops so far and the counter restarts |
| LiveFeed.Conservation | apps/api/main.py:215-235 | in every run, messages entitled to = queued + sent + drops announced + drops not yet announced; the queue never exceeds 64 |
| LiveFeed.EntitledIff | apps/api/security.py:143-147 | a broadcast frame is offered exactly when it is about no unit, or the subscriber sees all stations or the unit's own |
| LiveFeed.DroppedIff | apps/api/main.py:224-235 | a frame is dropped exactly when the subscriber is entitled to it and 64 are waiting; otherwise an entitled one joins the end of the queue |
| LiveFeed.OrderKept | apps/api/main.py:1012-1019 | what was sent and is queued is the broadcast order with drops left out |
| LiveFeed.NothingOutsideScope | apps/api/main.py:227-230 | no frame about another station's unit is sent to a scoped subscriber |
| LiveFeed.DropsAnnouncedNext | apps/api/main.py:1014-1018 | while drops are unannounced a message is queued, and the next receive announces them all |
| ViewCache.Api.Persist | apps/api/main.py:207-211 | the state cache after a persist: most recent last, trimmed to its bound |
| ViewCache.Api.CacheView | apps/api/main.py:354-359 | the view cache after a fill: most recent last, trimmed to its bound |
| ViewCache.Api.FinishCreating | apps/api/main.py:668-692 | auto-assignment, rendering and caching in one stretch |
| ViewCache.Api.Hit | apps/api/main.py:457-462 | a hit returns the cached view and makes it the most recently used |
| ViewCache.Api.FinishResolving | apps/api/main.py:463-468 | after the repository answers, the record is rendered with the current assignment and cached |
| ViewCache.Api.FinishAssigning | apps/api/routers/defects.py:97-100 | custody set and the stale view dropped in one stretch |
| ViewCache.Api.Tell | apps/api/main.py:720-733 | the narrative and its span go onto the view only if it is still cached |
| ViewCache.StepKeepsInvariant | apps/api/main.py:457-692 | every stretch of every handler keeps coherence, bounds, filing and the waiting handlers' records |
| ViewCache.ViewsStayCoherent | apps/api/main.py:354-468 | after any interleaving from a restart every cached view is the stored record rendered with the current assignment, up to one narrative, and no cache is over its bound |
| ViewCache.CachedViewShows | apps/api/main.py:362-438 | after any interleaving from a restart a cached view tells the stored verdict, price, trace and current custody, or ESCALATE and QUARANTINE where there is none |
| ViewCache.WorkersTakeTurns | apps/api/main.py:672-691 | two defective units finished one after the other are assigned to the two workers in turn |
| ViewCache.AnswersAreCurrent | apps/api/main.py:457-468 | whatever view a caller is handed is current at that moment and is now cached |
| ViewCache.MissIsASlowHit | apps/api/main.py:457-468 | a stored record is found on a miss, with current custody, whatever runs while the caller waits |
| ViewCache.CustodyKeptIff | apps/api/main.py:670-690 | with no assignment under way, every run that does not ask for a record keeps its custody if and only if no defective unit of that id is still being saved |
| ViewCache.ViewSurvives | apps/api/main.py:354-359 | a settled record's view, narrative included, outlives any run that does not reassign it and uses fewer than 512 views |
| ViewCache.EarlyCustodyIsOverwritten | apps/api/main.py:669-690 | custody asked for during the save of a defective unit is replaced by the automatic assignment |
| ViewCache.LateReadLosesNarrative | apps/api/main.py:463-468 | a read that missed early and resumes late replaces a told view by an untold one |
| ViewCache.NarrativeKeptIff | apps/api/main.py:708-733 | with room in the cache, every run that does not ask for a record nor uses 512 views keeps its told view if and only if no handler is at work on it |

## Left out

- Floating point: arithmetic is over reals, so rounding, overflow, `fsum`, NaN and the finiteness check of samples are not modelled.
- Strings that carry no decision (reasoning, rationales, assumptions, provenance, logs) and latency figures, rounding for display included.
- LeastSquares.PrefixSums: the two engines' prefix-sum classes are the same code, line for line, and are modelled once; their sweeps and flattening checks are modelled separately.
- Scoring.ScoreSignature: `classify`, which ranks labels for the report, is not modelled; no decision reads it.
- Baselines.RuleFiresRarely: the square root is any function that returns a non-negative root of the variances in question; the generic engine's `from_clean_runs`, the same statistics per feature name, is not modelled again.
- The spectral, distribution, trend and endpoint extractors: trigonometry and order statistics with no claim beyond their formula.
- Generator.Emit: the random draws are a parameter; how `generate` draws phase parameters per scenario is not modelled.
- RoundTrip.RoundTrip: is stated for noise zero and no yield decay, as the source makes no claim about noisy curves that holds for every draw.
- Generator.EndsOnTarget: sufficient, with the interval the last torque lies in; the exact condition is `EndsOnTargetIff`.
- Pipelines.InspectionInputs.Run: each specialist node is one step, as none of them awaits; the join waits for all three, as the declared edges say. LangGraph itself is not modelled.
- Pipelines.Inspect: the clock, the span durations and the reason strings are left out.
- Breaker.RunKeepsInvariant: the lock makes each method one step; thresholds are assumed to be at least 1.
- FallbackChain.SearchKeepsSlots: assumes every provider call answers or raises `LLMError`; cancelled calls are `Breaker.CancelledProbeWedgesIff`. The search is one request at a time; requests that overlap are covered by the breaker's runs of arbitrary events.
- FallbackChain.ResponseCache: the digest is an uninterpreted function; that it has one length and does not collide on the two payloads at hand are hypotheses of `CachedTogetherIff`. Hit-rate statistics, provider adapters, capability probing and demo mode are left out.
- RateLimit.SlidingWindowLimiter: `reset`, the tracked-subject count, the environment limits and the middleware's choice of key and limit are left out.
- LiveFeed.Feed.Broadcast: joining, leaving and the greeting frame are left out; a run is one subscriber's, from joining on. A message taken off the queue counts as sent even if the socket then fails.
- ViewCache.StepKeepsInvariant: correlation ids are taken to be fresh; views are values, so that a handler still holding a view it was given and the cache share later narratives is not captured. Running without storage, the list endpoint's scan and the durable copy of assignments are left out.
- ViewCache.View: fastener rows, image, baseline figures, currency and assumptions are left out of the rendered view; they are copied from the record or constant.
- HTTP, e-mail, chat, database and file stores, authentication, roles, the assistant, prompts, retrieval and the user interface.
