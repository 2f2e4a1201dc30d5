/** What the analyser and the scorer together decide about noise-free generated curves. */
module Detection {
  import opened Reals
  import opened LeastSquares
  import opened Signature
  import opened Generator
  import opened RoundTrip
  import opened Scoring
  import opened Adjudicating

  // ------------------------------------------------------------------
  // Reversals of a noise-free curve
  // ------------------------------------------------------------------

  ghost predicate NeverFalls(s: seq<Sample>) {
    forall i :: 0 < i < |s| ==> s[i - 1].y <= s[i].y
  }

  lemma {:induction false} NoFallsNoDrops(s: seq<Sample>, floor: real)
    requires NeverFalls(s) && floor >= 0.0
    ensures Drops(s, floor) == 0
  {
    if |s| < 2 {
    } else {
      NoFallsNoDrops(s[..|s| - 1], floor);
    }
  }

  /** A run-down below the seating torque is followed by a rise, then by the elastic line. */
  lemma CurveNeverFalls(p: Phases, steps: nat)
    requires CleanRun(p, steps) && FreeTorque(p) <= p.seating
    ensures NeverFalls(Curve(p, steps))
  {
    hide RundownCount, Curve;
    var s, n := Curve(p, steps), RundownCount(p);
    forall i | 0 < i < |s| ensures s[i - 1].y <= s[i].y {
      RundownHeights(p, steps, if i < n then i else n - 1);
      RundownHeights(p, steps, if i - 1 < n then i - 1 else n - 1);
      if i > n {
        ElasticStraight(p, steps, i - n);
        ElasticStraight(p, steps, i - n - 1);
        GainGrows(p.slope, i - n - 1, i - n);
        assert s[n + (i - n)] == s[i] && s[n + (i - n - 1)] == s[i - 1];
      } else if i == n {
        ElasticStraight(p, steps, 0);
        GainOne(p.slope);
        assert s[n + 0] == s[n];
      }
    }
  }

  lemma RundownHeights(p: Phases, steps: nat, i: nat)
    requires i < RundownCount(p)
    ensures Curve(p, steps)[i].y == FreeTorque(p)
  {
  }

  // ------------------------------------------------------------------
  // Which rules a noise-free run breaks
  // ------------------------------------------------------------------

  predicate Sane(b: Baseline) {
    b.kneeTolerance > 0.0 && b.slopeTolerance > 0.0 && b.varianceMax >= 0.0 && b.reversalsMax >= 0.0
    && b.flattening <= 1.0
  }

  /** A noise-free run the analyser reads back exactly, its run-down below its seating torque. */
  predicate ReadableRun(p: Phases, steps: nat) {
    CleanRun(p, steps) && KneeVisible(p) && FreeTorque(p) <= p.seating
  }

  predicate KneeInTolerance(p: Phases, b: Baseline) { p.knee <= b.kneeAngle + b.kneeTolerance }

  predicate SlopeInTolerance(p: Phases, b: Baseline) { p.slope >= b.elasticSlope - b.slopeTolerance }

  predicate RundownInTolerance(p: Phases, b: Baseline) {
    FreeTorque(p) <= b.rundownMax + Max(b.rundownMax, 0.000001)
  }

  lemma SilentReversals(p: Phases, steps: nat)
    requires ReadableRun(p, steps)
    ensures FeaturesOf(Curve(p, steps)).reversals == 0
  {
    hide KneeVisible, CleanRun, Curve;
    CurveNeverFalls(p, steps);
    EnoughSteps(p, steps);
    NoFallsNoDrops(Curve(p, steps), TorqueFloor(Curve(p, steps)));
  }

  lemma RunIsLong(p: Phases, steps: nat)
    requires ReadableRun(p, steps)
    ensures |Curve(p, steps)| >= MIN_CURVE
  {
  }

  /** The six rules on a noise-free run: only the knee, slope and run-down rules can be broken. */
  lemma SilentRules(p: Phases, steps: nat, b: Baseline)
    requires ReadableRun(p, steps) && Sane(b)
    ensures
      var f := FeaturesOf(Curve(p, steps));
      && (Breaks(f, b, 0) <==> !KneeInTolerance(p, b))
      && (Breaks(f, b, 1) <==> !SlopeInTolerance(p, b))
      && (Breaks(f, b, 4) <==> !RundownInTolerance(p, b))
      && !Breaks(f, b, 2) && !Breaks(f, b, 3) && !Breaks(f, b, 5)
  {
    RoundTrip.RoundTrip(p, steps);
    SilentReversals(p, steps);
    hide CleanRun, KneeVisible, FeaturesOf, Curve, FreeTorque;
  }

  /** A noise-free run scores zero exactly when its own knee, slope and run-down torque are in
    * tolerance. */
  lemma SilentScoreZeroIff(p: Phases, steps: nat, b: Baseline)
    requires ReadableRun(p, steps) && Sane(b)
    ensures SignatureScore(FeaturesOf(Curve(p, steps)), b) == 0.0
            <==> KneeInTolerance(p, b) && SlopeInTolerance(p, b) && RundownInTolerance(p, b)
  {
    hide ReadableRun, Sane, SignatureScore, Breaks, FeaturesOf, Curve, KneeInTolerance, SlopeInTolerance,
      RundownInTolerance;
    SilentRules(p, steps, b);
    RunIsLong(p, steps);
    SignatureScoreRange(FeaturesOf(Curve(p, steps)), b);
  }

  /** A late knee alone is never flagged, however late: with slope and run-down in tolerance the
    * verdict is not anomalous. */
  lemma DelayAloneIsNotFlagged(p: Phases, steps: nat, b: Baseline)
    requires ReadableRun(p, steps) && Sane(b) && SlopeInTolerance(p, b) && RundownInTolerance(p, b)
    ensures !SignatureVerdictOf(FeaturesOf(Curve(p, steps)), b, THRESHOLD).anomalous
  {
    hide ReadableRun, Sane, SignatureScore, Breaks, FeaturesOf, Curve, KneeInTolerance, SlopeInTolerance,
      RundownInTolerance;
    SilentRules(p, steps, b);
    RunIsLong(p, steps);
    var f := FeaturesOf(Curve(p, steps));
    if Breaks(f, b, 0) {
      LoneDeviationIff(f, b, 0);
    } else {
      SilentScoreZeroIff(p, steps, b);
    }
  }

  /** Contamination only ever looks worse: a later knee, a shallower slope and a higher run-down
    * torque never lower the score of a noise-free run. */
  lemma WorseRunNeverScoresLower(p: Phases, q: Phases, steps: nat, more: nat, b: Baseline)
    requires ReadableRun(p, steps) && ReadableRun(q, more)
    requires q.knee >= p.knee && q.slope <= p.slope && q.rundown >= p.rundown
    ensures SignatureScore(FeaturesOf(Curve(p, steps)), b) <= SignatureScore(FeaturesOf(Curve(q, more)), b)
  {
    RoundTrip.RoundTrip(p, steps);
    RoundTrip.RoundTrip(q, more);
    SilentReversals(p, steps);
    SilentReversals(q, more);
    hide SignatureScore, FeaturesOf, Curve, CleanRun, KneeVisible;
    SignatureScoreMonotone(FeaturesOf(Curve(p, steps)), FeaturesOf(Curve(q, more)), b);
  }

  /** The endpoint check, and no rule about the shape, finds a wrong torque: a run in tolerance that stops short of
    * the specification or beyond it scores zero and fails the endpoint check. */
  lemma WrongTorqueFailsEndpoint(p: Phases, steps: nat, b: Baseline)
    requires ReadableRun(p, steps) && Sane(b) && Stops(p, steps)
    requires KneeInTolerance(p, b) && SlopeInTolerance(p, b) && RundownInTolerance(p, b)
    requires GuardIsAmple(p) && p.target >= p.seating + 0.000001
    requires p.target + p.slope / 4.0 <= b.specLo || p.target > b.specHi
    ensures
      var v := SignatureVerdictOf(FeaturesOf(Curve(p, steps)), b, THRESHOLD);
      v.score == 0.0 && !v.anomalous && !v.inSpec && !v.FusionOnly()
  {
    SilentScoreZeroIff(p, steps, b);
    FinalTorque(p, steps);
    LastTorque(Curve(p, steps));
    hide SignatureScore, FeaturesOf, Curve, CleanRun, KneeVisible, Stops, GuardIsAmple;
  }

  // ------------------------------------------------------------------
  // The central claim
  // ------------------------------------------------------------------

  /** A noise-free run driven to a torque inside the specification. */
  predicate EndsInSpec(p: Phases, b: Baseline) {
    b.specLo <= p.target && p.target + p.slope / 4.0 <= b.specHi
  }

  predicate Contaminated(p: Phases, b: Baseline) {
    p.knee >= b.kneeAngle + 2.5 * b.kneeTolerance && p.slope <= b.elasticSlope - 2.5 * b.slopeTolerance
  }

  /** The fusion-only case: contaminated threads, a torque gun that reads the endpoint as a pass,
    * and a signature that is anomalous and critical nevertheless. */
  lemma ContaminationIsFusionOnly(p: Phases, steps: nat, b: Baseline)
    requires CleanRun(p, steps) && KneeVisible(p) && Stops(p, steps) && Contaminated(p, b) && EndsInSpec(p, b)
    requires b.kneeTolerance > 0.0 && b.slopeTolerance > 0.0
    requires p.target >= p.seating + 0.000001 && GuardIsAmple(p)
    ensures
      var v := SignatureVerdictOf(FeaturesOf(Curve(p, steps)), b, THRESHOLD);
      v.FusionOnly() && v.Severity() == Critical && v.score >= 0.61
  {
    RoundTrip.RoundTrip(p, steps);
    FinalTorque(p, steps);
    LastTorque(Curve(p, steps));
    hide SignatureScore, FeaturesOf, Curve, CleanRun, KneeVisible, Stops;
    ContaminationIsAnomalous(FeaturesOf(Curve(p, steps)), b);
  }

  /** One contaminated fastener among any others condemns the unit: with the verifiers passed, the
    * verdict is a critical fusion-only defect of confidence at least 0.81. */
  lemma ContaminatedUnitIsCaught(os: seq<Outcome>, o: Outcome, b: Baseline, p: Phases, steps: nat)
    requires CleanRun(p, steps) && KneeVisible(p) && Stops(p, steps) && Contaminated(p, b) && EndsInSpec(p, b)
    requires o in os && o.signature == SignatureVerdictOf(FeaturesOf(Curve(p, steps)), b, THRESHOLD)
    requires b.kneeTolerance > 0.0 && b.slopeTolerance > 0.0
    requires p.target >= p.seating + 0.000001 && GuardIsAmple(p)
    ensures
      var a := Adjudicate(os, true);
      a.verdict == Defect && a.severity == Critical && a.fusionOnly && a.signalsConflict && a.confidence >= 0.81
  {
    ContaminationIsFusionOnly(p, steps, b);
    hide SignatureScore, FeaturesOf, Curve, CleanRun, KneeVisible, Stops;
    VerdictIff(os, true);
    var keep := (x: Outcome) => x.signature.FusionOnly();
    assert o in Filter(os, keep);
    assert Worst(Filter(os, keep)).signature.score >= o.signature.score;
  }
}
