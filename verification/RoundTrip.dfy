/** What the analyser reads back from a noise-free, non-yielding generated curve. */
module RoundTrip {
  import opened Reals
  import opened LeastSquares
  import opened Signature
  import opened Generator

  const SILENT: nat -> real := (i: nat) => 0.0

  // ------------------------------------------------------------------
  // Fits of collinear samples
  // ------------------------------------------------------------------

  ghost predicate OnLine(s: seq<Sample>, l: Line) {
    forall i :: 0 <= i < |s| ==> Residual(s[i], l) == 0.0
  }

  lemma {:induction false} CollinearNormal(s: seq<Sample>, l: Line)
    requires OnLine(s, l)
    ensures Normal(MomentsOf(s), l)
    ensures Residuals(s, l) == 0.0
  {
    if s == [] {
    } else {
      hide Normal, Residual, Moments.Add;
      var k := |s| - 1;
      assert OnLine(s[..k], l);
      CollinearNormal(s[..k], l);
      NormalAdd(MomentsOf(s[..k]), s[k], l);
    }
  }

  lemma NormalAdd(m: Moments, p: Sample, l: Line)
    requires Normal(m, l) && Residual(p, l) == 0.0
    ensures Normal(m.Add(p), l)
  {
    assert p.x * p.y == p.x * (l.slope * p.x + l.intercept);
    assert l.intercept * (m.n + 1) as real == l.intercept * m.n as real + l.intercept;
  }

  lemma {:induction false} ZeroResidualOnLine(s: seq<Sample>, l: Line)
    requires Residuals(s, l) == 0.0
    ensures OnLine(s, l)
  {
    if s == [] {
    } else {
      hide Residual;
      var k := |s| - 1;
      ResidualsExpand(s[..k], l);
      ZeroResidualOnLine(s[..k], l);
      forall i | 0 <= i < |s| ensures Residual(s[i], l) == 0.0 {
        if i < k { assert s[i] == s[..k][i]; }
      }
    }
  }

  /** The normal line is the one the fit returns, once the slope is resolved or is zero. */
  lemma NormalIsFitted(m: Moments, l: Line)
    requires m.n >= 2 && m.Spread() >= 0.0 && Normal(m, l)
    requires m.Spread() >= FLAT || l.slope == 0.0
    ensures FittedLine(m) == l
  {
    hide Moments.Spread, Moments.Covariance, Normal;
    NormalCovariance(m, l);
    NormalMean(m, l);
    if m.Spread() >= FLAT {
      QuotientIs(m.Covariance(), m.Spread(), l.slope);
    }
    QuotientIs(m.sy - l.slope * m.sx, m.n as real, l.intercept);
    if l.slope == 0.0 { assert m.sy - l.slope * m.sx == m.sy; }
  }

  lemma NormalMean(m: Moments, l: Line)
    requires Normal(m, l)
    ensures m.sy == l.slope * m.sx + l.intercept * m.n as real
  {
  }

  lemma NormalCovariance(m: Moments, l: Line)
    requires Normal(m, l)
    ensures m.Covariance() == l.slope * m.Spread()
  {
    var n := m.n as real;
    assert n * m.sxy == l.slope * (n * m.sxx) + l.intercept * n * m.sx;
    assert m.sx * m.sy == l.slope * (m.sx * m.sx) + l.intercept * n * m.sx;
  }

  /** Collinear samples are fitted by their own line with no residual. */
  lemma CollinearFit(s: seq<Sample>, l: Line)
    requires |s| >= 2 && OnLine(s, l)
    requires MomentsOf(s).Spread() >= FLAT || l.slope == 0.0
    ensures LineOf(FitOf(MomentsOf(s))) == l && FitOf(MomentsOf(s)).sse == 0.0 && FitOf(MomentsOf(s)).n == |s|
    ensures MomentsOf(s).sy == l.slope * MomentsOf(s).sx + l.intercept * |s| as real
  {
    hide OnLine, FittedLine, Normal, Moments.Spread, Residuals;
    MomentsCount(s);
    SpreadNonNegative(s);
    CollinearNormal(s, l);
    NormalIsFitted(MomentsOf(s), l);
    NormalMean(MomentsOf(s), l);
    FitResidual(s);
  }

  lemma TwoPointSpread(s: seq<Sample>)
    requires |s| >= 2 && s[1].x - s[0].x == STEP
    ensures MomentsOf(s).Spread() >= FLAT
  {
    hide Moments.Spread, MomentsOf, Residuals;
    assert s[..|s|] == s && s[..2] == [s[0], s[1]];
    PrefixSpread(s, 2, |s|);
    TwoSamples(s[0], s[1], Line(0.0, 0.0));
    PairSpread(s[0], s[1], MomentsOf([s[0], s[1]]));
  }

  lemma PairSpread(a: Sample, b: Sample, m: Moments)
    requires b.x - a.x == STEP
    requires m == Moments(2, a.x + b.x, a.y + b.y, a.x * a.x + b.x * b.x,
                          a.x * a.y + b.x * b.y, a.y * a.y + b.y * b.y)
    ensures m.Spread() == STEP * STEP
  {
    assert m.Spread() == (b.x - a.x) * (b.x - a.x);
  }

  // ------------------------------------------------------------------
  // The generated curve: a level run-down and a straight elastic line
  // ------------------------------------------------------------------

  /** A clean run: no yield, a positive slope, torque that never reaches the clamp,
    * and at least five elastic samples. */
  predicate CleanRun(p: Phases, steps: nat) {
    p.yieldRatio >= 1.0 && p.slope > 0.0 && p.seating + p.slope * STEP >= 0.0
    && steps + 1 >= MIN_SEGMENT
  }

  function Curve(p: Phases, steps: nat): (s: seq<Sample>)
    ensures |s| == RundownCount(p) + steps + 1
  {
    CurveOf(p, SILENT, steps)
  }

  /** Generated run-down torque; the generator clamps it at zero. */
  function FreeTorque(p: Phases): real { Max(p.rundown, 0.0) }

  function ElasticLine(p: Phases): Line { Line(p.slope, p.seating - p.slope * p.knee) }

  function LastRundown(p: Phases): Sample { RundownSample(p, SILENT, RundownCount(p) - 1) }

  /** The condition of the round trip: the last run-down sample is not on the elastic line. */
  predicate KneeVisible(p: Phases) {
    Residual(LastRundown(p), ElasticLine(p)) != 0.0
  }

  lemma RundownLevel(p: Phases, steps: nat, k: nat)
    requires k <= RundownCount(p)
    ensures OnLine(Curve(p, steps)[..k], Line(0.0, FreeTorque(p)))
  {
    hide RundownCount;
    forall i | 0 <= i < k ensures Residual(Curve(p, steps)[..k][i], Line(0.0, FreeTorque(p))) == 0.0 {
      assert Curve(p, steps)[..k][i].y == FreeTorque(p);
    }
  }

  lemma ElasticStraight(p: Phases, steps: nat, j: nat)
    requires CleanRun(p, steps) && j <= steps
    ensures Curve(p, steps)[RundownCount(p) + j] == Sample(p.knee + Span(j), p.seating + Gain(p.slope, j))
    ensures Residual(Curve(p, steps)[RundownCount(p) + j], ElasticLine(p)) == 0.0
  {
    hide RundownCount, IdealAfter;
    StraightLoad(p, j);
    if j > 0 { GainGrows(p.slope, 1, j); }
    GainAlongLine(p, j);
  }

  lemma GainAlongLine(p: Phases, j: nat)
    ensures Residual(Sample(p.knee + Span(j), p.seating + Gain(p.slope, j)), ElasticLine(p)) == 0.0
  {
    assert p.slope * (p.knee + Span(j)) == p.slope * p.knee + p.slope * Span(j);
  }

  /** From the knee on, every slice of two or more samples is fitted by the elastic line. */
  lemma ElasticSlice(p: Phases, steps: nat, lo: nat, hi: nat)
    requires CleanRun(p, steps)
    requires RundownCount(p) <= lo && lo + 2 <= hi <= |Curve(p, steps)|
    ensures LineOf(SliceFit(Curve(p, steps), lo, hi)) == ElasticLine(p)
    ensures SliceFit(Curve(p, steps), lo, hi).sse == 0.0
  {
    hide RundownCount, Residual, ElasticLine, FitOf, MomentsOf, Curve;
    var s, n := Curve(p, steps), RundownCount(p);
    forall i | 0 <= i < hi - lo ensures Residual(s[lo..hi][i], ElasticLine(p)) == 0.0 {
      ElasticStraight(p, steps, lo + i - n);
      assert s[lo..hi][i] == s[n + (lo + i - n)];
    }
    ElasticStraight(p, steps, lo - n);
    ElasticStraight(p, steps, lo + 1 - n);
    assert s[lo..hi][0] == s[n + (lo - n)] && s[lo..hi][1] == s[n + (lo + 1 - n)];
    TwoPointSpread(s[lo..hi]);
    CollinearFit(s[lo..hi], ElasticLine(p));
  }

  lemma RundownSlice(p: Phases, steps: nat, k: nat)
    requires 2 <= k <= RundownCount(p)
    ensures SliceFit(Curve(p, steps), 0, k).sse == 0.0
    ensures SliceFit(Curve(p, steps), 0, k).slope == 0.0
    ensures MeanTorque(Curve(p, steps), k) == FreeTorque(p)
  {
    hide RundownCount, Residual, FitOf, MomentsOf, Curve;
    var s := Curve(p, steps);
    RundownLevel(p, steps, k);
    assert s[0..k] == s[..k];
    CollinearFit(s[..k], Line(0.0, FreeTorque(p)));
    QuotientIs(MomentsOf(s[..k]).sy, k as real, FreeTorque(p));
  }

  // ------------------------------------------------------------------
  // The sweep finds the knee
  // ------------------------------------------------------------------

  /** Two elastic samples pin any line with no residual down to the elastic line. */
  lemma TwoPointsPinLine(p: Phases, l: Line)
    requires Residual(Sample(p.knee, p.seating), l) == 0.0
    requires Residual(Sample(p.knee + STEP, p.seating + p.slope * STEP), l) == 0.0
    ensures l == ElasticLine(p)
  {
    assert l.slope * (p.knee + STEP) == l.slope * p.knee + l.slope * STEP;
  }

  /** A split before the knee leaves a bend in its right-hand segment. */
  lemma EarlySplitCosts(p: Phases, steps: nat, k: nat)
    requires CleanRun(p, steps) && KneeVisible(p) && MIN_SEGMENT <= k < RundownCount(p)
    ensures SplitCost(Curve(p, steps), k) > 0.0
  {
    hide RundownCount, Residual, ElasticLine, FitOf, MomentsOf, Curve;
    var s, n := Curve(p, steps), RundownCount(p);
    var right := s[k..];
    var l := LineOf(FitOf(MomentsOf(right)));
    assert s[k..|s|] == right;
    FitResidual(s[0..k]);
    FitResidual(right);
    ResidualsExpand(s[0..k], LineOf(SliceFit(s, 0, k)));
    ResidualsExpand(right, l);
    ElasticStraight(p, steps, 0);
    ElasticStraight(p, steps, 1);
    GainOne(p.slope);
    RundownTail(p, steps);
    assert right[n - 1 - k] == LastRundown(p) && right[n - k] == s[n + 0] && right[n + 1 - k] == s[n + 1];
    if Residuals(right, l) == 0.0 {
      ZeroResidualOnLine(right, l);
      TwoPointsPinLine(p, l);
    }
  }

  lemma GainOne(rate: real)
    ensures Gain(rate, 0) == 0.0 && Span(0) == 0.0 && Gain(rate, 1) == rate * STEP && Span(1) == STEP
  {
  }

  lemma RundownTail(p: Phases, steps: nat)
    ensures Curve(p, steps)[RundownCount(p) - 1] == LastRundown(p)
  {
  }

  lemma CostNonNegative(s: seq<Sample>, k: nat)
    requires Admissible(s, k)
    ensures SplitCost(s, k) >= 0.0
  {
    hide FitOf, MomentsOf;
    FitBeatsMean(s[0..k]);
    FitBeatsMean(s[k..|s|]);
  }

  lemma KneeCostsNothing(p: Phases, steps: nat)
    requires CleanRun(p, steps)
    ensures SplitCost(Curve(p, steps), RundownCount(p)) == 0.0
  {
    hide RundownCount, SliceFit, Curve;
    RundownSlice(p, steps, RundownCount(p));
    ElasticSlice(p, steps, RundownCount(p), |Curve(p, steps)|);
  }

  lemma SweepFindsKnee(p: Phases, steps: nat)
    requires CleanRun(p, steps) && KneeVisible(p)
    ensures BestSplit(Curve(p, steps)) == RundownCount(p)
  {
    hide RundownCount, SplitCost, KneeVisible, CleanRun, Curve;
    assert steps + 1 >= MIN_SEGMENT by { EnoughSteps(p, steps); }
    var s, n := Curve(p, steps), RundownCount(p);
    var best := BestSplit(s);
    BestSplitIsEarliestMinimum(s, |s| - MIN_SEGMENT, n);
    KneeCostsNothing(p, steps);
    CostNonNegative(s, best);
    if best < n { EarlySplitCosts(p, steps, best); }
  }

  lemma EnoughSteps(p: Phases, steps: nat)
    requires CleanRun(p, steps)
    ensures steps + 1 >= MIN_SEGMENT
  {
  }

  /** Round trip: the analyser returns the knee, slope and torques the curve was made from. */
  lemma RoundTrip(p: Phases, steps: nat)
    requires CleanRun(p, steps) && KneeVisible(p)
    ensures
      var f := FeaturesOf(Curve(p, steps));
      && f.kneeAngle == p.knee && f.kneeTorque == p.seating
      && f.rundownTorque == FreeTorque(p) && f.rundownSlope == 0.0
      && f.elasticSlope == p.slope && f.lateRatio == 1.0
      && f.elasticVariance == 0.0 && f.elasticR2 == 1.0
      && f.elasticSpan == Span(steps)
  {
    hide RundownCount, KneeVisible, SliceFit, MeanTorque, LateRatio, Peak, Drops, MomentsOf, TotalSquares, Curve;
    var s, n := Curve(p, steps), RundownCount(p);
    SweepFindsKnee(p, steps);
    RundownSlice(p, steps, n);
    ElasticSlice(p, steps, n, |s|);
    ElasticStraight(p, steps, 0);
    ElasticStraight(p, steps, steps);
    assert s[n + 0] == s[n] && s[n + steps] == s[|s| - 1];
    GainOne(p.slope);
    LateRatioIsOne(p, steps);
  }

  lemma LateRatioIsOne(p: Phases, steps: nat)
    requires CleanRun(p, steps)
    ensures LateRatio(Curve(p, steps), RundownCount(p)) == 1.0
  {
    hide RundownCount, SliceFit, Curve;
    var s, n := Curve(p, steps), RundownCount(p);
    var m := |s| - n;
    if m >= MIN_CURVE {
      ElasticSlice(p, steps, n, n + m / 2);
      ElasticSlice(p, steps, n + 3 * m / 4, |s|);
      QuotientIs(p.slope, p.slope, 1.0);
    }
  }

  /** A loaded segment that bends: with its first half on one line and its last quarter on another, the
    * ratio read back is second slope over first. */
  lemma BendIsReadBack(s: seq<Sample>, k: nat, first: Line, second: Line)
    requires |s| >= MIN_CURVE && EarliestCheapest(s, k) && |s| - k >= 10 && Abs(first.slope) > 0.000000001
    requires var n := |s| - k;
             && OnLine(s[k..k + n / 2], first) && OnLine(s[k + 3 * n / 4..], second)
             && MomentsOf(s[k..k + n / 2]).Spread() >= FLAT && MomentsOf(s[k + 3 * n / 4..]).Spread() >= FLAT
    ensures FeaturesOf(s).lateRatio == second.slope / first.slope
  {
    hide OnLine, FitOf, MomentsOf, Moments.Spread, IsLeastSquares, FeaturesOf, EarliestCheapest;
    var n := |s| - k;
    OnLineIsLeast(s[k..k + n / 2], first);
    OnLineIsLeast(s[k + 3 * n / 4..], second);
    assert LoadedSlopes(s, k, first.slope, second.slope);
    FlatteningIsMeasured(s, k);
    QuotientIs(second.slope, first.slope, FeaturesOf(s).lateRatio);
  }

  lemma OnLineIsLeast(s: seq<Sample>, l: Line)
    requires OnLine(s, l)
    ensures IsLeastSquares(s, l)
  {
    CollinearNormal(s, l);
    NormalIsLeast(s, l);
  }

  /** When the last run-down sample is on the elastic line the sweep stops early. */
  lemma HiddenKneeSplitsEarly(p: Phases, steps: nat)
    requires CleanRun(p, steps) && !KneeVisible(p)
    ensures BestSplit(Curve(p, steps)) < RundownCount(p)
  {
    hide RundownCount, SliceFit, BestSplitTo, Curve;
    var s, n := Curve(p, steps), RundownCount(p);
    var best := BestSplit(s);
    RundownSlice(p, steps, n - 1);
    TailSlice(p, steps);
    BestSplitIsEarliestMinimum(s, |s| - MIN_SEGMENT, n - 1);
    BestSplitIsEarliestMinimum(s, |s| - MIN_SEGMENT, best);
    CostNonNegative(s, best);
  }

  /** A clean run with a hidden knee: the run-down is at 5 Nm, and so is the elastic line at 1.75
    * degrees, where the last run-down sample is taken. */
  lemma HiddenKneeExample(p: Phases, steps: nat)
    requires p.knee == 2.0 && p.slope == 4.0 && p.seating == 6.0 && p.rundown == 5.0 && p.yieldRatio == 1.0
    requires steps >= 4
    ensures CleanRun(p, steps) && !KneeVisible(p)
  {
    assert RundownCount(p) == 8;
  }

  lemma TailSlice(p: Phases, steps: nat)
    requires CleanRun(p, steps) && !KneeVisible(p)
    ensures SliceFit(Curve(p, steps), RundownCount(p) - 1, |Curve(p, steps)|).sse == 0.0
  {
    hide RundownCount, Residual, ElasticLine, FitOf, MomentsOf, Curve;
    var s, n := Curve(p, steps), RundownCount(p);
    var tail := s[n - 1..|s|];
    RundownTail(p, steps);
    forall i | 0 <= i < |tail| ensures Residual(tail[i], ElasticLine(p)) == 0.0 {
      if i > 0 {
        ElasticStraight(p, steps, i - 1);
        assert tail[i] == s[n + (i - 1)];
      }
    }
    SpreadOfTail(p, steps);
    CollinearFit(tail, ElasticLine(p));
  }

  lemma SpreadOfTail(p: Phases, steps: nat)
    requires CleanRun(p, steps)
    ensures MomentsOf(Curve(p, steps)[RundownCount(p) - 1..|Curve(p, steps)|]).Spread() >= FLAT
  {
    hide RundownCount, Moments.Spread, Moments.Add, Curve, Residual;
    var s, n := Curve(p, steps), RundownCount(p);
    assert s[n - 1..|s|] == s[n - 1..];
    PrependMoments(s, n - 1);
    ElasticStraight(p, steps, 0);
    ElasticStraight(p, steps, 1);
    GainOne(p.slope);
    assert s[n..][0] == s[n + 0] && s[n..][1] == s[n + 1];
    TwoPointSpread(s[n..]);
    SpreadNeverShrinks(s[n..], s[n - 1]);
  }

  /** With a positive knee the analyser recovers the knee angle exactly when the last
    * run-down sample is off the elastic line. */
  lemma KneeRecoveredIff(p: Phases, steps: nat)
    requires CleanRun(p, steps) && p.knee > 0.0
    ensures FeaturesOf(Curve(p, steps)).kneeAngle == p.knee <==> KneeVisible(p)
  {
    hide KneeVisible, FeaturesOf, Curve, CleanRun;
    if KneeVisible(p) {
      RoundTrip(p, steps);
    } else {
      HiddenKneeAngle(p, steps);
    }
  }

  lemma HiddenKneeAngle(p: Phases, steps: nat)
    requires CleanRun(p, steps) && p.knee > 0.0 && !KneeVisible(p)
    ensures FeaturesOf(Curve(p, steps)).kneeAngle < p.knee
  {
    hide RundownCount, KneeVisible, SliceFit, MeanTorque, LateRatio, Peak, Drops, MomentsOf, TotalSquares, Curve,
      AngleAt, BestSplitTo, ValueAt, RSquared, TorqueFloor, Residual;
    HiddenKneeSplitsEarly(p, steps);
    var i, n := BestSplit(Curve(p, steps)), RundownCount(p);
    var gap := p.knee / n as real;
    AngleInCurve(p, steps, i, gap);
    Quotient(p.knee, n as real, gap);
    BelowKnee(p.knee, n, gap, i);
  }

  lemma AngleInCurve(p: Phases, steps: nat, i: nat, gap: real)
    requires gap == p.knee / RundownCount(p) as real && i < |Curve(p, steps)|
    ensures Curve(p, steps)[i].x == AngleAt(gap, RundownCount(p), i)
  {
    hide RundownCount, AngleAt;
    CurveAngle(p, SILENT, steps, i, gap);
  }

  lemma BelowKnee(knee: real, n: nat, gap: real, i: nat)
    requires knee > 0.0 && gap * n as real == knee && i < n
    ensures AngleAt(gap, n, i) < knee
  {
    if gap <= 0.0 { NonNegativeProduct(-gap, n as real, -knee); }
    SignOfProduct(gap, (n - i) as real, gap * (n - i) as real);
  }

  /** The generated run composed with the analyser: a noise-free run that ends in five or
    * more elastic samples is accepted and read back exactly. */
  method GenerateAndAnalyse(p: Phases) returns (curve: Result<seq<Sample>>, f: Features)
    requires p.knee >= 0.0 && p.yieldRatio >= 1.0 && p.slope > 0.0
    requires p.seating + p.slope * STEP >= 0.0 && KneeVisible(p)
    requires p.target - p.seating > 0.75 * p.slope
    requires GuardIsAmple(p)
    ensures curve.Success? && exists steps :: EmittedAfter(p, SILENT, curve, steps)
    ensures f.kneeAngle == p.knee && f.elasticSlope == p.slope && f.rundownTorque == FreeTorque(p)
    ensures f.lateRatio == 1.0 && f.elasticVariance == 0.0
    ensures p.target <= f.finalTorque < p.target + p.slope / 4.0
  {
    hide RundownCount, KneeVisible, MaxSpan, IdealAfter, CurveAccepted, FeaturesOf, Residual;
    curve := Emit(p, SILENT);
    ghost var steps :| EmittedAfter(p, SILENT, curve, steps);
    AcceptedIff(p, SILENT, steps);
    EnoughElasticSamples(p, steps);
    f := ExtractFeatures(curve.value);
    RoundTrip(p, steps);
    FinalTorque(p, steps);
    LastTorque(curve.value);
  }

  lemma EnoughElasticSamples(p: Phases, steps: nat)
    requires Stops(p, steps) && p.yieldRatio >= 1.0 && GuardIsAmple(p)
    requires p.target - p.seating > 0.75 * p.slope && p.target >= p.seating + 0.000001
    ensures steps >= 4
  {
    hide MaxSpan;
    EndsOnTarget(p, steps);
    StraightLoad(p, steps);
    GainGrows(p.slope, if steps < 3 then steps else 3, 3);
  }

  lemma FinalTorque(p: Phases, steps: nat)
    requires CleanRun(p, steps) && Stops(p, steps) && p.target >= p.seating + 0.000001
    requires GuardIsAmple(p)
    ensures |Curve(p, steps)| >= MIN_CURVE
    ensures p.target <= Curve(p, steps)[|Curve(p, steps)| - 1].y < p.target + p.slope / 4.0
  {
    hide RundownCount, MaxSpan;
    EndsOnTarget(p, steps);
    ElasticStraight(p, steps, steps);
    StraightLoad(p, steps);
  }

  lemma LastTorque(s: seq<Sample>)
    requires |s| >= MIN_CURVE
    ensures FeaturesOf(s).finalTorque == s[|s| - 1].y
  {
  }
}
