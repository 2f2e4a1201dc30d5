/** The torque-angle signature: sweep every split, keep the best two-segment fit,
  * and measure the shape. `ExtractFeatures` is the torque-specific analyser,
  * `PiecewiseLinear` the generic extractor that is meant to reproduce it.
  */
module Signature {
  import opened Reals
  import opened LeastSquares

  const MIN_SEGMENT: nat := 5
  const MIN_CURVE: nat := 10
  const EARLY_FLOOR: real := 0.000000001  // 1e-9

  datatype Features = Features(
    kneeAngle: real, kneeTorque: real, rundownSlope: real, rundownTorque: real,
    elasticSlope: real, elasticR2: real, elasticVariance: real, elasticSpan: real,
    lateRatio: real, finalTorque: real, peakTorque: real, reversals: nat, sampleCount: nat)

  /** What the generic `piecewise_linear` extractor reports. */
  datatype Piecewise = Piecewise(
    breakpointX: real, breakpointY: real, slopeBefore: real, slopeAfter: real, meanBefore: real,
    residualVariance: real, r2: real, spanAfter: real, lateEarlyRatio: real)

  predicate Admissible(s: seq<Sample>, k: nat) {
    MIN_SEGMENT <= k && k + MIN_SEGMENT <= |s|
  }

  function SliceFit(s: seq<Sample>, lo: nat, hi: nat): Fit
    requires lo <= hi <= |s|
  {
    FitOf(MomentsOf(s[lo..hi]))
  }

  /** Reported cost of a split: the two residual sums. */
  function SplitCost(s: seq<Sample>, k: nat): real
    requires k <= |s|
  {
    SliceFit(s, 0, k).sse + SliceFit(s, k, |s|).sse
  }

  /** The first cheapest split among MIN_SEGMENT..hi. */
  function BestSplitTo(s: seq<Sample>, hi: nat): (k: nat)
    requires Admissible(s, hi)
    ensures MIN_SEGMENT <= k <= hi
  {
    if hi == MIN_SEGMENT then hi
    else
      var k := BestSplitTo(s, hi - 1);
      if SplitCost(s, hi) < SplitCost(s, k) then hi else k
  }

  function BestSplit(s: seq<Sample>): (k: nat)
    requires |s| >= MIN_CURVE
    ensures Admissible(s, k)
  {
    BestSplitTo(s, |s| - MIN_SEGMENT)
  }

  function Peak(s: seq<Sample>): (p: real)
    requires s != []
    ensures forall i :: 0 <= i < |s| ==> s[i].y <= p
    ensures exists i :: 0 <= i < |s| && s[i].y == p
  {
    if |s| == 1 then s[0].y else Max(Peak(s[..|s| - 1]), s[|s| - 1].y)
  }

  /** How many consecutive pairs lose more than `floor`. */
  function Drops(s: seq<Sample>, floor: real): nat {
    if |s| < 2 then 0
    else Drops(s[..|s| - 1], floor) + if s[|s| - 2].y - s[|s| - 1].y > floor then 1 else 0
  }

  /** How the slope late in the loaded segment compares with the early slope. */
  function LateRatio(s: seq<Sample>, k: nat): real
    requires k <= |s|
  {
    var n := |s| - k;
    if n < MIN_CURVE then 1.0
    else
      var early := SliceFit(s, k, k + n / 2).slope;
      if Abs(early) > EARLY_FLOOR then SliceFit(s, k + 3 * n / 4, |s|).slope / early else 1.0
  }

  function RSquared(sse: real, sst: real): real {
    if sst > FLAT then 1.0 - sse / sst else 1.0
  }

  /** Height of the fitted line, so that one noisy sample cannot move the knee. */
  function ValueAt(f: Fit, x: real): real { f.slope * x + f.intercept }

  /** The torque analyser's floor for a reversal. */
  function TorqueFloor(s: seq<Sample>): real
    requires s != []
  {
    Max(0.01 * Peak(s), 0.05)
  }

  function MeanTorque(s: seq<Sample>, k: nat): real
    requires 0 < k <= |s|
  {
    MomentsOf(s[..k]).sy / k as real
  }

  function FeaturesAt(s: seq<Sample>, k: nat): Features
    requires Admissible(s, k)
  {
    var rundown, elastic := SliceFit(s, 0, k), SliceFit(s, k, |s|);
    Features(
      s[k].x, ValueAt(elastic, s[k].x), rundown.slope, MeanTorque(s, k),
      elastic.slope, RSquared(elastic.sse, TotalSquares(MomentsOf(s[k..]))), elastic.ResidualVariance(),
      s[|s| - 1].x - s[k].x, LateRatio(s, k), s[|s| - 1].y, Peak(s),
      Drops(s, TorqueFloor(s)), |s|)
  }

  function FeaturesOf(s: seq<Sample>): Features
    requires |s| >= MIN_CURVE
  {
    FeaturesAt(s, BestSplit(s))
  }

  // ------------------------------------------------------------------
  // The two analysers
  // ------------------------------------------------------------------

  datatype Bound = Infinite | Finite(value: real) {
    predicate Above(r: real) { Infinite? || r < value }
  }

  /** The torque analyser's sweep: every admissible split, earliest winner kept. */
  method SweepSplits(s: seq<Sample>, pre: PrefixSums) returns (bestK: nat)
    requires |s| >= MIN_CURVE && pre.Holds(s)
    ensures bestK == BestSplit(s)
  {
    hide FitOf, MomentsOf;
    var n := |s|;
    var bestSse := Infinite;
    bestK := MIN_SEGMENT;
    for k := MIN_SEGMENT to n - MIN_SEGMENT + 1
      invariant k == MIN_SEGMENT ==> bestSse == Infinite && bestK == MIN_SEGMENT
      invariant k > MIN_SEGMENT ==> bestK == BestSplitTo(s, k - 1) && bestSse == Finite(SplitCost(s, bestK))
    {
      var left := pre.FitSlice(0, k, s);
      var right := pre.FitSlice(k, n, s);
      if bestSse.Above(left.sse + right.sse) {
        bestSse, bestK := Finite(left.sse + right.sse), k;
      }
    }
  }

  /** Yield detection: has the loaded segment flattened? */
  method MeasureLateRatio(s: seq<Sample>, pre: PrefixSums, k: nat) returns (ratio: real)
    requires k <= |s| && pre.Holds(s)
    ensures ratio == LateRatio(s, k)
  {
    hide FitOf, MomentsOf;
    var n := |s| - k;
    ratio := 1.0;
    if n >= 2 * MIN_SEGMENT {
      var early := pre.FitSlice(k, k + n / 2, s);
      var late := pre.FitSlice(k + (3 * n) / 4, |s|, s);
      if Abs(early.slope) > EARLY_FLOOR {
        ratio := late.slope / early.slope;
      }
    }
  }

  method MeanBefore(s: seq<Sample>, pre: PrefixSums, k: nat) returns (mean: real)
    requires 0 < k <= |s| && pre.Holds(s)
    ensures mean == MeanTorque(s, k)
  {
    assert pre.At(k) == MomentsOf(s[..k]);
    mean := pre.sy[k] / k as real;
  }

  method ExtractFeatures(s: seq<Sample>) returns (f: Features)
    requires |s| >= MIN_CURVE
    ensures f == FeaturesOf(s)
    ensures Flattening(s, BestSplit(s), f.lateRatio)
  {
    hide FitOf, MomentsOf, BestSplit, LateRatio, MeanTorque, TotalSquares, Peak, Drops, RSquared, ValueAt, TorqueFloor,
      CheapestTo, Flattening;
    var n := |s|;
    var pre := new PrefixSums(s);
    var k := SweepSplits(s, pre);
    var rundown := pre.FitSlice(0, k, s);
    var elastic := pre.FitSlice(k, n, s);
    var sst := pre.TotalSumSquares(k, n, s);
    var rundownMean := MeanBefore(s, pre, k);
    var lateRatio := MeasureLateRatio(s, pre, k);
    assert s[k..n] == s[k..];
    var peak := Peak(s);
    f := Features(
      s[k].x, ValueAt(elastic, s[k].x), rundown.slope, rundownMean,
      elastic.slope, RSquared(elastic.sse, sst), elastic.ResidualVariance(), s[n - 1].x - s[k].x,
      lateRatio, s[n - 1].y, peak, Drops(s, TorqueFloor(s)), n);
    BestIsEarliestCheapest(s);
    FlatteningIsMeasured(s, k);
  }

  function PiecewiseAt(s: seq<Sample>, k: nat): Piecewise
    requires Admissible(s, k)
  {
    var before, after := SliceFit(s, 0, k), SliceFit(s, k, |s|);
    Piecewise(
      s[k].x, ValueAt(after, s[k].x), before.slope, after.slope, MeanTorque(s, k),
      after.ResidualVariance(), RSquared(after.sse, TotalSquares(MomentsOf(s[k..]))),
      s[|s| - 1].x - s[k].x, LateRatio(s, k))
  }

  /** No admissible split is cheaper, and every earlier one is dearer. */
  ghost predicate EarliestCheapest(s: seq<Sample>, k: nat) {
    Admissible(s, k) && CheapestTo(s, k, |s|)
  }

  ghost predicate CheapestTo(s: seq<Sample>, k: nat, hi: nat)
    requires Admissible(s, k)
  {
    forall j: nat :: j < hi && Admissible(s, j) ==>
      SplitCost(s, k) <= SplitCost(s, j) && (j < k ==> SplitCost(s, k) < SplitCost(s, j))
  }

  /** The generic extractor's own sweep. */
  method SweepSeries(s: seq<Sample>, pre: PrefixSums) returns (k: nat)
    requires |s| >= MIN_CURVE && pre.Holds(s)
    ensures EarliestCheapest(s, k)
  {
    hide FitOf, MomentsOf;
    var bestSse := Infinite;
    k := MIN_SEGMENT;
    for j := MIN_SEGMENT to |s| - MIN_SEGMENT + 1
      invariant Admissible(s, k)
      invariant j == MIN_SEGMENT ==> bestSse == Infinite && k == MIN_SEGMENT
      invariant j > MIN_SEGMENT ==> k < j && bestSse == Finite(SplitCost(s, k)) && CheapestTo(s, k, j)
    {
      var left := pre.FitSlice(0, j, s);
      var right := pre.FitSlice(j, |s|, s);
      assert left.sse + right.sse == SplitCost(s, j);
      if bestSse.Above(left.sse + right.sse) {
        bestSse, k := Finite(left.sse + right.sse), j;
      }
    }
  }

  /** The generic extractor, with a sweep and a flattening check of its own. */
  method PiecewiseLinear(s: seq<Sample>) returns (p: Piecewise)
    requires |s| >= MIN_CURVE
    ensures exists k :: EarliestCheapest(s, k) && p == PiecewiseAt(s, k) && Flattening(s, k, p.lateEarlyRatio)
  {
    hide FitOf, MomentsOf, TotalSquares, RSquared, ValueAt, CheapestTo, SplitCost, Flattening;
    var n := |s|;
    var pre := new PrefixSums(s);
    var k := SweepSeries(s, pre);
    var before := pre.FitSlice(0, k, s);
    var after := pre.FitSlice(k, n, s);
    var sst := pre.TotalSumSquares(k, n, s);
    assert s[k..n] == s[k..];

    var afterN, lateEarly := n - k, 1.0;
    if afterN >= 2 * MIN_SEGMENT {
      var early := pre.FitSlice(k, k + afterN / 2, s);
      var late := pre.FitSlice(k + (3 * afterN) / 4, n, s);
      if Abs(early.slope) > EARLY_FLOOR { lateEarly := late.slope / early.slope; }
    }
    assert lateEarly == LateRatio(s, k) && pre.At(k) == MomentsOf(s[..k]);
    p := Piecewise(
      s[k].x, ValueAt(after, s[k].x), before.slope, after.slope,
      pre.sy[k] / k as real, after.ResidualVariance(), RSquared(after.sse, sst), s[n - 1].x - s[k].x, lateEarly);
    assert p == PiecewiseAt(s, k);
    FlatteningIsMeasured(s, k);
  }

  // ------------------------------------------------------------------
  // The sweep is exact
  // ------------------------------------------------------------------

  /** The chosen split is the earliest of the cheapest admissible splits. */
  lemma {:induction false} BestSplitIsEarliestMinimum(s: seq<Sample>, hi: nat, k: nat)
    requires Admissible(s, hi) && MIN_SEGMENT <= k <= hi
    ensures SplitCost(s, BestSplitTo(s, hi)) <= SplitCost(s, k)
    ensures k < BestSplitTo(s, hi) ==> SplitCost(s, BestSplitTo(s, hi)) < SplitCost(s, k)
  {
    hide SplitCost;
    if hi == MIN_SEGMENT {
    } else {
      var best := BestSplitTo(s, hi - 1);
      if k < hi {
        BestSplitIsEarliestMinimum(s, hi - 1, k);
      } else {
        BestSplitIsEarliestMinimum(s, hi - 1, best);
      }
    }
  }

  /** True squared error of two lines either side of a split. */
  ghost function SplitResiduals(s: seq<Sample>, k: nat, before: Line, after: Line): real
    requires k <= |s|
  {
    Residuals(s[..k], before) + Residuals(s[k..], after)
  }

  ghost predicate AllResolved(s: seq<Sample>) {
    forall k: nat :: Admissible(s, k) ==> Resolved(s[..k]) && Resolved(s[k..])
  }

  /** On a resolved split the reported cost is the least squared error of any two lines. */
  lemma SplitCostIsLeast(s: seq<Sample>, k: nat, before: Line, after: Line)
    requires Admissible(s, k) && Resolved(s[..k]) && Resolved(s[k..])
    ensures SplitCost(s, k) <= SplitResiduals(s, k, before, after)
    ensures SplitCost(s, k) == SplitResiduals(s, k, LineOf(SliceFit(s, 0, k)), LineOf(SliceFit(s, k, |s|)))
  {
    hide FitOf, MomentsOf, Residuals, Resolved;
    assert s[0..k] == s[..k] && s[k..|s|] == s[k..];
    ResolvedIsLeastSquares(s[..k]);
    ResolvedIsLeastSquares(s[k..]);
    assert Residuals(s[..k], LineOf(SliceFit(s, 0, k))) <= Residuals(s[..k], before);
    assert Residuals(s[k..], LineOf(SliceFit(s, k, |s|))) <= Residuals(s[k..], after);
  }

  /** Global exactness: no admissible split with any two lines beats the chosen split with
    * its fitted lines, and every earlier split is strictly worse whatever lines it is given. */
  lemma SweepIsGloballyExact(s: seq<Sample>, k: nat, before: Line, after: Line)
    requires |s| >= MIN_CURVE && AllResolved(s) && Admissible(s, k)
    ensures
      var b := BestSplit(s);
      && SplitResiduals(s, b, LineOf(SliceFit(s, 0, b)), LineOf(SliceFit(s, b, |s|)))
         <= SplitResiduals(s, k, before, after)
      && (k < b ==> SplitResiduals(s, b, LineOf(SliceFit(s, 0, b)), LineOf(SliceFit(s, b, |s|)))
                    < SplitResiduals(s, k, before, after))
  {
    hide SplitCost, SplitResiduals, SliceFit, BestSplitTo;
    var b := BestSplit(s);
    BestSplitIsEarliestMinimum(s, |s| - MIN_SEGMENT, k);
    SplitCostIsLeast(s, k, before, after);
    SplitCostIsLeast(s, b, before, after);
  }

  // ------------------------------------------------------------------
  // A condition callers can check: the first and the last five angles spread
  // ------------------------------------------------------------------

  lemma SpreadGrows(m: Moments, p: Sample, spread: real)
    requires Shift(m, 1.0, -p.x) == spread
    ensures m.Add(p).Spread() == m.Spread() + spread
  {
    assert (m.n + 1) as real * (m.sxx + p.x * p.x)
        == m.n as real * m.sxx + m.n as real * (p.x * p.x) + m.sxx + p.x * p.x;
    assert (m.sx + p.x) * (m.sx + p.x) == m.sx * m.sx + 2.0 * p.x * m.sx + p.x * p.x;
  }

  lemma SpreadNeverShrinks(s: seq<Sample>, p: Sample)
    ensures MomentsOf(s).Add(p).Spread() >= MomentsOf(s).Spread()
  {
    hide Moments.Spread, Moments.Add, Shift;
    SpreadGrows(MomentsOf(s), p, Shift(MomentsOf(s), 1.0, -p.x));
    ShiftNonNegative(s, 1.0, -p.x);
  }

  /** Adding samples on the right never loses angular spread. */
  lemma {:induction false} PrefixSpread(s: seq<Sample>, lo: nat, k: nat)
    requires lo <= k <= |s|
    ensures MomentsOf(s[..k]).Spread() >= MomentsOf(s[..lo]).Spread()
  {
    if k == lo {
    } else {
      hide Moments.Spread, Moments.Add;
      PrefixSpread(s, lo, k - 1);
      assert s[..k][..k - 1] == s[..k - 1];
      SpreadNeverShrinks(s[..k - 1], s[k - 1]);
    }
  }

  lemma PrependMoments(s: seq<Sample>, k: nat)
    requires k < |s|
    ensures MomentsOf(s[k..]) == MomentsOf(s[k + 1..]).Add(s[k])
  {
    SliceIsDifference(s, k, |s|);
    SliceIsDifference(s, k + 1, |s|);
    assert s[k..|s|] == s[k..] && s[k + 1..|s|] == s[k + 1..] && s[..|s|] == s;
    assert s[..k + 1][..k] == s[..k] && s[..k + 1][k] == s[k];
    DropFirst(MomentsOf(s), MomentsOf(s[..k]), s[k]);
  }

  lemma DropFirst(all: Moments, before: Moments, p: Sample)
    requires before.n + 1 <= all.n
    ensures Minus(all, before) == Minus(all, before.Add(p)).Add(p)
  {
  }

  lemma {:induction false} SuffixSpread(s: seq<Sample>, k: nat)
    requires k + MIN_SEGMENT <= |s|
    ensures MomentsOf(s[k..]).Spread() >= MomentsOf(s[|s| - MIN_SEGMENT..]).Spread()
    decreases |s| - k
  {
    if k + MIN_SEGMENT == |s| {
    } else {
      hide Moments.Spread, Moments.Add;
      SuffixSpread(s, k + 1);
      PrependMoments(s, k);
      SpreadNeverShrinks(s[k + 1..], s[k]);
    }
  }

  /** If the first five and the last five samples have angular spread, every fit of the sweep is exact. */
  lemma EndsResolveAll(s: seq<Sample>)
    requires |s| >= MIN_CURVE
    requires MomentsOf(s[..MIN_SEGMENT]).Spread() >= FLAT
    requires MomentsOf(s[|s| - MIN_SEGMENT..]).Spread() >= FLAT
    ensures AllResolved(s)
  {
    hide Moments.Spread, MomentsOf;
    forall k: nat | Admissible(s, k) ensures Resolved(s[..k]) && Resolved(s[k..]) {
      PrefixSpread(s, MIN_SEGMENT, k);
      SuffixSpread(s, k);
    }
  }

  /** Four samples at the origin, then one 1e-7 further on and 1 Nm up. */
  predicate Steep(s: seq<Sample>) {
    |s| == 5 && (forall i :: 0 <= i < 4 ==> s[i] == Sample(0.0, 0.0)) && s[4] == Sample(0.0000001, 1.0)
  }

  lemma {:induction false} AtOrigin(s: seq<Sample>)
    requires forall i :: 0 <= i < |s| ==> s[i] == Sample(0.0, 0.0)
    ensures MomentsOf(s) == Moments(|s|, 0.0, 0.0, 0.0, 0.0, 0.0)
  {
    if s == [] {
    } else {
      AtOrigin(s[..|s| - 1]);
      assert s[|s| - 1] == Sample(0.0, 0.0);
    }
  }

  lemma UnfoldLast(s: seq<Sample>)
    requires s != []
    ensures MomentsOf(s) == MomentsOf(s[..|s| - 1]).Add(s[|s| - 1])
  {
  }

  /** Hardly any spread, and yet a covariance. */
  lemma SteepMoments(s: seq<Sample>)
    requires Steep(s)
    ensures 0.0 <= MomentsOf(s).Spread() < FLAT && MomentsOf(s).Covariance() > 0.0
  {
    hide MomentsOf;
    AtOrigin(s[..4]);
    UnfoldLast(s);
    assert MomentsOf(s) == Moments(5, 0.0000001, 1.0, 0.00000000000001, 0.0000001, 1.0);
  }

  /** What a segment needs for its fitted line to be its least-squares line. */
  ghost predicate Fittable(segment: seq<Sample>) {
    MomentsOf(segment).Spread() >= FLAT || MomentsOf(segment).Covariance() == 0.0
  }

  /** On every curve the two lines reported for the chosen split are the least-squares lines of their
    * segments exactly when those are fittable. */
  lemma SegmentsLeastSquaresIff(s: seq<Sample>)
    requires |s| >= MIN_CURVE
    ensures
      var k := BestSplit(s);
      && (IsLeastSquares(s[..k], LineOf(SliceFit(s, 0, k))) <==> Fittable(s[..k]))
      && (IsLeastSquares(s[k..], LineOf(SliceFit(s, k, |s|))) <==> Fittable(s[k..]))
  {
    hide FitOf, MomentsOf, IsLeastSquares, BestSplitTo, Moments.Spread, Moments.Covariance;
    var k := BestSplit(s);
    assert s[0..k] == s[..k] && s[k..|s|] == s[k..];
    FitLeastSquaresIff(s[..k]);
    FitLeastSquaresIff(s[k..]);
  }

  /** A ten-sample curve that starts so steeply, in angle order, is reported with a first segment that
    * is not the least-squares line of its samples. */
  lemma FlatFallbackCounterexample(s: seq<Sample>)
    requires |s| == 10 && Steep(s[..5]) && forall i :: 0 < i < 10 ==> s[i - 1].x <= s[i].x
    ensures BestSplit(s) == 5 && !IsLeastSquares(s[..5], LineOf(SliceFit(s, 0, 5)))
  {
    hide FitOf, MomentsOf, IsLeastSquares, SplitCost, Moments.Spread, Moments.Covariance;
    OnlySplit(s);
    SteepMoments(s[..5]);
    SegmentsLeastSquaresIff(s);
  }

  lemma OnlySplit(s: seq<Sample>)
    requires |s| == 10
    ensures BestSplit(s) == 5
  {
    hide SplitCost;
  }

  // ------------------------------------------------------------------
  // What the features measure, in terms of the samples
  // ------------------------------------------------------------------

  /** The slope of the least-squares line of a slice, or 0 where the angles hardly spread. */
  ghost predicate HasSlope(slice: seq<Sample>, slope: real) {
    if MomentsOf(slice).Spread() < FLAT then slope == 0.0
    else exists l: Line :: l.slope == slope && IsLeastSquares(slice, l)
  }

  /** How steep the samples from `k` on are: in their first half, and from three quarters on. */
  ghost predicate LoadedSlopes(s: seq<Sample>, k: nat, early: real, late: real)
    requires k <= |s|
  {
    var n := |s| - k;
    HasSlope(s[k..k + n / 2], early) && HasSlope(s[k + 3 * n / 4..], late)
  }

  /** `ratio` is late slope over early slope, where there are ten samples and the early slope is not
    * next to nothing. */
  ghost predicate Flattening(s: seq<Sample>, k: nat, ratio: real)
    requires k <= |s|
  {
    forall early: real, late: real :: LoadedSlopes(s, k, early, late) ==>
      if |s| - k >= 10 && Abs(early) > 0.000000001 then ratio * early == late else ratio == 1.0
  }

  /** Every slice has one such slope, and the fit returns it. */
  lemma FitHasSlope(slice: seq<Sample>, slope: real)
    ensures HasSlope(slice, slope) <==> FitOf(MomentsOf(slice)).slope == slope
  {
    hide IsLeastSquares, Moments.Covariance;
    MomentsCount(slice);
    SpreadNonNegative(slice);
    FitLeastSquaresIff(slice);
    if MomentsOf(slice).Spread() >= FLAT {
      if |slice| < 2 { SmallSpread(slice); }
      var fitted := LineOf(FitOf(MomentsOf(slice)));
      assert IsLeastSquares(slice, fitted);
      forall l: Line | IsLeastSquares(slice, l) ensures l == fitted { LeastLineIsFitted(slice, l); }
    }
  }

  lemma SmallSpread(slice: seq<Sample>)
    requires |slice| < 2
    ensures MomentsOf(slice).Spread() == 0.0
  {
    if slice != [] {
      assert MomentsOf(slice[..0]) == Moments(0, 0.0, 0.0, 0.0, 0.0, 0.0);
    }
  }

  /** On every curve both analysers report the ratio of the two least-squares slopes. */
  lemma FlatteningIsMeasured(s: seq<Sample>, k: nat)
    requires |s| >= MIN_CURVE && EarliestCheapest(s, k)
    ensures Flattening(s, k, FeaturesOf(s).lateRatio) && Flattening(s, k, PiecewiseAt(s, k).lateEarlyRatio)
  {
    hide LoadedSlopes, LateRatio, FitOf, MomentsOf, BestSplit, CheapestTo, MeanTorque, TotalSquares, RSquared,
      ValueAt, Peak, Drops, TorqueFloor;
    EarliestCheapestIsBest(s, k);
    forall early: real, late: real | LoadedSlopes(s, k, early, late)
      ensures if |s| - k >= 10 && Abs(early) > 0.000000001 then LateRatio(s, k) * early == late
              else LateRatio(s, k) == 1.0
    {
      RatioOfSlopes(s, k, early, late);
    }
  }

  lemma RatioOfSlopes(s: seq<Sample>, k: nat, early: real, late: real)
    requires k <= |s| && LoadedSlopes(s, k, early, late)
    ensures if |s| - k >= 10 && Abs(early) > 0.000000001 then LateRatio(s, k) * early == late
            else LateRatio(s, k) == 1.0
  {
    hide FitOf, MomentsOf, HasSlope;
    var n := |s| - k;
    var first, last := s[k..k + n / 2], s[k + 3 * n / 4..];
    assert s[k + 3 * n / 4..|s|] == last;
    FitHasSlope(first, early);
    FitHasSlope(last, late);
    if n >= 10 && Abs(early) > 0.000000001 { Quotient(late, early, LateRatio(s, k)); }
  }

  /** One line either side of the chosen split, and what is reported of them. */
  ghost predicate Segments(s: seq<Sample>, k: nat, before: Line, after: Line) {
    && EarliestCheapest(s, k)
    && MomentsOf(s[..k]).Spread() >= FLAT && MomentsOf(s[k..]).Spread() >= FLAT
    && IsLeastSquares(s[..k], before) && IsLeastSquares(s[k..], after)
  }

  /** Knee, slopes and scatter are those of the two least-squares lines at the cheapest split. */
  lemma SegmentsMeasured(s: seq<Sample>, k: nat, before: Line, after: Line)
    requires |s| >= MIN_CURVE && Segments(s, k, before, after)
    ensures
      var f := FeaturesOf(s);
      && f.kneeAngle == s[k].x && f.kneeTorque == after.slope * s[k].x + after.intercept
      && f.rundownSlope == before.slope && f.elasticSlope == after.slope
      && f.elasticVariance * (|s| - k - 2) as real == Residuals(s[k..], after)
  {
    hide FitOf, MomentsOf, IsLeastSquares, Residuals, BestSplit, CheapestTo, LateRatio, MeanTorque, TotalSquares,
      Peak, Drops, RSquared, TorqueFloor;
    EarliestCheapestIsBest(s, k);
    assert s[0..k] == s[..k] && s[k..|s|] == s[k..];
    LeastLineIsFitted(s[..k], before);
    LeastLineIsFitted(s[k..], after);
    FitResidual(s[k..]);
    FitCount(s[k..]);
    var f := SliceFit(s, k, |s|);
    Quotient(f.sse, (|s| - k - 2) as real, f.ResidualVariance());
  }

  lemma FitCount(s: seq<Sample>)
    ensures FitOf(MomentsOf(s)).n == |s|
  {
    MomentsCount(s);
  }

  /** Run-down torque is the mean before the split; R squared is the share of the variance about the
    * mean after it that the least-squares line explains. */
  lemma LevelsMeasured(s: seq<Sample>, k: nat, before: Line, after: Line, mean: real)
    requires |s| >= MIN_CURVE && Segments(s, k, before, after)
    requires mean * (|s| - k) as real == MomentsOf(s[k..]).sy
    ensures
      var f, total := FeaturesOf(s), Residuals(s[k..], Line(0.0, mean));
      && f.rundownTorque * k as real == MomentsOf(s[..k]).sy
      && if total > 0.000000000001 then (1.0 - f.elasticR2) * total == Residuals(s[k..], after)
         else f.elasticR2 == 1.0
  {
    hide FitOf, MomentsOf, IsLeastSquares, Residuals, BestSplit, CheapestTo, LateRatio, TotalSquares,
      Peak, Drops, TorqueFloor, ValueAt;
    EarliestCheapestIsBest(s, k);
    assert s[k..|s|] == s[k..];
    LeastLineIsFitted(s[k..], after);
    FitResidual(s[k..]);
    TotalMeasured(s[k..], mean);
    var total := TotalSquares(MomentsOf(s[k..]));
    if total > FLAT { Quotient(SliceFit(s, k, |s|).sse, total, SliceFit(s, k, |s|).sse / total); }
    Quotient(MomentsOf(s[..k]).sy, k as real, MeanTorque(s, k));
  }

  lemma TotalMeasured(s: seq<Sample>, mean: real)
    requires |s| >= 2 && mean * |s| as real == MomentsOf(s).sy
    ensures TotalSquares(MomentsOf(s)) == Residuals(s, Line(0.0, mean))
  {
    hide Expanded, TotalSquares;
    MomentsCount(s);
    TotalIsMeanResidual(MomentsOf(s));
    ResidualsExpand(s, Line(0.0, mean));
    QuotientIs(MomentsOf(s).sy, |s| as real, mean);
  }

  predicate Reverses(s: seq<Sample>, i: nat, floor: real)
    requires 0 < i < |s|
  {
    s[i - 1].y - s[i].y > floor
  }

  /** Span, final and peak torque, and reversals: drops of more than one per cent of the peak, 0.05 Nm at least. */
  lemma ReversalsMeasured(s: seq<Sample>, k: nat)
    requires |s| >= MIN_CURVE && EarliestCheapest(s, k)
    ensures
      var f := FeaturesOf(s);
      var floor := if 0.01 * f.peakTorque < 0.05 then 0.05 else 0.01 * f.peakTorque;
      && f.elasticSpan == s[|s| - 1].x - s[k].x && f.finalTorque == s[|s| - 1].y && f.sampleCount == |s|
      && (forall i :: 0 <= i < |s| ==> s[i].y <= f.peakTorque)
      && (exists i :: 0 <= i < |s| && s[i].y == f.peakTorque)
      && f.reversals == |set i | 0 < i < |s| && Reverses(s, i, floor)|
  {
    hide FitOf, MomentsOf, BestSplit, CheapestTo, LateRatio, MeanTorque, TotalSquares, RSquared, ValueAt, Peak, Drops;
    EarliestCheapestIsBest(s, k);
    DropsCounted(s, TorqueFloor(s));
  }

  /** The generic engine counts likewise, with one per cent of the largest size and 1e-6 as its floor. */
  lemma GenericReversalsMeasured(s: seq<Sample>, size: real)
    requires s != [] && (forall i :: 0 <= i < |s| ==> -size <= s[i].y <= size)
    requires exists i :: 0 <= i < |s| && Abs(s[i].y) == size
    ensures
      var floor := if 0.01 * size < 0.000001 then 0.000001 else 0.01 * size;
      StabilityReversals(s) == |set i | 0 < i < |s| && Reverses(s, i, floor)|
  {
    hide PeakSize, Drops, Reverses;
    PeakSizeIsPeak(s, size);
    var i :| 0 <= i < |s| && Abs(s[i].y) == size;
    assert Abs(s[i].y) <= PeakSize(s);
    DropsCounted(s, GenericFloor(s));
  }

  lemma {:induction false} DropsCounted(s: seq<Sample>, floor: real)
    ensures Drops(s, floor) == |set i | 0 < i < |s| && Reverses(s, i, floor)|
  {
    var all := set i | 0 < i < |s| && Reverses(s, i, floor);
    if |s| < 2 {
      assert all == {};
    } else {
      var k := |s| - 1;
      var front := set i | 0 < i < k && Reverses(s[..k], i, floor);
      DropsCounted(s[..k], floor);
      assert forall i :: 0 < i < k ==> (Reverses(s[..k], i, floor) <==> Reverses(s, i, floor));
      if Reverses(s, k, floor) {
        assert all == front + {k};
      } else {
        assert all == front;
      }
    }
  }

  // ------------------------------------------------------------------
  // Measured shape stays in range; the generic extractor agrees
  // ------------------------------------------------------------------

  lemma FeaturesInRange(s: seq<Sample>)
    requires |s| >= MIN_CURVE
    ensures 0.0 <= FeaturesOf(s).elasticR2 <= 1.0
    ensures FeaturesOf(s).elasticVariance >= 0.0
    ensures exists i :: MIN_SEGMENT <= i < |s| && FeaturesOf(s).kneeAngle == s[i].x
    ensures FeaturesOf(s).finalTorque <= FeaturesOf(s).peakTorque
  {
    hide FitOf, MomentsOf, TotalSquares, LateRatio, MeanTorque, Drops;
    var k := BestSplit(s);
    assert s[k..|s|] == s[k..];
    FitBeatsMean(s[k..]);
    UnitShare(SliceFit(s, k, |s|).sse, TotalSquares(MomentsOf(s[k..])));
    var f := SliceFit(s, k, |s|);
    if f.n > 2 { UnitShare(0.0, 1.0); NonNegativeQuotient(f.sse, (f.n - 2) as real); }
    assert FeaturesOf(s).kneeAngle == s[k].x;
  }

  lemma UnitShare(part: real, whole: real)
    requires 0.0 <= part <= whole
    ensures 0.0 <= RSquared(part, whole) <= 1.0
  {
    if whole > FLAT {
      var q := part / whole;
      Quotient(part, whole, q);
      if q > 1.0 { SignOfProduct(q - 1.0, whole, (q - 1.0) * whole); }
      if q < 0.0 { SignOfProduct(-q, whole, (-q) * whole); }
    }
  }

  lemma NonNegativeQuotient(a: real, b: real)
    requires a >= 0.0 && b > 0.0
    ensures a / b >= 0.0
  {
  }

  /** There is one earliest cheapest split, and it is the analyser's. */
  lemma EarliestCheapestIsBest(s: seq<Sample>, k: nat)
    requires |s| >= MIN_CURVE && EarliestCheapest(s, k)
    ensures k == BestSplit(s)
  {
    hide SplitCost, BestSplitTo;
    var best := BestSplit(s);
    BestSplitIsEarliestMinimum(s, |s| - MIN_SEGMENT, k);
    assert best < |s| && Admissible(s, best);
  }

  lemma BestIsEarliestCheapest(s: seq<Sample>)
    requires |s| >= MIN_CURVE
    ensures EarliestCheapest(s, BestSplit(s))
  {
    hide SplitCost, BestSplitTo;
    forall j: nat | Admissible(s, j)
      ensures SplitCost(s, BestSplit(s)) <= SplitCost(s, j)
      ensures j < BestSplit(s) ==> SplitCost(s, BestSplit(s)) < SplitCost(s, j)
    {
      BestSplitIsEarliestMinimum(s, |s| - MIN_SEGMENT, j);
    }
  }

  /** Both analysers on the same samples: two sweeps, two flattening checks, the same numbers. */
  method AnalyseBoth(s: seq<Sample>) returns (f: Features, p: Piecewise)
    requires |s| >= MIN_CURVE
    ensures f == FeaturesOf(s)
    ensures p.breakpointX == f.kneeAngle && p.breakpointY == f.kneeTorque
    ensures p.slopeBefore == f.rundownSlope && p.slopeAfter == f.elasticSlope
    ensures p.meanBefore == f.rundownTorque && p.residualVariance == f.elasticVariance
    ensures p.r2 == f.elasticR2 && p.spanAfter == f.elasticSpan && p.lateEarlyRatio == f.lateRatio
  {
    hide FitOf, MomentsOf, BestSplit, LateRatio, MeanTorque, TotalSquares, RSquared, ValueAt, Peak, Drops, CheapestTo;
    f := ExtractFeatures(s);
    p := PiecewiseLinear(s);
    ghost var k :| EarliestCheapest(s, k) && p == PiecewiseAt(s, k);
    EarliestCheapestIsBest(s, k);
  }

  /** Largest absolute value: the generic engine's scale for a reversal. */
  function PeakSize(s: seq<Sample>): (p: real)
    requires s != []
    ensures forall i :: 0 <= i < |s| ==> Abs(s[i].y) <= p
  {
    if |s| == 1 then Abs(s[0].y) else Max(PeakSize(s[..|s| - 1]), Abs(s[|s| - 1].y))
  }

  /** The generic engine's floor for a reversal. */
  function GenericFloor(s: seq<Sample>): real
    requires s != []
  {
    Max(0.01 * PeakSize(s), 0.000001)
  }

  /** `reversal_count` of the generic stability extractor. */
  function StabilityReversals(s: seq<Sample>): nat
    requires s != []
  {
    Drops(s, GenericFloor(s))
  }

  predicate Between(a: real, b: real, drop: real) {
    if a <= b then a < drop <= b else b < drop <= a
  }

  /** Two floors count the same drops exactly when no drop lies between them. */
  lemma {:induction false} DropsAgreeIff(s: seq<Sample>, lo: real, hi: real)
    requires lo <= hi
    ensures Drops(s, hi) <= Drops(s, lo)
    ensures Drops(s, lo) == Drops(s, hi)
            <==> forall i :: 0 < i < |s| ==> !(lo < s[i - 1].y - s[i].y <= hi)
  {
    if |s| < 2 {
    } else {
      var k := |s| - 1;
      DropsAgreeIff(s[..k], lo, hi);
      assert forall i :: 0 <= i < k ==> s[..k][i] == s[i];
      if Drops(s, lo) == Drops(s, hi) {
        forall i | 0 < i < |s| ensures !(lo < s[i - 1].y - s[i].y <= hi) {
          if i < k { assert !(lo < s[..k][i - 1].y - s[..k][i].y <= hi); }
        }
      } else if Drops(s[..k], lo) != Drops(s[..k], hi) {
        var i :| 0 < i < k && lo < s[..k][i - 1].y - s[..k][i].y <= hi;
        assert lo < s[i - 1].y - s[i].y <= hi;
      } else {
        assert lo < s[k - 1].y - s[k].y <= hi;
      }
    }
  }

  /** The two engines' reversal floors differ, so their counts agree exactly when no drop falls between them. */
  lemma ReversalsAgreeIff(s: seq<Sample>)
    requires |s| >= MIN_CURVE
    ensures FeaturesOf(s).reversals == StabilityReversals(s)
            <==> forall i :: 0 < i < |s| ==> !Between(TorqueFloor(s), GenericFloor(s), s[i - 1].y - s[i].y)
  {
    hide FitOf, MomentsOf, BestSplit, Drops, LateRatio, RSquared, MeanTorque, TotalSquares, ValueAt,
      Peak, PeakSize, TorqueFloor, GenericFloor;
    if TorqueFloor(s) <= GenericFloor(s) {
      DropsAgreeIff(s, TorqueFloor(s), GenericFloor(s));
    } else {
      DropsAgreeIff(s, GenericFloor(s), TorqueFloor(s));
    }
  }

  /** A nearly free spin with one 0.04 Nm drop: a reversal for one engine, noise for the other. */
  lemma ReversalsDisagree()
    ensures
      var s := seq(10, i => Sample(i as real, if i == 0 then 0.04 else 0.0));
      FeaturesOf(s).reversals != StabilityReversals(s)
  {
    var s := seq(10, i => Sample(i as real, if i == 0 then 0.04 else 0.0));
    assert TorqueFloor(s) == 0.05;
    PeakSizeIsPeak(s, 0.04);
    assert Between(TorqueFloor(s), GenericFloor(s), s[0].y - s[1].y);
    ReversalsAgreeIff(s);
  }

  /** Exactly when the two engines use one floor: the largest absolute torque is 5 Nm or more, and it is
    * the peak itself or 5 on the dot. */
  lemma FloorsAgreeIff(s: seq<Sample>)
    requires s != []
    ensures TorqueFloor(s) == GenericFloor(s)
            <==> PeakSize(s) >= 5.0 && (PeakSize(s) == Peak(s) || PeakSize(s) == 5.0)
  {
    hide Peak, PeakSize;
    var i :| 0 <= i < |s| && s[i].y == Peak(s);
    assert Abs(s[i].y) <= PeakSize(s);
  }

  /** So they do on a curve that peaks at 5 Nm or more and goes no further below zero. */
  lemma FloorsAgree(s: seq<Sample>)
    requires s != [] && Peak(s) >= 5.0
    requires forall i :: 0 <= i < |s| ==> s[i].y >= -Peak(s)
    ensures TorqueFloor(s) == GenericFloor(s)
  {
    hide Peak, PeakSize, TorqueFloor, GenericFloor;
    PeakSizeIsPeak(s, Peak(s));
    var i :| 0 <= i < |s| && s[i].y == Peak(s);
    assert Abs(s[i].y) <= PeakSize(s);
    FloorsAgreeIff(s);
  }

  lemma {:induction false} PeakSizeIsPeak(s: seq<Sample>, p: real)
    requires s != [] && forall i :: 0 <= i < |s| ==> -p <= s[i].y <= p
    ensures PeakSize(s) <= p
  {
    if |s| == 1 {
    } else {
      PeakSizeIsPeak(s[..|s| - 1], p);
    }
  }
}
