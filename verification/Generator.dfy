/** The synthetic torque curves: a level run-down, a knee, a rise to the target.
  *
  * `Emit` is the source's step-by-step integration. Random draws are an input
  * (`noise`), so that the noise-free curve is the one with `noise` zero.
  */
module Generator {
  import opened Reals
  import opened LeastSquares

  datatype Phases = Phases(
    knee: real, slope: real, target: real, rundown: real, seating: real, yieldRatio: real)

  datatype Result<T> = Success(value: T) | TorqueCurveError

  const STEP: real := 0.25
  const MIN_SAMPLES: nat := 10

  /** Python's `int()`: truncation toward zero. */
  function Truncate(r: real): int { if r >= 0.0 then r.Floor else -((-r).Floor) }

  function RundownCount(p: Phases): (n: nat)
    ensures n >= 6
  {
    var n := Truncate(p.knee * 4.0);
    if n > 6 then n else 6
  }

  function Rise(p: Phases): (r: real)
    ensures r > 0.0
  {
    Max(p.target - p.seating, 0.000001)
  }

  /** Load rate the runaway guard is sized for. */
  function GuardRate(p: Phases): (r: real)
    ensures r > 0.0
  {
    Max(p.slope * p.yieldRatio, 0.1)
  }

  /** The runaway guard, in degrees past the knee. */
  function MaxSpan(p: Phases): (m: real)
    ensures m * GuardRate(p) == 4.0 * Rise(p)
    ensures m > 0.0
  {
    var work, rate := 4.0 * Rise(p), GuardRate(p);
    var m := work / rate;
    Quotient(work, rate, m);
    PositiveFactor(m, rate, work);
    m
  }

  lemma PositiveFactor(a: real, b: real, q: real)
    requires a * b == q && b > 0.0 && q > 0.0
    ensures a > 0.0
  {
    if a < 0.0 { SignOfProduct(-a, b, -q); }
  }

  /** Share of the load already taken up. */
  function Progress(p: Phases, ideal: real): real { (ideal - p.seating) / Rise(p) }

  /** How far the plastic deformation has gone: 0 at half load, 1 at full load. */
  function Decay(progress: real): (d: real)
    ensures progress > 0.5 ==> 0.0 < d <= 1.0
  {
    Min((progress - 0.5) / 0.5, 1.0)
  }

  function Part(share: real, whole: real): real { share * whole }

  /** Share of the elastic slope still in force at torque `ideal`: past half load a
    * yielding fastener flattens towards its yield ratio. */
  function Kept(p: Phases, ideal: real): real {
    var progress := Progress(p, ideal);
    if p.yieldRatio < 1.0 && progress > 0.5 then
      1.0 - Part(Decay(progress), 1.0 - p.yieldRatio)
    else 1.0
  }

  function Effective(p: Phases, ideal: real): real { p.slope * Kept(p, ideal) }

  /** Degrees past the knee after j elastic steps. */
  function Span(j: nat): real { j as real * STEP }

  /** Torque after j elastic steps. */
  function IdealAfter(p: Phases, j: nat): real {
    if j == 0 then p.seating
    else IdealAfter(p, j - 1) + Effective(p, IdealAfter(p, j - 1)) * STEP
  }

  predicate Running(p: Phases, j: nat) {
    IdealAfter(p, j) < p.target && Span(j) < MaxSpan(p)
  }

  /** The elastic loop makes exactly `steps` rounds. */
  predicate Stops(p: Phases, steps: nat) {
    !Running(p, steps) && forall j: nat :: j < steps ==> Running(p, j)
  }

  function RundownSample(p: Phases, noise: nat -> real, i: nat): Sample {
    Sample(p.knee * i as real / RundownCount(p) as real, Max(p.rundown + noise(i), 0.0))
  }

  /** The j-th elastic sample; the seating sample (j = 0) is the one the code does not clamp. */
  function ElasticSample(p: Phases, noise: nat -> real, j: nat): Sample {
    var torque := IdealAfter(p, j) + noise(RundownCount(p) + j);
    Sample(p.knee + Span(j), if j == 0 then torque else Max(torque, 0.0))
  }

  function CurveOf(p: Phases, noise: nat -> real, steps: nat): (s: seq<Sample>)
    ensures |s| == RundownCount(p) + steps + 1
  {
    seq(RundownCount(p), i requires 0 <= i => RundownSample(p, noise, i))
    + seq(steps + 1, j requires 0 <= j => ElasticSample(p, noise, j))
  }

  /** What constructing a `TorqueAngleCurve` checks. */
  predicate CurveAccepted(s: seq<Sample>) {
    |s| >= MIN_SAMPLES && forall i :: 0 < i < |s| ==> s[i - 1].x <= s[i].x
  }

  /** The curve of a run that stops after `steps` rounds, or its refusal. */
  predicate EmittedAfter(p: Phases, noise: nat -> real, curve: Result<seq<Sample>>, steps: nat) {
    && Stops(p, steps)
    && curve == if CurveAccepted(CurveOf(p, noise, steps)) then Success(CurveOf(p, noise, steps)) else TorqueCurveError
  }

  method Emit(p: Phases, noise: nat -> real) returns (curve: Result<seq<Sample>>)
    ensures exists steps :: EmittedAfter(p, noise, curve, steps)
  {
    var samples: seq<Sample> := [];
    var count := RundownCount(p);
    for i := 0 to count
      invariant samples == seq(i, k requires 0 <= k => RundownSample(p, noise, k))
    {
      samples := samples + [RundownSample(p, noise, i)];
    }
    ghost var free := samples;

    var angle, ideal, draws := p.knee, p.seating, count;
    var maxSpan := MaxSpan(p);
    samples := samples + [Sample(angle, ideal + noise(draws))];
    ghost var steps := 0;
    while ideal < p.target && angle - p.knee < maxSpan
      invariant angle == p.knee + Span(steps)
      invariant ideal == IdealAfter(p, steps)
      invariant draws == count + steps
      invariant forall j: nat :: j < steps ==> Running(p, j)
      invariant samples == free + seq(steps + 1, j requires 0 <= j => ElasticSample(p, noise, j))
      decreases (4.0 * (maxSpan - (angle - p.knee))).Floor + 1
    {
      var effective := Effective(p, ideal);
      ideal := ideal + effective * STEP;
      angle := angle + STEP;
      draws := draws + 1;
      samples := samples + [Sample(angle, Max(ideal + noise(draws), 0.0))];
      steps := steps + 1;
    }
    assert samples == CurveOf(p, noise, steps);
    curve := if CurveAccepted(samples) then Success(samples) else TorqueCurveError;
    assert EmittedAfter(p, noise, curve, steps);
  }

  // ------------------------------------------------------------------
  // Where the loop stops
  // ------------------------------------------------------------------

  lemma Scale(a: real, b: real, c: real)
    requires a <= b && c >= 0.0
    ensures a * c <= b * c
  {
  }

  /** How a yielding fastener flattens, by the share of the load taken up: full slope up to half load, then
    * straight down to `yieldRatio` of it at full load, and no further. */
  lemma FlattensWithLoad(p: Phases, load: real, rise: real)
    requires rise == Max(p.target - p.seating, 0.000001)
    ensures
      var slope := Effective(p, p.seating + load * rise);
      && (p.yieldRatio >= 1.0 || load <= 0.5 ==> slope == p.slope)
      && (p.yieldRatio < 1.0 && 0.5 < load <= 1.0 ==>
            slope == p.slope * (1.0 - (2.0 * load - 1.0) * (1.0 - p.yieldRatio)))
      && (p.yieldRatio < 1.0 && load > 1.0 ==> slope == p.slope * p.yieldRatio)
  {
    var ideal := p.seating + load * rise;
    QuotientIs(load * rise, rise, load);
    KeptAt(p, ideal, load);
    EffectiveIs(p, ideal, Kept(p, ideal));
    hide Kept, Progress, Effective;
    if p.yieldRatio < 1.0 && 0.5 < load <= 1.0 {
      var kept := 1.0 - (2.0 * load - 1.0) * (1.0 - p.yieldRatio);
      assert Kept(p, ideal) == kept;
    }
  }

  lemma EffectiveIs(p: Phases, ideal: real, kept: real)
    requires kept == Kept(p, ideal)
    ensures Effective(p, ideal) == p.slope * kept
    ensures kept == 1.0 ==> Effective(p, ideal) == p.slope
  {
  }

  lemma KeptAt(p: Phases, ideal: real, load: real)
    requires Progress(p, ideal) == load
    ensures p.yieldRatio >= 1.0 || load <= 0.5 ==> Kept(p, ideal) == 1.0
    ensures p.yieldRatio < 1.0 && 0.5 < load <= 1.0 ==>
              Kept(p, ideal) == 1.0 - (2.0 * load - 1.0) * (1.0 - p.yieldRatio)
    ensures p.yieldRatio < 1.0 && load > 1.0 ==> Kept(p, ideal) == p.yieldRatio
  {
    hide Progress;
    assert load > 0.5 ==> Decay(load) == if load <= 1.0 then 2.0 * load - 1.0 else 1.0;
  }

  /** Four samples a degree: elastic samples lie a quarter of a degree apart; run-down samples, from 1.75
    * degrees of run-down on, lie evenly spaced at no less than that and at most a seventh more. A shorter
    * run-down has six samples. */
  lemma SampleSpacing(p: Phases, noise: nat -> real, i: nat)
    ensures ElasticSample(p, noise, i + 1).x - ElasticSample(p, noise, i).x == 0.25
    ensures p.knee >= 1.75 ==>
              var gap := RundownSample(p, noise, i + 1).x - RundownSample(p, noise, i).x;
              0.25 <= gap && 7.0 * gap <= 2.0
    ensures p.knee < 1.75 ==> 6.0 * (RundownSample(p, noise, i + 1).x - RundownSample(p, noise, i).x) == p.knee
  {
    var gap := p.knee / RundownCount(p) as real;
    if p.knee >= 1.75 { GapBounds(p, gap); } else { SixSamples(p, gap); }
    RundownAngle(p, noise, i, gap);
    RundownAngle(p, noise, i + 1, gap);
    Distance(gap, i);
    hide RundownSample, RundownCount;
  }

  lemma Distance(gap: real, i: nat)
    ensures gap * (i + 1) as real - gap * i as real == gap
  {
    assert gap * (i as real + 1.0) == gap * i as real + gap;
  }

  lemma RundownAngle(p: Phases, noise: nat -> real, i: nat, gap: real)
    requires gap == p.knee / RundownCount(p) as real
    ensures RundownSample(p, noise, i).x == gap * i as real
  {
    var n := RundownCount(p) as real;
    Quotient(p.knee, n, gap);
    Regroup(gap, i as real, n);
    QuotientIs(p.knee * i as real, n, gap * i as real);
  }

  lemma Regroup(a: real, b: real, c: real)
    ensures a * b * c == a * c * b
  {
  }

  lemma GapBounds(p: Phases, gap: real)
    requires p.knee >= 1.75 && gap == p.knee / RundownCount(p) as real
    ensures 0.25 <= gap && 7.0 * gap <= 2.0
  {
    var n := RundownCount(p) as real;
    Quotient(p.knee, n, gap);
    assert 7.0 <= n <= 4.0 * p.knee < n + 1.0;
    CancelFactor(0.25, gap, n);
    CancelFactor(7.0 * gap, 2.0, n);
  }

  lemma SixSamples(p: Phases, gap: real)
    requires p.knee < 1.75 && gap == p.knee / RundownCount(p) as real
    ensures 6.0 * gap == p.knee
  {
    assert RundownCount(p) == 6;
    Quotient(p.knee, 6.0, gap);
  }

  lemma CancelFactor(a: real, b: real, n: real)
    requires n > 0.0 && a * n <= b * n
    ensures a <= b
  {
    if a > b { SignOfProduct(a - b, n, a * n - b * n); }
  }

  lemma KeptBounds(p: Phases, ideal: real)
    requires p.yieldRatio > 0.0
    ensures Min(p.yieldRatio, 1.0) <= Kept(p, ideal) <= 1.0
  {
    hide Progress, Decay, Part;
    var progress := Progress(p, ideal);
    if p.yieldRatio < 1.0 && progress > 0.5 { PartBounds(Decay(progress), 1.0 - p.yieldRatio); }
  }

  lemma PartBounds(share: real, whole: real)
    requires 0.0 <= share <= 1.0 && whole >= 0.0
    ensures 0.0 <= Part(share, whole) <= whole
  {
    NonNegativeProduct(share, whole, Part(share, whole));
    NonNegativeProduct(1.0 - share, whole, whole - Part(share, whole));
  }

  /** Torque gained over j steps at a constant rate. */
  function Gain(rate: real, j: nat): real { rate * Span(j) }

  lemma GainStep(rate: real, j: nat)
    requires j > 0
    ensures Gain(rate, j) == Gain(rate, j - 1) + rate * STEP
  {
    assert Span(j) == Span(j - 1) + STEP;
  }

  lemma GainGrows(rate: real, i: nat, j: nat)
    requires rate > 0.0 && i <= j
    ensures Gain(rate, i) <= Gain(rate, j)
  {
    Scale(Span(i), Span(j), rate);
  }

  /** The slope in force never leaves [slope * min(yield, 1), slope]. */
  lemma EffectiveBounds(p: Phases, ideal: real)
    requires p.slope > 0.0 && p.yieldRatio > 0.0
    ensures p.slope * Min(p.yieldRatio, 1.0) <= Effective(p, ideal) <= p.slope
  {
    hide Kept;
    KeptBounds(p, ideal);
    Scale(Min(p.yieldRatio, 1.0), Kept(p, ideal), p.slope);
    Scale(Kept(p, ideal), 1.0, p.slope);
  }

  lemma {:induction false} IdealBounds(p: Phases, j: nat, least: real)
    requires p.slope > 0.0 && p.yieldRatio > 0.0 && least == p.slope * Min(p.yieldRatio, 1.0)
    ensures p.seating + Gain(least, j) <= IdealAfter(p, j) <= p.seating + Gain(p.slope, j)
    ensures j > 0 ==> IdealAfter(p, j) <= IdealAfter(p, j - 1) + p.slope * STEP
  {
    if j == 0 {
    } else {
      hide Gain, Effective;
      IdealBounds(p, j - 1, least);
      EffectiveBounds(p, IdealAfter(p, j - 1));
      GainStep(least, j);
      GainStep(p.slope, j);
    }
  }

  /** The least slope the run can fall to, four times over, outpaces the rate the guard is sized for. */
  predicate GuardIsAmple(p: Phases) {
    p.slope > 0.0 && p.yieldRatio > 0.0 && 4.0 * (p.slope * Min(p.yieldRatio, 1.0)) >= GuardRate(p)
  }

  /** With an ample guard the run ends on its torque target, within one sampling step, and never on
    * the guard. */
  lemma EndsOnTarget(p: Phases, steps: nat)
    requires Stops(p, steps) && GuardIsAmple(p) && p.target >= p.seating + 0.000001
    ensures steps > 0
    ensures p.target <= IdealAfter(p, steps) < p.target + p.slope / 4.0
  {
    hide MaxSpan, Effective, Gain, Span, GuardRate;
    IdealBounds(p, steps, p.slope * Min(p.yieldRatio, 1.0));
    if IdealAfter(p, steps) < p.target { GuardIsFar(p, steps); }
    assert Running(p, steps - 1);
  }

  /** What the generator's scenarios pass, ratios of at most one that leave 0.025 Nm per degree, and
    * ratios up to four that leave 0.1, are all ample. */
  lemma AmpleGuards(p: Phases)
    requires p.slope > 0.0 && p.yieldRatio > 0.0
    requires (p.yieldRatio <= 1.0 && p.slope * p.yieldRatio >= 0.025)
             || (p.yieldRatio <= 4.0 && p.slope * p.yieldRatio >= 0.1)
    ensures GuardIsAmple(p)
  {
    QuarterLoad(p.slope, p.yieldRatio, p.slope * p.yieldRatio, p.slope * Min(p.yieldRatio, 1.0));
  }

  /** By the time the guard would fire the torque target has been passed. */
  lemma GuardIsFar(p: Phases, steps: nat)
    requires GuardIsAmple(p) && p.target >= p.seating + 0.000001
    requires Span(steps) >= MaxSpan(p)
    ensures IdealAfter(p, steps) >= p.target
  {
    hide MaxSpan, IdealAfter, Gain;
    var least := p.slope * Min(p.yieldRatio, 1.0);
    IdealBounds(p, steps, least);
    GainFourfold(least, steps);
    FasterGainsMore(MaxSpan(p), GuardRate(p), 4.0 * Rise(p), 4.0 * least, steps);
  }

  lemma FasterGainsMore(span: real, rate: real, work: real, faster: real, j: nat)
    requires span * rate == work && rate > 0.0
    requires Span(j) >= span && faster >= rate
    ensures Gain(faster, j) >= work
  {
    Scale(span, Span(j), rate);
    Scale(rate, faster, Span(j));
  }

  lemma GainFourfold(rate: real, j: nat)
    ensures Gain(4.0 * rate, j) == 4.0 * Gain(rate, j)
  {
  }

  lemma QuarterLoad(slope: real, ratio: real, loaded: real, least: real)
    requires slope > 0.0 && 0.0 < ratio <= 4.0
    requires loaded == slope * ratio && least == slope * Min(ratio, 1.0)
    ensures loaded <= 4.0 * least
  {
    if ratio > 1.0 { Scale(ratio, 4.0, slope); }
    Scale(0.0, ratio, slope);
  }

  /** With no decay the torque after j steps is a straight line. */
  lemma {:induction false} StraightLoad(p: Phases, j: nat)
    requires p.yieldRatio >= 1.0
    ensures IdealAfter(p, j) == p.seating + Gain(p.slope, j)
  {
    if j == 0 {
    } else {
      hide Gain;
      StraightLoad(p, j - 1);
      GainStep(p.slope, j);
    }
  }

  /** At ratio 8, which `generate` never passes, the guard fires half way up. */
  lemma GuardCounterexample(p: Phases, steps: nat)
    requires p.slope == 1.0 && p.yieldRatio == 8.0 && p.seating == 0.0 && p.target == 1.0 && steps == 2
    ensures Stops(p, steps) && IdealAfter(p, steps) == 0.5
  {
    hide IdealAfter;
    assert MaxSpan(p) == 0.5;
    StraightLoad(p, steps);
    forall j: nat | j < steps ensures Running(p, j) { StraightLoad(p, j); }
  }

  /** At ratio 1 a slope of 0.001 is below the 0.1 the guard assumes, and it fires at 0.001 of 0.025. */
  lemma FlatCounterexample(p: Phases, steps: nat)
    requires p.slope == 0.001 && p.yieldRatio == 1.0 && p.seating == 0.0 && p.target == 0.025 && steps == 4
    ensures Stops(p, steps) && IdealAfter(p, steps) == 0.001
  {
    hide IdealAfter;
    assert MaxSpan(p) == 1.0;
    StraightLoad(p, steps);
    forall j: nat | j < steps ensures Running(p, j) { StraightLoad(p, j); }
  }

  // ------------------------------------------------------------------
  // Exactly when the run ends on its target
  // ------------------------------------------------------------------

  /** Rounds after which the guard stops the loop. */
  function GuardSteps(p: Phases): (n: nat)
    ensures n >= 1
    ensures Span(n) >= MaxSpan(p) && Span(n - 1) < MaxSpan(p)
  {
    Ceil(4.0 * MaxSpan(p))
  }

  lemma SpanGrows(i: nat, j: nat)
    ensures Span(i) <= Span(j) <==> i <= j
  {
  }

  /** Torque never falls as long as slope and yield ratio are not negative. */
  lemma {:induction false} TorqueRises(p: Phases, i: nat, j: nat)
    requires p.slope >= 0.0 && p.yieldRatio >= 0.0 && i <= j
    ensures IdealAfter(p, i) <= IdealAfter(p, j)
  {
    if i == j {
    } else {
      hide IdealAfter;
      TorqueRises(p, i, j - 1);
      RoundRises(p, j);
    }
  }

  lemma RoundRises(p: Phases, j: nat)
    requires p.slope >= 0.0 && p.yieldRatio >= 0.0 && j > 0
    ensures IdealAfter(p, j - 1) <= IdealAfter(p, j)
  {
    hide Kept;
    var kept := Kept(p, IdealAfter(p, j - 1));
    KeptNotNegative(p, IdealAfter(p, j - 1));
    NonNegativeProduct(p.slope, kept, Effective(p, IdealAfter(p, j - 1)));
  }

  lemma KeptNotNegative(p: Phases, ideal: real)
    requires p.yieldRatio >= 0.0
    ensures Kept(p, ideal) >= 0.0
  {
    hide Progress, Decay, Part;
    var progress := Progress(p, ideal);
    if p.yieldRatio < 1.0 && progress > 0.5 { PartBounds(Decay(progress), 1.0 - p.yieldRatio); }
  }

  /** For every knee, decay, slope and ratio: the run ends on its target if and only if the torque has
    * reached it by the last round the guard allows. */
  lemma EndsOnTargetIff(p: Phases, steps: nat)
    requires Stops(p, steps) && p.slope >= 0.0 && p.yieldRatio >= 0.0
    ensures IdealAfter(p, steps) >= p.target <==> IdealAfter(p, GuardSteps(p)) >= p.target
  {
    hide IdealAfter, MaxSpan, Span;
    var last := GuardSteps(p);
    SpanGrows(last, steps);
    assert last < steps ==> Running(p, last);
    TorqueRises(p, steps, if steps <= last then last else steps);
    if steps < last { SpanGrows(steps, last - 1); }
  }

  /** Without decay, in closed form: the rounds the rise takes are no more than the guard allows. */
  lemma StraightEndsOnTargetIff(p: Phases, steps: nat)
    requires p.yieldRatio >= 1.0 && p.slope > 0.0 && Stops(p, steps)
    ensures IdealAfter(p, steps) >= p.target
            <==> Ceil((p.target - p.seating) / (p.slope / 4.0)) <= Ceil(4.0 * MaxSpan(p))
  {
    hide IdealAfter, MaxSpan, Ceil, Gain;
    EndsOnTargetIff(p, steps);
    var last := GuardSteps(p);
    StraightLoad(p, last);
    RoundsNeeded(p.slope, p.target - p.seating, last);
  }

  lemma RoundsNeeded(slope: real, rise: real, n: nat)
    requires slope > 0.0
    ensures Gain(slope, n) >= rise <==> Ceil(rise / (slope / 4.0)) <= n
  {
    var rate := slope / 4.0;
    var rounds := rise / rate;
    Quotient(rise, rate, rounds);
    assert Gain(slope, n) == rate * n as real;
    var gap := n as real - rounds;
    assert gap * rate == rate * n as real - rise;
    if gap >= 0.0 { NonNegativeProduct(gap, rate, gap * rate); }
    if gap < 0.0 { SignOfProduct(-gap, rate, -(gap * rate)); }
  }

  // ------------------------------------------------------------------
  // Emitted angles
  // ------------------------------------------------------------------

  lemma Fraction(k: real, i: real, n: real, gap: real)
    requires n > 0.0 && gap * n == k
    ensures k * i / n == gap * i
  {
    var ki := k * i;
    var q := ki / n;
    Quotient(ki, n, q);
    assert (q - gap * i) * n == q * n - (gap * n) * i;
    if q != gap * i { NonZero(q - gap * i, n); }
  }

  /** Emitted angles increase strictly exactly for a positive knee, and are at least
    * non-decreasing (so that the curve is accepted) exactly for a non-negative one. */
  lemma AnglesIncreaseIff(p: Phases, noise: nat -> real, steps: nat)
    ensures
      var s := CurveOf(p, noise, steps);
      && ((forall i :: 0 < i < |s| ==> s[i - 1].x < s[i].x) <==> p.knee > 0.0)
      && ((forall i :: 0 < i < |s| ==> s[i - 1].x <= s[i].x) <==> p.knee >= 0.0)
  {
    hide RundownCount, CurveOf;
    var s, n := CurveOf(p, noise, steps), RundownCount(p);
    var gap := p.knee / n as real;
    SameSign(p.knee, n as real);
    forall i | 0 < i < |s| ensures s[i].x - s[i - 1].x == if i <= n then gap else STEP {
      CurveAngle(p, noise, steps, i, gap);
      CurveAngle(p, noise, steps, i - 1, gap);
      AngleStep(gap, n, i);
    }
    assert s[1].x - s[0].x == gap;
  }

  /** Angle of the i-th emitted sample. */
  function AngleAt(gap: real, n: nat, i: nat): real {
    if i <= n then gap * i as real else gap * n as real + Span(i - n)
  }

  lemma AngleStep(gap: real, n: nat, i: nat)
    requires i > 0
    ensures AngleAt(gap, n, i) - AngleAt(gap, n, i - 1) == if i <= n then gap else STEP
  {
  }

  lemma CurveAngle(p: Phases, noise: nat -> real, steps: nat, i: nat, gap: real)
    requires gap == p.knee / RundownCount(p) as real && i < RundownCount(p) + steps + 1
    ensures |CurveOf(p, noise, steps)| == RundownCount(p) + steps + 1
    ensures CurveOf(p, noise, steps)[i].x == AngleAt(gap, RundownCount(p), i)
  {
    hide RundownCount;
    Quotient(p.knee, RundownCount(p) as real, gap);
    Fraction(p.knee, i as real, RundownCount(p) as real, gap);
  }

  lemma SameSign(a: real, b: real)
    requires b > 0.0
    ensures a > 0.0 <==> a / b > 0.0
    ensures a >= 0.0 <==> a / b >= 0.0
  {
    var q := a / b;
    Quotient(a, b, q);
    if q > 0.0 { SignOfProduct(q, b, a); }
    if q < 0.0 { SignOfProduct(-q, b, -a); }
  }

  /** A curve is accepted exactly when the knee is not negative and there are ten samples. */
  lemma AcceptedIff(p: Phases, noise: nat -> real, steps: nat)
    ensures CurveAccepted(CurveOf(p, noise, steps))
            <==> p.knee >= 0.0 && RundownCount(p) + steps + 1 >= 10
  {
    AnglesIncreaseIff(p, noise, steps);
  }
}
