/** Learned tolerances, and how rarely the runs they were learned from break them. */
module Baselines {
  import opened Reals
  import opened LeastSquares
  import opened Signature
  import opened Scoring

  const FLATTENING: real := 0.60

  /** Too few runs are refused; a `minRuns` below two lets the code divide by zero. */
  datatype Learned = Learned(baseline: Baseline) | TooFewRuns | DivisionByZero

  function Sum(vs: seq<real>): real {
    if vs == [] then 0.0 else Sum(vs[..|vs| - 1]) + vs[|vs| - 1]
  }

  function Mean(vs: seq<real>): real
    requires vs != []
  {
    Sum(vs) / |vs| as real
  }

  function SquaredDeviations(vs: seq<real>, m: real): real {
    if vs == [] then 0.0
    else SquaredDeviations(vs[..|vs| - 1], m) + Square(vs[|vs| - 1] - m)
  }

  function SampleVariance(vs: seq<real>): real
    requires |vs| >= 2
  {
    SquaredDeviations(vs, Mean(vs)) / (|vs| - 1) as real
  }

  function Times(a: real, b: real): real { a * b }

  /** How far a feature may stray; the floors keep a repeatable process scoreable. */
  function Tolerance(sigma: real, sd: real, mean: real): real {
    Max(Max(Times(sigma, sd), Abs(mean) * 0.02), 0.000001)
  }

  /** The learned features, numbered as their rules are. */
  function Channel(f: Features, i: nat): real
    requires i < 5
  {
    [f.kneeAngle, f.elasticSlope, f.elasticVariance, f.reversals as real, f.rundownTorque][i]
  }

  function Column(fs: seq<Features>, i: nat): (vs: seq<real>)
    requires i < 5
    ensures |vs| == |fs| && forall k :: 0 <= k < |fs| ==> vs[k] == Channel(fs[k], i)
  {
    seq(|fs|, k requires 0 <= k < |fs| => Channel(fs[k], i))
  }

  function MeanOf(fs: seq<Features>, i: nat): real
    requires i < 5 && fs != []
  {
    Mean(Column(fs, i))
  }

  /** `root` is the square root the standard deviation is taken with. */
  function DeviationIn(fs: seq<Features>, i: nat, root: real -> real): real
    requires i < 5 && |fs| >= 2
  {
    root(SampleVariance(Column(fs, i)))
  }

  function Ceiling(fs: seq<Features>, i: nat, sigma: real, root: real -> real): real
    requires i < 5 && |fs| >= 2
  {
    MeanOf(fs, i) + Times(sigma, DeviationIn(fs, i, root))
  }

  function LearnedBaseline(fs: seq<Features>, specLo: real, specHi: real, sigma: real, root: real -> real): Baseline
    requires |fs| >= 2
  {
    Baseline(
      MeanOf(fs, 0), Tolerance(sigma, DeviationIn(fs, 0, root), MeanOf(fs, 0)),
      MeanOf(fs, 1), Tolerance(sigma, DeviationIn(fs, 1, root), MeanOf(fs, 1)),
      Ceiling(fs, 2, sigma, root), Ceiling(fs, 4, sigma, root), specLo, specHi, FLATTENING,
      Max(Ceiling(fs, 3, sigma, root), 1.0))
  }

  function FromCleanRuns(fs: seq<Features>, specLo: real, specHi: real, sigma: real, minRuns: int, root: real -> real)
    : (l: Learned)
    ensures l.Learned? <==> |fs| >= minRuns && |fs| >= 2
    ensures l.Learned? ==>
              && l.baseline.kneeTolerance > 0.0 && l.baseline.slopeTolerance > 0.0 && l.baseline.reversalsMax >= 1.0
              && l.baseline.specLo == specLo && l.baseline.specHi == specHi && l.baseline.flattening == 0.60
  {
    if |fs| < minRuns then TooFewRuns
    else if |fs| < 2 then DivisionByZero
    else Learned(LearnedBaseline(fs, specLo, specHi, sigma, root))
  }

  // ------------------------------------------------------------------
  // How many training runs a rule can flag
  // ------------------------------------------------------------------

  /** How many values are more than `width` from `m`. */
  function Outside(vs: seq<real>, m: real, width: real): nat {
    if vs == [] then 0
    else Outside(vs[..|vs| - 1], m, width) + if Abs(vs[|vs| - 1] - m) > width then 1 else 0
  }

  lemma SquareGrows(v: real, width: real)
    requires width >= 0.0 && Abs(v) > width
    ensures Square(v) > Times(width, width)
  {
    SignOfProduct(Abs(v) - width, Abs(v) + width, (Abs(v) - width) * (Abs(v) + width));
    assert Abs(v) * Abs(v) == v * v;
  }

  lemma CountMore(count: nat, square: real)
    ensures Times((count + 1) as real, square) == Times(count as real, square) + square
  {
  }

  lemma {:induction false} OutsideTimesSquare(vs: seq<real>, m: real, width: real)
    requires width >= 0.0
    ensures Times(Outside(vs, m, width) as real, Times(width, width)) <= SquaredDeviations(vs, m)
    ensures Outside(vs, m, width) > 0 ==>
              Times(Outside(vs, m, width) as real, Times(width, width)) < SquaredDeviations(vs, m)
  {
    if vs == [] {
      assert Outside(vs, m, width) == 0;
    } else {
      hide Square, Times;
      var k := |vs| - 1;
      OutsideTimesSquare(vs[..k], m, width);
      CountMore(Outside(vs[..k], m, width), Times(width, width));
      if Abs(vs[k] - m) > width { SquareGrows(vs[k] - m, width); }
    }
  }

  /** Chebyshev's inequality on the training values themselves, for the sample deviation `sd`. */
  lemma Chebyshev(vs: seq<real>, m: real, sd: real, sigma: real)
    requires |vs| >= 2 && sigma > 0.0 && sd >= 0.0
    requires SquaredDeviations(vs, m) == Times(Square(sd), (|vs| - 1) as real)
    ensures Times(Outside(vs, m, Times(sigma, sd)) as real, Square(sigma)) <= (|vs| - 1) as real
  {
    hide Times, Square, Outside, SquaredDeviations;
    var width := Times(sigma, sd);
    ScaledSquare(sigma, sd);
    OutsideTimesSquare(vs, m, width);
    if Outside(vs, m, width) > 0 {
      CancelSquare(Outside(vs, m, width) as real, Square(sigma), Square(sd), (|vs| - 1) as real);
    } else {
      NothingTimes(Square(sigma));
    }
  }

  lemma NothingTimes(s: real)
    ensures Times(0.0, s) == 0.0
  {
  }

  lemma ScaledSquare(a: real, b: real)
    ensures Times(Times(a, b), Times(a, b)) == Times(Square(a), Square(b))
    ensures Square(b) >= 0.0
    ensures a >= 0.0 && b >= 0.0 ==> Times(a, b) >= 0.0
  {
  }

  lemma CancelSquare(count: real, s: real, d: real, n: real)
    requires d >= 0.0 && Times(count, Times(s, d)) < Times(d, n)
    ensures Times(count, s) <= n
  {
    assert (n - count * s) * d == d * n - count * (s * d);
    var gap := n - count * s;
    if gap < 0.0 { NonNegativeProduct(-gap, d, -(gap * d)); }
  }

  /** `root` returns a square root of the sample variance of channel i. */
  ghost predicate RootOf(fs: seq<Features>, i: nat, root: real -> real)
    requires i < 5 && |fs| >= 2
  {
    DeviationIn(fs, i, root) >= 0.0
    && Square(DeviationIn(fs, i, root)) == SampleVariance(Column(fs, i))
  }

  /** How many runs break the i-th rule. */
  function Fired(fs: seq<Features>, b: Baseline, i: nat): nat
    requires i < 6
  {
    if fs == [] then 0
    else Fired(fs[..|fs| - 1], b, i) + if Breaks(fs[|fs| - 1], b, i) then 1 else 0
  }

  /** How many runs that did not flatten the verdict flags. */
  function Flagged(fs: seq<Features>, b: Baseline): nat {
    if fs == [] then 0
    else
      var f := fs[|fs| - 1];
      Flagged(fs[..|fs| - 1], b)
      + if f.lateRatio >= b.flattening && SignatureVerdictOf(f, b, THRESHOLD).anomalous then 1 else 0
  }

  /** Exactly when a run breaks a learned rule: a tolerance is the widest of sigma deviations, two per cent
    * of the mean and 1e-6, a ceiling is met twice over, and one reversal is never too many. */
  lemma LearnedRuleBreaksIff(fs: seq<Features>, specLo: real, specHi: real, sigma: real, root: real -> real,
                             f: Features, i: nat)
    requires i < 5 && |fs| >= 2
    ensures
      var m, width, v := MeanOf(fs, i), Times(sigma, DeviationIn(fs, i, root)), Channel(f, i);
      var broken := Breaks(f, LearnedBaseline(fs, specLo, specHi, sigma, root), i);
      match i
      case 0 => broken <==> v > m + width && v > m + 0.02 * Abs(m) && v > m + 0.000001
      case 1 => broken <==> v < m - width && v < m - 0.02 * Abs(m) && v < m - 0.000001
      case 3 => broken <==> v > 2.0 * (m + width) && v > 2.0
      case _ => broken <==> v > 2.0 * (m + width) && v > m + width + 0.000001
  {
    hide MeanOf, DeviationIn, Times;
  }

  lemma {:induction false} FiredOutside(fs: seq<Features>, part: seq<Features>, specLo: real, specHi: real, sigma: real,
                                        root: real -> real, i: nat)
    requires i < 5 && |fs| >= 2
    ensures Fired(part, LearnedBaseline(fs, specLo, specHi, sigma, root), i)
            <= Outside(Column(part, i), MeanOf(fs, i), Times(sigma, DeviationIn(fs, i, root)))
  {
    if part == [] {
    } else {
      hide MeanOf, DeviationIn, Breaks, LearnedBaseline, Channel, Times;
      var k := |part| - 1;
      FiredOutside(fs, part[..k], specLo, specHi, sigma, root, i);
      assert Column(part, i)[..k] == Column(part[..k], i);
      LearnedRuleBreaksIff(fs, specLo, specHi, sigma, root, part[k], i);
    }
  }

  lemma RuleBudget(fs: seq<Features>, specLo: real, specHi: real, sigma: real, root: real -> real, i: nat)
    requires i < 5 && |fs| >= 2 && sigma > 0.0 && RootOf(fs, i, root)
    ensures Times(Fired(fs, LearnedBaseline(fs, specLo, specHi, sigma, root), i) as real, Square(sigma))
            <= (|fs| - 1) as real
  {
    hide LearnedBaseline, Square, SquaredDeviations, Fired, Outside, Times, Mean, SampleVariance;
    var vs, sd := Column(fs, i), DeviationIn(fs, i, root);
    VarianceTimes(vs, sd);
    FiredOutside(fs, fs, specLo, specHi, sigma, root, i);
    Chebyshev(vs, Mean(vs), sd, sigma);
    SquareScales(Fired(fs, LearnedBaseline(fs, specLo, specHi, sigma, root), i),
                 Outside(vs, Mean(vs), Times(sigma, sd)), sigma);
  }

  /** Any one learned rule flags at most (n - 1) / sigma^2 of its own n training runs, whatever
    * their distribution: fewer than one in nine at the default three sigma. */
  lemma RuleFiresRarely(fs: seq<Features>, specLo: real, specHi: real, sigma: real, root: real -> real, i: nat)
    requires i < 5 && |fs| >= 2 && sigma > 0.0 && RootOf(fs, i, root)
    ensures Fired(fs, LearnedBaseline(fs, specLo, specHi, sigma, root), i) as real * Square(sigma)
            <= (|fs| - 1) as real
  {
    hide LearnedBaseline, Square, Fired, Times, RootOf;
    RuleBudget(fs, specLo, specHi, sigma, root, i);
    TimesIs(Fired(fs, LearnedBaseline(fs, specLo, specHi, sigma, root), i) as real, Square(sigma));
  }

  lemma TimesIs(a: real, b: real)
    ensures Times(a, b) == a * b
  {
  }

  lemma VarianceTimes(vs: seq<real>, sd: real)
    requires |vs| >= 2 && Square(sd) == SampleVariance(vs)
    ensures SquaredDeviations(vs, Mean(vs)) == Times(Square(sd), (|vs| - 1) as real)
  {
    hide Square, SquaredDeviations, Mean;
    Quotient(SquaredDeviations(vs, Mean(vs)), (|vs| - 1) as real, SampleVariance(vs));
  }

  lemma SquareScales(a: nat, b: nat, sigma: real)
    requires a <= b
    ensures Times(a as real, Square(sigma)) <= Times(b as real, Square(sigma))
  {
    NonNegativeProduct((b - a) as real, Square(sigma), (b - a) as real * Square(sigma));
  }

  // ------------------------------------------------------------------
  // How many training runs the verdict can flag
  // ------------------------------------------------------------------

  function Count(fired: bool): nat { if fired then 1 else 0 }

  /** How many of the six rules one run breaks. */
  function RulesBroken(f: Features, b: Baseline): nat {
    Count(Breaks(f, b, 0)) + Count(Breaks(f, b, 1)) + Count(Breaks(f, b, 2)) + Count(Breaks(f, b, 3))
    + Count(Breaks(f, b, 4)) + Count(Breaks(f, b, 5))
  }

  /** A flagged run that did not flatten broke at least two rules. */
  lemma FlaggedBreaksTwo(f: Features, b: Baseline)
    requires f.lateRatio >= b.flattening && SignatureVerdictOf(f, b, THRESHOLD).anomalous
    ensures RulesBroken(f, b) >= 2 && !Breaks(f, b, 5)
  {
    hide SignatureScore, Breaks;
    SignatureScoreRange(f, b);
    FlatteningRule(f, b);
    var i: nat :| i < 6 && Breaks(f, b, i);
    if forall j: nat :: j < 6 && j != i ==> !Breaks(f, b, j) { LoneDeviationIff(f, b, i); }
  }

  lemma FlatteningRule(f: Features, b: Baseline)
    ensures Breaks(f, b, 5) <==> f.lateRatio < b.flattening
  {
  }

  function TotalFired(fs: seq<Features>, b: Baseline): nat {
    Fired(fs, b, 0) + Fired(fs, b, 1) + Fired(fs, b, 2) + Fired(fs, b, 3) + Fired(fs, b, 4)
  }

  lemma TotalFiredSnoc(fs: seq<Features>, b: Baseline)
    requires fs != []
    ensures TotalFired(fs, b) >= TotalFired(fs[..|fs| - 1], b)
    ensures !Breaks(fs[|fs| - 1], b, 5) ==>
              TotalFired(fs, b) == TotalFired(fs[..|fs| - 1], b) + RulesBroken(fs[|fs| - 1], b)
  {
    hide Breaks;
  }

  lemma {:induction false} FlaggedCounted(fs: seq<Features>, b: Baseline)
    ensures 2 * Flagged(fs, b) <= TotalFired(fs, b)
  {
    if fs == [] {
    } else {
      hide TotalFired, RulesBroken, Breaks, SignatureScore;
      var k := |fs| - 1;
      FlaggedCounted(fs[..k], b);
      TotalFiredSnoc(fs, b);
      if fs[k].lateRatio >= b.flattening && SignatureVerdictOf(fs[k], b, THRESHOLD).anomalous {
        FlaggedBreaksTwo(fs[k], b);
      }
    }
  }

  /** The false-positive budget on the training runs: because one deviation is never enough, and
    * each rule is bounded, at most 2.5 (n - 1) / sigma^2 runs that did not flatten are
    * flagged, whatever the others did. */
  lemma TrainingRunsRarelyFlagged(fs: seq<Features>, specLo: real, specHi: real, sigma: real, root: real -> real)
    requires |fs| >= 2 && sigma > 0.0 && forall i: nat :: i < 5 ==> RootOf(fs, i, root)
    ensures Flagged(fs, LearnedBaseline(fs, specLo, specHi, sigma, root)) as real * Square(sigma)
            <= 2.5 * (|fs| - 1) as real
  {
    hide Fired, Flagged, LearnedBaseline, Square, RootOf, Times;
    var b := LearnedBaseline(fs, specLo, specHi, sigma, root);
    FlaggedCounted(fs, b);
    RuleBudget(fs, specLo, specHi, sigma, root, 0);
    RuleBudget(fs, specLo, specHi, sigma, root, 1);
    RuleBudget(fs, specLo, specHi, sigma, root, 2);
    RuleBudget(fs, specLo, specHi, sigma, root, 3);
    RuleBudget(fs, specLo, specHi, sigma, root, 4);
    AddBudgets(Fired(fs, b, 0), Fired(fs, b, 1), Fired(fs, b, 2), Fired(fs, b, 3), Fired(fs, b, 4),
               Flagged(fs, b), Square(sigma), (|fs| - 1) as real);
  }

  lemma AddBudgets(a: nat, b: nat, c: nat, d: nat, e: nat, flagged: nat, s: real, n: real)
    requires Times(a as real, s) <= n && Times(b as real, s) <= n && Times(c as real, s) <= n
    requires Times(d as real, s) <= n && Times(e as real, s) <= n
    requires 2 * flagged <= a + b + c + d + e && s >= 0.0
    ensures flagged as real * s <= 2.5 * n
  {
    var slack := (a + b + c + d + e - 2 * flagged) as real;
    NonNegativeProduct(slack, s, slack * s);
  }
}
