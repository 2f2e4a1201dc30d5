/** Weighted noisy-OR scoring of measured deviations: the torque-specific scorer
  * (`ScoreSignature`) and the generic rule engine (`ScoreFeatures`).
  */
module Scoring {
  import opened Reals
  import opened Signature
  import opened Wrappers

  const SATURATION: real := 1.5
  const THRESHOLD: real := 0.45

  datatype Deviation = Deviation(feature: string, observed: real, expected: real, units: real, weight: real)

  datatype Baseline = Baseline(
    kneeAngle: real, kneeTolerance: real, elasticSlope: real, slopeTolerance: real,
    varianceMax: real, rundownMax: real, specLo: real, specHi: real, flattening: real, reversalsMax: real)

  datatype Severity = Critical | Major | Minor

  datatype SignatureVerdict = SignatureVerdict(
    features: Features, score: real, deviations: seq<Deviation>, inSpec: bool, anomalous: bool)
  {
    predicate FusionOnly() { inSpec && anomalous }

    function Severity(): Severity {
      if !anomalous then Minor else if score >= 0.60 then Critical else Major
    }
  }

  // ------------------------------------------------------------------
  // One deviation
  // ------------------------------------------------------------------

  /** Recorded only beyond tolerance, on a side that counts. */
  function DeviationOf(feature: string, observed: real, expected: real, tolerance: real, weight: real,
                       direction: int): Option<Deviation>
  {
    var delta := observed - expected;
    if tolerance <= 0.0 then None
    else if direction > 0 && delta <= 0.0 then None
    else if direction < 0 && delta >= 0.0 then None
    else if Abs(delta) / tolerance <= 1.0 then None
    else Some(Deviation(feature, observed, expected, Abs(delta) / tolerance, weight))
  }

  function Strength(units: real): real { Min((units - 1.0) / SATURATION, 1.0) }

  /** What one deviation multiplies the complement by. */
  function Factor(d: Deviation): real { 1.0 - d.weight * Strength(d.units) }

  function OptFactor(o: Option<Deviation>): real { if o.None? then 1.0 else Factor(o.value) }

  function Present(os: seq<Option<Deviation>>): seq<Deviation> {
    if os == [] then []
    else Present(os[..|os| - 1]) + (if os[|os| - 1].Some? then [os[|os| - 1].value] else [])
  }

  function Product<T>(xs: seq<T>, f: T -> real): real {
    if xs == [] then 1.0 else Product(xs[..|xs| - 1], f) * f(xs[|xs| - 1])
  }

  function NoisyOr(ds: seq<Deviation>): real { 1.0 - Product(ds, Factor) }

  function Prominence(d: Deviation): real { d.weight * d.units }

  /** Insert behind everything at least as prominent. */
  function InsertShown(shown: seq<Deviation>, d: Deviation): (s: seq<Deviation>)
    ensures multiset(s) == multiset(shown) + multiset{d}
  {
    if shown == [] || Prominence(shown[|shown| - 1]) >= Prominence(d) then shown + [d]
    else
      assert shown == shown[..|shown| - 1] + [shown[|shown| - 1]];
      InsertShown(shown[..|shown| - 1], d) + [shown[|shown| - 1]]
  }

  /** The order a verdict lists its deviations in: most prominent first, ties as recorded. */
  function Shown(ds: seq<Deviation>): (s: seq<Deviation>)
    ensures multiset(s) == multiset(ds)
  {
    if ds == [] then []
    else
      assert ds == ds[..|ds| - 1] + [ds[|ds| - 1]];
      InsertShown(Shown(ds[..|ds| - 1]), ds[|ds| - 1])
  }

  // ------------------------------------------------------------------
  // The torque-specific scorer
  // ------------------------------------------------------------------

  function YieldDeviation(f: Features, b: Baseline): Option<Deviation> {
    if f.lateRatio < b.flattening then
      Some(Deviation("late_to_early_slope_ratio", f.lateRatio, b.flattening,
                     1.0 + (b.flattening - f.lateRatio) / Max(b.flattening, 0.000001), 0.45))
    else None
  }

  /** The six rules in the order the scorer applies them. */
  function SignatureRules(f: Features, b: Baseline): (os: seq<Option<Deviation>>)
    ensures |os| == 6
  {
    [ DeviationOf("knee_angle_deg", f.kneeAngle, b.kneeAngle, b.kneeTolerance, 0.35, 1),
      DeviationOf("elastic_slope_nm_per_deg", f.elasticSlope, b.elasticSlope, b.slopeTolerance, 0.40, -1),
      DeviationOf("elastic_residual_variance", f.elasticVariance, b.varianceMax,
                  Max(b.varianceMax, 0.000001), 0.25, 1),
      DeviationOf("reversal_count", f.reversals as real, b.reversalsMax, Max(b.reversalsMax, 1.0), 0.20, 1),
      DeviationOf("rundown_torque_mean_nm", f.rundownTorque, b.rundownMax,
                  Max(b.rundownMax, 0.000001), 0.30, 1),
      YieldDeviation(f, b) ]
  }

  function SignatureScore(f: Features, b: Baseline): real { NoisyOr(Present(SignatureRules(f, b))) }

  function SignatureVerdictOf(f: Features, b: Baseline, threshold: real): SignatureVerdict {
    SignatureVerdict(f, SignatureScore(f, b), Shown(Present(SignatureRules(f, b))),
                     b.specLo <= f.finalTorque <= b.specHi, SignatureScore(f, b) >= threshold)
  }

  method Combine(deviations: seq<Deviation>) returns (score: real)
    ensures score == NoisyOr(deviations)
  {
    hide Factor;
    var complement := 1.0;
    for i := 0 to |deviations|
      invariant complement == Product(deviations[..i], Factor)
    {
      complement := complement * Factor(deviations[i]);
      assert deviations[..i + 1][..i] == deviations[..i];
    }
    assert deviations[..|deviations|] == deviations;
    score := 1.0 - complement;
  }

  method ScoreSignature(f: Features, b: Baseline, threshold: real) returns (v: SignatureVerdict)
    ensures v == SignatureVerdictOf(f, b, threshold)
    ensures v.score == 1.0 - Product(Excesses(f, b), Spared)
  {
    hide DeviationOf, YieldDeviation, NoisyOr, Excesses, Spared;
    var rules := SignatureRules(f, b);
    var deviations: seq<Deviation> := [];
    for i := 0 to 6
      invariant deviations == Present(rules[..i])
    {
      assert rules[..i + 1][..i] == rules[..i];
      if rules[i].Some? { deviations := deviations + [rules[i].value]; }
    }
    assert rules[..6] == rules;
    var score := Combine(deviations);
    v := SignatureVerdict(f, score, Shown(deviations), b.specLo <= f.finalTorque <= b.specHi, score >= threshold);
    ScoreFromExcesses(f, b);
  }

  // ------------------------------------------------------------------
  // The generic rule engine
  // ------------------------------------------------------------------

  datatype DeviationRule = DeviationRule(feature: string, weight: real, direction: int)

  datatype FeatureBaseline = FeatureBaseline(means: map<string, real>, tolerances: map<string, real>)

  datatype SpecLimit = SpecLimit(feature: string, lo: Option<real>, hi: Option<real>) {
    /** A missing feature never satisfies a limit. */
    predicate SatisfiedBy(features: map<string, real>) {
      && feature in features
      && (lo.Some? ==> features[feature] >= lo.value)
      && (hi.Some? ==> features[feature] <= hi.value)
    }
  }

  datatype AnomalyResult = AnomalyResult(score: real, deviations: seq<Deviation>, inSpec: bool, anomalous: bool)

  function RuleDeviation(rule: DeviationRule, features: map<string, real>, b: FeatureBaseline): Option<Deviation> {
    if rule.feature in features && rule.feature in b.means && rule.feature in b.tolerances then
      DeviationOf(rule.feature, features[rule.feature], b.means[rule.feature], b.tolerances[rule.feature],
                  rule.weight, rule.direction)
    else None
  }

  function RuleDeviations(rules: seq<DeviationRule>, features: map<string, real>, b: FeatureBaseline)
    : (os: seq<Option<Deviation>>)
    ensures |os| == |rules|
  {
    seq(|rules|, i requires 0 <= i < |rules| => RuleDeviation(rules[i], features, b))
  }

  function RuleScore(rules: seq<DeviationRule>, features: map<string, real>, b: FeatureBaseline): real {
    NoisyOr(Present(RuleDeviations(rules, features, b)))
  }

  method ScoreFeatures(features: map<string, real>, b: FeatureBaseline, rules: seq<DeviationRule>,
                       limits: seq<SpecLimit>, threshold: real) returns (r: AnomalyResult)
    ensures r.score == RuleScore(rules, features, b)
    ensures r.deviations == Shown(Present(RuleDeviations(rules, features, b)))
    ensures r.inSpec <==> forall l :: l in limits ==> l.SatisfiedBy(features)
    ensures r.anomalous <==> r.score >= threshold
  {
    hide RuleDeviation, NoisyOr;
    ghost var os := RuleDeviations(rules, features, b);
    var deviations: seq<Deviation> := [];
    for i := 0 to |rules|
      invariant deviations == Present(os[..i])
    {
      var d := RuleDeviation(rules[i], features, b);
      assert os[..i + 1][..i] == os[..i];
      if d.Some? { deviations := deviations + [d.value]; }
    }
    assert os[..|rules|] == os;
    var score := Combine(deviations);
    r := AnomalyResult(score, Shown(deviations), forall l | l in limits :: l.SatisfiedBy(features), score >= threshold);
  }

  // ------------------------------------------------------------------
  // Products of factors
  // ------------------------------------------------------------------

  lemma {:induction false} ProductAppend<T>(xs: seq<T>, ys: seq<T>, f: T -> real)
    ensures Product(xs + ys, f) == Product(xs, f) * Product(ys, f)
  {
    if ys == [] {
      assert xs + ys == xs;
    } else {
      var k := |ys| - 1;
      assert (xs + ys)[..|xs| + k] == xs + ys[..k];
      ProductAppend(xs, ys[..k], f);
      assert Product(xs + ys, f) == Product(xs + ys[..k], f) * f(ys[k]);
      Associate(Product(xs, f), Product(ys[..k], f), f(ys[k]));
    }
  }

  lemma Associate(a: real, b: real, c: real)
    ensures a * b * c == a * (b * c)
    ensures a * b * c == a * c * b
  {
  }

  lemma ProductOne<T>(x: T, f: T -> real)
    ensures Product([x], f) == f(x)
  {
    assert [x][..0] == [];
  }

  lemma ProductLast<T>(xs: seq<T>, f: T -> real)
    requires xs != []
    ensures Product(xs, f) == Product(xs[..|xs| - 1], f) * f(xs[|xs| - 1])
  {
  }

  /** Taking one element out divides the product by its factor. */
  lemma ProductWithout<T>(xs: seq<T>, j: nat, f: T -> real)
    requires j < |xs|
    ensures Product(xs, f) == Product(xs[..j] + xs[j + 1..], f) * f(xs[j])
  {
    hide Product;
    assert xs == xs[..j] + ([xs[j]] + xs[j + 1..]);
    ProductAppend(xs[..j], [xs[j]] + xs[j + 1..], f);
    ProductAppend([xs[j]], xs[j + 1..], f);
    ProductOne(xs[j], f);
    ProductAppend(xs[..j], xs[j + 1..], f);
    Associate(Product(xs[..j], f), f(xs[j]), Product(xs[j + 1..], f));
  }

  /** The last element of a permutation sits somewhere in the other sequence. */
  lemma FindLast<T>(xs: seq<T>, ys: seq<T>) returns (j: nat)
    requires xs != [] && multiset(xs) == multiset(ys)
    ensures j < |ys| && ys[j] == xs[|xs| - 1]
    ensures multiset(ys[..j] + ys[j + 1..]) == multiset(xs[..|xs| - 1])
  {
    var k := |xs| - 1;
    assert xs == xs[..k] + [xs[k]];
    assert xs[k] in multiset(ys);
    j :| 0 <= j < |ys| && ys[j] == xs[k];
    var rest := multiset(ys[..j]) + multiset(ys[j + 1..]);
    assert ys == ys[..j] + [ys[j]] + ys[j + 1..];
    assert multiset(ys) == rest + multiset{ys[j]};
    assert multiset(xs) == multiset(xs[..k]) + multiset{xs[k]};
    assert multiset(xs) - multiset{xs[k]} == rest;
  }

  lemma {:induction false} ProductPermutes<T>(xs: seq<T>, ys: seq<T>, f: T -> real)
    requires multiset(xs) == multiset(ys)
    ensures Product(xs, f) == Product(ys, f)
  {
    if xs == [] {
      assert |multiset(ys)| == 0;
    } else {
      hide Product;
      var k := |xs| - 1;
      var j := FindLast(xs, ys);
      ProductLast(xs, f);
      ProductPermutes(xs[..k], ys[..j] + ys[j + 1..], f);
      ProductWithout(ys, j, f);
    }
  }

  lemma UnitProduct(a: real, b: real, q: real)
    requires q == a * b && 0.0 <= a <= 1.0 && 0.0 <= b <= 1.0
    ensures 0.0 <= q <= a && q <= b
    ensures q == 1.0 <==> a == 1.0 && b == 1.0
  {
    NonNegativeProduct(a, b, q);
    NonNegativeProduct(a, 1.0 - b, a - q);
    NonNegativeProduct(1.0 - a, b, b - q);
  }

  lemma {:induction false} ProductInUnit<T>(xs: seq<T>, f: T -> real)
    requires forall x :: x in xs ==> 0.0 <= f(x) <= 1.0
    ensures 0.0 <= Product(xs, f) <= 1.0
    ensures forall x :: x in xs ==> Product(xs, f) <= f(x)
    ensures Product(xs, f) == 1.0 <==> forall x :: x in xs ==> f(x) == 1.0
  {
    if xs == [] {
    } else {
      var k := |xs| - 1;
      assert xs == xs[..k] + [xs[k]];
      ProductInUnit(xs[..k], f);
      UnitProduct(Product(xs[..k], f), f(xs[k]), Product(xs, f));
      forall x | x in xs ensures Product(xs, f) <= f(x) {
        if x != xs[k] { assert x in xs[..k]; }
      }
    }
  }

  lemma {:induction false} ProductMonotone<T>(xs: seq<T>, ys: seq<T>, f: T -> real)
    requires |xs| == |ys|
    requires forall i :: 0 <= i < |xs| ==> 0.0 <= f(ys[i]) <= f(xs[i])
    ensures 0.0 <= Product(ys, f) <= Product(xs, f)
  {
    if xs == [] {
    } else {
      var k := |xs| - 1;
      ProductMonotone(xs[..k], ys[..k], f);
      ScaleBoth(Product(ys[..k], f), Product(xs[..k], f), f(ys[k]), f(xs[k]));
    }
  }

  lemma ScaleBoth(a: real, b: real, c: real, d: real)
    requires 0.0 <= a <= b && 0.0 <= c <= d
    ensures 0.0 <= a * c <= b * d
  {
    NonNegativeProduct(a, c, a * c);
    NonNegativeProduct(b - a, c, (b - a) * c);
    NonNegativeProduct(b, d - c, b * (d - c));
    SumOfGaps(a, b, c, d);
  }

  lemma SumOfGaps(a: real, b: real, c: real, d: real)
    ensures b * d - a * c == (b - a) * c + b * (d - c)
  {
  }

  lemma PresentLast(os: seq<Option<Deviation>>)
    requires os != []
    ensures
      var front, last := Present(os[..|os| - 1]), os[|os| - 1];
      Present(os) == if last.Some? then front + [last.value] else front
  {
  }

  lemma {:induction false} PresentProduct(os: seq<Option<Deviation>>)
    ensures Product(Present(os), Factor) == Product(os, OptFactor)
  {
    if os == [] {
    } else {
      hide Factor, Product, Present;
      var k := |os| - 1;
      PresentProduct(os[..k]);
      PresentLast(os);
      ProductLast(os, OptFactor);
      if os[k].Some? {
        ProductAppend(Present(os[..k]), [os[k].value], Factor);
        ProductOne(os[k].value, Factor);
      }
    }
  }

  // ------------------------------------------------------------------
  // Main results
  // ------------------------------------------------------------------

  /** A deviation's strength lies in (0, 1]: it is recorded only beyond one tolerance unit. */
  lemma DeviationStrength(feature: string, observed: real, expected: real, tolerance: real, weight: real, dir: int)
    ensures
      var o := DeviationOf(feature, observed, expected, tolerance, weight, dir);
      o.Some? ==> o.value.weight == weight && 0.0 < Strength(o.value.units) <= 1.0
  {
  }

  /** What a recorded deviation means: the observation lies more than one tolerance out, on a side that
    * counts, and it is listed with its own name, numbers and distance in tolerances. */
  lemma DeviationOfIff(feature: string, observed: real, expected: real, tolerance: real, weight: real, dir: int)
    ensures
      var o := DeviationOf(feature, observed, expected, tolerance, weight, dir);
      && (o.Some? <==> tolerance > 0.0 && ((dir >= 0 && observed > expected + tolerance)
                                           || (dir <= 0 && observed < expected - tolerance)))
      && (o.Some? ==> o.value.feature == feature && o.value.observed == observed && o.value.expected == expected
                      && o.value.weight == weight && o.value.units * tolerance == Abs(observed - expected))
  {
    if tolerance > 0.0 {
      var gap := Abs(observed - expected);
      var units := gap / tolerance;
      Quotient(gap, tolerance, units);
      if units > 1.0 { SignOfProduct(units - 1.0, tolerance, gap - tolerance); }
      if units <= 1.0 { NonNegativeProduct(1.0 - units, tolerance, tolerance - gap); }
    }
  }

  /** A generic rule records a deviation exactly when its feature is measured and known, and lies out of
    * tolerance on a side that counts. */
  lemma RuleDeviationIff(rule: DeviationRule, features: map<string, real>, b: FeatureBaseline)
    ensures RuleDeviation(rule, features, b).Some? <==>
              && rule.feature in features && rule.feature in b.means && rule.feature in b.tolerances
              && var gap, tolerance := features[rule.feature] - b.means[rule.feature], b.tolerances[rule.feature];
                 tolerance > 0.0 && ((rule.direction >= 0 && gap > tolerance)
                                     || (rule.direction <= 0 && -gap > tolerance))
  {
    hide DeviationOf;
    if rule.feature in features && rule.feature in b.means && rule.feature in b.tolerances {
      DeviationOfIff(rule.feature, features[rule.feature], b.means[rule.feature], b.tolerances[rule.feature],
                     rule.weight, rule.direction);
    }
  }

  lemma FactorInUnit(d: Deviation)
    requires 0.0 <= d.weight <= 1.0 && 0.0 < Strength(d.units) <= 1.0
    ensures 0.0 <= Factor(d) <= 1.0
    ensures Factor(d) == 1.0 <==> d.weight == 0.0
    ensures Factor(d) >= 1.0 - d.weight
    ensures Factor(d) == 1.0 - d.weight <==> d.weight == 0.0 || Strength(d.units) == 1.0
  {
    Shares(d.weight, Strength(d.units), d.weight * Strength(d.units));
  }

  lemma Shares(w: real, s: real, q: real)
    requires q == w * s && 0.0 <= w && 0.0 < s <= 1.0
    ensures 0.0 <= q <= w
    ensures q == 0.0 <==> w == 0.0
    ensures q == w <==> w == 0.0 || s == 1.0
  {
    if w > 0.0 { SignOfProduct(w, s, q); }
    if w > 0.0 && s < 1.0 { SignOfProduct(w, 1.0 - s, w - q); }
  }

  /** Weights the engine is meant for. */
  ghost predicate Weighted(rules: seq<DeviationRule>) {
    forall r :: r in rules ==> 0.0 <= r.weight <= 1.0
  }

  lemma RuleFactorInUnit(rule: DeviationRule, features: map<string, real>, b: FeatureBaseline)
    requires 0.0 <= rule.weight <= 1.0
    ensures 0.0 <= OptFactor(RuleDeviation(rule, features, b)) <= 1.0
    ensures OptFactor(RuleDeviation(rule, features, b)) == 1.0
            <==> RuleDeviation(rule, features, b).None? || rule.weight == 0.0
  {
    hide DeviationOf, Factor, Strength;
    var d := RuleDeviation(rule, features, b);
    if d.Some? {
      DeviationStrength(rule.feature, features[rule.feature], b.means[rule.feature],
                        b.tolerances[rule.feature], rule.weight, rule.direction);
      FactorInUnit(d.value);
    }
  }

  lemma RuleFactorsInUnit(rules: seq<DeviationRule>, features: map<string, real>, b: FeatureBaseline)
    requires Weighted(rules)
    ensures forall o :: o in RuleDeviations(rules, features, b) ==> 0.0 <= OptFactor(o) <= 1.0
    ensures RuleScore(rules, features, b) == 1.0 - Product(RuleDeviations(rules, features, b), OptFactor)
  {
    hide RuleDeviation, OptFactor, Product, Present;
    var os := RuleDeviations(rules, features, b);
    forall o | o in os ensures 0.0 <= OptFactor(o) <= 1.0 {
      var i :| 0 <= i < |os| && o == os[i];
      RuleFactorInUnit(rules[i], features, b);
    }
    PresentProduct(os);
  }

  /** The score is a probability, at least every single weighted strength. */
  lemma RuleScoreRange(rules: seq<DeviationRule>, features: map<string, real>, b: FeatureBaseline)
    requires Weighted(rules)
    ensures 0.0 <= RuleScore(rules, features, b) <= 1.0
    ensures forall r :: r in rules && RuleDeviation(r, features, b).Some? ==>
              RuleScore(rules, features, b) >= r.weight * Strength(RuleDeviation(r, features, b).value.units)
  {
    hide RuleDeviation, Strength, Product, RuleScore;
    var os := RuleDeviations(rules, features, b);
    RuleFactorsInUnit(rules, features, b);
    ProductInUnit(os, OptFactor);
    forall r | r in rules && RuleDeviation(r, features, b).Some?
      ensures RuleScore(rules, features, b) >= r.weight * Strength(RuleDeviation(r, features, b).value.units)
    {
      var i :| 0 <= i < |rules| && r == rules[i];
      assert os[i] in os;
      RuleWeight(r, features, b);
    }
  }

  /** The score is zero exactly when no positively weighted rule sees a deviation. */
  lemma RuleScoreZeroIff(rules: seq<DeviationRule>, features: map<string, real>, b: FeatureBaseline)
    requires Weighted(rules)
    ensures RuleScore(rules, features, b) == 0.0
            <==> forall r :: r in rules ==> r.weight == 0.0 || RuleDeviation(r, features, b).None?
  {
    hide RuleDeviation, OptFactor, Product, RuleScore;
    var os := RuleDeviations(rules, features, b);
    RuleFactorsInUnit(rules, features, b);
    ProductInUnit(os, OptFactor);
    forall i | 0 <= i < |rules|
      ensures OptFactor(os[i]) == 1.0 <==> rules[i].weight == 0.0 || RuleDeviation(rules[i], features, b).None?
    {
      RuleFactorInUnit(rules[i], features, b);
    }
    if RuleScore(rules, features, b) == 0.0 {
      forall r | r in rules ensures r.weight == 0.0 || RuleDeviation(r, features, b).None? {
        var i :| 0 <= i < |rules| && r == rules[i];
        assert os[i] in os;
      }
    } else {
      var o :| o in os && OptFactor(o) != 1.0;
      var i :| 0 <= i < |os| && o == os[i];
      assert rules[i] in rules;
    }
  }

  lemma RuleWeight(rule: DeviationRule, features: map<string, real>, b: FeatureBaseline)
    ensures RuleDeviation(rule, features, b).Some? ==> RuleDeviation(rule, features, b).value.weight == rule.weight
  {
  }

  ghost predicate Descending(ds: seq<Deviation>) {
    forall i, j :: 0 <= i < j < |ds| ==> Prominence(ds[i]) >= Prominence(ds[j])
  }

  lemma {:induction false} InsertDescending(shown: seq<Deviation>, d: Deviation)
    requires Descending(shown)
    ensures Descending(InsertShown(shown, d))
  {
    hide Prominence;
    if shown == [] || Prominence(shown[|shown| - 1]) >= Prominence(d) {
    } else {
      var k := |shown| - 1;
      InsertDescending(shown[..k], d);
      forall x | x in InsertShown(shown[..k], d) ensures Prominence(x) >= Prominence(shown[k]) {
        assert x in multiset(InsertShown(shown[..k], d));
        if x != d { assert x in shown[..k]; }
      }
    }
  }

  lemma {:induction false} ShownDescends(ds: seq<Deviation>)
    ensures Descending(Shown(ds))
  {
    if ds == [] {
    } else {
      hide InsertShown;
      ShownDescends(ds[..|ds| - 1]);
      InsertDescending(Shown(ds[..|ds| - 1]), ds[|ds| - 1]);
    }
  }

  /** A verdict lists exactly the recorded deviations, weight times distance falling. */
  lemma ShownCorrect(ds: seq<Deviation>, i: nat, j: nat)
    ensures multiset(Shown(ds)) == multiset(ds)
    ensures |Shown(ds)| == |ds|
    ensures i < j < |ds| ==>
              Shown(ds)[i].weight * Shown(ds)[i].units >= Shown(ds)[j].weight * Shown(ds)[j].units
  {
    hide Shown;
    var shown := Shown(ds);
    ShownDescends(ds);
    assert |multiset(shown)| == |multiset(ds)|;
    if i < j < |ds| { assert Prominence(shown[i]) >= Prominence(shown[j]); }
  }

  /** Reordering the rules never changes the score. */
  lemma RuleOrderIrrelevant(rules: seq<DeviationRule>, other: seq<DeviationRule>, features: map<string, real>,
                            b: FeatureBaseline)
    requires multiset(rules) == multiset(other)
    ensures RuleScore(rules, features, b) == RuleScore(other, features, b)
  {
    var g := (r: DeviationRule) => OptFactor(RuleDeviation(r, features, b));
    RuleProduct(rules, features, b, g);
    RuleProduct(other, features, b, g);
    ProductPermutes(rules, other, g);
  }

  lemma {:induction false} RuleProduct(rules: seq<DeviationRule>, features: map<string, real>, b: FeatureBaseline,
                                       g: DeviationRule -> real)
    requires forall r :: g(r) == OptFactor(RuleDeviation(r, features, b))
    ensures RuleScore(rules, features, b) == 1.0 - Product(rules, g)
  {
    PresentProduct(RuleDeviations(rules, features, b));
    SameProducts(rules, RuleDeviations(rules, features, b), g, OptFactor);
  }

  /** Inserting a rule anywhere never lowers the score. */
  lemma AddingRuleNeverLowers(before: seq<DeviationRule>, rule: DeviationRule, after: seq<DeviationRule>,
                              features: map<string, real>, b: FeatureBaseline)
    requires Weighted(before + [rule] + after)
    ensures RuleScore(before + after, features, b) <= RuleScore(before + [rule] + after, features, b)
  {
    hide RuleDeviation, Product, RuleScore;
    var g := (r: DeviationRule) => OptFactor(RuleDeviation(r, features, b));
    RuleProduct(before + [rule] + after, features, b, g);
    RuleProduct(before + after, features, b, g);
    forall r | r in before + [rule] + after ensures 0.0 <= g(r) <= 1.0 { RuleFactorInUnit(r, features, b); }
    ProductInsert(before, rule, after, g);
  }

  lemma ProductInsert<T>(before: seq<T>, x: T, after: seq<T>, f: T -> real)
    requires forall y :: y in before + [x] + after ==> 0.0 <= f(y) <= 1.0
    ensures Product(before + [x] + after, f) <= Product(before + after, f)
  {
    hide Product;
    var all := before + [x] + after;
    assert all[..|before|] == before && all[|before| + 1..] == after && all[|before|] == x;
    ProductWithout(all, |before|, f);
    forall y | y in before + after ensures y in all {}
    ProductInUnit(before + after, f);
    UnitProduct(Product(before + after, f), f(x), Product(all, f));
  }

  /** `moved` is further than `value` from `mean`, on the same side. */
  predicate FurtherOut(mean: real, value: real, moved: real) {
    (value <= mean ==> moved <= value || value == mean) && (value >= mean ==> moved >= value || value == mean)
  }

  /** A recorded deviation stays recorded, with at least as many tolerance units. */
  lemma UnitsGrow(feature: string, value: real, moved: real, mean: real, tolerance: real, weight: real, dir: int)
    requires FurtherOut(mean, value, moved)
    ensures
      var near := DeviationOf(feature, value, mean, tolerance, weight, dir);
      var far := DeviationOf(feature, moved, mean, tolerance, weight, dir);
      near.Some? ==> far.Some? && near.value.units <= far.value.units
  {
    if tolerance > 0.0 { QuotientGrows(Abs(value - mean), Abs(moved - mean), tolerance); }
  }

  lemma DeviationGrows(feature: string, value: real, moved: real, mean: real, tolerance: real, weight: real, dir: int)
    requires 0.0 <= weight <= 1.0
    requires FurtherOut(mean, value, moved)
    ensures 0.0 <= OptFactor(DeviationOf(feature, moved, mean, tolerance, weight, dir))
                <= OptFactor(DeviationOf(feature, value, mean, tolerance, weight, dir))
  {
    hide DeviationOf, FurtherOut;
    UnitsGrow(feature, value, moved, mean, tolerance, weight, dir);
    OptFactorGrows(DeviationOf(feature, value, mean, tolerance, weight, dir),
                   DeviationOf(feature, moved, mean, tolerance, weight, dir), weight) by {
      DeviationStrength(feature, value, mean, tolerance, weight, dir);
      DeviationStrength(feature, moved, mean, tolerance, weight, dir);
    }
  }

  lemma OptFactorGrows(near: Option<Deviation>, far: Option<Deviation>, weight: real)
    requires 0.0 <= weight <= 1.0
    requires near.Some? ==> near.value.weight == weight && far.Some? && near.value.units <= far.value.units
    requires far.Some? ==> far.value.weight == weight && 0.0 < Strength(far.value.units) <= 1.0
    ensures 0.0 <= OptFactor(far) <= OptFactor(near)
  {
    hide Strength, Factor;
    if far.Some? { FactorInUnit(far.value); }
    if near.Some? { FactorFalls(near.value, far.value); }
  }

  lemma FactorFalls(near: Deviation, far: Deviation)
    requires near.weight == far.weight >= 0.0 && near.units <= far.units
    ensures Factor(far) <= Factor(near)
  {
    QuotientGrows(near.units - 1.0, far.units - 1.0, SATURATION);
    FactorShrinks(near.weight, Strength(near.units), Strength(far.units));
  }

  lemma QuotientGrows(a: real, b: real, c: real)
    requires a <= b && c > 0.0
    ensures a / c <= b / c
  {
  }

  lemma FactorShrinks(w: real, s: real, t: real)
    requires 0.0 <= w && s <= t
    ensures 1.0 - w * t <= 1.0 - w * s
  {
  }

  /** A one-sided rule only ever falls as its feature moves in the anomalous direction. */
  lemma OneSided(feature: string, value: real, moved: real, mean: real, tolerance: real, weight: real, dir: int)
    requires 0.0 <= weight <= 1.0 && dir != 0
    requires if dir > 0 then moved >= value else moved <= value
    ensures 0.0 <= OptFactor(DeviationOf(feature, moved, mean, tolerance, weight, dir))
                <= OptFactor(DeviationOf(feature, value, mean, tolerance, weight, dir))
  {
    if (if dir > 0 then value >= mean else value <= mean) {
      DeviationGrows(feature, value, moved, mean, tolerance, weight, dir);
    } else {
      assert DeviationOf(feature, value, mean, tolerance, weight, dir) == None;
      DeviationGrows(feature, moved, moved, mean, tolerance, weight, dir);
      DeviationStrength(feature, moved, mean, tolerance, weight, dir);
      if DeviationOf(feature, moved, mean, tolerance, weight, dir).Some? {
        FactorInUnit(DeviationOf(feature, moved, mean, tolerance, weight, dir).value);
      }
    }
  }

  /** The move is no improvement in the eyes of a rule: for a one-sided rule anything in its own
    * direction, across the mean or not; for a two-sided one a move at least as far from the mean; and
    * for either one a move outward on the side it is already on. */
  predicate NoBetterFor(direction: int, mean: real, value: real, moved: real) {
    || FurtherOut(mean, value, moved)
    || (direction > 0 && moved >= value)
    || (direction < 0 && moved <= value)
    || (direction == 0 && Abs(moved - mean) >= Abs(value - mean))
  }

  lemma TwoSided(feature: string, value: real, moved: real, mean: real, tolerance: real, weight: real)
    requires 0.0 <= weight <= 1.0 && Abs(moved - mean) >= Abs(value - mean)
    ensures 0.0 <= OptFactor(DeviationOf(feature, moved, mean, tolerance, weight, 0))
                <= OptFactor(DeviationOf(feature, value, mean, tolerance, weight, 0))
  {
    var near := DeviationOf(feature, value, mean, tolerance, weight, 0);
    var far := DeviationOf(feature, moved, mean, tolerance, weight, 0);
    if tolerance > 0.0 { QuotientGrows(Abs(value - mean), Abs(moved - mean), tolerance); }
    assert near.Some? ==> far.Some? && near.value.units <= far.value.units;
    hide DeviationOf, OptFactor;
    DeviationStrength(feature, value, mean, tolerance, weight, 0);
    DeviationStrength(feature, moved, mean, tolerance, weight, 0);
    OptFactorGrows(near, far, weight);
  }

  lemma NoBetterNeverRaises(rule: DeviationRule, value: real, moved: real, mean: real, tolerance: real)
    requires 0.0 <= rule.weight <= 1.0 && NoBetterFor(rule.direction, mean, value, moved)
    ensures 0.0 <= OptFactor(DeviationOf(rule.feature, moved, mean, tolerance, rule.weight, rule.direction))
                <= OptFactor(DeviationOf(rule.feature, value, mean, tolerance, rule.weight, rule.direction))
  {
    hide DeviationOf, OptFactor, FurtherOut;
    if FurtherOut(mean, value, moved) {
      DeviationGrows(rule.feature, value, moved, mean, tolerance, rule.weight, rule.direction);
    } else if rule.direction != 0 {
      OneSided(rule.feature, value, moved, mean, tolerance, rule.weight, rule.direction);
    } else {
      TwoSided(rule.feature, value, moved, mean, tolerance, rule.weight);
    }
  }

  /** Moving one feature in a way that is no improvement for any rule on it never lowers the score. */
  lemma MovingOutNeverLowers(rules: seq<DeviationRule>, features: map<string, real>, b: FeatureBaseline,
                             feature: string, moved: real)
    requires Weighted(rules) && feature in features
    requires feature in b.means ==>
               forall r :: r in rules && r.feature == feature ==>
                 NoBetterFor(r.direction, b.means[feature], features[feature], moved)
    ensures RuleScore(rules, features, b) <= RuleScore(rules, features[feature := moved], b)
  {
    hide DeviationOf, Product, Factor, NoBetterFor;
    var near := RuleDeviations(rules, features, b);
    var far := RuleDeviations(rules, features[feature := moved], b);
    forall i | 0 <= i < |rules| ensures 0.0 <= OptFactor(far[i]) <= OptFactor(near[i]) {
      var r := rules[i];
      if r.feature == feature && r.feature in b.means && r.feature in b.tolerances {
        NoBetterNeverRaises(r, features[feature], moved, b.means[feature], b.tolerances[feature]);
      } else {
        RuleFactorInUnit(r, features, b);
      }
    }
    PresentProduct(near);
    PresentProduct(far);
    ProductMonotone(near, far, OptFactor);
  }

  // ------------------------------------------------------------------
  // The torque rules
  // ------------------------------------------------------------------

  /** Weight of the i-th torque rule. */
  function RuleWeightAt(i: nat): real
    requires i < 6
  {
    [0.35, 0.40, 0.25, 0.20, 0.30, 0.45][i]
  }

  /** The name the i-th torque rule reports under. */
  function FeatureName(i: nat): string
    requires i < 6
  {
    ["knee_angle_deg", "elastic_slope_nm_per_deg", "elastic_residual_variance", "reversal_count",
     "rundown_torque_mean_nm", "late_to_early_slope_ratio"][i]
  }

  /** When each torque rule is broken, in terms of the measurement alone. */
  predicate Breaks(f: Features, b: Baseline, i: nat)
    requires i < 6
  {
    match i
    case 0 => b.kneeTolerance > 0.0 && f.kneeAngle > b.kneeAngle + b.kneeTolerance
    case 1 => b.slopeTolerance > 0.0 && f.elasticSlope < b.elasticSlope - b.slopeTolerance
    case 2 => f.elasticVariance > b.varianceMax + Max(b.varianceMax, 0.000001)
    case 3 => f.reversals as real > b.reversalsMax + Max(b.reversalsMax, 1.0)
    case 4 => f.rundownTorque > b.rundownMax + Max(b.rundownMax, 0.000001)
    case _ => f.lateRatio < b.flattening
  }

  /** What each rule measures, and what it holds it against. */
  function Measured(f: Features, i: nat): real
    requires i < 6
  {
    [f.kneeAngle, f.elasticSlope, f.elasticVariance, f.reversals as real, f.rundownTorque, f.lateRatio][i]
  }

  function Nominal(b: Baseline, i: nat): real
    requires i < 6
  {
    [b.kneeAngle, b.elasticSlope, b.varianceMax, b.reversalsMax, b.rundownMax, b.flattening][i]
  }

  lemma RuleBreaksIff(f: Features, b: Baseline, i: nat)
    requires i < 6
    ensures
      var o := SignatureRules(f, b)[i];
      && (o.Some? <==> Breaks(f, b, i))
      && (o.Some? ==> o.value.feature == FeatureName(i) && o.value.weight == RuleWeightAt(i)
                      && o.value.observed == Measured(f, i) && o.value.expected == Nominal(b, i))
  {
    hide DeviationOf;
    DeviationOfIff("knee_angle_deg", f.kneeAngle, b.kneeAngle, b.kneeTolerance, 0.35, 1);
    DeviationOfIff("elastic_slope_nm_per_deg", f.elasticSlope, b.elasticSlope, b.slopeTolerance, 0.40, -1);
    DeviationOfIff("elastic_residual_variance", f.elasticVariance, b.varianceMax,
                   Max(b.varianceMax, 0.000001), 0.25, 1);
    DeviationOfIff("reversal_count", f.reversals as real, b.reversalsMax, Max(b.reversalsMax, 1.0), 0.20, 1);
    DeviationOfIff("rundown_torque_mean_nm", f.rundownTorque, b.rundownMax, Max(b.rundownMax, 0.000001), 0.30, 1);
  }

  lemma FeaturesDistinct(i: nat, j: nat)
    requires i < 6 && j < 6 && FeatureName(i) == FeatureName(j)
    ensures i == j
  {
    assert |FeatureName(0)| == 14 && |FeatureName(1)| == 24 && |FeatureName(2)| == 25;
    assert |FeatureName(3)| == 14 && |FeatureName(4)| == 22 && |FeatureName(5)| == 25;
    assert FeatureName(0)[0] != FeatureName(3)[0] && FeatureName(2)[0] != FeatureName(5)[0];
  }

  lemma {:induction false} PresentIff(os: seq<Option<Deviation>>, d: Deviation)
    ensures d in Present(os) <==> Some(d) in os
  {
    if os == [] {
    } else {
      var k := |os| - 1;
      PresentIff(os[..k], d);
      assert os == os[..k] + [os[k]];
    }
  }

  lemma ListedIff(f: Features, b: Baseline, threshold: real, d: Deviation)
    ensures d in SignatureVerdictOf(f, b, threshold).deviations <==> Some(d) in SignatureRules(f, b)
  {
    hide SignatureRules, SignatureScore;
    var ds := Present(SignatureRules(f, b));
    PresentIff(SignatureRules(f, b), d);
    assert d in Shown(ds) <==> d in multiset(Shown(ds));
    assert d in ds <==> d in multiset(ds);
  }

  /** A verdict lists a deviation under a name exactly when the measurement breaks that rule, and then
    * with the measured number and the one it was held against. */
  lemma DeviationsListedIff(f: Features, b: Baseline, threshold: real, i: nat)
    requires i < 6
    ensures
      var ds := SignatureVerdictOf(f, b, threshold).deviations;
      && ((exists d :: d in ds && d.feature == FeatureName(i)) <==> Breaks(f, b, i))
      && forall d :: d in ds && d.feature == FeatureName(i) ==>
           d.observed == Measured(f, i) && d.expected == Nominal(b, i) && d.weight == RuleWeightAt(i)
  {
    hide SignatureRules, SignatureVerdictOf, Breaks, FeatureName, Measured, Nominal, RuleWeightAt;
    var ds, os := SignatureVerdictOf(f, b, threshold).deviations, SignatureRules(f, b);
    RuleBreaksIff(f, b, i);
    if Breaks(f, b, i) {
      assert Some(os[i].value) in os;
      ListedIff(f, b, threshold, os[i].value);
    }
    forall d | d in ds && d.feature == FeatureName(i)
      ensures Breaks(f, b, i) && d == os[i].value
    {
      ListedIff(f, b, threshold, d);
      var j :| 0 <= j < |os| && os[j] == Some(d);
      RuleBreaksIff(f, b, j);
      FeaturesDistinct(i, j);
    }
  }

  lemma YieldStrength(f: Features, b: Baseline)
    ensures
      var o := YieldDeviation(f, b);
      o.Some? ==>
        && o.value.weight == 0.45 && 0.0 < Strength(o.value.units) <= 1.0
        && (Strength(o.value.units) == 1.0
            <==> f.lateRatio <= b.flattening - SATURATION * Max(b.flattening, 0.000001))
  {
    if YieldDeviation(f, b).Some? {
      ShortfallStrength(b.flattening - f.lateRatio, Max(b.flattening, 0.000001));
    }
  }

  lemma ShortfallStrength(shortfall: real, scale: real)
    requires shortfall > 0.0 && scale > 0.0
    ensures 0.0 < Strength(1.0 + shortfall / scale) <= 1.0
    ensures Strength(1.0 + shortfall / scale) == 1.0 <==> shortfall >= SATURATION * scale
  {
    var q := shortfall / scale;
    Quotient(shortfall, scale, q);
    if q <= 0.0 { NonNegativeProduct(-q, scale, -shortfall); }
    if q >= SATURATION { NonNegativeProduct(q - SATURATION, scale, shortfall - SATURATION * scale); }
    if q < SATURATION { SignOfProduct(SATURATION - q, scale, SATURATION * scale - shortfall); }
  }

  /** Every recorded torque deviation has its rule's weight and a strength in (0, 1]. */
  lemma TorqueRule(f: Features, b: Baseline, i: nat)
    requires i < 6
    ensures SignatureRules(f, b)[i].Some? ==>
              SignatureRules(f, b)[i].value.weight == RuleWeightAt(i)
              && 0.0 < Strength(SignatureRules(f, b)[i].value.units) <= 1.0
  {
    hide Strength;
    YieldStrength(f, b);
    DeviationStrength("knee_angle_deg", f.kneeAngle, b.kneeAngle, b.kneeTolerance, 0.35, 1);
    DeviationStrength("elastic_slope_nm_per_deg", f.elasticSlope, b.elasticSlope, b.slopeTolerance, 0.40, -1);
    DeviationStrength("elastic_residual_variance", f.elasticVariance, b.varianceMax,
                      Max(b.varianceMax, 0.000001), 0.25, 1);
    DeviationStrength("reversal_count", f.reversals as real, b.reversalsMax, Max(b.reversalsMax, 1.0), 0.20, 1);
    DeviationStrength("rundown_torque_mean_nm", f.rundownTorque, b.rundownMax,
                      Max(b.rundownMax, 0.000001), 0.30, 1);
  }

  lemma TorqueFactor(f: Features, b: Baseline, i: nat)
    requires i < 6
    ensures 1.0 - RuleWeightAt(i) <= OptFactor(SignatureRules(f, b)[i]) <= 1.0
    ensures SignatureRules(f, b)[i].None? <==> OptFactor(SignatureRules(f, b)[i]) == 1.0
    ensures OptFactor(SignatureRules(f, b)[i]) == 1.0 - RuleWeightAt(i)
            <==> SignatureRules(f, b)[i].Some? && Strength(SignatureRules(f, b)[i].value.units) == 1.0
  {
    hide SignatureRules, Factor, Strength;
    TorqueRule(f, b, i);
    var o := SignatureRules(f, b)[i];
    if o.Some? { FactorInUnit(o.value); }
  }

  lemma TorqueFactors(f: Features, b: Baseline)
    ensures forall o :: o in SignatureRules(f, b) ==> 0.0 <= OptFactor(o) <= 1.0
    ensures SignatureScore(f, b) == 1.0 - Product(SignatureRules(f, b), OptFactor)
  {
    hide SignatureRules, OptFactor, Product, Present;
    var os := SignatureRules(f, b);
    forall o | o in os ensures 0.0 <= OptFactor(o) <= 1.0 {
      var i :| 0 <= i < |os| && o == os[i];
      TorqueFactor(f, b, i);
    }
    PresentProduct(os);
  }

  /** How far beyond what it tolerates a measurement lies, as a share of `scale`. */
  datatype Excess = Excess(weight: real, beyond: real, scale: real) {
    /** Saturates at one and a half scales. */
    function Share(): real {
      if scale <= 0.0 || beyond <= 0.0 then 0.0
      else if beyond >= 1.5 * scale then 1.0
      else beyond / (1.5 * scale)
    }
  }

  /** The six excesses, from the measurements alone. */
  function Excesses(f: Features, b: Baseline): (es: seq<Excess>)
    ensures |es| == 6
  {
    var variance, reversals := Max(b.varianceMax, 0.000001), Max(b.reversalsMax, 1.0);
    var rundown := Max(b.rundownMax, 0.000001);
    [ Excess(0.35, f.kneeAngle - b.kneeAngle - b.kneeTolerance, b.kneeTolerance),
      Excess(0.40, b.elasticSlope - f.elasticSlope - b.slopeTolerance, b.slopeTolerance),
      Excess(0.25, f.elasticVariance - b.varianceMax - variance, variance),
      Excess(0.20, f.reversals as real - b.reversalsMax - reversals, reversals),
      Excess(0.30, f.rundownTorque - b.rundownMax - rundown, rundown),
      Excess(0.45, b.flattening - f.lateRatio, Max(b.flattening, 0.000001)) ]
  }

  function Spared(e: Excess): real { 1.0 - e.weight * e.Share() }

  /** A one-sided rule spares what its excess leaves. */
  lemma RuleSpares(feature: string, observed: real, expected: real, tolerance: real, weight: real, dir: int,
                   beyond: real)
    requires dir == 1 || dir == -1
    requires beyond == (if dir == 1 then observed - expected else expected - observed) - tolerance
    ensures OptFactor(DeviationOf(feature, observed, expected, tolerance, weight, dir))
            == Spared(Excess(weight, beyond, tolerance))
  {
    DeviationOfIff(feature, observed, expected, tolerance, weight, dir);
    var o := DeviationOf(feature, observed, expected, tolerance, weight, dir);
    if o.Some? { StrengthIsShare(weight, o.value.units - 1.0, beyond, tolerance); }
  }

  lemma StrengthIsShare(weight: real, units: real, beyond: real, scale: real)
    requires scale > 0.0 && beyond > 0.0 && units * scale == beyond
    ensures Strength(1.0 + units) == Excess(weight, beyond, scale).Share()
  {
    if beyond >= 1.5 * scale {
      if units < 1.5 { SignOfProduct(1.5 - units, scale, 1.5 * scale - beyond); }
    } else {
      if units >= 1.5 { NonNegativeProduct(units - 1.5, scale, beyond - 1.5 * scale); }
      assert (units / 1.5) * (1.5 * scale) == beyond;
      QuotientIs(beyond, 1.5 * scale, units / 1.5);
    }
  }

  lemma YieldSpares(f: Features, b: Baseline)
    ensures OptFactor(YieldDeviation(f, b))
            == Spared(Excess(0.45, b.flattening - f.lateRatio, Max(b.flattening, 0.000001)))
  {
    var beyond, scale := b.flattening - f.lateRatio, Max(b.flattening, 0.000001);
    if beyond > 0.0 {
      Quotient(beyond, scale, beyond / scale);
      StrengthIsShare(0.45, beyond / scale, beyond, scale);
    }
  }

  lemma TorqueRuleSpares(f: Features, b: Baseline, i: nat)
    requires i < 6
    ensures OptFactor(SignatureRules(f, b)[i]) == Spared(Excesses(f, b)[i])
  {
    hide Spared, OptFactor, DeviationOf, YieldDeviation;
    var e := Excesses(f, b)[i];
    if i == 0 {
      RuleSpares("knee_angle_deg", f.kneeAngle, b.kneeAngle, b.kneeTolerance, 0.35, 1, e.beyond);
    } else if i == 1 {
      RuleSpares("elastic_slope_nm_per_deg", f.elasticSlope, b.elasticSlope, b.slopeTolerance, 0.40, -1, e.beyond);
    } else if i == 2 {
      RuleSpares("elastic_residual_variance", f.elasticVariance, b.varianceMax,
                 Max(b.varianceMax, 0.000001), 0.25, 1, e.beyond);
    } else if i == 3 {
      RuleSpares("reversal_count", f.reversals as real, b.reversalsMax, Max(b.reversalsMax, 1.0), 0.20, 1, e.beyond);
    } else if i == 4 {
      RuleSpares("rundown_torque_mean_nm", f.rundownTorque, b.rundownMax,
                 Max(b.rundownMax, 0.000001), 0.30, 1, e.beyond);
    } else {
      YieldSpares(f, b);
    }
  }

  /** The torque score from the measurements alone: one minus the product of what six clamped excesses spare.
    * At the default threshold a signature is critical from 0.60 on, and major from 0.45 on. */
  lemma ScoreFromExcesses(f: Features, b: Baseline)
    ensures SignatureScore(f, b) == 1.0 - Product(Excesses(f, b), Spared)
    ensures
      var spared, v := Product(Excesses(f, b), Spared), SignatureVerdictOf(f, b, THRESHOLD);
      && v.score == 1.0 - spared
      && (v.Severity() == Critical <==> spared <= 0.40) && (v.Severity() == Minor <==> spared > 0.55)
  {
    hide Product, Spared, OptFactor, SignatureRules, SignatureScore, Excesses;
    forall i: nat | i < 6 ensures OptFactor(SignatureRules(f, b)[i]) == Spared(Excesses(f, b)[i]) {
      TorqueRuleSpares(f, b, i);
    }
    TorqueFactors(f, b);
    SameProducts(SignatureRules(f, b), Excesses(f, b), OptFactor, Spared);
  }

  lemma {:induction false} SameProducts<S, T>(xs: seq<S>, ys: seq<T>, f: S -> real, g: T -> real)
    requires |xs| == |ys| && forall i :: 0 <= i < |xs| ==> f(xs[i]) == g(ys[i])
    ensures Product(xs, f) == Product(ys, g)
  {
    if xs == [] {
    } else {
      SameProducts(xs[..|xs| - 1], ys[..|ys| - 1], f, g);
    }
  }

  /** The torque score is a probability, zero exactly when no rule is broken, and no less than any single
    * weighted excess. */
  lemma SignatureScoreRange(f: Features, b: Baseline)
    ensures 0.0 <= SignatureScore(f, b) <= 1.0
    ensures SignatureScore(f, b) == 0.0 <==> forall i: nat :: i < 6 ==> !Breaks(f, b, i)
    ensures forall e :: e in Excesses(f, b) ==> SignatureScore(f, b) >= e.weight * e.Share()
  {
    hide SignatureRules, Product, SignatureScore, OptFactor, Spared, Excesses, Breaks, Excess.Share;
    var es := Excesses(f, b);
    ScoreFromExcesses(f, b);
    forall i: nat | i < 6 ensures 0.0 <= Spared(es[i]) <= 1.0 && (Spared(es[i]) == 1.0 <==> !Breaks(f, b, i)) {
      TorqueFactor(f, b, i);
      TorqueRuleSpares(f, b, i);
      RuleBreaksIff(f, b, i);
    }
    ProductInUnit(es, Spared);
    forall e | e in es ensures SignatureScore(f, b) >= e.weight * e.Share() { SparedIs(e); }
    forall i: nat | i < 6 ensures es[i] in es {}
  }

  lemma SparedIs(e: Excess)
    ensures Spared(e) == 1.0 - e.weight * e.Share()
  {
  }

  /** With one rule broken its factor alone makes the score. */
  lemma LoneScore(f: Features, b: Baseline, i: nat)
    requires i < 6 && forall j: nat :: j < 6 && j != i ==> !Breaks(f, b, j)
    ensures SignatureScore(f, b) == 1.0 - OptFactor(SignatureRules(f, b)[i])
  {
    hide SignatureRules, Product, SignatureScore, OptFactor, Breaks;
    var os := SignatureRules(f, b);
    TorqueFactors(f, b);
    ProductWithout(os, i, OptFactor);
    var rest := os[..i] + os[i + 1..];
    forall o | o in rest ensures o == None {
      var k :| 0 <= k < |rest| && rest[k] == o;
      RuleBreaksIff(f, b, if k < i then k else k + 1);
    }
    NoneProduct(rest);
  }

  /** A measurement that breaks one rule alone is never anomalous at 0.45, unless it is a saturated yield
    * deviation. */
  lemma LoneDeviationIff(f: Features, b: Baseline, i: nat)
    requires i < 6 && Breaks(f, b, i) && forall j: nat :: j < 6 && j != i ==> !Breaks(f, b, j)
    ensures SignatureVerdictOf(f, b, THRESHOLD).anomalous
            <==> i == 5 && f.lateRatio <= b.flattening - 1.5 * Max(b.flattening, 0.000001)
    ensures
      var v := SignatureVerdictOf(f, b, THRESHOLD);
      v.anomalous ==> v.score == 0.45 && v.Severity() == Major
  {
    hide SignatureRules, SignatureScore, OptFactor, Strength, Breaks;
    LoneScore(f, b, i);
    TorqueFactor(f, b, i);
    RuleBreaksIff(f, b, i);
    if i == 5 {
      YieldStrength(f, b);
      LastRule(f, b);
    }
  }

  lemma NoneProduct(os: seq<Option<Deviation>>)
    requires forall o :: o in os ==> o == None
    ensures Product(os, OptFactor) == 1.0
  {
    ProductInUnit(os, OptFactor);
  }

  lemma LastRule(f: Features, b: Baseline)
    ensures SignatureRules(f, b)[5] == YieldDeviation(f, b)
  {
  }

  /** A later knee, a shallower slope, more scatter, more reversals, more run-down torque and
    * more flattening never lower the score. */
  ghost predicate NoBetter(f: Features, g: Features) {
    && g.kneeAngle >= f.kneeAngle && g.elasticSlope <= f.elasticSlope && g.elasticVariance >= f.elasticVariance
    && g.reversals >= f.reversals && g.rundownTorque >= f.rundownTorque && g.lateRatio <= f.lateRatio
  }

  lemma SignatureScoreMonotone(f: Features, g: Features, b: Baseline)
    requires NoBetter(f, g)
    ensures SignatureScore(f, b) <= SignatureScore(g, b)
  {
    hide SignatureRules, Product, SignatureScore, OptFactor, NoBetter;
    forall i | 0 <= i < 6
      ensures 0.0 <= OptFactor(SignatureRules(g, b)[i]) <= OptFactor(SignatureRules(f, b)[i])
    {
      TorqueRuleFalls(f, g, b, i);
    }
    TorqueFactors(f, b);
    TorqueFactors(g, b);
    ProductMonotone(SignatureRules(f, b), SignatureRules(g, b), OptFactor);
  }

  lemma TorqueRuleFalls(f: Features, g: Features, b: Baseline, i: nat)
    requires NoBetter(f, g) && i < 6
    ensures 0.0 <= OptFactor(SignatureRules(g, b)[i]) <= OptFactor(SignatureRules(f, b)[i])
  {
    hide OptFactor, DeviationOf, YieldDeviation;
    if i == 0 {
      OneSided("knee_angle_deg", f.kneeAngle, g.kneeAngle, b.kneeAngle, b.kneeTolerance, 0.35, 1);
    } else if i == 1 {
      OneSided("elastic_slope_nm_per_deg", f.elasticSlope, g.elasticSlope, b.elasticSlope, b.slopeTolerance, 0.40, -1);
    } else if i == 2 {
      OneSided("elastic_residual_variance", f.elasticVariance, g.elasticVariance, b.varianceMax,
               Max(b.varianceMax, 0.000001), 0.25, 1);
    } else if i == 3 {
      OneSided("reversal_count", f.reversals as real, g.reversals as real, b.reversalsMax,
               Max(b.reversalsMax, 1.0), 0.20, 1);
    } else if i == 4 {
      OneSided("rundown_torque_mean_nm", f.rundownTorque, g.rundownTorque, b.rundownMax,
               Max(b.rundownMax, 0.000001), 0.30, 1);
    } else {
      YieldFalls(f, g, b);
    }
  }

  lemma YieldFalls(f: Features, g: Features, b: Baseline)
    requires g.lateRatio <= f.lateRatio
    ensures 0.0 <= OptFactor(YieldDeviation(g, b)) <= OptFactor(YieldDeviation(f, b))
  {
    YieldStrength(f, b);
    YieldStrength(g, b);
    YieldUnits(f, g, b);
    if YieldDeviation(g, b).Some? { FactorInUnit(YieldDeviation(g, b).value); }
    OptFactorGrows(YieldDeviation(f, b), YieldDeviation(g, b), 0.45);
  }

  lemma YieldUnits(f: Features, g: Features, b: Baseline)
    requires g.lateRatio <= f.lateRatio
    ensures YieldDeviation(f, b).Some? ==>
              YieldDeviation(g, b).Some? && YieldDeviation(f, b).value.units <= YieldDeviation(g, b).value.units
  {
    QuotientGrows(b.flattening - f.lateRatio, b.flattening - g.lateRatio, Max(b.flattening, 0.000001));
  }

  /** A late knee and a shallow slope, both 2.5 tolerances out, are anomalous whatever else was measured. */
  lemma ContaminationIsAnomalous(f: Features, b: Baseline)
    requires b.kneeTolerance > 0.0 && b.slopeTolerance > 0.0
    requires f.kneeAngle >= b.kneeAngle + 2.5 * b.kneeTolerance
    requires f.elasticSlope <= b.elasticSlope - 2.5 * b.slopeTolerance
    ensures SignatureScore(f, b) >= 0.61
    ensures SignatureVerdictOf(f, b, THRESHOLD).Severity() == Critical
  {
    hide SignatureRules, Product, SignatureScore, OptFactor;
    var os := SignatureRules(f, b);
    Saturated("knee_angle_deg", f.kneeAngle, b.kneeAngle, b.kneeTolerance, 0.35, 1);
    Saturated("elastic_slope_nm_per_deg", f.elasticSlope, b.elasticSlope, b.slopeTolerance, 0.40, -1);
    FirstRules(f, b);
    TorqueFactors(f, b);
    ProductOfPair(os, OptFactor);
    var last := os[2..];
    forall o | o in last ensures o in os {}
    ProductInUnit(last, OptFactor);
  }

  lemma ProductOfPair<T>(xs: seq<T>, f: T -> real)
    requires |xs| >= 2
    ensures Product(xs, f) == f(xs[0]) * f(xs[1]) * Product(xs[2..], f)
  {
    hide Product;
    var one, two, rest := [xs[0]], [xs[1]], xs[2..];
    assert xs == one + two + rest;
    ProductAppend(one + two, rest, f);
    ProductAppend(one, two, f);
    ProductOne(xs[0], f);
    ProductOne(xs[1], f);
  }

  lemma FirstRules(f: Features, b: Baseline)
    ensures SignatureRules(f, b)[0]
            == DeviationOf("knee_angle_deg", f.kneeAngle, b.kneeAngle, b.kneeTolerance, 0.35, 1)
    ensures SignatureRules(f, b)[1]
            == DeviationOf("elastic_slope_nm_per_deg", f.elasticSlope, b.elasticSlope, b.slopeTolerance, 0.40, -1)
  {
  }

  lemma Saturated(feature: string, observed: real, expected: real, tolerance: real, weight: real, dir: int)
    requires tolerance > 0.0 && dir != 0
    requires if dir > 0 then observed >= expected + 2.5 * tolerance else observed <= expected - 2.5 * tolerance
    ensures OptFactor(DeviationOf(feature, observed, expected, tolerance, weight, dir)) == 1.0 - weight
  {
    var gap := Abs(observed - expected);
    QuotientGrows(2.5 * tolerance, gap, tolerance);
    Quotient(2.5 * tolerance, tolerance, 2.5 * tolerance / tolerance);
    assert 2.5 * tolerance / tolerance == 2.5;
  }
}
