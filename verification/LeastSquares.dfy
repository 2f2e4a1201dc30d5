/** Straight-line fits of curve slices from prefix sums.
  *
  * `PrefixSums` is the class that fills the five cumulative arrays and reads a
  * fit back in constant time; `FitOf` is the fit as a function of the five
  * moments of the slice. The lemmas say when that fit is the least-squares line.
  */
module LeastSquares {
  import opened Reals

  /** One sample: rotation angle (or any ordinate) and torque (or any value). */
  datatype Sample = Sample(x: real, y: real)

  datatype Line = Line(slope: real, intercept: real)

  datatype Fit = Fit(slope: real, intercept: real, sse: real, n: nat) {
    function ResidualVariance(): real {
      if n > 2 then sse / (n - 2) as real else 0.0
    }
  }

  /** Sums over a run of samples: count, x, y, x*x, x*y, y*y. */
  datatype Moments = Moments(n: nat, sx: real, sy: real, sxx: real, sxy: real, syy: real) {
    function Add(p: Sample): Moments {
      Moments(n + 1, sx + p.x, sy + p.y, sxx + p.x * p.x, sxy + p.x * p.y, syy + p.y * p.y)
    }

    /** n^2 times the variance of x: the denominator of the slope. */
    function Spread(): real { n as real * sxx - sx * sx }

    /** n^2 times the covariance of x and y: the numerator of the slope. */
    function Covariance(): real { n as real * sxy - sx * sy }
  }

  const FLAT: real := 0.000000000001  // 1e-12

  function MomentsOf(s: seq<Sample>): Moments {
    if s == [] then Moments(0, 0.0, 0.0, 0.0, 0.0, 0.0)
    else MomentsOf(s[..|s| - 1]).Add(s[|s| - 1])
  }

  /** The fitted line; horizontal when x has (almost) no spread. */
  function FittedLine(m: Moments): Line
    requires m.n >= 2
  {
    if Abs(m.Spread()) < FLAT then Line(0.0, m.sy / m.n as real)
    else
      var slope := m.Covariance() / m.Spread();
      Line(slope, (m.sy - slope * m.sx) / m.n as real)
  }

  /** The residual sum in closed form, before it is clamped to zero. */
  function Unclamped(m: Moments, l: Line): real {
    if Abs(m.Spread()) < FLAT then m.syy - m.n as real * l.intercept * l.intercept
    else m.syy - l.intercept * m.sy - l.slope * m.sxy
  }

  function FitOf(m: Moments): Fit {
    if m.n < 2 then Fit(0.0, 0.0, 0.0, m.n)
    else
      var l := FittedLine(m);
      Fit(l.slope, l.intercept, Max(Unclamped(m, l), 0.0), m.n)
  }

  function TotalSquares(m: Moments): real {
    if m.n < 2 then 0.0 else Max(m.syy - m.sy * m.sy / m.n as real, 0.0)
  }

  // ------------------------------------------------------------------
  // What "least squares" means, independent of the closed form
  // ------------------------------------------------------------------

  function Square(r: real): (q: real)
    ensures q >= 0.0
    ensures q == 0.0 <==> r == 0.0
  {
    var q := r * r;
    assert r != 0.0 ==> q > 0.0 by {
      if r != 0.0 { SignOfProduct(r, r, q); }
    }
    q
  }

  function Residual(p: Sample, l: Line): real { p.y - (l.slope * p.x + l.intercept) }

  /** Sum of squared residuals of a line over the samples, added one by one. */
  ghost function Residuals(s: seq<Sample>, line: Line): real {
    if s == [] then 0.0
    else Residuals(s[..|s| - 1], line)
         + Square(Residual(s[|s| - 1], line))
  }

  ghost predicate IsLeastSquares(s: seq<Sample>, line: Line) {
    forall other: Line :: Residuals(s, line) <= Residuals(s, other)
  }

  function LineOf(f: Fit): Line { Line(f.slope, f.intercept) }

  // ------------------------------------------------------------------
  // Residuals as a polynomial in the moments
  // ------------------------------------------------------------------

  function Expanded(m: Moments, l: Line): real {
    m.syy - 2.0 * l.slope * m.sxy - 2.0 * l.intercept * m.sy
    + l.slope * l.slope * m.sxx + 2.0 * l.slope * l.intercept * m.sx
    + m.n as real * l.intercept * l.intercept
  }

  lemma ExpandedStep(m: Moments, p: Sample, l: Line)
    ensures Expanded(m.Add(p), l) == Expanded(m, l) + Square(Residual(p, l))
  {
    var a, b, x, y := l.slope, l.intercept, p.x, p.y;
    var r := y - (a * x + b);
    assert r * r == y * y - 2.0 * a * (x * y) - 2.0 * b * y + a * a * (x * x) + 2.0 * a * b * x + b * b;
    assert (m.n + 1) as real * b * b == m.n as real * b * b + b * b;
  }

  lemma ExpandedZero(l: Line)
    ensures Expanded(MomentsOf([]), l) == 0.0
  {
  }

  lemma {:induction false} ResidualsExpand(s: seq<Sample>, l: Line)
    ensures Residuals(s, l) == Expanded(MomentsOf(s), l)
    ensures Residuals(s, l) >= 0.0
  {
    hide Expanded, Square, Residual;
    ExpandedZero(l);
    if s == [] {
    } else {
      ResidualsExpand(s[..|s| - 1], l);
      ExpandedStep(MomentsOf(s[..|s| - 1]), s[|s| - 1], l);
    }
  }

  lemma {:induction false} MomentsCount(s: seq<Sample>)
    ensures MomentsOf(s).n == |s|
  {
    if s == [] {
    } else {
      MomentsCount(s[..|s| - 1]);
    }
  }


  // ------------------------------------------------------------------
  // Cauchy-Schwarz and the normal equations
  // ------------------------------------------------------------------

  /** The residual polynomial of real data, as a function of two moves away from a line. */
  function Shift(m: Moments, a: real, b: real): real {
    a * a * m.sxx + 2.0 * a * b * m.sx + m.n as real * b * b
  }

  /** Forget the y values: the samples all sit on the axis. */
  function Flatten(s: seq<Sample>): seq<Sample> {
    seq(|s|, i requires 0 <= i < |s| => Sample(s[i].x, 0.0))
  }

  function Flat(m: Moments): Moments {
    Moments(m.n, m.sx, 0.0, m.sxx, 0.0, 0.0)
  }

  lemma FlatAdd(m: Moments, p: Sample)
    ensures Flat(m).Add(Sample(p.x, 0.0)) == Flat(m.Add(p))
  {
  }

  lemma {:induction false} FlattenMoments(s: seq<Sample>)
    ensures MomentsOf(Flatten(s)) == Flat(MomentsOf(s))
  {
    if s == [] {
    } else {
      hide Moments.Add, Flat;
      var k := |s| - 1;
      assert Flatten(s)[..k] == Flatten(s[..k]);
      FlattenMoments(s[..k]);
      FlatAdd(MomentsOf(s[..k]), s[k]);
    }
  }

  /** a sum of squares: sum of (a x + b)^2 */
  lemma ShiftNonNegative(s: seq<Sample>, a: real, b: real)
    ensures Shift(MomentsOf(s), a, b) >= 0.0
  {
    hide Expanded, Shift, Flat;
    FlattenMoments(s);
    ResidualsExpand(Flatten(s), Line(a, b));
    FlatExpanded(MomentsOf(s), Line(a, b));
  }

  lemma FlatExpanded(m: Moments, l: Line)
    ensures Expanded(Flat(m), l) == Shift(m, l.slope, l.intercept)
  {
  }

  lemma NonNegativeFactor(n: real, d: real)
    requires n > 0.0 && n * d >= 0.0
    ensures d >= 0.0
  {
  }

  /** Cauchy-Schwarz for the x moments: the slope's denominator is never negative. */
  lemma SpreadNonNegative(s: seq<Sample>)
    ensures MomentsOf(s).Spread() >= 0.0
  {
    var m := MomentsOf(s);
    MomentsCount(s);
    if s == [] {
    } else {
      var n := m.n as real;
      ShiftNonNegative(s, n, -m.sx);
      SpreadAsShift(m);
      NonNegativeFactor(n, m.Spread());
    }
  }

  lemma SpreadAsShift(m: Moments)
    ensures Shift(m, m.n as real, -m.sx) == m.n as real * m.Spread()
  {
    var n := m.n as real;
    assert n * n * m.sxx + 2.0 * n * (-m.sx) * m.sx + n * (-m.sx) * (-m.sx) == n * (n * m.sxx - m.sx * m.sx);
  }

  /** Moving off a line changes the residuals by a gradient and a sum of squares. */
  lemma MoveLine(m: Moments, l: Line, a: real, b: real)
    ensures Expanded(m, Line(l.slope + a, l.intercept + b))
            == Expanded(m, l)
               - 2.0 * a * (m.sxy - l.slope * m.sxx - l.intercept * m.sx)
               - 2.0 * b * (m.sy - l.slope * m.sx - l.intercept * m.n as real)
               + Shift(m, a, b)
  {
  }

  predicate Normal(m: Moments, l: Line) {
    && m.sxy == l.slope * m.sxx + l.intercept * m.sx
    && m.sy == l.slope * m.sx + l.intercept * m.n as real
  }

  lemma NormalMove(m: Moments, l: Line, a: real, b: real)
    requires Normal(m, l)
    ensures Expanded(m, Line(l.slope + a, l.intercept + b)) == Expanded(m, l) + Shift(m, a, b)
  {
    MoveLine(m, l, a, b);
    assert 2.0 * a * (m.sxy - l.slope * m.sxx - l.intercept * m.sx) == 0.0;
    assert 2.0 * b * (m.sy - l.slope * m.sx - l.intercept * m.n as real) == 0.0;
  }

  lemma NormalIsLeast(s: seq<Sample>, l: Line)
    requires Normal(MomentsOf(s), l)
    ensures IsLeastSquares(s, l)
  {
    hide Expanded, Shift, Normal;
    forall o: Line ensures Residuals(s, l) <= Residuals(s, o) {
      var a, b := o.slope - l.slope, o.intercept - l.intercept;
      NormalMove(MomentsOf(s), l, a, b);
      ShiftNonNegative(s, a, b);
      ResidualsExpand(s, l);
      ResidualsExpand(s, o);
      assert o == Line(l.slope + a, l.intercept + b);
    }
  }

  /** On the normal line the closed form of the residual sum is exact. */
  lemma NormalResidual(m: Moments, l: Line)
    requires Normal(m, l)
    ensures Expanded(m, l) == m.syy - l.intercept * m.sy - l.slope * m.sxy
  {
    assert l.slope * m.sxy == l.slope * (l.slope * m.sxx + l.intercept * m.sx);
    assert l.intercept * m.sy == l.intercept * (l.slope * m.sx + l.intercept * m.n as real);
  }

  /** The quotient formulas solve the normal equations. */
  lemma SlopeIsNormal(m: Moments, l: Line)
    requires m.n >= 2 && m.Spread() > 0.0
    requires l.slope == m.Covariance() / m.Spread()
    requires l.intercept == (m.sy - l.slope * m.sx) / m.n as real
    ensures Normal(m, l)
  {
    Quotient(m.Covariance(), m.Spread(), l.slope);
    Quotient(m.sy - l.slope * m.sx, m.n as real, l.intercept);
    FirstNormal(m, l.slope, l.intercept);
  }

  lemma FirstNormal(m: Moments, slope: real, intercept: real)
    requires m.n > 0
    requires slope * m.Spread() == m.Covariance()
    requires intercept * m.n as real == m.sy - slope * m.sx
    ensures m.sxy == slope * m.sxx + intercept * m.sx
  {
    var n := m.n as real;
    var gap := slope * m.sxx + intercept * m.sx - m.sxy;
    assert n * gap == slope * (n * m.sxx) + (intercept * n) * m.sx - n * m.sxy;
    assert (intercept * n) * m.sx == m.sy * m.sx - slope * (m.sx * m.sx);
    assert slope * m.Spread() == slope * (n * m.sxx) - slope * (m.sx * m.sx);
    assert n * gap == 0.0;
    if gap != 0.0 { NonZero(n, gap); }
  }

  /** With no spread in x there is no covariance either. */
  lemma NoSpreadNoCovariance(s: seq<Sample>)
    requires MomentsOf(s).Spread() == 0.0
    ensures MomentsOf(s).Covariance() == 0.0
  {
    var m := MomentsOf(s);
    var c := m.Covariance();
    if c != 0.0 {
      var t := (m.syy + 1.0) / (2.0 * c);
      Quotient(m.syy + 1.0, 2.0 * c, t);
      hide Expanded;
      ResidualsExpand(s, Line(t * m.n as real, -t * m.sx));
      TiltBelowZero(m, t);
      assert false;
    }
  }

  lemma TiltBelowZero(m: Moments, t: real)
    requires m.Spread() == 0.0 && t * (2.0 * m.Covariance()) == m.syy + 1.0
    ensures Expanded(m, Line(t * m.n as real, -t * m.sx)) == -1.0
  {
    TiltedResidual(m, t);
    assert 2.0 * t * m.Covariance() == m.syy + 1.0;
  }

  lemma TiltedResidual(m: Moments, t: real)
    ensures Expanded(m, Line(t * m.n as real, -t * m.sx))
            == m.syy - 2.0 * t * m.Covariance() + t * t * (m.n as real * m.Spread())
  {
    var n := m.n as real;
    var a, b := t * n, -t * m.sx;
    assert 2.0 * a * m.sxy + 2.0 * b * m.sy == 2.0 * t * (n * m.sxy - m.sx * m.sy);
    assert a * a * m.sxx + 2.0 * a * b * m.sx + n * b * b == t * t * (n * (n * m.sxx - m.sx * m.sx));
  }

  /** The horizontal mean line solves the normal equations when x and y do not covary. */
  lemma MeanIsNormal(m: Moments)
    requires m.n > 0 && m.Covariance() == 0.0
    ensures Normal(m, Line(0.0, m.sy / m.n as real))
  {
    var mean := m.sy / m.n as real;
    Quotient(m.sy, m.n as real, mean);
    FirstNormal(m, 0.0, mean);
  }

  /** Residuals of the horizontal mean line, in closed form. */
  lemma MeanResidual(m: Moments)
    requires m.n > 0
    ensures var mean := m.sy / m.n as real;
            Expanded(m, Line(0.0, mean)) == m.syy - m.n as real * mean * mean
  {
    var mean := m.sy / m.n as real;
    Quotient(m.sy, m.n as real, mean);
    assert m.n as real * mean * mean == m.sy * mean;
  }

  lemma MeanSquare(sy: real, n: real)
    requires n > 0.0
    ensures sy * sy / n == n * (sy / n) * (sy / n)
  {
    var mean := sy / n;
    Quotient(sy, n, mean);
    assert sy * sy == (n * mean * mean) * n;
  }

  /** Tilting a sloped normal line back to the horizontal mean costs residual. */
  lemma MeanCostsMore(m: Moments, best: Line, mean: Line)
    requires m.n > 0 && m.Spread() > 0.0 && Normal(m, best) && best.slope != 0.0
    requires mean.slope == 0.0 && mean.intercept * m.n as real == m.sy
    ensures Expanded(m, best) < Expanded(m, mean)
  {
    var b := mean.intercept - best.intercept;
    NormalMove(m, best, -best.slope, b);
    assert m.n as real * b == best.slope * m.sx;
    TiltCost(m, best.slope, b);
    assert mean == Line(best.slope + -best.slope, best.intercept + b);
  }

  /** A horizontal fallback on covarying samples loses to the sloped line. */
  lemma MeanIsBeaten(s: seq<Sample>, mean: Line)
    requires |s| >= 2 && MomentsOf(s).Spread() > 0.0 && MomentsOf(s).Covariance() != 0.0
    requires mean == Line(0.0, MomentsOf(s).sy / |s| as real)
    ensures !IsLeastSquares(s, mean)
  {
    hide Expanded, Normal;
    var m := MomentsOf(s);
    MomentsCount(s);
    var slope := m.Covariance() / m.Spread();
    var best := Line(slope, (m.sy - slope * m.sx) / m.n as real);
    Quotient(m.sy, m.n as real, mean.intercept);
    Quotient(m.Covariance(), m.Spread(), slope);
    SlopeIsNormal(m, best);
    MeanCostsMore(m, best, mean);
    ResidualsExpand(s, best);
    ResidualsExpand(s, mean);
    assert Residuals(s, mean) > Residuals(s, best);
  }

  lemma TiltCost(m: Moments, slope: real, b: real)
    requires m.n > 0 && m.Spread() > 0.0 && slope != 0.0
    requires m.n as real * b == slope * m.sx
    ensures Shift(m, -slope, b) > 0.0
  {
    var n := m.n as real;
    var q := Shift(m, -slope, b);
    assert n * q == slope * slope * (n * m.sxx) - 2.0 * slope * (n * b) * m.sx + (n * b) * (n * b);
    var sq := Square(slope);
    assert n * q == sq * m.Spread();
    assert Square(slope) > 0.0;
    PositiveProduct(sq, m.Spread());
    if q <= 0.0 { NonPositiveProduct(n, q); }
  }

  // ------------------------------------------------------------------
  // Main results about one fit
  // ------------------------------------------------------------------

  lemma UnclampedIsResidual(m: Moments)
    requires m.n >= 2 && m.Spread() >= 0.0
    ensures Unclamped(m, FittedLine(m)) == Expanded(m, FittedLine(m))
  {
    if m.Spread() < FLAT {
      MeanResidual(m);
    } else {
      SlopeIsNormal(m, FittedLine(m));
      NormalResidual(m, FittedLine(m));
    }
  }

  /** For two or more samples the closed form is the exact residual sum, and the clamp is idle. */
  lemma FitResidual(s: seq<Sample>)
    requires |s| >= 2
    ensures MomentsOf(s).n >= 2
    ensures FitOf(MomentsOf(s)).sse == Residuals(s, LineOf(FitOf(MomentsOf(s))))
    ensures FitOf(MomentsOf(s)).sse == Unclamped(MomentsOf(s), FittedLine(MomentsOf(s)))
  {
    hide Expanded, Unclamped, FittedLine;
    MomentsCount(s);
    SpreadNonNegative(s);
    ResidualsExpand(s, LineOf(FitOf(MomentsOf(s))));
    UnclampedIsResidual(MomentsOf(s));
  }

  /** The reported residual is that of the returned line, except on a single
    * sample off the axis, which the code reports as a perfect fit of y = 0. */
  lemma FitResidualIff(s: seq<Sample>)
    ensures FitOf(MomentsOf(s)).sse == Residuals(s, LineOf(FitOf(MomentsOf(s))))
            <==> (|s| == 1 ==> s[0].y == 0.0)
  {
    MomentsCount(s);
    if |s| >= 2 {
      FitResidual(s);
    } else if |s| == 1 {
      SingleResidual(s, Line(0.0, 0.0));
    }
  }

  lemma SingleResidual(s: seq<Sample>, l: Line)
    requires |s| == 1
    ensures Residuals(s, l) == Square(Residual(s[0], l))
  {
    assert s[..0] == [];
    assert Residuals(s[..0], l) == 0.0;
  }

  /** Exactly when the fit is the least-squares line: always for the sloped
    * branch; in the flat branch only when x and y do not covary. */
  lemma FitLeastSquaresIff(s: seq<Sample>)
    ensures IsLeastSquares(s, LineOf(FitOf(MomentsOf(s)))) <==>
            if |s| == 1 then s[0].y == 0.0
            else MomentsOf(s).Spread() >= FLAT || MomentsOf(s).Covariance() == 0.0
  {
    MomentsCount(s);
    if |s| == 0 {
      assert IsLeastSquares(s, LineOf(FitOf(MomentsOf(s))));
    } else if |s| == 1 {
      SingleLeastSquares(s);
    } else {
      FittedLineLeastIff(s);
    }
  }

  lemma FittedLineLeastIff(s: seq<Sample>)
    requires |s| >= 2
    ensures MomentsOf(s).n == |s|
    ensures IsLeastSquares(s, FittedLine(MomentsOf(s))) <==>
            MomentsOf(s).Spread() >= FLAT || MomentsOf(s).Covariance() == 0.0
  {
    hide IsLeastSquares, FittedLine, Moments.Spread, Moments.Covariance;
    var m := MomentsOf(s);
    MomentsCount(s);
    SpreadNonNegative(s);
    if m.Spread() >= FLAT {
      SlopedFitIsLeast(s);
    } else if m.Covariance() == 0.0 {
      FlatFitIsLeast(s);
    } else {
      if m.Spread() == 0.0 { NoSpreadNoCovariance(s); }
      FlatFitIsBeaten(s);
    }
  }

  lemma SlopedFitIsLeast(s: seq<Sample>)
    requires |s| >= 2 && MomentsOf(s).n == |s| && MomentsOf(s).Spread() >= FLAT
    ensures IsLeastSquares(s, FittedLine(MomentsOf(s)))
  {
    hide Normal, IsLeastSquares, Moments.Spread, Moments.Covariance;
    SlopeIsNormal(MomentsOf(s), FittedLine(MomentsOf(s)));
    NormalIsLeast(s, FittedLine(MomentsOf(s)));
  }

  lemma FlatFitIsLeast(s: seq<Sample>)
    requires |s| >= 2 && MomentsOf(s).n == |s|
    requires 0.0 <= MomentsOf(s).Spread() < FLAT && MomentsOf(s).Covariance() == 0.0
    ensures IsLeastSquares(s, FittedLine(MomentsOf(s)))
  {
    hide Normal, IsLeastSquares;
    MeanIsNormal(MomentsOf(s));
    NormalIsLeast(s, FittedLine(MomentsOf(s)));
  }

  lemma FlatFitIsBeaten(s: seq<Sample>)
    requires |s| >= 2 && MomentsOf(s).n == |s|
    requires 0.0 < MomentsOf(s).Spread() < FLAT && MomentsOf(s).Covariance() != 0.0
    ensures !IsLeastSquares(s, FittedLine(MomentsOf(s)))
  {
    hide IsLeastSquares;
    MeanIsBeaten(s, FittedLine(MomentsOf(s)));
  }

  lemma SingleLeastSquares(s: seq<Sample>)
    requires |s| == 1
    ensures IsLeastSquares(s, Line(0.0, 0.0)) <==> s[0].y == 0.0
  {
    var zero, through := Line(0.0, 0.0), Line(0.0, s[0].y);
    SingleResidual(s, zero);
    SingleResidual(s, through);
    if s[0].y == 0.0 {
      forall o: Line ensures Residuals(s, zero) <= Residuals(s, o) { ResidualsExpand(s, o); }
    } else {
      assert Residual(s[0], through) == 0.0;
      assert Residuals(s, through) < Residuals(s, zero);
    }
  }

  /** Any move off a line changes its values somewhere when the angles spread. */
  lemma ShiftPositive(m: Moments, a: real, b: real)
    requires m.n > 0 && m.Spread() > 0.0 && (a != 0.0 || b != 0.0)
    ensures Shift(m, a, b) > 0.0
  {
    var n, q := m.n as real, Shift(m, a, b);
    ScaledShift(m, a, b);
    if a == 0.0 {
      PositiveProduct(n, Square(b));
    } else {
      PositiveProduct(Square(a), m.Spread());
      assert n * q > 0.0;
      if q <= 0.0 { NonPositiveProduct(n, q); }
    }
  }

  lemma ScaledShift(m: Moments, a: real, b: real)
    ensures m.n as real * Shift(m, a, b) == Square(a) * m.Spread() + Square(a * m.sx + m.n as real * b)
    ensures a == 0.0 ==> Shift(m, a, b) == m.n as real * Square(b)
  {
    var n := m.n as real;
    assert n * Shift(m, a, b) == a * a * (n * m.sxx) + 2.0 * a * (n * b) * m.sx + (n * b) * (n * b);
    var u, v := a * m.sx, n * b;
    assert (u + v) * (u + v) == u * u + 2.0 * u * v + v * v;
    assert u * u == a * a * (m.sx * m.sx);
    assert u * v == a * (n * b) * m.sx;
    assert Square(a) * m.Spread() == a * a * (n * m.sxx) - a * a * (m.sx * m.sx);
  }

  /** With angular spread there is one least-squares line, and the fit returns it. */
  lemma LeastLineIsFitted(s: seq<Sample>, l: Line)
    requires |s| >= 2 && MomentsOf(s).Spread() >= FLAT && IsLeastSquares(s, l)
    ensures l == LineOf(FitOf(MomentsOf(s)))
  {
    hide Expanded, Shift, Normal, Moments.Spread, Moments.Covariance;
    var m := MomentsOf(s);
    MomentsCount(s);
    var best := FittedLine(m);
    SlopeIsNormal(m, best);
    var a, b := l.slope - best.slope, l.intercept - best.intercept;
    NormalMove(m, best, a, b);
    ResidualsExpand(s, l);
    ResidualsExpand(s, best);
    assert l == Line(best.slope + a, best.intercept + b);
    assert Residuals(s, l) <= Residuals(s, best);
    if a != 0.0 || b != 0.0 { ShiftPositive(m, a, b); }
  }

  /** A slice the code can tell apart from a vertical one: what callers check. */
  predicate Resolved(s: seq<Sample>) {
    |s| >= 2 && (MomentsOf(s).Spread() == 0.0 || MomentsOf(s).Spread() >= FLAT)
  }

  lemma ResolvedIsLeastSquares(s: seq<Sample>)
    requires Resolved(s)
    ensures IsLeastSquares(s, LineOf(FitOf(MomentsOf(s))))
    ensures FitOf(MomentsOf(s)).sse == Residuals(s, LineOf(FitOf(MomentsOf(s))))
  {
    if MomentsOf(s).Spread() == 0.0 { NoSpreadNoCovariance(s); }
    FitLeastSquaresIff(s);
    FitResidual(s);
  }

  lemma TwoSamples(a: Sample, b: Sample, l: Line)
    ensures MomentsOf([a, b]) == Moments(2, a.x + b.x, a.y + b.y, a.x * a.x + b.x * b.x,
                                         a.x * a.y + b.x * b.y, a.y * a.y + b.y * b.y)
    ensures Residuals([a, b], l) == Square(Residual(a, l)) + Square(Residual(b, l))
  {
    assert [a, b][..1] == [a] && [a][..0] == [];
    assert MomentsOf([a]) == Moments(1, a.x, a.y, a.x * a.x, a.x * a.y, a.y * a.y);
    SingleResidual([a], l);
  }

  /** The share of variance left over never exceeds the variance: R^2 lies in [0, 1]. */
  lemma FitBeatsMean(s: seq<Sample>)
    requires |s| >= 2
    ensures 0.0 <= FitOf(MomentsOf(s)).sse <= TotalSquares(MomentsOf(s))
  {
    hide Expanded;
    var m, mean := MomentsOf(s), Line(0.0, MomentsOf(s).sy / |s| as real);
    MomentsCount(s);
    SpreadNonNegative(s);
    FitResidual(s);
    ResidualsExpand(s, LineOf(FitOf(m)));
    ResidualsExpand(s, mean);
    TotalIsMeanResidual(m);
    if m.Spread() >= FLAT {
      FitLeastSquaresIff(s);
      assert Residuals(s, LineOf(FitOf(m))) <= Residuals(s, mean);
    }
  }

  lemma TotalIsMeanResidual(m: Moments)
    requires m.n >= 2
    ensures TotalSquares(m) == Max(Expanded(m, Line(0.0, m.sy / m.n as real)), 0.0)
  {
    MeanResidual(m);
    MeanSquare(m.sy, m.n as real);
  }

  // ------------------------------------------------------------------
  // Prefix sums
  // ------------------------------------------------------------------

  /** Moments of the slice [lo, hi), as differences of two prefixes. */
  function Minus(hi: Moments, lo: Moments): Moments
    requires lo.n <= hi.n
  {
    Moments(hi.n - lo.n, hi.sx - lo.sx, hi.sy - lo.sy, hi.sxx - lo.sxx, hi.sxy - lo.sxy, hi.syy - lo.syy)
  }

  /** What makes constant-time fits possible: a slice is a difference of prefixes. */
  lemma {:induction false} SliceIsDifference(s: seq<Sample>, lo: nat, hi: nat)
    requires lo <= hi <= |s|
    ensures MomentsOf(s[..lo]).n == lo && MomentsOf(s[..hi]).n == hi
    ensures MomentsOf(s[lo..hi]) == Minus(MomentsOf(s[..hi]), MomentsOf(s[..lo]))
    decreases hi
  {
    MomentsCount(s[..lo]);
    MomentsCount(s[..hi]);
    if lo == hi {
      assert s[lo..hi] == [];
    } else {
      SliceIsDifference(s, lo, hi - 1);
      assert s[..hi][..hi - 1] == s[..hi - 1];
      assert s[lo..hi][..hi - lo - 1] == s[lo..hi - 1];
      assert s[lo..hi][hi - lo - 1] == s[..hi][hi - 1] == s[hi - 1];
      AddToDifference(MomentsOf(s[..hi - 1]), MomentsOf(s[..lo]), s[hi - 1]);
    }
  }

  lemma AddToDifference(hi: Moments, lo: Moments, p: Sample)
    requires lo.n <= hi.n
    ensures Minus(hi, lo).Add(p) == Minus(hi.Add(p), lo)
  {
  }

  class PrefixSums {
    const n: nat
    const sx: array<real>
    const sy: array<real>
    const sxx: array<real>
    const sxy: array<real>
    const syy: array<real>

    /** Entry k of the five arrays. */
    function At(k: nat): Moments
      requires k < sx.Length && k < sy.Length && k < sxx.Length && k < sxy.Length && k < syy.Length
      reads sx, sy, sxx, sxy, syy
    {
      Moments(k, sx[k], sy[k], sxx[k], sxy[k], syy[k])
    }

    ghost predicate Sized() {
      sx.Length == n + 1 && sy.Length == n + 1 && sxx.Length == n + 1
      && sxy.Length == n + 1 && syy.Length == n + 1
    }

    /** The arrays hold the moments of every prefix of `s`. */
    ghost predicate Holds(s: seq<Sample>)
      reads sx, sy, sxx, sxy, syy
    {
      && Sized()
      && n == |s|
      && forall k: nat :: k <= n ==> At(k) == MomentsOf(s[..k])
    }

    /** The five running sums agree with the prefix moments up to entry `k`. */
    ghost predicate HoldsTo(s: seq<Sample>, k: nat)
      requires Sized() && k <= n == |s|
      reads sx, sy, sxx, sxy, syy
    {
      forall j: nat :: j <= k ==> At(j) == MomentsOf(s[..j])
    }

    constructor (s: seq<Sample>)
      ensures Holds(s)
      ensures fresh(sx) && fresh(sy) && fresh(sxx) && fresh(sxy) && fresh(syy)
    {
      n := |s|;
      sx := new real[|s| + 1](_ => 0.0);
      sy := new real[|s| + 1](_ => 0.0);
      sxx := new real[|s| + 1](_ => 0.0);
      sxy := new real[|s| + 1](_ => 0.0);
      syy := new real[|s| + 1](_ => 0.0);
      new;
      assert At(0) == MomentsOf(s[..0]);
      for i := 0 to |s|
        invariant HoldsTo(s, i)
      {
        Accumulate(i, s[i], s);
      }
    }

    /** One round of the constructor's loop: entry i + 1 from entry i. */
    method Accumulate(i: nat, p: Sample, ghost s: seq<Sample>)
      requires Sized() && i < n == |s| && p == s[i]
      requires sx != sy && sx != sxx && sx != sxy && sx != syy && sy != sxx && sy != sxy
      requires sy != syy && sxx != sxy && sxx != syy && sxy != syy
      requires HoldsTo(s, i)
      modifies sx, sy, sxx, sxy, syy
      ensures HoldsTo(s, i + 1)
    {
      ghost var sum := At(i).Add(p);
      sx[i + 1] := sx[i] + p.x;
      sy[i + 1] := sy[i] + p.y;
      sxx[i + 1] := sxx[i] + p.x * p.x;
      sxy[i + 1] := sxy[i] + p.x * p.y;
      syy[i + 1] := syy[i] + p.y * p.y;
      assert At(i + 1) == sum;
      assert s[..i + 1][..i] == s[..i];
    }

    /** Constant-time fit over [lo, hi). */
    method FitSlice(lo: nat, hi: nat, ghost s: seq<Sample>) returns (f: Fit)
      requires Holds(s) && lo <= hi <= n
      ensures f == FitOf(MomentsOf(s[lo..hi]))
    {
      SliceIsDifference(s, lo, hi);
      f := FitOf(Minus(At(hi), At(lo)));
    }

    method TotalSumSquares(lo: nat, hi: nat, ghost s: seq<Sample>) returns (t: real)
      requires Holds(s) && lo <= hi <= n
      ensures t == TotalSquares(MomentsOf(s[lo..hi]))
    {
      SliceIsDifference(s, lo, hi);
      t := TotalSquares(Minus(At(hi), At(lo)));
    }
  }
}
