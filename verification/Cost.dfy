/** Cost triage: price each action, recommend one, and say when a human must decide. */
module Cost {
  import opened Reals

  datatype Disposition = Accept | Rework | Quarantine | Scrap | HaltLine

  datatype CostModel = CostModel(
    material: real, reworkMinutes: real, labourRate: real, reworkParts: real, lineRate: real, margin: real,
    failureRate: real, warranty: real, recall: real, inspection: real)

  datatype Context = Context(
    probability: real, uncertainty: real, scope: int, haltHours: real, safetyCritical: bool)

  datatype ActionCost = ActionCost(
    action: Disposition, expected: real, low: real, high: real, ifDefective: real, ifFine: real)

  datatype Decision = Decision(recommended: Disposition, ranked: seq<ActionCost>, requiresHuman: bool)

  /** When a decision is not decisive enough, or too costly, for the engine alone. */
  datatype Limits = Limits(indifference: real, highConsequence: real)

  const DEFAULT_LIMITS := Limits(0.10, 50000.0)

  function Clamp(p: real): real { Min(Max(p, 0.0), 1.0) }

  predicate Autonomous(a: Disposition) { !a.HaltLine? }

  // ------------------------------------------------------------------
  // Cost components
  // ------------------------------------------------------------------

  function ReworkCost(m: CostModel, units: int): real {
    units as real * ((m.reworkMinutes / 60.0) * m.labourRate + m.reworkParts)
  }

  function ScrapCost(m: CostModel, units: int): real { units as real * (m.material + m.margin) }

  function EscapeCost(m: CostModel, units: int): real {
    units as real * (m.failureRate * (m.warranty + m.recall))
  }

  /** What quarantining costs before anything is known to be defective. */
  function HoldCost(m: CostModel, units: int): real {
    m.inspection * units as real + 0.25 * (m.reworkMinutes / 60.0) * m.labourRate * units as real
  }

  function HaltCost(m: CostModel, hours: real): real { hours * m.lineRate * m.margin }

  function Units(scope: int): (n: int)
    ensures n >= 1
  {
    if scope > 1 then scope else 1
  }

  function Row(a: Disposition, ifDefective: real, ifFine: real): ActionCost {
    ActionCost(a, 0.0, 0.0, 0.0, ifDefective, ifFine)
  }

  function AutonomousRows(m: CostModel, n: int): (rows: seq<ActionCost>)
    ensures |rows| == 4
  {
    [ Row(Accept, EscapeCost(m, n), 0.0),
      Row(Rework, ReworkCost(m, n), ReworkCost(m, n)),
      Row(Quarantine, HoldCost(m, n) + ReworkCost(m, n), HoldCost(m, n)),
      Row(Scrap, ScrapCost(m, n), ScrapCost(m, n)) ]
  }

  function ActionRows(m: CostModel, ctx: Context): (rows: seq<ActionCost>)
    ensures |rows| >= 4
  {
    var n := Units(ctx.scope);
    AutonomousRows(m, n)
    + if ctx.haltHours > 0.0 then
        [Row(HaltLine, HaltCost(m, ctx.haltHours) + ReworkCost(m, n), HaltCost(m, ctx.haltHours))]
      else []
  }

  /** Expected cost of a row at defect probability p. */
  function Mix(p: real, ifDefective: real, ifFine: real): real { p * ifDefective + (1.0 - p) * ifFine }

  function Expected(row: ActionCost, p: real): real { Mix(p, row.ifDefective, row.ifFine) }

  function Priced(row: ActionCost, p: real, lo: real, hi: real): ActionCost {
    ActionCost(row.action, Expected(row, p), Min(Expected(row, lo), Expected(row, hi)),
               Max(Expected(row, lo), Expected(row, hi)), row.ifDefective, row.ifFine)
  }

  function PricedAll(rows: seq<ActionCost>, p: real, lo: real, hi: real): (r: seq<ActionCost>)
    ensures |r| == |rows|
  {
    seq(|rows|, i requires 0 <= i < |rows| => Priced(rows[i], p, lo, hi))
  }

  function ContextRows(m: CostModel, ctx: Context): (r: seq<ActionCost>)
    ensures |r| >= 4
  {
    var p, u := Clamp(ctx.probability), Max(ctx.uncertainty, 0.0);
    PricedAll(ActionRows(m, ctx), p, Max(p - u, 0.0), Min(p + u, 1.0))
  }

  // ------------------------------------------------------------------
  // Stable sort by expected cost
  // ------------------------------------------------------------------

  /** Insert behind everything that costs no more. */
  function Insert(sorted: seq<ActionCost>, r: ActionCost): (s: seq<ActionCost>)
    ensures |s| == |sorted| + 1
  {
    if sorted == [] || sorted[|sorted| - 1].expected <= r.expected then sorted + [r]
    else Insert(sorted[..|sorted| - 1], r) + [sorted[|sorted| - 1]]
  }

  /** What Python's stable `sort(key=expected_cost)` leaves behind. */
  function StableSort(rows: seq<ActionCost>): (s: seq<ActionCost>)
    ensures |s| == |rows|
  {
    if rows == [] then [] else Insert(StableSort(rows[..|rows| - 1]), rows[|rows| - 1])
  }

  predicate Sorted(rows: seq<ActionCost>) {
    forall i, j :: 0 <= i < j < |rows| ==> rows[i].expected <= rows[j].expected
  }

  function KeepAutonomous(rows: seq<ActionCost>): (r: seq<ActionCost>)
    ensures |r| <= |rows|
  {
    if rows == [] then []
    else KeepAutonomous(rows[..|rows| - 1])
         + (if Autonomous(rows[|rows| - 1].action) then [rows[|rows| - 1]] else [])
  }

  /** Position of the first row of least expected cost. */
  function CheapestAt(rows: seq<ActionCost>): (k: nat)
    requires rows != []
    ensures k < |rows|
    ensures forall i :: 0 <= i < |rows| ==> rows[k].expected <= rows[i].expected
    ensures forall i :: 0 <= i < k ==> rows[k].expected < rows[i].expected
  {
    if |rows| == 1 then 0
    else
      var n := |rows| - 1;
      var k := CheapestAt(rows[..n]);
      assert forall i :: 0 <= i < n ==> rows[..n][i] == rows[i];
      if rows[n].expected < rows[k].expected then n else k
  }

  function Cheapest(rows: seq<ActionCost>): ActionCost
    requires rows != []
  {
    rows[CheapestAt(rows)]
  }

  lemma {:induction false} InsertMembers(sorted: seq<ActionCost>, r: ActionCost)
    ensures multiset(Insert(sorted, r)) == multiset(sorted) + multiset{r}
  {
    if sorted == [] || sorted[|sorted| - 1].expected <= r.expected {
    } else {
      var k := |sorted| - 1;
      assert sorted == sorted[..k] + [sorted[k]];
      InsertMembers(sorted[..k], r);
    }
  }

  lemma {:induction false} InsertSorted(sorted: seq<ActionCost>, r: ActionCost)
    requires Sorted(sorted)
    ensures Sorted(Insert(sorted, r))
    ensures forall x :: x in Insert(sorted, r) ==> x == r || x in sorted
    ensures Insert(sorted, r)[0] == if sorted == [] || r.expected < sorted[0].expected then r else sorted[0]
  {
    if sorted == [] || sorted[|sorted| - 1].expected <= r.expected {
    } else {
      var k := |sorted| - 1;
      InsertSorted(sorted[..k], r);
      forall x | x in Insert(sorted[..k], r) ensures x.expected <= sorted[k].expected {
        if x != r { assert x in sorted[..k]; }
      }
      SortedSnoc(Insert(sorted[..k], r), sorted[k]);
    }
  }

  lemma SortedSnoc(rows: seq<ActionCost>, last: ActionCost)
    requires Sorted(rows) && forall x :: x in rows ==> x.expected <= last.expected
    ensures Sorted(rows + [last])
  {
  }

  lemma EmptyUnfolds()
    ensures KeepAutonomous([]) == [] && StableSort([]) == [] && Sorted([])
  {
  }

  lemma SnocUnfolds(rows: seq<ActionCost>, x: ActionCost)
    ensures StableSort(rows + [x]) == Insert(StableSort(rows), x)
    ensures KeepAutonomous(rows + [x])
            == if Autonomous(x.action) then KeepAutonomous(rows) + [x] else KeepAutonomous(rows)
  {
    assert (rows + [x])[..|rows|] == rows;
  }

  lemma CheapestSnoc(rows: seq<ActionCost>, x: ActionCost)
    ensures Cheapest(rows + [x]) == if rows == [] || x.expected < Cheapest(rows).expected then x else Cheapest(rows)
  {
    assert (rows + [x])[..|rows|] == rows;
  }

  /** The sort is a sorted permutation that starts with the first cheapest row. */
  lemma {:induction false} StableSortCorrect(rows: seq<ActionCost>)
    ensures Sorted(StableSort(rows)) && multiset(StableSort(rows)) == multiset(rows)
    ensures rows != [] ==> StableSort(rows)[0] == Cheapest(rows)
  {
    hide StableSort, Insert, Sorted, Cheapest;
    EmptyUnfolds();
    if rows == [] {
    } else {
      var k := |rows| - 1;
      assert rows == rows[..k] + [rows[k]];
      StableSortCorrect(rows[..k]);
      SnocUnfolds(rows[..k], rows[k]);
      CheapestSnoc(rows[..k], rows[k]);
      InsertSorted(StableSort(rows[..k]), rows[k]);
      InsertMembers(StableSort(rows[..k]), rows[k]);
    }
  }

  lemma InsertAppends(rows: seq<ActionCost>, r: ActionCost)
    requires rows == [] || rows[|rows| - 1].expected <= r.expected
    ensures Insert(rows, r) == rows + [r]
  {
  }

  lemma InsertBefore(rows: seq<ActionCost>, x: ActionCost, r: ActionCost)
    requires r.expected < x.expected
    ensures Insert(rows + [x], r) == Insert(rows, r) + [x]
  {
    assert (rows + [x])[..|rows|] == rows;
  }

  lemma SortedInit(rows: seq<ActionCost>)
    requires rows != [] && Sorted(rows)
    ensures Sorted(rows[..|rows| - 1])
  {
  }

  lemma {:induction false} KeepInsert(sorted: seq<ActionCost>, r: ActionCost)
    requires Sorted(sorted)
    ensures KeepAutonomous(Insert(sorted, r))
            == if Autonomous(r.action) then Insert(KeepAutonomous(sorted), r) else KeepAutonomous(sorted)
  {
    hide KeepAutonomous, Autonomous, Insert, Sorted;
    EmptyUnfolds();
    if sorted == [] || sorted[|sorted| - 1].expected <= r.expected {
      KeepBelow(sorted);
      SnocUnfolds(sorted, r);
      InsertAppends(sorted, r);
      InsertAppends(KeepAutonomous(sorted), r);
    } else {
      var k := |sorted| - 1;
      assert sorted == sorted[..k] + [sorted[k]];
      SortedInit(sorted);
      KeepInsert(sorted[..k], r);
      InsertBefore(sorted[..k], sorted[k], r);
      InsertBefore(KeepAutonomous(sorted[..k]), sorted[k], r);
      SnocUnfolds(Insert(sorted[..k], r), sorted[k]);
      SnocUnfolds(sorted[..k], sorted[k]);
    }
  }

  lemma {:induction false} KeepBelow(rows: seq<ActionCost>)
    requires Sorted(rows)
    ensures forall x :: x in KeepAutonomous(rows) ==> x in rows
    ensures KeepAutonomous(rows) != [] ==>
              KeepAutonomous(rows)[|KeepAutonomous(rows)| - 1].expected <= rows[|rows| - 1].expected
  {
    if rows == [] {
    } else {
      var k := |rows| - 1;
      assert rows == rows[..k] + [rows[k]];
      KeepBelow(rows[..k]);
      if KeepAutonomous(rows) != [] && !Autonomous(rows[k].action) {
        var last := KeepAutonomous(rows)[|KeepAutonomous(rows)| - 1];
        assert last in rows[..k];
      }
    }
  }

  /** Dropping the halt row commutes with sorting. */
  lemma {:induction false} KeepSorted(rows: seq<ActionCost>)
    ensures KeepAutonomous(StableSort(rows)) == StableSort(KeepAutonomous(rows))
  {
    if rows == [] {
    } else {
      hide StableSort, KeepAutonomous, Insert, Sorted, Autonomous;
      var k := |rows| - 1;
      assert rows == rows[..k] + [rows[k]];
      KeepSorted(rows[..k]);
      StableSortCorrect(rows[..k]);
      SnocUnfolds(rows[..k], rows[k]);
      SnocUnfolds(KeepAutonomous(rows[..k]), rows[k]);
      KeepInsert(StableSort(rows[..k]), rows[k]);
    }
  }

  // ------------------------------------------------------------------
  // Triage
  // ------------------------------------------------------------------

  function TriageOf(m: CostModel, ctx: Context, limits: Limits): Decision {
    var rows := StableSort(ContextRows(m, ctx));
    var kept := KeepAutonomous(rows);
    FourAutonomous(m, ctx);
    var best := kept[0];
    Decision(best.action, rows,
      || rows[0].action == HaltLine
      || best.expected > limits.highConsequence
      || (ctx.safetyCritical && best.action == Accept)
      || kept[1].expected - best.expected < limits.indifference * Max(best.expected, 1.0)
      || best.high - best.low > 0.5 * Max(best.expected, 1.0))
  }

  /** The engine's own steps: price each row, sort, pick the best autonomous action, collect
    * the reasons for asking a human. There are always four autonomous rows. */
  method Triage(m: CostModel, ctx: Context, limits: Limits) returns (d: Decision)
    ensures d == TriageOf(m, ctx, limits)
    ensures forall r :: r in d.ranked ==> r.expected == Price(m, ctx, Clamp(ctx.probability), r.action)
  {
    hide Expected, ActionRows, StableSort, KeepAutonomous, Price;
    var p, u := Clamp(ctx.probability), Max(ctx.uncertainty, 0.0);
    var lo, hi := Max(p - u, 0.0), Min(p + u, 1.0);
    var base := ActionRows(m, ctx);
    var rows: seq<ActionCost> := [];
    for i := 0 to |base|
      invariant rows == PricedAll(base[..i], p, lo, hi)
    {
      rows := rows + [Priced(base[i], p, lo, hi)];
    }
    assert base[..|base|] == base;
    rows := StableSort(rows);
    var autonomous := KeepAutonomous(rows);
    FourAutonomous(m, ctx);
    var best := autonomous[0];
    var requiresHuman := false;
    if rows[0].action == HaltLine { requiresHuman := true; }
    if best.expected > limits.highConsequence { requiresHuman := true; }
    if ctx.safetyCritical && best.action == Accept { requiresHuman := true; }
    if autonomous[1].expected - best.expected < limits.indifference * Max(best.expected, 1.0) { requiresHuman := true; }
    if best.high - best.low > 0.5 * Max(best.expected, 1.0) { requiresHuman := true; }
    d := Decision(best.action, rows, requiresHuman);
    RankedAtPrice(m, ctx, limits);
  }

  lemma FourAutonomous(m: CostModel, ctx: Context)
    ensures |KeepAutonomous(StableSort(ContextRows(m, ctx)))| == 4
    ensures KeepAutonomous(ContextRows(m, ctx)) == ContextRows(m, ctx)[..4]
    ensures KeepAutonomous(StableSort(ContextRows(m, ctx)))[0] == Cheapest(ContextRows(m, ctx)[..4])
  {
    hide StableSort, Cheapest;
    KeepSorted(ContextRows(m, ctx));
    KeepFour(ContextRows(m, ctx));
    StableSortCorrect(ContextRows(m, ctx)[..4]);
  }

  lemma KeepFour(rows: seq<ActionCost>)
    requires 4 <= |rows| <= 5 && forall i :: 0 <= i < |rows| ==> (Autonomous(rows[i].action) <==> i < 4)
    ensures KeepAutonomous(rows) == rows[..4]
  {
    forall x | x in rows[..4] ensures Autonomous(x.action) {
      var i :| 0 <= i < 4 && x == rows[i];
    }
    KeepAll(rows[..4]);
    if |rows| == 4 { assert rows[..4] == rows; } else { assert !Autonomous(rows[4].action); }
  }

  lemma {:induction false} KeepAll(rows: seq<ActionCost>)
    requires forall x :: x in rows ==> Autonomous(x.action)
    ensures KeepAutonomous(rows) == rows
  {
    if rows == [] {
    } else {
      KeepAll(rows[..|rows| - 1]);
    }
  }

  // ------------------------------------------------------------------
  // The recommendation depends on P(defect) and the cost model only
  // ------------------------------------------------------------------

  /** Expected cost per unit of the four autonomous actions. */
  function UnitRows(m: CostModel, p: real): (rows: seq<ActionCost>)
    ensures |rows| == 4
  {
    PricedAll(AutonomousRows(m, 1), p, p, p)
  }

  /** The action recommended at (clamped) defect probability p, for one unit and no halt. */
  function Choose(m: CostModel, p: real): Disposition {
    Cheapest(UnitRows(m, Clamp(p))).action
  }

  lemma CostsScale(m: CostModel, n: int)
    requires n >= 1
    ensures ReworkCost(m, n) == n as real * ReworkCost(m, 1)
    ensures ScrapCost(m, n) == n as real * ScrapCost(m, 1)
    ensures EscapeCost(m, n) == n as real * EscapeCost(m, 1)
    ensures HoldCost(m, n) == n as real * HoldCost(m, 1)
  {
    assert 0.25 * (m.reworkMinutes / 60.0) * m.labourRate * n as real
        == n as real * (0.25 * (m.reworkMinutes / 60.0) * m.labourRate);
  }

  lemma RowScales(row: ActionCost, unit: ActionCost, k: real, p: real)
    requires row.ifDefective == k * unit.ifDefective && row.ifFine == k * unit.ifFine
    ensures Expected(row, p) == k * Expected(unit, p)
  {
    assert p * (k * unit.ifDefective) == k * (p * unit.ifDefective);
    assert (1.0 - p) * (k * unit.ifFine) == k * ((1.0 - p) * unit.ifFine);
  }

  /** Every autonomous row at scope n costs n times the row at scope 1. */
  lemma RowsScale(m: CostModel, n: int, p: real, i: nat)
    requires n >= 1 && i < 4
    ensures AutonomousRows(m, n)[i].action == AutonomousRows(m, 1)[i].action
    ensures Expected(AutonomousRows(m, n)[i], p) == Scaled(n as real, Expected(AutonomousRows(m, 1)[i], p))
  {
    hide Expected, ReworkCost, ScrapCost, EscapeCost, HoldCost;
    CostsScale(m, n);
    var k, unit, row := n as real, AutonomousRows(m, 1)[i], AutonomousRows(m, n)[i];
    Distribute(k, HoldCost(m, 1), ReworkCost(m, 1));
    assert row.ifDefective == k * unit.ifDefective && row.ifFine == k * unit.ifFine;
    RowScales(row, unit, k, p);
  }

  lemma Distribute(k: real, a: real, b: real)
    ensures k * (a + b) == k * a + k * b
    ensures k * 0.0 == 0.0
  {
  }

  /** Rows in the same order of cost have their cheapest row in the same place. */
  lemma SameOrderSameCheapest(xs: seq<ActionCost>, ys: seq<ActionCost>)
    requires xs != [] && |xs| == |ys|
    requires forall i, j :: 0 <= i < |xs| && 0 <= j < |xs| ==>
               (xs[i].expected < xs[j].expected <==> ys[i].expected < ys[j].expected)
    ensures CheapestAt(xs) == CheapestAt(ys)
  {
    var a, b := CheapestAt(xs), CheapestAt(ys);
    assert xs[a].expected <= xs[b].expected && ys[b].expected <= ys[a].expected;
  }

  function Scaled(k: real, a: real): real { k * a }

  lemma OrderScales(a: real, b: real, k: real)
    requires k > 0.0
    ensures Scaled(k, a) < Scaled(k, b) <==> a < b
  {
  }

  lemma ScaledSameCheapest(xs: seq<ActionCost>, ys: seq<ActionCost>, k: real)
    requires xs != [] && |xs| == |ys| && k > 0.0
    requires forall i :: 0 <= i < |xs| ==> ys[i].expected == Scaled(k, xs[i].expected)
    ensures CheapestAt(xs) == CheapestAt(ys)
  {
    hide Scaled;
    forall i, j | 0 <= i < |xs| && 0 <= j < |xs|
      ensures xs[i].expected < xs[j].expected <==> ys[i].expected < ys[j].expected
    {
      OrderScales(xs[i].expected, xs[j].expected, k);
    }
    SameOrderSameCheapest(xs, ys);
  }

  /** The recommendation is the same for every containment scope, halt duration, uncertainty,
    * safety flag and pair of limits, and is never to halt the line. */
  lemma RecommendationIsChoose(m: CostModel, ctx: Context, limits: Limits)
    ensures TriageOf(m, ctx, limits).recommended == Choose(m, ctx.probability)
    ensures TriageOf(m, ctx, limits).recommended != HaltLine
  {
    hide Expected, AutonomousRows, StableSort, KeepAutonomous, CheapestAt, Clamp, Scaled;
    var p := Clamp(ctx.probability);
    FourAutonomous(m, ctx);
    var xs, ys := UnitRows(m, p), ContextRows(m, ctx)[..4];
    forall i | 0 <= i < 4
      ensures ys[i].action == xs[i].action && ys[i].expected == Scaled(Units(ctx.scope) as real, xs[i].expected)
    {
      assert ActionRows(m, ctx)[i] == AutonomousRows(m, Units(ctx.scope))[i];
      RowsScale(m, Units(ctx.scope), p, i);
    }
    ScaledSameCheapest(xs, ys, Units(ctx.scope) as real);
    UnitRowsAutonomous(m, p);
  }

  lemma UnitRowsAutonomous(m: CostModel, p: real)
    ensures forall x :: x in UnitRows(m, p) ==> Autonomous(x.action)
  {
  }

  // ------------------------------------------------------------------
  // Sweeping P(defect)
  // ------------------------------------------------------------------

  lemma ClampOrder(a: real, b: real)
    requires a <= b
    ensures 0.0 <= Clamp(a) <= Clamp(b) <= 1.0
  {
  }

  /** The gap between two rows is affine in p, so it cannot dip below both its ends. */
  lemma GapBetween(x: ActionCost, y: ActionCost, p: real, q: real, r: real)
    requires p <= q <= r
    ensures Expected(x, p) <= Expected(y, p) && Expected(x, r) <= Expected(y, r) ==> Expected(x, q) <= Expected(y, q)
    ensures Expected(x, p) < Expected(y, p) && Expected(x, r) < Expected(y, r) ==> Expected(x, q) < Expected(y, q)
  {
    var a := x.ifFine - y.ifFine;
    var s := (x.ifDefective - x.ifFine) - (y.ifDefective - y.ifFine);
    GapAffine(x, y, p, a, s);
    GapAffine(x, y, q, a, s);
    GapAffine(x, y, r, a, s);
    if s >= 0.0 { NonNegativeProduct(s, r - q, s * (r - q)); } else { NonNegativeProduct(-s, q - p, (-s) * (q - p)); }
    assert s * (r - q) == s * r - s * q && (-s) * (q - p) == s * p - s * q;
  }

  lemma GapAffine(x: ActionCost, y: ActionCost, p: real, a: real, s: real)
    requires a == x.ifFine - y.ifFine && s == (x.ifDefective - x.ifFine) - (y.ifDefective - y.ifFine)
    ensures Expected(x, p) - Expected(y, p) == a + s * p
  {
  }

  /** Each disposition is recommended on an interval of P(defect). */
  lemma ChoiceIsInterval(m: CostModel, p: real, q: real, r: real)
    requires p <= q <= r && Choose(m, p) == Choose(m, r)
    ensures Choose(m, q) == Choose(m, p)
  {
    hide Expected, AutonomousRows, CheapestAt, Clamp;
    ClampOrder(p, q);
    ClampOrder(q, r);
    var base := AutonomousRows(m, 1);
    var xs, ys, zs := UnitRows(m, Clamp(p)), UnitRows(m, Clamp(q)), UnitRows(m, Clamp(r));
    var i := CheapestAt(xs);
    DistinctActions(m, i, CheapestAt(zs));
    forall c | 0 <= c < 4
      ensures ys[i].expected <= ys[c].expected
      ensures c < i ==> ys[i].expected < ys[c].expected
    {
      assert xs[i].expected <= xs[c].expected && zs[i].expected <= zs[c].expected;
      assert c < i ==> xs[i].expected < xs[c].expected && zs[i].expected < zs[c].expected;
      GapBetween(base[i], base[c], Clamp(p), Clamp(q), Clamp(r));
    }
    EarliestIsCheapest(ys, i);
  }

  lemma EarliestIsCheapest(rows: seq<ActionCost>, i: nat)
    requires i < |rows|
    requires forall c :: 0 <= c < |rows| ==> rows[i].expected <= rows[c].expected
    requires forall c :: 0 <= c < i ==> rows[i].expected < rows[c].expected
    ensures CheapestAt(rows) == i
  {
  }

  lemma DistinctActions(m: CostModel, i: nat, j: nat)
    requires i < 4 && j < 4
    ensures AutonomousRows(m, 1)[i].action == AutonomousRows(m, 1)[j].action <==> i == j
  {
  }

  method Sensitivity(m: CostModel, ctx: Context, probabilities: seq<real>)
    returns (sweep: seq<(real, Disposition, real)>)
    ensures |sweep| == |probabilities|
    ensures forall i :: 0 <= i < |sweep| ==>
              sweep[i] == (probabilities[i], Choose(m, probabilities[i]), SweptCost(m, ctx, probabilities[i]))
  {
    hide TriageOf, Choose, StableSort;
    sweep := [];
    for i := 0 to |probabilities|
      invariant |sweep| == i
      invariant forall k :: 0 <= k < i ==>
                  sweep[k] == (probabilities[k], Choose(m, probabilities[k]), SweptCost(m, ctx, probabilities[k]))
    {
      var at := ctx.(probability := probabilities[i]);
      var d := Triage(m, at, DEFAULT_LIMITS);
      RecommendationIsChoose(m, at, DEFAULT_LIMITS);
      RankedFirst(m, at, DEFAULT_LIMITS);
      sweep := sweep + [(probabilities[i], d.recommended, d.ranked[0].expected)];
    }
  }

  lemma RankedFirst(m: CostModel, ctx: Context, limits: Limits)
    ensures |TriageOf(m, ctx, limits).ranked| > 0
    ensures TriageOf(m, ctx, limits).ranked[0] == Cheapest(ContextRows(m, ctx))
  {
    hide Cheapest;
    StableSortCorrect(ContextRows(m, ctx));
  }

  /** An increasing sweep never returns to a disposition it has left. */
  lemma SweepNeverReturns(m: CostModel, ps: seq<real>, i: nat, j: nat, k: nat)
    requires i < j < k < |ps| && forall a, b :: 0 <= a < b < |ps| ==> ps[a] <= ps[b]
    requires Choose(m, ps[i]) != Choose(m, ps[j])
    ensures Choose(m, ps[k]) != Choose(m, ps[i])
  {
    if Choose(m, ps[k]) == Choose(m, ps[i]) { ChoiceIsInterval(m, ps[i], ps[j], ps[k]); }
  }

  /** The cost the sweep reports: the cheapest row, the halt row included. */
  function SweptCost(m: CostModel, ctx: Context, p: real): real {
    Cheapest(ContextRows(m, ctx.(probability := p))).expected
  }

  ghost predicate NonNegative(m: CostModel) {
    && m.material >= 0.0 && m.reworkMinutes >= 0.0 && m.labourRate >= 0.0 && m.reworkParts >= 0.0
    && m.lineRate >= 0.0 && m.margin >= 0.0 && m.failureRate >= 0.0 && m.warranty >= 0.0
    && m.recall >= 0.0 && m.inspection >= 0.0
  }

  lemma CostsNonNegative(m: CostModel, n: int)
    requires NonNegative(m) && n >= 0
    ensures ReworkCost(m, n) >= 0.0 && ScrapCost(m, n) >= 0.0 && EscapeCost(m, n) >= 0.0 && HoldCost(m, n) >= 0.0
  {
    var units, hours, share := n as real, m.reworkMinutes / 60.0, 0.25 * (m.reworkMinutes / 60.0);
    var labour, rework := hours * m.labourRate, hours * m.labourRate + m.reworkParts;
    var inspected, escape := share * m.labourRate, m.failureRate * (m.warranty + m.recall);
    NonNegativeProduct(hours, m.labourRate, labour);
    NonNegativeProduct(units, rework, units * rework);
    NonNegativeProduct(units, m.material + m.margin, units * (m.material + m.margin));
    NonNegativeProduct(m.failureRate, m.warranty + m.recall, escape);
    NonNegativeProduct(units, escape, units * escape);
    NonNegativeProduct(m.inspection, units, m.inspection * units);
    NonNegativeProduct(share, m.labourRate, inspected);
    NonNegativeProduct(inspected, units, inspected * units);
  }

  /** With non-negative costs a defective unit never costs less than a fine one. */
  lemma DefectCostsMore(m: CostModel, ctx: Context, i: nat)
    requires NonNegative(m) && i < |ActionRows(m, ctx)|
    ensures ActionRows(m, ctx)[i].ifFine <= ActionRows(m, ctx)[i].ifDefective
  {
    hide ReworkCost, ScrapCost, EscapeCost, HoldCost, HaltCost;
    CostsNonNegative(m, Units(ctx.scope));
  }

  lemma ExpectedRises(row: ActionCost, p: real, q: real)
    requires p <= q && row.ifFine <= row.ifDefective
    ensures Expected(row, p) <= Expected(row, q)
  {
    NonNegativeProduct(q - p, row.ifDefective - row.ifFine, (q - p) * (row.ifDefective - row.ifFine));
    assert (q - p) * (row.ifDefective - row.ifFine) == Expected(row, q) - Expected(row, p);
  }

  lemma RowAt(m: CostModel, ctx: Context, p: real, i: nat)
    requires i < |ActionRows(m, ctx)|
    ensures |ContextRows(m, ctx.(probability := p))| == |ActionRows(m, ctx)|
    ensures ContextRows(m, ctx.(probability := p))[i].expected == Expected(ActionRows(m, ctx)[i], Clamp(p))
  {
    assert ActionRows(m, ctx.(probability := p)) == ActionRows(m, ctx);
  }

  /** The swept minimum never falls as P(defect) rises. */
  lemma SweptCostRises(m: CostModel, ctx: Context, p: real, q: real)
    requires NonNegative(m) && p <= q
    ensures SweptCost(m, ctx, p) <= SweptCost(m, ctx, q)
  {
    hide Expected, ActionRows, CheapestAt, Clamp, ContextRows, NonNegative;
    ClampOrder(p, q);
    var xs, ys := ContextRows(m, ctx.(probability := p)), ContextRows(m, ctx.(probability := q));
    RowAt(m, ctx, p, 0);
    RowAt(m, ctx, q, 0);
    var k := CheapestAt(ys);
    RowAt(m, ctx, p, k);
    RowAt(m, ctx, q, k);
    DefectCostsMore(m, ctx, k);
    ExpectedRises(ActionRows(m, ctx)[k], Clamp(p), Clamp(q));
    assert xs[CheapestAt(xs)].expected <= xs[k].expected;
  }

  /** The swept minimum is concave on [0, 1]: it lies above its chords. */
  lemma SweptCostConcave(m: CostModel, ctx: Context, p: real, q: real, r: real)
    requires 0.0 <= p <= q <= r <= 1.0
    ensures (r - p) * SweptCost(m, ctx, q) >= (r - q) * SweptCost(m, ctx, p) + (q - p) * SweptCost(m, ctx, r)
  {
    hide Expected, ActionRows, CheapestAt, ContextRows, Clamp;
    var xs, ys, zs := ContextRows(m, ctx.(probability := p)), ContextRows(m, ctx.(probability := q)),
                      ContextRows(m, ctx.(probability := r));
    RowAt(m, ctx, p, 0);
    RowAt(m, ctx, q, 0);
    RowAt(m, ctx, r, 0);
    var k := CheapestAt(ys);
    RowAt(m, ctx, p, k);
    RowAt(m, ctx, q, k);
    RowAt(m, ctx, r, k);
    ClampSame(p, q, r);
    assert Cheapest(xs).expected <= xs[k].expected && Cheapest(zs).expected <= zs[k].expected;
    AboveChord(ActionRows(m, ctx)[k], p, q, r, SweptCost(m, ctx, p), SweptCost(m, ctx, q), SweptCost(m, ctx, r));
  }

  lemma ClampSame(p: real, q: real, r: real)
    requires 0.0 <= p <= q <= r <= 1.0
    ensures Clamp(p) == p && Clamp(q) == q && Clamp(r) == r
  {
  }

  /** A row through the middle point, and no lower than both outer points, bounds their chord. */
  lemma AboveChord(row: ActionCost, p: real, q: real, r: real, a: real, b: real, c: real)
    requires p <= q <= r && b == Expected(row, q) && a <= Expected(row, p) && c <= Expected(row, r)
    ensures (r - p) * b >= (r - q) * a + (q - p) * c
  {
    Chord(row, p, q, r);
    hide Expected;
    Dominate(r - q, a, Expected(row, p));
    Dominate(q - p, c, Expected(row, r));
  }

  lemma Chord(row: ActionCost, p: real, q: real, r: real)
    ensures (r - p) * Expected(row, q) == (r - q) * Expected(row, p) + (q - p) * Expected(row, r)
  {
    var f, s := row.ifFine, row.ifDefective - row.ifFine;
    assert Expected(row, p) == f + s * p && Expected(row, q) == f + s * q && Expected(row, r) == f + s * r;
    assert (r - p) * (f + s * q) == (r - q) * (f + s * p) + (q - p) * (f + s * r);
  }

  lemma Dominate(k: real, a: real, b: real)
    requires k >= 0.0 && a <= b
    ensures k * a <= k * b
  {
    NonNegativeProduct(k, b - a, k * (b - a));
    assert k * (b - a) == k * b - k * a;
  }

  // ------------------------------------------------------------------
  // Who decides
  // ------------------------------------------------------------------

  /** A decision is escalated whenever halting is cheapest or an ACCEPT would touch
    * safety, and the reported first cost is the least of every action, halting included. */
  lemma EscalationRules(m: CostModel, ctx: Context, limits: Limits)
    ensures
      var d := TriageOf(m, ctx, limits);
      && |d.ranked| == |ContextRows(m, ctx)|
      && multiset(d.ranked) == multiset(ContextRows(m, ctx)) && Sorted(d.ranked)
      && (d.ranked[0].action == HaltLine ==> d.requiresHuman)
      && (ctx.safetyCritical && d.recommended == Accept ==> d.requiresHuman)
      && (forall r :: r in ContextRows(m, ctx) ==> d.ranked[0].expected <= r.expected)
  {
    hide Cheapest;
    StableSortCorrect(ContextRows(m, ctx));
    var d := TriageOf(m, ctx, limits);
    forall r | r in ContextRows(m, ctx) ensures d.ranked[0].expected <= r.expected {
      assert r in multiset(d.ranked);
    }
  }

  /** Behind the cheapest of several rows stands the cheapest of the rest. */
  lemma RunnerUp(rows: seq<ActionCost>, k: nat, bound: real)
    requires |rows| >= 2 && CheapestAt(rows) == k
    ensures StableSort(rows)[0] == rows[k]
    ensures StableSort(rows)[1].expected < bound <==> exists i :: 0 <= i < |rows| && i != k && rows[i].expected < bound
  {
    hide CheapestAt, StableSort;
    StableSortCorrect(rows);
    var sorted := StableSort(rows);
    RestMembers(sorted, rows, k);
    assert sorted[1] in sorted[1..] by { assert sorted[1..][0] == sorted[1]; }
    if sorted[1].expected < bound {
      var i :| 0 <= i < |rows| && i != k && rows[i] == sorted[1];
    }
    if i :| 0 <= i < |rows| && i != k && rows[i].expected < bound {
      assert rows[i] in sorted[1..];
      var j :| 0 <= j < |sorted| - 1 && sorted[1..][j] == rows[i];
      assert sorted[1 + j] == rows[i];
    }
  }

  lemma RestMultiset<T>(xs: seq<T>, ys: seq<T>, k: nat)
    requires xs != [] && k < |ys| && multiset(xs) == multiset(ys) && xs[0] == ys[k]
    ensures multiset(xs[1..]) == multiset(ys[..k] + ys[k + 1..])
  {
    assert xs == [xs[0]] + xs[1..] && ys == ys[..k] + [ys[k]] + ys[k + 1..];
    assert multiset(ys) == multiset(ys[..k] + ys[k + 1..]) + multiset{ys[k]};
    assert multiset(xs) == multiset(xs[1..]) + multiset{xs[0]};
    assert multiset(xs[1..]) == multiset(xs) - multiset{xs[0]};
  }

  lemma SameMembers<T>(xs: seq<T>, ys: seq<T>)
    requires multiset(xs) == multiset(ys)
    ensures forall x :: x in xs <==> x in ys
  {
    forall x ensures x in xs <==> x in ys { assert x in multiset(xs) <==> x in multiset(ys); }
  }

  lemma RestMembers<T>(xs: seq<T>, ys: seq<T>, k: nat)
    requires xs != [] && k < |ys| && multiset(xs) == multiset(ys) && xs[0] == ys[k]
    ensures forall x :: x in xs[1..] ==> exists i :: 0 <= i < |ys| && i != k && ys[i] == x
    ensures forall i :: 0 <= i < |ys| && i != k ==> ys[i] in xs[1..]
  {
    var rest := ys[..k] + ys[k + 1..];
    RestMultiset(xs, ys, k);
    SameMembers(xs[1..], rest);
    forall x | x in xs[1..] ensures exists i :: 0 <= i < |ys| && i != k && ys[i] == x {
      var j :| 0 <= j < |rest| && rest[j] == x;
      assert ys[if j < k then j else j + 1] == x;
    }
    forall i | 0 <= i < |ys| && i != k ensures ys[i] in xs[1..] {
      assert rest[if i < k then i else i - 1] == ys[i];
    }
  }

  // ------------------------------------------------------------------
  // Triage in the currency of the cost model
  // ------------------------------------------------------------------

  /** Expected cost of an action at defect probability p, in the fields of the cost model: a warranty or
    * recall case for a share of the shipped defects; minutes of labour and parts; an inspection, a quarter
    * of the labour, and the full rework on what is defective; material and margin; idle units and rework. */
  function Price(m: CostModel, ctx: Context, p: real, a: Disposition): real {
    var units := (if ctx.scope > 1 then ctx.scope else 1) as real;
    var labour := m.reworkMinutes * m.labourRate / 60.0;
    match a
    case Accept => units * (p * m.failureRate * (m.warranty + m.recall))
    case Rework => units * (labour + m.reworkParts)
    case Quarantine => units * (m.inspection + labour / 4.0) + p * (units * (labour + m.reworkParts))
    case Scrap => units * (m.material + m.margin)
    case HaltLine => ctx.haltHours * m.lineRate * m.margin + p * (units * (labour + m.reworkParts))
  }

  lemma LabourCost(minutes: real, rate: real, inspection: real, units: real)
    ensures minutes / 60.0 * rate == minutes * rate / 60.0
    ensures inspection * units + 0.25 * (minutes / 60.0) * rate * units
            == units * (inspection + minutes * rate / 60.0 / 4.0)
  {
    var labour := minutes / 60.0 * rate;
    assert 0.25 * (minutes / 60.0) * rate == 0.25 * labour;
    assert labour == minutes * rate / 60.0;
    assert (0.25 * labour) * units == units * (labour / 4.0);
  }

  lemma EscapePrice(p: real, units: real, rate: real, exposure: real)
    ensures p * (units * (rate * exposure)) == units * (p * rate * exposure)
  {
    assert p * (rate * exposure) == p * rate * exposure;
    assert p * (units * (rate * exposure)) == units * (p * (rate * exposure));
  }

  lemma Mixed(p: real, extra: real, base: real)
    ensures Mix(p, base + extra, base) == base + p * extra
    ensures Mix(p, base, base) == base
    ensures Mix(p, extra, 0.0) == p * extra
  {
  }

  /** The components in the fields of the cost model. */
  lemma CostsInFields(m: CostModel, n: int, p: real)
    ensures
      var units, labour := n as real, m.reworkMinutes * m.labourRate / 60.0;
      && ReworkCost(m, n) == units * (labour + m.reworkParts)
      && HoldCost(m, n) == units * (m.inspection + labour / 4.0)
      && ScrapCost(m, n) == units * (m.material + m.margin)
      && p * EscapeCost(m, n) == units * (p * m.failureRate * (m.warranty + m.recall))
  {
    LabourCost(m.reworkMinutes, m.labourRate, m.inspection, n as real);
    EscapePrice(p, n as real, m.failureRate, m.warranty + m.recall);
  }

  /** Every row is priced in those fields. */
  lemma RowPrice(m: CostModel, ctx: Context, p: real, i: nat)
    requires i < |ActionRows(m, ctx)|
    ensures Expected(ActionRows(m, ctx)[i], p) == Price(m, ctx, p, ActionRows(m, ctx)[i].action)
  {
    hide Mix, ReworkCost, ScrapCost, EscapeCost, HoldCost;
    var n := Units(ctx.scope);
    CostsInFields(m, n, p);
    if i == 0 {
      Mixed(p, EscapeCost(m, n), 0.0);
    } else if i == 1 {
      Mixed(p, 0.0, ReworkCost(m, n));
    } else if i == 2 {
      Mixed(p, ReworkCost(m, n), HoldCost(m, n));
    } else if i == 3 {
      Mixed(p, 0.0, ScrapCost(m, n));
    } else {
      Mixed(p, ReworkCost(m, n), HaltCost(m, ctx.haltHours));
    }
  }

  /** The actions on offer: four, and halting the line where a halt was estimated. */
  predicate Offered(ctx: Context, a: Disposition) { a == HaltLine ==> ctx.haltHours > 0.0 }

  function ActionAt(i: nat): Disposition
    requires i < 5
  {
    [Accept, Rework, Quarantine, Scrap, HaltLine][i]
  }

  /** What the priced rows hold before they are sorted. */
  lemma ContextRowPrices(m: CostModel, ctx: Context)
    ensures
      var rows, p, u := ContextRows(m, ctx), Clamp(ctx.probability), Max(ctx.uncertainty, 0.0);
      && |rows| == (if ctx.haltHours > 0.0 then 5 else 4)
      && forall i :: 0 <= i < |rows| ==>
           var a := ActionAt(i);
           && rows[i].action == a && rows[i].expected == Price(m, ctx, p, a)
           && rows[i].high - rows[i].low
              == Abs(Price(m, ctx, Min(p + u, 1.0), a) - Price(m, ctx, Max(p - u, 0.0), a))
  {
    hide Expected, Price, ReworkCost, ScrapCost, EscapeCost, HoldCost, HaltCost;
    var p, u := Clamp(ctx.probability), Max(ctx.uncertainty, 0.0);
    forall i: nat | i < |ActionRows(m, ctx)|
      ensures ActionRows(m, ctx)[i].action == ActionAt(i)
      ensures Expected(ActionRows(m, ctx)[i], p) == Price(m, ctx, p, ActionAt(i))
      ensures Expected(ActionRows(m, ctx)[i], Max(p - u, 0.0)) == Price(m, ctx, Max(p - u, 0.0), ActionAt(i))
      ensures Expected(ActionRows(m, ctx)[i], Min(p + u, 1.0)) == Price(m, ctx, Min(p + u, 1.0), ActionAt(i))
    {
      RowPrice(m, ctx, p, i);
      RowPrice(m, ctx, Max(p - u, 0.0), i);
      RowPrice(m, ctx, Min(p + u, 1.0), i);
    }
  }

  /** The ranking lists every action on offer once, each at its price, cheapest first. */
  lemma RankedAtPrice(m: CostModel, ctx: Context, limits: Limits)
    ensures
      var ranked := TriageOf(m, ctx, limits).ranked;
      && |ranked| == (if ctx.haltHours > 0.0 then 5 else 4) && Sorted(ranked)
      && (forall a: Disposition :: Offered(ctx, a) <==> exists r :: r in ranked && r.action == a)
      && (forall r :: r in ranked ==> r.expected == Price(m, ctx, Clamp(ctx.probability), r.action))
  {
    hide Price, Sorted;
    var rows, ranked := ContextRows(m, ctx), TriageOf(m, ctx, limits).ranked;
    ContextRowPrices(m, ctx);
    EscalationRules(m, ctx, limits);
    hide ContextRows, TriageOf;
    forall r ensures r in ranked <==> r in rows { assert r in multiset(ranked) <==> r in multiset(rows); }
    forall a: Disposition ensures Offered(ctx, a) <==> exists r :: r in ranked && r.action == a {
      if Offered(ctx, a) {
        var i := match a case Accept => 0 case Rework => 1 case Quarantine => 2 case Scrap => 3 case HaltLine => 4;
        assert rows[i] in rows && rows[i].action == ActionAt(i) == a;
      }
    }
  }

  /** Exactly when each action is recommended, by price; ties go to ACCEPT, REWORK, QUARANTINE, SCRAP in
    * that order. */
  lemma RecommendedIff(m: CostModel, ctx: Context, limits: Limits)
    ensures
      var p, best := Clamp(ctx.probability), TriageOf(m, ctx, limits).recommended;
      var accept, rework := Price(m, ctx, p, Accept), Price(m, ctx, p, Rework);
      var quarantine, scrap := Price(m, ctx, p, Quarantine), Price(m, ctx, p, Scrap);
      && (best == Accept <==> accept <= rework && accept <= quarantine && accept <= scrap)
      && (best == Rework <==> rework < accept && rework <= quarantine && rework <= scrap)
      && (best == Quarantine <==> quarantine < accept && quarantine < rework && quarantine <= scrap)
      && (best == Scrap <==> scrap < accept && scrap < rework && scrap < quarantine)
  {
    hide Price;
    ContextRowPrices(m, ctx);
    FourAutonomous(m, ctx);
    hide StableSort, KeepAutonomous, ContextRows, CheapestAt;
    var rows := ContextRows(m, ctx);
    assert forall i :: 0 <= i < 4 ==> rows[..4][i] == rows[i];
    var k := CheapestAt(rows[..4]);
    assert TriageOf(m, ctx, limits).recommended == ActionAt(k);
    assert forall i :: 0 <= i < 4 ==> rows[k].expected <= rows[i].expected;
    assert forall i :: 0 <= i < k ==> rows[k].expected < rows[i].expected;
    assert rows[0].expected == Price(m, ctx, Clamp(ctx.probability), Accept);
    assert rows[1].expected == Price(m, ctx, Clamp(ctx.probability), Rework);
    assert rows[2].expected == Price(m, ctx, Clamp(ctx.probability), Quarantine);
    assert rows[3].expected == Price(m, ctx, Clamp(ctx.probability), Scrap);
  }

  /** What counts as close to a cost. */
  function Gap(limits: Limits, cost: real): real { limits.indifference * Max(cost, 1.0) }

  /** Another autonomous action costs hardly more than the recommended one. */
  ghost predicate Close(m: CostModel, ctx: Context, limits: Limits, best: Disposition) {
    var p := Clamp(ctx.probability);
    exists a: Disposition :: a != best && a != HaltLine
      && Price(m, ctx, p, a) - Price(m, ctx, p, best) < Gap(limits, Price(m, ctx, p, best))
  }

  /** Exactly when a human is asked: halting is cheaper than the recommendation, the recommendation costs
    * more than the limit, accepts where safety is at stake, is close, or is priced too uncertainly. */
  lemma HumanIff(m: CostModel, ctx: Context, limits: Limits)
    ensures
      var p, u, best := Clamp(ctx.probability), Max(ctx.uncertainty, 0.0), TriageOf(m, ctx, limits).recommended;
      var cost := Price(m, ctx, p, best);
      TriageOf(m, ctx, limits).requiresHuman <==>
        || (ctx.haltHours > 0.0 && Price(m, ctx, p, HaltLine) < cost)
        || cost > limits.highConsequence
        || (ctx.safetyCritical && best == Accept)
        || Close(m, ctx, limits, best)
        || Abs(Price(m, ctx, Min(p + u, 1.0), best) - Price(m, ctx, Max(p - u, 0.0), best)) > 0.5 * Max(cost, 1.0)
  {
    var rows := ContextRows(m, ctx);
    ContextRowPrices(m, ctx);
    var k := CheapestAt(rows[..4]);
    assert rows[..4][k] == rows[k];
    HumanFromRows(m, ctx, limits, rows, k);
    CloseIff(m, ctx, limits, k, rows);
    HaltFirstIff(rows, k);
    hide Price, ContextRows, CheapestAt, Close, Clamp, Gap, TriageOf;
  }

  /** The autonomous rows as ranked: the cheapest leads, and the next is the cheapest of the others. */
  lemma KeptLead(rows: seq<ActionCost>, k: nat, gap: real)
    requires 4 <= |rows| <= 5 && KeepAutonomous(rows) == rows[..4] && k == CheapestAt(rows[..4])
    ensures
      var kept := KeepAutonomous(StableSort(rows));
      && |kept| == 4 && kept[0] == rows[k]
      && (kept[1].expected - rows[k].expected < gap
          <==> exists i :: 0 <= i < 4 && i != k && rows[i].expected - rows[k].expected < gap)
  {
    hide CheapestAt, StableSort, KeepAutonomous;
    var four, cost := rows[..4], rows[k].expected;
    KeepSorted(rows);
    RunnerUp(four, k, cost + gap);
    if i :| 0 <= i < 4 && i != k && rows[i].expected - cost < gap { assert four[i] == rows[i]; }
  }

  /** The reasons in terms of the priced rows. */
  lemma HumanFromRows(m: CostModel, ctx: Context, limits: Limits, rows: seq<ActionCost>, k: nat)
    requires rows == ContextRows(m, ctx) && k == CheapestAt(rows[..4])
    ensures
      var d, cost := TriageOf(m, ctx, limits), rows[k].expected;
      && d.recommended == rows[k].action
      && (d.requiresHuman <==>
            || Cheapest(rows).action == HaltLine
            || cost > limits.highConsequence
            || (ctx.safetyCritical && rows[k].action == Accept)
            || (exists i :: 0 <= i < 4 && i != k && rows[i].expected - cost < Gap(limits, cost))
            || rows[k].high - rows[k].low > 0.5 * Max(cost, 1.0))
  {
    FourAutonomous(m, ctx);
    StableSortCorrect(rows);
    assert |rows| <= 5;
    TriageReasons(m, ctx, limits, StableSort(rows), KeepAutonomous(StableSort(rows)));
    hide StableSort, KeepAutonomous, ContextRows, CheapestAt, Cheapest, TriageOf, Gap, Sorted;
    KeptLead(rows, k, Gap(limits, rows[k].expected));
  }

  lemma TriageReasons(m: CostModel, ctx: Context, limits: Limits, sorted: seq<ActionCost>, kept: seq<ActionCost>)
    requires sorted == StableSort(ContextRows(m, ctx)) && kept == KeepAutonomous(sorted) && |kept| == 4
    ensures
      var d, cost := TriageOf(m, ctx, limits), kept[0].expected;
      && d.recommended == kept[0].action
      && (d.requiresHuman <==>
            || sorted[0].action == HaltLine || cost > limits.highConsequence
            || (ctx.safetyCritical && kept[0].action == Accept)
            || kept[1].expected - cost < Gap(limits, cost)
            || kept[0].high - kept[0].low > 0.5 * Max(cost, 1.0))
  {
    hide StableSort, KeepAutonomous, ContextRows;
  }

  lemma CloseIff(m: CostModel, ctx: Context, limits: Limits, k: nat, rows: seq<ActionCost>)
    requires k < 4 && rows == ContextRows(m, ctx)
    ensures Close(m, ctx, limits, rows[k].action)
            <==> exists i :: 0 <= i < 4 && i != k && rows[i].expected - rows[k].expected < Gap(limits, rows[k].expected)
  {
    ContextRowPrices(m, ctx);
    hide Price, ContextRows, Clamp, Gap;
    var p, best := Clamp(ctx.probability), ActionAt(k);
    if i :| 0 <= i < 4 && i != k && rows[i].expected - rows[k].expected < Gap(limits, rows[k].expected) {
      var a := ActionAt(i);
      assert a != best && a != HaltLine;
      assert Price(m, ctx, p, a) - Price(m, ctx, p, best) < Gap(limits, Price(m, ctx, p, best));
    }
    if Close(m, ctx, limits, best) {
      var a: Disposition :| a != best && a != HaltLine
        && Price(m, ctx, p, a) - Price(m, ctx, p, best) < Gap(limits, Price(m, ctx, p, best));
      var i := match a case Accept => 0 case Rework => 1 case Quarantine => 2 case _ => 3;
      assert ActionAt(i) == a && i != k;
      assert rows[i].expected - rows[k].expected < Gap(limits, rows[k].expected);
    }
  }

  /** Halting heads the ranking exactly when it is cheaper than the cheapest autonomous action. */
  lemma HaltFirstIff(rows: seq<ActionCost>, k: nat)
    requires 4 <= |rows| <= 5 && k == CheapestAt(rows[..4])
    requires forall i :: 0 <= i < |rows| ==> rows[i].action == ActionAt(i)
    ensures Cheapest(rows).action == HaltLine <==> |rows| == 5 && rows[4].expected < rows[k].expected
  {
    hide CheapestAt;
    var j := CheapestAt(rows);
    assert rows[..4][k] == rows[k];
    if j < 4 { assert rows[..4][j] == rows[j]; }
  }

  /** At P(defect) = 0 the free action wins. */
  lemma ZeroMeansAccept(m: CostModel)
    requires NonNegative(m)
    ensures Choose(m, 0.0) == Accept
  {
    CostsNonNegative(m, 1);
    var rows := UnitRows(m, 0.0);
    assert rows[0].expected == 0.0 && rows[0].action == Accept;
    forall i | 0 <= i < 4 ensures rows[i].expected >= 0.0 {
      assert rows[i].expected == AutonomousRows(m, 1)[i].ifFine;
    }
    assert CheapestAt(rows) == 0;
  }

  /** Exactly when an ACCEPT at P(defect) = 0 still goes to a human: another autonomous action is
    * within the indifference limit (0.1 by default) of free, or the uncertainty alone puts more than 0.5 at risk. */
  lemma ZeroProbabilityGate(m: CostModel, ctx: Context, limits: Limits)
    requires NonNegative(m) && ctx.probability == 0.0 && 0.0 <= ctx.uncertainty <= 1.0 && !ctx.safetyCritical
    ensures TriageOf(m, ctx, limits).requiresHuman <==>
            || limits.highConsequence < 0.0
            || Price(m, ctx, 0.0, Rework) < limits.indifference
            || Price(m, ctx, 0.0, Quarantine) < limits.indifference
            || Price(m, ctx, 0.0, Scrap) < limits.indifference
            || Price(m, ctx, ctx.uncertainty, Accept) > 0.5
  {
    RecommendationIsChoose(m, ctx, limits);
    ZeroMeansAccept(m);
    HumanIff(m, ctx, limits);
    RecommendedIff(m, ctx, limits);
    FreeToAccept(m, ctx);
    hide Price, TriageOf, Choose, NonNegative;
    assert Gap(limits, 0.0) == limits.indifference;
    if Close(m, ctx, limits, Accept) {
      var a: Disposition :| a != Accept && a != HaltLine && Price(m, ctx, 0.0, a) < limits.indifference;
    }
  }

  /** Accepting costs nothing at P(defect) = 0 and halting never pays then. */
  lemma FreeToAccept(m: CostModel, ctx: Context)
    requires NonNegative(m) && 0.0 <= ctx.uncertainty <= 1.0
    ensures Clamp(0.0) == 0.0 && Price(m, ctx, 0.0, Accept) == 0.0
    ensures Price(m, ctx, ctx.uncertainty, Accept) >= 0.0
    ensures ctx.haltHours > 0.0 ==> Price(m, ctx, 0.0, HaltLine) >= 0.0
  {
    var n := Units(ctx.scope);
    CostsNonNegative(m, n);
    HaltNonNegative(m, ctx.haltHours);
    NonNegativeProduct(ctx.uncertainty, EscapeCost(m, n), ctx.uncertainty * EscapeCost(m, n));
    EscapePrice(ctx.uncertainty, n as real, m.failureRate, m.warranty + m.recall);
  }

  lemma HaltNonNegative(m: CostModel, hours: real)
    requires NonNegative(m)
    ensures hours > 0.0 ==> HaltCost(m, hours) >= 0.0
  {
    if hours > 0.0 {
      NonNegativeProduct(hours, m.lineRate, hours * m.lineRate);
      NonNegativeProduct(hours * m.lineRate, m.margin, (hours * m.lineRate) * m.margin);
    }
  }
}
