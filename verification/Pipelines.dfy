/** The two inspection pipelines: the agent graph, whose specialists run in any order over
  * shared mutable inputs, and the sequential inspection service.
  */
module Pipelines {
  import opened Reals
  import opened LeastSquares
  import opened Signature
  import opened Scoring
  import opened Adjudicating
  import Generator
  import Cost
  import opened Wrappers

  const UNCERTAINTY: real := 0.06

  datatype Curve = Curve(position: int, samples: seq<Sample>) {
    /** What constructing a curve checks: ten samples and angles that never go back. */
    predicate Valid() { Generator.CurveAccepted(samples) }
  }

  datatype Quality = Good | Degraded | Rejected

  datatype Agent = IngestionAgent | VisionInspector | ProcessSentinel | ContextAgent | Adjudicator | CostTriage

  datatype Span = Span(agent: Agent, ok: bool)

  /** A triage decision as both pipelines report it: the recommended action, the first ranked
    * row's cost (the halt row's when halting is cheapest) and the human gate. */
  datatype TriageResult = TriageResult(
    recommended: Cost.Disposition, cost: real, low: real, high: real, requiresHuman: bool)

  datatype Settings = Settings(
    baseline: Baseline, costModel: Cost.CostModel, verifiersPassed: bool, scope: int, haltHours: real)

  // ------------------------------------------------------------------
  // Shared steps
  // ------------------------------------------------------------------

  function InsertCurve(sorted: seq<Curve>, c: Curve): (s: seq<Curve>)
    ensures multiset(s) == multiset(sorted) + multiset{c}
  {
    if sorted == [] || sorted[|sorted| - 1].position <= c.position then sorted + [c]
    else
      assert sorted == sorted[..|sorted| - 1] + [sorted[|sorted| - 1]];
      InsertCurve(sorted[..|sorted| - 1], c) + [sorted[|sorted| - 1]]
  }

  /** Stable sort by fastener position. */
  function ByPosition(curves: seq<Curve>): (s: seq<Curve>)
    ensures multiset(s) == multiset(curves)
  {
    if curves == [] then []
    else
      assert curves == curves[..|curves| - 1] + [curves[|curves| - 1]];
      InsertCurve(ByPosition(curves[..|curves| - 1]), curves[|curves| - 1])
  }

  predicate Analysable(curves: seq<Curve>) {
    forall c :: c in curves ==> |c.samples| >= MIN_CURVE
  }

  function Measure(c: Curve, b: Baseline): Outcome
    requires |c.samples| >= MIN_CURVE
  {
    Outcome(c.position, SignatureVerdictOf(FeaturesOf(c.samples), b, THRESHOLD))
  }

  function OutcomesOf(curves: seq<Curve>, b: Baseline): (os: seq<Outcome>)
    requires Analysable(curves)
    ensures |os| == |curves|
    ensures Scored(os, b)
  {
    if curves == [] then []
    else
      var k := |curves| - 1;
      assert curves[k] in curves && forall c :: c in curves[..k] ==> c in curves;
      OutcomesOf(curves[..k], b) + [Measure(curves[k], b)]
  }

  lemma SortKeepsAnalysable(curves: seq<Curve>)
    requires Analysable(curves)
    ensures Analysable(ByPosition(curves))
    ensures |ByPosition(curves)| == |curves|
  {
    assert |multiset(ByPosition(curves))| == |multiset(curves)|;
    forall c | c in ByPosition(curves) ensures |c.samples| >= MIN_CURVE {
      assert c in multiset(ByPosition(curves));
      assert c in multiset(curves);
    }
  }

  ghost predicate InOrder(curves: seq<Curve>) {
    forall i, j :: 0 <= i < j < |curves| ==> curves[i].position <= curves[j].position
  }

  lemma {:induction false} InsertInOrder(sorted: seq<Curve>, c: Curve)
    requires InOrder(sorted)
    ensures InOrder(InsertCurve(sorted, c))
  {
    if sorted == [] || sorted[|sorted| - 1].position <= c.position {
    } else {
      var k := |sorted| - 1;
      InsertInOrder(sorted[..k], c);
      InsertMembers(sorted[..k], c);
      LastInOrder(InsertCurve(sorted[..k], c), sorted[k]);
    }
  }

  lemma InsertMembers(sorted: seq<Curve>, c: Curve)
    ensures forall x :: x in InsertCurve(sorted, c) ==> x == c || x in sorted
  {
    forall x | x in InsertCurve(sorted, c) ensures x == c || x in sorted {
      assert x in multiset(InsertCurve(sorted, c));
    }
  }

  lemma LastInOrder(sorted: seq<Curve>, last: Curve)
    requires InOrder(sorted) && forall x :: x in sorted ==> x.position <= last.position
    ensures InOrder(sorted + [last])
  {
  }

  lemma {:induction false} SortInOrder(curves: seq<Curve>)
    ensures InOrder(ByPosition(curves))
  {
    if curves == [] {
    } else {
      hide InsertCurve;
      SortInOrder(curves[..|curves| - 1]);
      InsertInOrder(ByPosition(curves[..|curves| - 1]), curves[|curves| - 1]);
    }
  }

  lemma {:induction false} OutcomeAt(curves: seq<Curve>, b: Baseline, i: nat)
    requires Analysable(curves) && i < |curves|
    ensures curves[i] in curves && OutcomesOf(curves, b)[i] == Measure(curves[i], b)
  {
    hide Measure;
    var k := |curves| - 1;
    assert curves[k] in curves && forall c :: c in curves[..k] ==> c in curves;
    if i < k { OutcomeAt(curves[..k], b, i); }
  }

  /** Every curve is measured once and reported in fastener order. */
  lemma OutcomesInOrder(curves: seq<Curve>, b: Baseline)
    requires Analysable(curves)
    ensures
      var os := SortedOutcomes(curves, b);
      && |os| == |curves|
      && (forall i, j :: 0 <= i < j < |os| ==> os[i].position <= os[j].position)
      && forall o :: o in os <==> exists c :: c in curves && o == Measure(c, b)
  {
    hide Measure, ByPosition, OutcomesOf, Scored;
    SortKeepsAnalysable(curves);
    SortInOrder(curves);
    var sorted, os := ByPosition(curves), SortedOutcomes(curves, b);
    forall i: nat | i < |os| ensures os[i] == Measure(sorted[i], b) && os[i].position == sorted[i].position {
      OutcomeAt(sorted, b, i);
      MeasuredPosition(sorted[i], b);
    }
    forall o ensures o in os <==> exists c :: c in curves && o == Measure(c, b) {
      if o in os {
        var i :| 0 <= i < |os| && os[i] == o;
        assert sorted[i] in multiset(sorted);
        assert sorted[i] in multiset(curves);
      }
      if c :| c in curves && o == Measure(c, b) {
        assert c in multiset(curves);
        assert c in sorted;
        var i :| 0 <= i < |sorted| && sorted[i] == c;
        assert os[i] == o;
      }
    }
  }

  lemma MeasuredPosition(c: Curve, b: Baseline)
    requires |c.samples| >= MIN_CURVE
    ensures Measure(c, b).position == c.position
  {
  }

  function SortedOutcomes(curves: seq<Curve>, b: Baseline): (os: seq<Outcome>)
    requires Analysable(curves)
    ensures |os| == |curves| && Scored(os, b)
  {
    SortKeepsAnalysable(curves);
    OutcomesOf(ByPosition(curves), b)
  }

  /** Extract, score and collect, one curve at a time. */
  method Analyse(curves: seq<Curve>, b: Baseline) returns (os: seq<Outcome>)
    requires Analysable(curves)
    ensures os == SortedOutcomes(curves, b)
  {
    hide FeaturesOf, SignatureVerdictOf, Scored, ByPosition;
    SortKeepsAnalysable(curves);
    var sorted := ByPosition(curves);
    os := [];
    for i := 0 to |sorted|
      invariant Analysable(sorted[..i]) && os == OutcomesOf(sorted[..i], b)
    {
      assert sorted[i] in sorted;
      var f := ExtractFeatures(sorted[i].samples);
      var v := ScoreSignature(f, b, THRESHOLD);
      os := os + [Outcome(sorted[i].position, v)];
      assert sorted[..i + 1][..i] == sorted[..i];
    }
    assert sorted[..|sorted|] == sorted;
  }

  function TriageContext(a: Adjudication, s: Settings): Cost.Context {
    Cost.Context(a.confidence, UNCERTAINTY, s.scope, s.haltHours, a.severity == Critical)
  }

  // ------------------------------------------------------------------
  // The agent graph
  // ------------------------------------------------------------------

  /** Reduced graph state; a node returns a partial update and `trace` concatenates. */
  datatype QCState = QCState(
    quality: Option<Quality>, vision: Option<real>, process: Option<real>, fusion: Option<Adjudication>,
    triage: Option<TriageResult>, trace: seq<Span>)

  const NOTHING := QCState(None, None, None, None, None, [])

  function Override<T>(current: Option<T>, update: Option<T>): Option<T> {
    if update.Some? then update else current
  }

  function Merge(q: QCState, u: QCState): QCState {
    QCState(Override(q.quality, u.quality), Override(q.vision, u.vision), Override(q.process, u.process),
            Override(q.fusion, u.fusion), Override(q.triage, u.triage), q.trace + u.trace)
  }

  function Enough(curves: seq<Curve>): (r: seq<Curve>)
    ensures Analysable(r)
    ensures forall c :: c in r <==> c in curves && |c.samples| >= 10
  {
    if curves == [] then []
    else Enough(curves[..|curves| - 1])
         + (if |curves[|curves| - 1].samples| >= MIN_CURVE then [curves[|curves| - 1]] else [])
  }

  function QualityOf(offered: nat, accepted: nat): Quality {
    if accepted == 0 then Rejected else if accepted < offered then Degraded else Good
  }

  function GraphTriage(a: Adjudication, s: Settings): TriageResult {
    if a.verdict == Pass then TriageResult(Cost.Accept, 0.0, 0.0, 0.0, false)
    else
      var d := Cost.TriageOf(s.costModel, TriageContext(a, s), Cost.DEFAULT_LIMITS);
      Cost.RankedFirst(s.costModel, TriageContext(a, s), Cost.DEFAULT_LIMITS);
      var best := d.ranked[0];
      TriageResult(d.recommended, best.expected, best.low, best.high, NeedsHuman(a, d.requiresHuman))
  }

  datatype Specialist = VisionNode | ProcessNode | ContextNode

  function SpecialistSpan(s: Specialist, outcomes: nat): Span {
    match s
    case VisionNode => Span(VisionInspector, true)
    case ProcessNode => Span(ProcessSentinel, outcomes > 0)
    case ContextNode => Span(ContextAgent, true)
  }

  function SpecialistSpans(order: seq<Specialist>, outcomes: nat): (t: seq<Span>)
    ensures |t| == |order|
  {
    seq(|order|, i requires 0 <= i < |order| => SpecialistSpan(order[i], outcomes))
  }

  /** Shared mutable inputs of one graph run; the process node writes `outcomes`, the
    * adjudicator reads them and writes `adjudication`. */
  class InspectionInputs {
    const settings: Settings
    const customVision: Option<real>
    var curves: seq<Curve>
    var outcomes: seq<Outcome>
    var adjudication: Option<Adjudication>

    constructor (curves: seq<Curve>, settings: Settings, customVision: Option<real>)
      ensures this.curves == curves && this.settings == settings && this.customVision == customVision
      ensures outcomes == [] && adjudication == None
    {
      this.curves := curves;
      this.settings := settings;
      this.customVision := customVision;
      outcomes := [];
      adjudication := None;
    }

    method Ingestion() returns (u: QCState)
      modifies this`curves
      ensures curves == Enough(old(curves))
      ensures u == NOTHING.(quality := Some(QualityOf(|old(curves)|, |curves|)),
                            trace := [Span(IngestionAgent, |curves| > 0)])
    {
      var valid: seq<Curve> := [];
      var reasons := 0;
      for i := 0 to |curves|
        invariant valid == Enough(curves[..i]) && reasons + |valid| == i && curves == old(curves)
      {
        assert curves[..i + 1][..i] == curves[..i];
        if |curves[i].samples| < MIN_CURVE {
          reasons := reasons + 1;
        } else {
          valid := valid + [curves[i]];
        }
      }
      assert curves[..|curves|] == curves;
      curves := valid;
      var quality := if |valid| == 0 then Rejected else if reasons > 0 then Degraded else Good;
      u := NOTHING.(quality := Some(quality), trace := [Span(IngestionAgent, quality != Rejected)]);
    }

    method Vision() returns (u: QCState)
      ensures u.trace == [SpecialistSpan(VisionNode, |outcomes|)]
      ensures u.quality == None && u.fusion == None && u.triage == None && u.process == None
      ensures u.vision == if customVision.Some? then customVision
                          else Some(if settings.verifiersPassed then 0.0 else 1.0)
    {
      var score := if customVision.Some? then customVision.value
                   else if settings.verifiersPassed then 0.0 else 1.0;
      u := NOTHING.(vision := Some(score), trace := [Span(VisionInspector, true)]);
    }

    method Process() returns (u: QCState)
      requires Analysable(curves)
      modifies this`outcomes
      ensures outcomes == SortedOutcomes(curves, settings.baseline)
      ensures u.trace == [SpecialistSpan(ProcessNode, |curves|)]
      ensures u.quality == None && u.fusion == None && u.triage == None && u.vision == None
      ensures u.process == if outcomes == [] then None else Some(Worst(outcomes).signature.score)
    {
      outcomes := Analyse(curves, settings.baseline);
      if outcomes == [] {
        u := NOTHING.(trace := [Span(ProcessSentinel, false)]);
      } else {
        u := NOTHING.(process := Some(Worst(outcomes).signature.score), trace := [Span(ProcessSentinel, true)]);
      }
    }

    method Context() returns (u: QCState)
      ensures u == NOTHING.(trace := [SpecialistSpan(ContextNode, |outcomes|)])
    {
      u := NOTHING.(trace := [Span(ContextAgent, true)]);
    }

    method Adjudicate() returns (u: QCState)
      modifies this`adjudication
      ensures adjudication == Some(Adjudicating.Adjudicate(outcomes, settings.verifiersPassed))
      ensures u == NOTHING.(fusion := adjudication, trace := [Span(Adjudicator, true)])
    {
      var result := Adjudicating.Adjudicate(outcomes, settings.verifiersPassed);
      adjudication := Some(result);
      u := NOTHING.(fusion := Some(result), trace := [Span(Adjudicator, true)]);
    }

    method PriceOutcome() returns (u: QCState)
      ensures u == if adjudication.None? then NOTHING.(trace := [Span(CostTriage, false)])
                   else NOTHING.(triage := Some(GraphTriage(adjudication.value, settings)),
                                 trace := [Span(CostTriage, true)])
    {
      if adjudication.None? {
        u := NOTHING.(trace := [Span(CostTriage, false)]);
        return;
      }
      var a := adjudication.value;
      var result;
      if a.verdict == Pass {
        result := TriageResult(Cost.Accept, 0.0, 0.0, 0.0, false);
      } else {
        var d := Cost.Triage(settings.costModel, TriageContext(a, settings), Cost.DEFAULT_LIMITS);
        Cost.RankedFirst(settings.costModel, TriageContext(a, settings), Cost.DEFAULT_LIMITS);
        var best := d.ranked[0];
        result := TriageResult(d.recommended, best.expected, best.low, best.high, NeedsHuman(a, d.requiresHuman));
      }
      u := NOTHING.(triage := Some(result), trace := [Span(CostTriage, true)]);
    }

    /** One specialist node. */
    method RunSpecialist(node: Specialist) returns (u: QCState)
      requires Analysable(curves)
      modifies this`outcomes
      ensures outcomes == if node == ProcessNode then SortedOutcomes(curves, settings.baseline) else old(outcomes)
      ensures u.quality == None && u.fusion == None && u.triage == None
      ensures u.trace == [SpecialistSpan(node, |curves|)]
    {
      hide SortedOutcomes, Analysable, Worst;
      match node {
        case VisionNode => u := Vision();
        case ProcessNode => u := Process();
        case ContextNode => u := Context();
      }
    }

    /** One superstep: the three specialists run in the given order and their updates are merged
      * as they finish. */
    method RunSpecialists(q0: QCState, order: seq<Specialist>) returns (q: QCState)
      requires Analysable(curves) && outcomes == []
      requires multiset(order) == multiset{VisionNode, ProcessNode, ContextNode}
      modifies this`outcomes
      ensures outcomes == SortedOutcomes(curves, settings.baseline)
      ensures q.quality == q0.quality && q.fusion == q0.fusion && q.triage == q0.triage
      ensures q.trace == q0.trace + SpecialistSpans(order, |curves|)
    {
      hide SortedOutcomes, Analysable, SpecialistSpan;
      var n := |curves|;
      q := q0;
      for i := 0 to |order|
        invariant outcomes == if ProcessNode in order[..i] then SortedOutcomes(curves, settings.baseline) else []
        invariant q.quality == q0.quality && q.fusion == q0.fusion && q.triage == q0.triage
        invariant q.trace == q0.trace + SpecialistSpans(order[..i], n)
      {
        var u := RunSpecialist(order[i]);
        q := Merge(q, u);
        assert SpecialistSpans(order[..i + 1], n) == SpecialistSpans(order[..i], n) + [SpecialistSpan(order[i], n)];
      }
      assert order[..|order|] == order;
      assert ProcessNode in multiset(order);
    }

    /** One run of the graph: the adjudicator waits for all three specialists. */
    method Run(order: seq<Specialist>) returns (q: QCState)
      requires multiset(order) == multiset{VisionNode, ProcessNode, ContextNode}
      requires outcomes == [] && adjudication == None
      modifies this
      ensures
        var valid := Enough(old(curves));
        var a := Adjudicating.Adjudicate(SortedOutcomes(valid, settings.baseline), settings.verifiersPassed);
        && q.quality == Some(QualityOf(|old(curves)|, |valid|))
        && q.fusion == Some(a)
        && q.triage == Some(GraphTriage(a, settings))
        && q.trace == [Span(IngestionAgent, |valid| > 0)] + SpecialistSpans(order, |valid|)
                      + [Span(Adjudicator, true), Span(CostTriage, true)]
    {
      hide SortedOutcomes, Adjudicating.Adjudicate, GraphTriage, Enough, SpecialistSpans, Analysable;
      q := Ingestion();
      q := RunSpecialists(q, order);
      var verdict := Adjudicate();
      q := Merge(q, verdict);
      var price := PriceOutcome();
      q := Merge(q, price);
    }
  }

  // ------------------------------------------------------------------
  // The inspection service
  // ------------------------------------------------------------------

  datatype InspectionResult = InspectionResult(
    verdict: Verdict, severity: Severity, confidence: real, fusionOnly: bool, primary: SignalKind,
    fasteners: seq<Outcome>, triage: TriageResult, quality: Quality, spans: seq<Span>)

  function ValidCurves(curves: seq<Curve>): (r: seq<Curve>)
    ensures Analysable(r)
    ensures forall c :: c in r <==> c in curves && c.Valid()
  {
    if curves == [] then []
    else ValidCurves(curves[..|curves| - 1])
         + (if curves[|curves| - 1].Valid() then [curves[|curves| - 1]] else [])
  }

  /** The service's own reconciliation, written without looking at the shared one. */
  function Reconcile(os: seq<Outcome>, verifiersPassed: bool, endpointsOk: bool)
    : (Verdict, Severity, real, SignalKind)
  {
    var anomalous := Filter(os, (o: Outcome) => o.signature.anomalous);
    var fusion := Filter(os, (o: Outcome) => o.signature.FusionOnly());
    if !verifiersPassed then (Defect, Critical, 0.99, SignalKind.Vision)
    else if fusion != [] then
      (Defect, Critical, Min(0.60 + Worst(fusion).signature.score * 0.35, 0.97), SignalKind.Fusion)
    else if !endpointsOk then (Defect, Critical, 0.95, SignalKind.Process)
    else if anomalous != [] then
      (Escalate, Worst(anomalous).signature.Severity(), 0.45 + Worst(anomalous).signature.score * 0.20,
       SignalKind.Process)
    else (Pass, Minor, 0.94, SignalKind.Fusion)
  }

  /** The service's gate: re-run validation on every curve. */
  method Validate(curves: seq<Curve>) returns (valid: seq<Curve>, quality: Quality)
    ensures valid == ValidCurves(curves)
    ensures quality == QualityOf(|curves|, |valid|)
  {
    hide Curve.Valid;
    quality := Good;
    valid := [];
    for i := 0 to |curves|
      invariant valid == ValidCurves(curves[..i]) && |valid| <= i
      invariant quality == if |valid| < i then Degraded else Good
    {
      assert curves[..i + 1][..i] == curves[..i];
      if curves[i].Valid() {
        valid := valid + [curves[i]];
      } else {
        quality := Degraded;
      }
    }
    assert curves[..|curves|] == curves;
    if |valid| == 0 { quality := Rejected; }
  }

  /** Triage runs only when something is wrong; a passing unit ships at no cost. */
  method Price(s: Settings, verdict: Verdict, severity: Severity, confidence: real) returns (t: TriageResult)
    ensures t == ServiceTriage(s, verdict, severity, confidence)
  {
    hide Cost.TriageOf;
    t := TriageResult(Cost.Accept, 0.0, 0.0, 0.0, false);
    if verdict != Pass {
      var ctx := Cost.Context(confidence, UNCERTAINTY, s.scope, s.haltHours, severity == Critical);
      var d := Cost.Triage(s.costModel, ctx, Cost.DEFAULT_LIMITS);
      Cost.RankedFirst(s.costModel, ctx, Cost.DEFAULT_LIMITS);
      var best := d.ranked[0];
      t := TriageResult(d.recommended, best.expected, best.low, best.high, d.requiresHuman || InBand(confidence));
    }
  }

  method Inspect(s: Settings, curves: seq<Curve>) returns (r: InspectionResult)
    ensures r == InspectOf(s, curves)
  {
    hide SortedOutcomes, Reconcile, ValidCurves, ServiceTriage, Scored, Analysable;
    var valid, quality := Validate(curves);
    if quality == Rejected {
      r := RejectedResult([Span(IngestionAgent, false)]);
      return;
    }
    var outcomes := Analyse(valid, s.baseline);
    r := Decide(s, outcomes, quality);
  }

  /** Everything after the gate, stage by stage. */
  method Decide(s: Settings, outcomes: seq<Outcome>, quality: Quality) returns (r: InspectionResult)
    requires quality != Rejected
    ensures r == DecideOf(s, outcomes, quality)
  {
    hide Reconcile, ServiceTriage;
    var spans := [Span(IngestionAgent, true)];
    spans := spans + [Span(VisionInspector, true)];
    var endpointsOk := forall o | o in outcomes :: o.signature.inSpec;
    spans := spans + [Span(ProcessSentinel, true)];
    var (verdict, severity, confidence, signal) := Reconcile(outcomes, s.verifiersPassed, endpointsOk);
    var fusionOnly := (exists o | o in outcomes :: o.signature.FusionOnly()) && s.verifiersPassed;
    spans := spans + [Span(Adjudicator, true)];
    var triage := Price(s, verdict, severity, confidence);
    spans := spans + [Span(CostTriage, true)];
    r := InspectionResult(verdict, severity, confidence, fusionOnly, signal, outcomes, triage, quality, spans);
  }

  /** No usable data: escalate, quarantine, ask a human. */
  function RejectedResult(spans: seq<Span>): InspectionResult {
    InspectionResult(Escalate, Major, 0.0, false, NoSignal, [],
                     TriageResult(Cost.Quarantine, 0.0, 0.0, 0.0, true), Rejected, spans)
  }

  function ServiceTriage(s: Settings, verdict: Verdict, severity: Severity, confidence: real): TriageResult {
    if verdict == Pass then TriageResult(Cost.Accept, 0.0, 0.0, 0.0, false)
    else
      var ctx := Cost.Context(confidence, UNCERTAINTY, s.scope, s.haltHours, severity == Critical);
      var d := Cost.TriageOf(s.costModel, ctx, Cost.DEFAULT_LIMITS);
      Cost.RankedFirst(s.costModel, ctx, Cost.DEFAULT_LIMITS);
      TriageResult(d.recommended, d.ranked[0].expected, d.ranked[0].low, d.ranked[0].high,
                   d.requiresHuman || InBand(confidence))
  }

  function DecideOf(s: Settings, os: seq<Outcome>, quality: Quality): InspectionResult {
    var (verdict, severity, confidence, signal) :=
      Reconcile(os, s.verifiersPassed, forall o :: o in os ==> o.signature.inSpec);
    InspectionResult(verdict, severity, confidence,
      (exists o :: o in os && o.signature.FusionOnly()) && s.verifiersPassed, signal, os,
      ServiceTriage(s, verdict, severity, confidence), quality,
      [Span(IngestionAgent, true), Span(VisionInspector, true), Span(ProcessSentinel, true),
       Span(Adjudicator, true), Span(CostTriage, true)])
  }

  function InspectOf(s: Settings, curves: seq<Curve>): InspectionResult {
    var valid := ValidCurves(curves);
    if valid == [] then RejectedResult([Span(IngestionAgent, false)])
    else DecideOf(s, SortedOutcomes(valid, s.baseline), QualityOf(|curves|, |valid|))
  }

  // ------------------------------------------------------------------
  // Agreement and safety of the two pipelines
  // ------------------------------------------------------------------

  /** Outcomes the graph measures. */
  function Measured(s: Settings, curves: seq<Curve>): (os: seq<Outcome>)
    ensures Scored(os, s.baseline) && |os| == |Enough(curves)|
  {
    SortedOutcomes(Enough(curves), s.baseline)
  }

  /** The decision the graph reaches, whatever order its specialists ran in. */
  function GraphVerdict(s: Settings, curves: seq<Curve>): Adjudication {
    Adjudicating.Adjudicate(Measured(s, curves), s.verifiersPassed)
  }

  predicate AllValid(curves: seq<Curve>) { forall c :: c in curves ==> c.Valid() }

  lemma {:induction false} ValidAreEnough(curves: seq<Curve>)
    requires AllValid(curves)
    ensures ValidCurves(curves) == curves && Enough(curves) == curves
  {
    if curves == [] {
    } else {
      hide Curve.Valid, ValidCurves, Enough;
      var k := |curves| - 1;
      assert curves == curves[..k] + [curves[k]];
      assert forall c :: c in curves[..k] ==> c in curves;
      ValidAreEnough(curves[..k]);
      ValidHasSamples(curves[k]);
      GateSnoc(curves[..k], curves[k]);
    }
  }

  lemma GateSnoc(curves: seq<Curve>, c: Curve)
    requires c.Valid() && |c.samples| >= MIN_CURVE
    ensures ValidCurves(curves + [c]) == ValidCurves(curves) + [c]
    ensures Enough(curves + [c]) == Enough(curves) + [c]
  {
    hide Curve.Valid;
    assert (curves + [c])[..|curves|] == curves;
  }

  lemma ValidHasSamples(c: Curve)
    requires c.Valid()
    ensures |c.samples| >= MIN_CURVE
  {
  }

  /** The service's own reconciliation is the shared adjudication on every list of outcomes but the
    * empty one, where it would pass or condemn and the shared one escalates. */
  lemma ReconcileAgreesIff(os: seq<Outcome>, verifiersPassed: bool)
    ensures
      var a := Adjudicating.Adjudicate(os, verifiersPassed);
      var r := Reconcile(os, verifiersPassed, forall o :: o in os ==> o.signature.inSpec);
      r == (a.verdict, a.severity, a.confidence, a.primary) <==> os != []
  {
    NothingFiltered((o: Outcome) => o.signature.FusionOnly());
    NothingFiltered((o: Outcome) => o.signature.anomalous);
    hide Filter, Worst;
  }

  lemma NothingFiltered(keep: Outcome -> bool)
    ensures Filter([], keep) == []
  {
  }

  /** On valid curves the service and the graph reach the same decision. */
  lemma PipelinesAgree(s: Settings, curves: seq<Curve>)
    requires curves != [] && AllValid(curves)
    ensures
      var r, a := InspectOf(s, curves), GraphVerdict(s, curves);
      && r.verdict == a.verdict && r.severity == a.severity && r.confidence == a.confidence
      && r.primary == a.primary && r.fusionOnly == a.fusionOnly
      && r.triage == GraphTriage(a, s)
      && r.quality == QualityOf(|curves|, |Enough(curves)|) == Good
  {
    hide SortedOutcomes, Adjudicating.Adjudicate, Reconcile, ServiceTriage, GraphTriage, AllValid, Enough, ValidCurves;
    ValidAreEnough(curves);
    var os := Measured(s, curves);
    ReconcileAgreesIff(os, s.verifiersPassed);
    TriageAgrees(GraphVerdict(s, curves), s);
    VerdictIff(os, s.verifiersPassed);
  }

  lemma TriageAgrees(a: Adjudication, s: Settings)
    ensures ServiceTriage(s, a.verdict, a.severity, a.confidence) == GraphTriage(a, s)
  {
    hide Cost.TriageOf;
  }

  /** Both pipelines run on the same valid curves: any order of the specialists gives the
    * service's decision, and the trace is a permutation of the same six spans. */
  method RunBoth(s: Settings, curves: seq<Curve>, order: seq<Specialist>, customVision: Option<real>)
    returns (r: InspectionResult, q: QCState)
    requires curves != [] && AllValid(curves)
    requires multiset(order) == multiset{VisionNode, ProcessNode, ContextNode}
    ensures q.fusion.Some? && q.triage.Some?
    ensures r.verdict == q.fusion.value.verdict && r.severity == q.fusion.value.severity
    ensures r.confidence == q.fusion.value.confidence && r.fusionOnly == q.fusion.value.fusionOnly
    ensures r.primary == q.fusion.value.primary && r.triage == q.triage.value
    ensures multiset(q.trace) == multiset{
      Span(IngestionAgent, true), Span(VisionInspector, true), Span(ProcessSentinel, true),
      Span(ContextAgent, true), Span(Adjudicator, true), Span(CostTriage, true)}
  {
    hide SortedOutcomes, Adjudicating.Adjudicate, GraphTriage, InspectOf, AllValid, Enough;
    r := Inspect(s, curves);
    var inputs := new InspectionInputs(curves, s, customVision);
    q := inputs.Run(order);
    ValidAreEnough(curves);
    PipelinesAgree(s, curves);
    SpansPermute(order, |curves|);
    var head, tail := [Span(IngestionAgent, true)], [Span(Adjudicator, true), Span(CostTriage, true)];
    assert q.trace == head + SpecialistSpans(order, |curves|) + tail;
  }

  /** The specialists' spans are the same three in every order. */
  lemma SpansPermute(order: seq<Specialist>, n: nat)
    requires multiset(order) == multiset{VisionNode, ProcessNode, ContextNode}
    ensures multiset(SpecialistSpans(order, n))
            == multiset{Span(VisionInspector, true), Span(ProcessSentinel, n > 0), Span(ContextAgent, true)}
  {
    assert |order| == |multiset(order)| == 3;
    var a, b, c := order[0], order[1], order[2];
    assert order == [a, b, c];
    ThreeDistinct(a, b, c);
    assert SpecialistSpans(order, n) == [SpecialistSpan(a, n), SpecialistSpan(b, n), SpecialistSpan(c, n)];
  }

  lemma ThreeDistinct(a: Specialist, b: Specialist, c: Specialist)
    requires multiset([a, b, c]) == multiset{VisionNode, ProcessNode, ContextNode}
    ensures a != b && a != c && b != c
  {
    var m := multiset([a, b, c]);
    assert m[a] <= 1 && m[b] <= 1 && m[c] <= 1;
  }

  /** Nothing is passed without evidence: on measured curves neither pipeline recommends a line
    * halt, and an unattended ACCEPT means every outcome was nominal and every verifier passed. */
  lemma UnattendedAcceptMeansPass(s: Settings, curves: seq<Curve>)
    requires curves != [] && AllValid(curves)
    ensures
      var t, os := InspectOf(s, curves).triage, Measured(s, curves);
      && t.recommended != Cost.HaltLine
      && (t.recommended == Cost.Accept && !t.requiresHuman <==> s.verifiersPassed && AllNominal(os))
  {
    hide Measured, Adjudicating.Adjudicate, InspectOf, AllValid, AllNominal, Cost.TriageOf;
    assert Measured(s, curves) != [] by { ValidAreEnough(curves); }
    PipelinesAgree(s, curves);
    var a := GraphVerdict(s, curves);
    VerdictIff(Measured(s, curves), s.verifiersPassed);
    Cost.EscalationRules(s.costModel, TriageContext(a, s), Cost.DEFAULT_LIMITS);
    Cost.RecommendationIsChoose(s.costModel, TriageContext(a, s), Cost.DEFAULT_LIMITS);
  }

  /** A defective unit is priced at the confidence of the verdict, give or take 0.06, as safety-critical, and
    * offered the action that costs least; the cost reported is the least of all, halting included; accepting it
    * is never left unattended. */
  lemma DefectIsPriced(s: Settings, curves: seq<Curve>, a: Cost.Disposition)
    requires curves != [] && AllValid(curves) && InspectOf(s, curves).verdict == Defect
    ensures
      var r := InspectOf(s, curves);
      var c := Cost.Context(r.confidence, 0.06, s.scope, s.haltHours, true);
      && r.triage.recommended != Cost.HaltLine
      && (a != Cost.HaltLine ==> Cost.Price(s.costModel, c, r.confidence, r.triage.recommended)
                                 <= Cost.Price(s.costModel, c, r.confidence, a))
      && (Cost.Offered(c, a) ==> r.triage.cost <= Cost.Price(s.costModel, c, r.confidence, a))
      && (exists d: Cost.Disposition :: Cost.Offered(c, d)
                                        && r.triage.cost == Cost.Price(s.costModel, c, r.confidence, d))
      && (r.triage.requiresHuman <==> Cost.TriageOf(s.costModel, c, Cost.Limits(0.10, 50000.0)).requiresHuman)
      && (r.triage.recommended == Cost.Accept ==> r.triage.requiresHuman)
  {
    hide Measured, Adjudicating.Adjudicate, InspectOf, AllValid, Cost.TriageOf, Cost.Price, Scored;
    PipelinesAgree(s, curves);
    var v := GraphVerdict(s, curves);
    VerdictIff(Measured(s, curves), s.verifiersPassed);
    ConfidenceOutsideBand(Measured(s, curves), s.baseline, s.verifiersPassed, true);
    var c, limits := TriageContext(v, s), Cost.DEFAULT_LIMITS;
    assert c == Cost.Context(v.confidence, 0.06, s.scope, s.haltHours, true);
    assert Cost.Clamp(v.confidence) == v.confidence;
    Cost.RecommendedIff(s.costModel, c, limits);
    Cost.RankedAtPrice(s.costModel, c, limits);
    Cost.RecommendationIsChoose(s.costModel, c, limits);
    Cost.EscalationRules(s.costModel, c, limits);
    Cost.RankedFirst(s.costModel, c, limits);
    var ranked := Cost.TriageOf(s.costModel, c, limits).ranked;
    assert ranked[0] in ranked;
  }

  // ------------------------------------------------------------------
  // No analysable curve: the one place the pipelines differ
  // ------------------------------------------------------------------

  /** The graph's triage context when nothing was measured. */
  function EmptyContext(s: Settings): Cost.Context {
    Cost.Context(0.0, UNCERTAINTY, s.scope, s.haltHours, false)
  }

  /** Both pipelines escalate, but the service quarantines and asks a human while the graph
    * sends P(defect) = 0 into triage, whose answer is to accept. */
  lemma EmptyInputDiverges(s: Settings)
    requires Cost.NonNegative(s.costModel)
    ensures
      var r, a := InspectOf(s, []), GraphVerdict(s, []);
      && r.verdict == a.verdict == Escalate
      && r.triage.recommended == Cost.Quarantine && r.triage.requiresHuman
      && GraphTriage(a, s).recommended == Cost.Accept
      && GraphTriage(a, s).requiresHuman
         == Cost.TriageOf(s.costModel, EmptyContext(s), Cost.DEFAULT_LIMITS).requiresHuman
  {
    hide Cost.TriageOf;
    Cost.RecommendationIsChoose(s.costModel, EmptyContext(s), Cost.DEFAULT_LIMITS);
    Cost.ZeroMeansAccept(s.costModel);
  }

  /** Exactly when the graph accepts an unmeasured unit with nobody asked. */
  lemma EmptyGraphUnattendedIff(s: Settings)
    requires Cost.NonNegative(s.costModel)
    ensures
      var m, c := s.costModel, EmptyContext(s);
      !GraphTriage(GraphVerdict(s, []), s).requiresHuman <==>
        && Cost.Price(m, c, 0.0, Cost.Rework) >= 0.1 && Cost.Price(m, c, 0.0, Cost.Quarantine) >= 0.1
        && Cost.Price(m, c, 0.0, Cost.Scrap) >= 0.1 && Cost.Price(m, c, UNCERTAINTY, Cost.Accept) <= 0.5
  {
    hide Cost.TriageOf, Cost.Price, Cost.NonNegative;
    EmptyInputDiverges(s);
    Cost.ZeroProbabilityGate(s.costModel, EmptyContext(s), Cost.DEFAULT_LIMITS);
  }
}
