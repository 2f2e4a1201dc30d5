/** Reconciling the signals into one verdict, in a fixed order of precedence. */
module Adjudicating {
  import opened Reals
  import opened Scoring

  const BAND_LO: real := 0.45
  const BAND_HI: real := 0.70

  datatype Verdict = Pass | Defect | Escalate

  datatype SignalKind = Vision | Process | Fusion | NoSignal

  datatype Outcome = Outcome(position: int, signature: SignatureVerdict)

  datatype Adjudication = Adjudication(
    verdict: Verdict, severity: Severity, confidence: real, primary: SignalKind,
    fusionOnly: bool, signalsConflict: bool)

  /** Outcomes that satisfy `keep`, in order. */
  function Filter(os: seq<Outcome>, keep: Outcome -> bool): (r: seq<Outcome>)
    ensures forall o :: o in r <==> o in os && keep(o)
  {
    if os == [] then []
    else Filter(os[..|os| - 1], keep) + (if keep(os[|os| - 1]) then [os[|os| - 1]] else [])
  }

  /** The first outcome with the highest score. */
  function Worst(os: seq<Outcome>): (w: Outcome)
    requires os != []
    ensures w in os
    ensures forall o :: o in os ==> o.signature.score <= w.signature.score
  {
    if |os| == 1 then os[0]
    else
      var w := Worst(os[..|os| - 1]);
      assert os == os[..|os| - 1] + [os[|os| - 1]];
      if os[|os| - 1].signature.score > w.signature.score then os[|os| - 1] else w
  }

  function Adjudicate(os: seq<Outcome>, verifiersPassed: bool): Adjudication {
    if os == [] then Adjudication(Escalate, Major, 0.0, NoSignal, false, false)
    else
      var anomalous := Filter(os, (o: Outcome) => o.signature.anomalous);
      var fusion := Filter(os, (o: Outcome) => o.signature.FusionOnly());
      if !verifiersPassed then Adjudication(Defect, Critical, 0.99, Vision, false, false)
      else if fusion != [] then
        Adjudication(Defect, Critical, Min(0.60 + Worst(fusion).signature.score * 0.35, 0.97), Fusion, true, true)
      else if exists o :: o in os && !o.signature.inSpec then
        Adjudication(Defect, Critical, 0.95, Process, false, false)
      else if anomalous != [] then
        Adjudication(Escalate, Worst(anomalous).signature.Severity(),
                     0.45 + Worst(anomalous).signature.score * 0.20, Process, false, true)
      else Adjudication(Pass, Minor, 0.94, Fusion, false, false)
  }

  predicate InBand(confidence: real) { BAND_LO <= confidence <= BAND_HI }

  function NeedsHuman(a: Adjudication, triageRequiresHuman: bool): bool {
    triageRequiresHuman || (a.verdict != Pass && InBand(a.confidence))
  }

  /** Outcomes the scorer can have produced: flag and score agree at the threshold. */
  ghost predicate Scored(os: seq<Outcome>, b: Baseline) {
    forall o :: o in os ==> o.signature == SignatureVerdictOf(o.signature.features, b, THRESHOLD)
  }

  ghost predicate AllNominal(os: seq<Outcome>) {
    forall o :: o in os ==> o.signature.inSpec && !o.signature.anomalous
  }

  // ------------------------------------------------------------------
  // Results
  // ------------------------------------------------------------------

  /** The ambiguous branch is dead: an anomalous outcome in spec is a fusion-only outcome.
    * So the verdict is ESCALATE exactly on no outcomes, PASS exactly on a verified unit whose
    * every outcome is nominal, and DEFECT otherwise. This needs nothing of the scorer. */
  lemma VerdictIff(os: seq<Outcome>, verifiersPassed: bool)
    ensures
      var a := Adjudicate(os, verifiersPassed);
      && (a.verdict == Escalate <==> os == [])
      && (a.verdict == Pass <==> os != [] && verifiersPassed && AllNominal(os))
      && (a.severity == Critical <==> a.verdict == Defect)
      && (a.fusionOnly <==> verifiersPassed && exists o :: o in os && o.signature.FusionOnly())
      && (a.signalsConflict <==> a.fusionOnly)
  {
    if os != [] && verifiersPassed {
      var anomalous := Filter(os, (o: Outcome) => o.signature.anomalous);
      var fusion := Filter(os, (o: Outcome) => o.signature.FusionOnly());
      assert fusion == [] <==> forall o :: o in os ==> !o.signature.FusionOnly() by {
        if fusion != [] { assert fusion[0] in os; }
        if exists o :: o in os && o.signature.FusionOnly() {
          var o :| o in os && o.signature.FusionOnly();
          assert o in fusion;
        }
      }
      if fusion == [] && anomalous != [] {
        assert anomalous[0] in anomalous && anomalous[0] in os && !anomalous[0].signature.inSpec;
      }
      if anomalous == [] {
        assert forall o :: o in os && o.signature.anomalous ==> o in anomalous;
      }
    }
  }

  /** `w` scores highest among the fusion-only outcomes. */
  ghost predicate WorstFusion(os: seq<Outcome>, w: Outcome) {
    && w in os && w.signature.FusionOnly()
    && forall o :: o in os && o.signature.FusionOnly() ==> o.signature.score <= w.signature.score
  }

  /** Which signal decides, and with what confidence: the verifiers at 0.99; else a fusion-only outcome at
    * 0.60 plus 0.35 times the highest such score, capped at 0.97; else an endpoint out of specification
    * at 0.95; else a pass at 0.94. */
  lemma ConfidenceExact(os: seq<Outcome>, verifiersPassed: bool, w: Outcome)
    ensures
      var a := Adjudicate(os, verifiersPassed);
      && (os == [] ==> a.primary == NoSignal && a.confidence == 0.0)
      && (os != [] && !verifiersPassed ==> a.primary == Vision && a.confidence == 0.99)
      && (verifiersPassed && WorstFusion(os, w) ==>
            && a.primary == Fusion && a.confidence <= 0.97
            && (a.confidence == 0.97 || a.confidence == 0.60 + 0.35 * w.signature.score)
            && a.confidence <= 0.60 + 0.35 * w.signature.score)
      && ((verifiersPassed && !(exists o :: o in os && o.signature.FusionOnly())
           && exists o :: o in os && !o.signature.inSpec) ==> a.primary == Process && a.confidence == 0.95)
      && (os != [] && verifiersPassed && AllNominal(os) ==> a.primary == Fusion && a.confidence == 0.94)
  {
    var fusion := Filter(os, (o: Outcome) => o.signature.FusionOnly());
    if fusion != [] { assert Worst(fusion) in fusion; }
    if WorstFusion(os, w) { assert w in fusion; }
  }

  /** On scored outcomes the confidence never falls in the uncertainty band, so the human gate
    * is exactly the triage flag. */
  lemma ConfidenceOutsideBand(os: seq<Outcome>, b: Baseline, verifiersPassed: bool, triage: bool)
    requires Scored(os, b)
    ensures !InBand(Adjudicate(os, verifiersPassed).confidence)
    ensures 0.0 <= Adjudicate(os, verifiersPassed).confidence <= 1.0
    ensures NeedsHuman(Adjudicate(os, verifiersPassed), triage) <==> triage
  {
    hide SignatureScore;
    VerdictIff(os, verifiersPassed);
    var fusion := Filter(os, (o: Outcome) => o.signature.FusionOnly());
    if fusion != [] {
      var w := Worst(fusion);
      assert w in fusion && w in os && w.signature.anomalous;
      SignatureScoreRange(w.signature.features, b);
    }
  }

  /** Exactly when the confidence lies in the band, for outcomes from anywhere: a verified unit with a
    * fusion-only outcome whose worst such score is at most 2/7 (and not below -3/7). At the scorer's
    * threshold of 0.45 that cannot be. */
  lemma InBandIff(os: seq<Outcome>, verifiersPassed: bool)
    ensures
      var fusion := Filter(os, (o: Outcome) => o.signature.FusionOnly());
      InBand(Adjudicate(os, verifiersPassed).confidence)
      <==> verifiersPassed && fusion != [] && -3.0 <= 7.0 * Worst(fusion).signature.score <= 2.0
  {
    var fusion := Filter(os, (o: Outcome) => o.signature.FusionOnly());
    var anomalous := Filter(os, (o: Outcome) => o.signature.anomalous);
    if os == [] {
      assert fusion == [];
    } else if verifiersPassed && fusion == [] && anomalous != [] {
      assert anomalous[0] in anomalous && anomalous[0] in os;
    }
  }
}
