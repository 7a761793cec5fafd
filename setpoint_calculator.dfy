/** The hybrid setpoint calculator: it keeps the measurements the operator
    included, refuses fewer than five, sends samples of at least `threshold`
    values (20 by default) to the Gaussian-mixture estimator and smaller ones
    to the robust estimator, and formats the result and its recommendations. */
module SetpointCalculator {
  import opened Wrappers
  import opened Numerics
  import opened Strings
  import opened Records
  import opened RobustStatistics
  import opened GmmStatistics

  const DefaultThreshold: int := 20
  const MinIncluded: nat := 5
  const RobustMultiplier := 1.5

  /** `m.includedInFormula !== false`: a missing flag counts as included. */
  predicate Included(m: Measurement) {
    m.includedInFormula != Some(false)
  }

  /** `measurements.filter(m => m.includedInFormula !== false)`. */
  function IncludedOf(ms: seq<Measurement>): (r: seq<Measurement>)
    ensures |r| <= |ms|
    ensures forall m :: m in r <==> m in ms && Included(m)
  {
    if ms == [] then []
    else if Included(ms[0]) then [ms[0]] + IncludedOf(ms[1..])
    else IncludedOf(ms[1..])
  }

  datatype MethodUsed = Robust | Gmm

  datatype OutlierInfo = OutlierInfo(count: nat, values: seq<real>)
  datatype Details = Details(quartiles: Quartiles, iqr: real, bounds: Bounds)

  /** What calculateSetpoint returns on success. A GMM result also carries
      the full estimator report in `gmm`; a robust one its outliers and
      quartile details. */
  datatype SetpointResult = SetpointResult(
    setpoint: real,
    cv: JsNumber,
    std: JsNumber,
    confidence: Confidence,
    methodUsed: MethodUsed,
    nComponents: nat,
    outliers: Option<OutlierInfo>,
    details: Option<Details>,
    gmm: Option<GmmResult>,
    nMeasurements: nat,
    totalMeasurements: nat,
    excludedMeasurements: nat,
    threshold: int)

  /** `null`, `{ error: true, message }`, or a result. */
  datatype Outcome = NoMeasurements | Failed(message: string) | Computed(result: SetpointResult)

  function CountMessage(n: nat): string {
    "Servono almeno 5 misurazioni incluse (attuale: " + NatToString(n) + ")"
  }

  /** `n >= 15 ? 'medium' : n >= 10 ? 'medium-low' : 'low'`. */
  function RobustConfidence(n: nat): (c: Confidence)
    ensures c != High
    ensures c == Medium <==> n >= 15
    ensures c == MediumLow <==> 10 <= n < 15
    ensures c == Low <==> n < 10
  {
    if n >= 15 then Medium else if n >= 10 then MediumLow else Low
  }

  /** The robust branch: the estimator's figures with one component. */
  function RobustBranch(num: Numerics, values: seq<real>): (r: SetpointResult)
    requires |values| > 0
  {
    var rr := CalculateRobustMean(values, RobustMultiplier, num);
    SetpointResult(rr.setpoint, rr.cv, Finite(rr.std), RobustConfidence(|values|), Robust, 1,
                   Some(OutlierInfo(rr.nOutliers, rr.outliers)), Some(Details(rr.quartiles, rr.iqr, rr.bounds)),
                   None, 0, 0, 0, 0)
  }

  /** The GMM branch: the estimator's report, or its error. */
  function GmmBranch(num: Numerics, values: seq<real>): Result<SetpointResult> {
    match GmmSetpoint(num, values)
    case Failure(message) => Failure(message)
    case Success(g) =>
      Success(SetpointResult(g.setpoint, g.cv, g.std, g.confidence, Gmm, g.nComponents,
                             None, None, Some(g), 0, 0, 0, 0))
  }

  /** The fields set on every result after the estimator returned. */
  function WithProvenance(r: SetpointResult, n: nat, total: nat, threshold: int): SetpointResult
    requires n <= total
  {
    r.(nMeasurements := n, totalMeasurements := total, excludedMeasurements := total - n, threshold := threshold)
  }

  /** `calculateSetpoint(measurements, { threshold })`; an absent threshold is 20. */
  function CalculateSetpoint(num: Numerics, measurements: seq<Measurement>, threshold: Option<int>): Outcome {
    var included := IncludedOf(measurements);
    var n := |included|;
    var t := threshold.GetOr(DefaultThreshold);
    if n == 0 then NoMeasurements
    else if n < MinIncluded then Failed(CountMessage(n))
    else
      var values := Values(included);
      if n >= t then
        match GmmBranch(num, values)
        case Failure(message) => Failed(message)
        case Success(r) => Computed(WithProvenance(r, n, |measurements|, t))
      else Computed(WithProvenance(RobustBranch(num, values), n, |measurements|, t))
  }

  /** No included measurement gives null; one to four give the error that
      carries the count. */
  lemma SmallSamples(num: Numerics, measurements: seq<Measurement>, threshold: Option<int>)
    ensures var n := |IncludedOf(measurements)|;
      && (CalculateSetpoint(num, measurements, threshold) == NoMeasurements <==> n == 0)
      && (1 <= n < MinIncluded ==> CalculateSetpoint(num, measurements, threshold) == Failed(CountMessage(n)))
  {
  }

  /** Every result records n, the input length and the excluded count, and it
      came from GMM exactly when n reached the threshold. */
  lemma Provenance(num: Numerics, measurements: seq<Measurement>, threshold: Option<int>)
    requires CalculateSetpoint(num, measurements, threshold).Computed?
    ensures var r := CalculateSetpoint(num, measurements, threshold).result;
      var n := |IncludedOf(measurements)|;
      var t := threshold.GetOr(DefaultThreshold);
      && n >= MinIncluded
      && r.nMeasurements == n && r.totalMeasurements == |measurements|
      && r.excludedMeasurements == |measurements| - n && r.threshold == t
      && (r.methodUsed == Gmm <==> n >= t)
  {
    var n := |IncludedOf(measurements)|;
    var t := threshold.GetOr(DefaultThreshold);
    if n >= t {
      var values := Values(IncludedOf(measurements));
      assert GmmBranch(num, values).Success?;
    }
  }

  /** A robust result has one component, the estimator's outliers, and a
      confidence by sample size that is never high. */
  lemma RobustResultShape(num: Numerics, measurements: seq<Measurement>, threshold: Option<int>)
    requires CalculateSetpoint(num, measurements, threshold).Computed?
    requires CalculateSetpoint(num, measurements, threshold).result.methodUsed == Robust
    ensures var r := CalculateSetpoint(num, measurements, threshold).result;
      var values := Values(IncludedOf(measurements));
      var rr := CalculateRobustMean(values, RobustMultiplier, num);
      && r.nComponents == 1 && r.confidence == RobustConfidence(|values|) && r.confidence != High
      && r.setpoint == rr.setpoint && r.outliers == Some(OutlierInfo(rr.nOutliers, rr.outliers))
  {
  }

  /** From five included measurements on, calculateSetpoint fails exactly when
      the threshold sends fewer than 10 values to GMM, and then with the GMM
      guard's message. */
  lemma ErrorsOnlyFromGmmGuard(num: Numerics, measurements: seq<Measurement>, threshold: Option<int>)
    requires |IncludedOf(measurements)| >= MinIncluded
    ensures var n := |IncludedOf(measurements)|;
      var t := threshold.GetOr(DefaultThreshold);
      var o := CalculateSetpoint(num, measurements, threshold);
      && (o.Failed? <==> t <= n < MinValues)
      && (o.Failed? ==> o.message == TooFewMessage)
  {
    var included := IncludedOf(measurements);
    var values := Values(included);
    TooFewGuard(num, values);
    if |values| >= MinValues {
      AlwaysFits(num, values);
    }
  }

  // ---------------------------------------------------------------- format

  /** `result.cv < 5 ? … : 'Molto Variabile'`: a NaN cv fails every test. */
  function CvInterpretation(cv: JsNumber): string {
    if Less(cv, Finite(5.0)) then "Molto Stabile"
    else if Less(cv, Finite(10.0)) then "Stabile"
    else if Less(cv, Finite(15.0)) then "Moderatamente Variabile"
    else if Less(cv, Finite(20.0)) then "Variabile"
    else "Molto Variabile"
  }

  /** The bands are [.., 5), [5, 10), [10, 15), [15, 20), [20, ..): each bound
      falls into the band above it, and NaN into the last. */
  lemma CvBands(x: real)
    ensures CvInterpretation(Finite(x)) == "Molto Stabile" <==> x < 5.0
    ensures CvInterpretation(Finite(x)) == "Stabile" <==> 5.0 <= x < 10.0
    ensures CvInterpretation(Finite(x)) == "Moderatamente Variabile" <==> 10.0 <= x < 15.0
    ensures CvInterpretation(Finite(x)) == "Variabile" <==> 15.0 <= x < 20.0
    ensures CvInterpretation(Finite(x)) == "Molto Variabile" <==> 20.0 <= x
    ensures CvInterpretation(NaN) == "Molto Variabile"
  {
    var labels := ["Molto Stabile", "Stabile", "Moderatamente Variabile", "Variabile", "Molto Variabile"];
    assert forall i, j :: 0 <= i < j < 5 ==> labels[i] != labels[j] by {
      assert labels[0][0] == 'M' && labels[0][6] == 'S';
      assert labels[1][0] == 'S';
      assert labels[2][0] == 'M' && labels[2][6] == 't';
      assert labels[3][0] == 'V';
      assert labels[4][0] == 'M' && labels[4][6] == 'V';
    }
  }

  /** `confidenceLabels[result.confidence].text`. */
  function ConfidenceLabel(c: Confidence): string {
    match c
    case High => "Alta"
    case Medium => "Media"
    case MediumLow => "Media-Bassa"
    case Low => "Bassa"
  }

  function MethodLabel(m: MethodUsed): string {
    match m
    case Robust => "Media Robusta (IQR)"
    case Gmm => "Gaussian Mixture Model"
  }

  /** The values formatSetpointResult exposes; the display strings that glue
      numbers to the unit are not modelled. */
  datatype Formatted = Formatted(
    setpointValue: real,
    cvValue: JsNumber,
    cvInterpretation: string,
    std: JsNumber,
    unit: string,
    confidence: string,
    methodLabel: string,
    methodUsed: MethodUsed,
    nMeasurements: nat,
    nComponents: nat,
    hasOutliers: bool,
    outliers: Option<OutlierInfo>)

  /** `formatSetpointResult(result, unit)`: null for null or an error. */
  function FormatSetpointResult(o: Outcome, unit: string): (f: Option<Formatted>)
    ensures f.Some? <==> o.Computed?
    ensures f.Some? ==>
      && f.value.setpointValue == o.result.setpoint && f.value.cvValue == o.result.cv
      && f.value.std == o.result.std && f.value.unit == unit
      && f.value.methodUsed == o.result.methodUsed && f.value.methodLabel == MethodLabel(o.result.methodUsed)
      && f.value.nMeasurements == o.result.nMeasurements && f.value.outliers == o.result.outliers
      && f.value.nComponents == (if o.result.nComponents == 0 then 1 else o.result.nComponents)
      && f.value.cvInterpretation == CvInterpretation(o.result.cv)
      && f.value.confidence == ConfidenceLabel(o.result.confidence)
      && (f.value.hasOutliers <==> o.result.outliers.Some? && o.result.outliers.value.count > 0)
      && f.value.nComponents >= 1
  {
    if !o.Computed? then None
    else
      var r := o.result;
      Some(Formatted(
        r.setpoint, r.cv, CvInterpretation(r.cv), r.std, unit, ConfidenceLabel(r.confidence),
        MethodLabel(r.methodUsed), r.methodUsed, r.nMeasurements,
        if r.nComponents == 0 then 1 else r.nComponents,
        r.outliers.Some? && r.outliers.value.count > 0, r.outliers))
  }

  // -------------------------------------------------------- recommendations

  /** The hard-coded sample size of the GMM advice, independent of the threshold. */
  const GmmAdviceSize: int := 20

  datatype Kind = Info | Warning | Positive

  datatype Recommendation = Recommendation(kind: Kind, message: string)

  function AddMore(n: nat): Recommendation {
    Recommendation(Info, "Aggiungi " + IntToString(GmmAdviceSize - n) + " misurazioni per analisi GMM avanzata")
  }

  const Preliminary := Recommendation(Warning, "Setpoint preliminare - raccomandato almeno 10 misurazioni")
  const HighVariability := Recommendation(Warning, "Alta variabilità rilevata - verifica condizioni di misurazione")

  function ManyOutliers(count: nat): Recommendation {
    Recommendation(Info, NatToString(count) + " valori anomali rimossi - verifica calibrazione")
  }

  function AlmostGmm(n: nat): Recommendation {
    Recommendation(Positive, "Solo " + IntToString(GmmAdviceSize - n) + " misurazioni per attivare GMM")
  }

  /** The five rules of getRecommendations in their fixed order, each with
      whether it fires for r. */
  function Rules(r: SetpointResult): seq<(bool, Recommendation)> {
    [ (r.nMeasurements < 20, AddMore(r.nMeasurements)),
      (r.nMeasurements < 10, Preliminary),
      (Less(Finite(20.0), r.cv), HighVariability),
      (r.outliers.Some? && r.outliers.value.count > 3, ManyOutliers(if r.outliers.Some? then r.outliers.value.count else 0)),
      (r.methodUsed == Robust && r.nMeasurements >= 15, AlmostGmm(r.nMeasurements)) ]
  }

  /** A rule's contribution: its recommendation when it fires. */
  function Emit(rule: (bool, Recommendation)): seq<Recommendation> {
    if rule.0 then [rule.1] else []
  }

  /** The recommendations of the rules that fire, in rule order. */
  function Fired(rules: seq<(bool, Recommendation)>): (recs: seq<Recommendation>)
    ensures |recs| <= |rules|
  {
    if rules == [] then [] else Fired(rules[..|rules| - 1]) + Emit(rules[|rules| - 1])
  }

  /** A recommendation is given exactly when a rule carrying it fires. */
  lemma {:induction false} FiredMembers(rules: seq<(bool, Recommendation)>)
    ensures forall x :: x in Fired(rules) <==> exists i :: 0 <= i < |rules| && rules[i] == (true, x)
  {
    if rules != [] {
      var init := rules[..|rules| - 1];
      FiredMembers(init);
      forall x | x in Fired(rules) ensures exists i :: 0 <= i < |rules| && rules[i] == (true, x) {
        if x !in Emit(rules[|rules| - 1]) {
          var i :| 0 <= i < |init| && init[i] == (true, x);
          assert rules[i] == (true, x);
        }
      }
      forall x, i | 0 <= i < |rules| && rules[i] == (true, x) ensures x in Fired(rules) {
        if i < |rules| - 1 {
          assert init[i] == (true, x);
        }
      }
    }
  }

  /** Five rules fire one after the other. */
  lemma FiredFive(rules: seq<(bool, Recommendation)>)
    requires |rules| == 5
    ensures Fired(rules) == Emit(rules[0]) + Emit(rules[1]) + Emit(rules[2]) + Emit(rules[3]) + Emit(rules[4])
  {
    var r1, r2, r3, r4 := rules[..1], rules[..2], rules[..3], rules[..4];
    assert r1[..0] == [] && r2[..1] == r1 && r3[..2] == r2 && r4[..3] == r3 && rules[..4] == r4;
    assert r1[0] == rules[0] && r2[1] == rules[1] && r3[2] == rules[2] && r4[3] == rules[3];
    assert Fired(r1) == Emit(rules[0]) by {
      assert Fired(r1) == [] + Emit(rules[0]);
    }
    assert Fired(r2) == Fired(r1) + Emit(rules[1]);
    assert Fired(r3) == Fired(r2) + Emit(rules[2]);
    assert Fired(r4) == Fired(r3) + Emit(rules[3]);
    assert Fired(rules) == Fired(r4) + Emit(rules[4]);
  }

  /** No rule fires, no recommendation. */
  lemma {:induction false} NoneFired(rules: seq<(bool, Recommendation)>)
    requires forall i :: 0 <= i < |rules| ==> !rules[i].0
    ensures Fired(rules) == []
  {
    if rules != [] {
      var init := rules[..|rules| - 1];
      assert forall i :: 0 <= i < |init| ==> init[i] == rules[i];
      NoneFired(init);
    }
  }

  /** `getRecommendations(result)` as a value: [] for null or an error. */
  function Recommendations(o: Outcome): seq<Recommendation> {
    if o.Computed? then Fired(Rules(o.result)) else []
  }

  /** `getRecommendations(result)`. */
  method GetRecommendations(o: Outcome) returns (recs: seq<Recommendation>)
    ensures recs == Recommendations(o)
  {
    if !o.Computed? {
      return [];
    }
    var r := o.result;
    ghost var rules := Rules(r);
    recs := [];
    if r.nMeasurements < 20 {
      recs := recs + [AddMore(r.nMeasurements)];
    }
    ghost var e0 := recs;
    assert e0 == Emit(rules[0]);
    if r.nMeasurements < 10 {
      recs := recs + [Preliminary];
    }
    assert recs == e0 + Emit(rules[1]);
    ghost var e1 := recs;
    if Less(Finite(20.0), r.cv) {
      recs := recs + [HighVariability];
    }
    assert recs == e1 + Emit(rules[2]);
    ghost var e2 := recs;
    if r.outliers.Some? && r.outliers.value.count > 3 {
      recs := recs + [ManyOutliers(r.outliers.value.count)];
    }
    assert recs == e2 + Emit(rules[3]);
    ghost var e3 := recs;
    if r.methodUsed == Robust && r.nMeasurements >= 15 {
      recs := recs + [AlmostGmm(r.nMeasurements)];
    }
    assert recs == e3 + Emit(rules[4]);
    FiredFive(rules);
  }

  /** The advice does not depend on the threshold the result was computed with. */
  lemma RecommendationsIgnoreThreshold(r: SetpointResult, t: int)
    ensures Recommendations(Computed(r)) == Recommendations(Computed(r.(threshold := t)))
  {
    assert Rules(r) == Rules(r.(threshold := t));
  }

  /** Fewer than 10 measurements always start with the two sample-size notes. */
  lemma SmallSampleAdvice(r: SetpointResult)
    requires r.nMeasurements < 10
    ensures var recs := Recommendations(Computed(r));
      |recs| >= 2 && recs[..2] == [AddMore(r.nMeasurements), Preliminary]
  {
    var rules := Rules(r);
    FiredFive(rules);
  }

  /** A GMM result from at least 20 measurements whose cv is at most 20 (or
      NaN) gets no advice at all. */
  lemma QuietGmm(r: SetpointResult)
    requires r.methodUsed == Gmm && r.outliers.None? && r.nMeasurements >= 20 && !Less(Finite(20.0), r.cv)
    ensures Recommendations(Computed(r)) == []
  {
    NoneFired(Rules(r));
  }

  /** A robust result from at least 15 measurements always gets the advice
      counted from the hard-coded 20, whatever the threshold: with a threshold
      above 20 the count it names is negative. */
  lemma AdviceCountsFromTwenty(r: SetpointResult)
    requires r.methodUsed == Robust && r.nMeasurements >= 15
    ensures AlmostGmm(r.nMeasurements) in Recommendations(Computed(r))
  {
    var rules := Rules(r);
    assert rules[4] == (true, AlmostGmm(r.nMeasurements));
    FiredMembers(rules);
  }
}
