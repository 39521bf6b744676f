/**
 * The risk engine: the additive rule-based score with its capped total,
 * three-level label and ordered factor list; the ten-entry feature vector
 * for the optional classifier; and the fusion of the two into the final
 * risk level.
 */
module RiskEngine {
  import opened Wrappers
  import opened Numeric
  import opened Observations
  import opened Baseline
  import opened Trend

  /** The three labels: Düşük, Orta, Yüksek. */
  datatype RiskLevel = Low | Medium | High

  /** One explanation line per rule that fired, carrying the value it reports. */
  datatype Factor =
    | CriticalLowNdvi(ndvi: real)
    | LowNdvi(ndvi: real)
    | SevereDeviation(z: real)
    | MarkedDeviation(z: real)
    | SlightDeviation(z: real)
    | RapidDecline
    | Decline
    | WaterStress(ndmi: real)

  /** The current measurement; the clear-pixel ratio may be absent from it. */
  datatype CurrentData = CurrentData(ndviMean: real, ndmiMean: real, clearPixelRatio: Option<real>)

  datatype RuleAssessment = RuleAssessment(
    score: nat,
    level: RiskLevel,
    factors: seq<Factor>,
    zScore: Option<real>,
    trend: TrendResult)

  // Thresholds of the four rules.
  const CriticalNdvi: real := 0.20
  const LowNdviLimit: real := 0.30
  const SevereZ: real := 3.0
  const MarkedZ: real := 2.0
  const SlightZ: real := 1.5
  const RapidSlope: real := -0.05
  const WaterStressNdmi: real := -0.2

  // Points of each tier.
  const CriticalNdviPoints: nat := 40
  const LowNdviPoints: nat := 25
  const SeverePoints: nat := 30
  const MarkedPoints: nat := 20
  const SlightPoints: nat := 10
  const RapidDeclinePoints: nat := 25
  const DeclinePoints: nat := 15
  const WaterStressPoints: nat := 15

  const ScoreCap: nat := 100
  /** Scores from here up are Orta. */
  const MediumFrom: nat := 30
  /** Scores from here up are Yüksek. */
  const HighFrom: nat := 60

  /** Used when the current measurement has no clear-pixel ratio. */
  const DefaultClearRatio: real := 0.8
  const FeatureCount: nat := 10

  // ---------------------------------------------------------------------
  // The rules, as points and as factors
  // ---------------------------------------------------------------------

  function NdviPoints(ndvi: real): nat
  {
    if ndvi < CriticalNdvi then CriticalNdviPoints
    else if ndvi < LowNdviLimit then LowNdviPoints
    else 0
  }

  function ZPoints(z: Option<real>): nat
  {
    match z
    case None => 0
    case Some(v) =>
      if Abs(v) > SevereZ then SeverePoints
      else if Abs(v) > MarkedZ then MarkedPoints
      else if Abs(v) > SlightZ then SlightPoints
      else 0
  }

  function TrendPoints(t: TrendResult): nat
  {
    if t.direction != Decreasing then 0
    else if t.slope < RapidSlope then RapidDeclinePoints
    else DeclinePoints
  }

  function NdmiPoints(ndmi: real): nat
  {
    if ndmi < WaterStressNdmi then WaterStressPoints else 0
  }

  /** The uncapped sum of the four rules. */
  function RawScore(ndvi: real, ndmi: real, z: Option<real>, t: TrendResult): nat
  {
    NdviPoints(ndvi) + ZPoints(z) + TrendPoints(t) + NdmiPoints(ndmi)
  }

  function NdviFactors(ndvi: real): seq<Factor>
  {
    if ndvi < CriticalNdvi then [CriticalLowNdvi(ndvi)]
    else if ndvi < LowNdviLimit then [LowNdvi(ndvi)]
    else []
  }

  function ZFactors(z: Option<real>): seq<Factor>
  {
    match z
    case None => []
    case Some(v) =>
      if Abs(v) > SevereZ then [SevereDeviation(v)]
      else if Abs(v) > MarkedZ then [MarkedDeviation(v)]
      else if Abs(v) > SlightZ then [SlightDeviation(v)]
      else []
  }

  function TrendFactors(t: TrendResult): seq<Factor>
  {
    if t.direction != Decreasing then []
    else if t.slope < RapidSlope then [RapidDecline]
    else [Decline]
  }

  function NdmiFactors(ndmi: real): seq<Factor>
  {
    if ndmi < WaterStressNdmi then [WaterStress(ndmi)] else []
  }

  function RuleFactors(ndvi: real, ndmi: real, z: Option<real>, t: TrendResult): seq<Factor>
  {
    NdviFactors(ndvi) + ZFactors(z) + TrendFactors(t) + NdmiFactors(ndmi)
  }

  /** The points a factor stands for. */
  function Weight(f: Factor): nat
  {
    match f
    case CriticalLowNdvi(_) => CriticalNdviPoints
    case LowNdvi(_) => LowNdviPoints
    case SevereDeviation(_) => SeverePoints
    case MarkedDeviation(_) => MarkedPoints
    case SlightDeviation(_) => SlightPoints
    case RapidDecline => RapidDeclinePoints
    case Decline => DeclinePoints
    case WaterStress(_) => WaterStressPoints
  }

  function Weights(fs: seq<Factor>): nat
  {
    if fs == [] then 0 else Weight(fs[0]) + Weights(fs[1..])
  }

  /** Which of the four rules (NDVI, z-score, trend, NDMI) produced a factor. */
  function RuleOf(f: Factor): nat
  {
    match f
    case CriticalLowNdvi(_) => 0
    case LowNdvi(_) => 0
    case SevereDeviation(_) => 1
    case MarkedDeviation(_) => 1
    case SlightDeviation(_) => 1
    case RapidDecline => 2
    case Decline => 2
    case WaterStress(_) => 3
  }

  function LevelOf(score: int): RiskLevel
  {
    if score < MediumFrom then Low
    else if score < HighFrom then Medium
    else High
  }

  function Rank(l: RiskLevel): nat
  {
    match l
    case Low => 0
    case Medium => 1
    case High => 2
  }

  function Cap(raw: nat): (score: nat)
    ensures score <= ScoreCap && (score == raw || score == ScoreCap)
    ensures raw <= ScoreCap ==> score == raw
  {
    if raw < ScoreCap then raw else ScoreCap
  }

  /** The assessment from the measured values, the z-score and the trend. */
  function Assess(ndvi: real, ndmi: real, z: Option<real>, t: TrendResult): RuleAssessment
  {
    var score := Cap(RawScore(ndvi, ndmi, z, t));
    RuleAssessment(score, LevelOf(score), RuleFactors(ndvi, ndmi, z, t), z, t)
  }

  /**
   * `calculate_rule_based_risk`: the z-score of the current NDVI against the
   * baseline row of the current week, and the trend of the NDVI series over
   * the default window.
   */
  function RuleRisk(current: CurrentData, week: int, baseline: BaselineResult, timeseries: seq<Observation>): RuleAssessment
  {
    Assess(current.ndviMean, current.ndmiMean,
      ZScore(current.ndviMean, week, baseline.rows, NdviIndex),
      CalculateTrend(Ndvis(timeseries), DefaultWindow))
  }

  /** The score accumulated rule by rule, clamped, then labelled. */
  method AccumulateScore(ndvi: real, ndmi: real, z: Option<real>, trend: TrendResult) returns (r: RuleAssessment)
    ensures r == Assess(ndvi, ndmi, z, trend)
  {
    var score: nat := 0;
    var factors: seq<Factor> := [];

    if ndvi < CriticalNdvi {
      score := score + CriticalNdviPoints;
      factors := factors + [CriticalLowNdvi(ndvi)];
    } else if ndvi < LowNdviLimit {
      score := score + LowNdviPoints;
      factors := factors + [LowNdvi(ndvi)];
    }
    assert score == NdviPoints(ndvi) && factors == NdviFactors(ndvi);

    if z.Some? {
      if Abs(z.value) > SevereZ {
        score := score + SeverePoints;
        factors := factors + [SevereDeviation(z.value)];
      } else if Abs(z.value) > MarkedZ {
        score := score + MarkedPoints;
        factors := factors + [MarkedDeviation(z.value)];
      } else if Abs(z.value) > SlightZ {
        score := score + SlightPoints;
        factors := factors + [SlightDeviation(z.value)];
      }
    }
    assert score == NdviPoints(ndvi) + ZPoints(z) && factors == NdviFactors(ndvi) + ZFactors(z);

    if trend.direction == Decreasing {
      if trend.slope < RapidSlope {
        score := score + RapidDeclinePoints;
        factors := factors + [RapidDecline];
      } else {
        score := score + DeclinePoints;
        factors := factors + [Decline];
      }
    }
    assert score == NdviPoints(ndvi) + ZPoints(z) + TrendPoints(trend);
    assert factors == NdviFactors(ndvi) + ZFactors(z) + TrendFactors(trend);

    if ndmi < WaterStressNdmi {
      score := score + WaterStressPoints;
      factors := factors + [WaterStress(ndmi)];
    }
    assert score == RawScore(ndvi, ndmi, z, trend) && factors == RuleFactors(ndvi, ndmi, z, trend);

    if score > ScoreCap {
      score := ScoreCap;
    }

    var level;
    if score < MediumFrom {
      level := Low;
    } else if score < HighFrom {
      level := Medium;
    } else {
      level := High;
    }
    r := RuleAssessment(score, level, factors, z, trend);
  }

  /**
   * `calculate_rule_based_risk`: the NDVI z-score for the current week and
   * the trend of the series, then the four rules.
   */
  method CalculateRuleBasedRisk(current: CurrentData, week: int, baseline: BaselineResult, timeseries: seq<Observation>)
    returns (r: RuleAssessment)
    ensures r == RuleRisk(current, week, baseline, timeseries)
    ensures r.score <= ScoreCap
    ensures r.factors == [] <==> r.score == 0
  {
    var z := ZScore(current.ndviMean, week, baseline.rows, NdviIndex);
    var trend := CalculateTrend(Ndvis(timeseries), DefaultWindow);
    r := AccumulateScore(current.ndviMean, current.ndmiMean, z, trend);
    FactorsEmptyIffZeroScore(current.ndviMean, current.ndmiMean, z, trend);
  }

  // ---------------------------------------------------------------------
  // What the rules promise
  // ---------------------------------------------------------------------

  lemma {:induction false} WeightsAppend(a: seq<Factor>, b: seq<Factor>)
    ensures Weights(a + b) == Weights(a) + Weights(b)
  {
    if a == [] {
      assert a + b == b;
    } else {
      assert (a + b)[1..] == a[1..] + b;
      WeightsAppend(a[1..], b);
    }
  }

  lemma {:induction false} WeightsZeroIffEmpty(fs: seq<Factor>)
    ensures Weights(fs) == 0 <==> fs == []
  {
    if fs != [] {
      WeightsZeroIffEmpty(fs[1..]);
    }
  }

  lemma WeightsOfBlock(fs: seq<Factor>)
    requires |fs| <= 1
    ensures Weights(fs) == if fs == [] then 0 else Weight(fs[0])
  {
    if fs != [] {
      assert fs[1..] == [];
    }
  }

  /** The uncapped score is exactly the sum of the weights of the reported factors. */
  lemma ScoreIsWeightOfFactors(ndvi: real, ndmi: real, z: Option<real>, t: TrendResult)
    ensures RawScore(ndvi, ndmi, z, t) == Weights(RuleFactors(ndvi, ndmi, z, t))
    ensures Assess(ndvi, ndmi, z, t).score == Cap(Weights(Assess(ndvi, ndmi, z, t).factors))
  {
    var a, b, c, d := NdviFactors(ndvi), ZFactors(z), TrendFactors(t), NdmiFactors(ndmi);
    assert Weights(a) == NdviPoints(ndvi) by { WeightsOfBlock(a); }
    assert Weights(b) == ZPoints(z) by { WeightsOfBlock(b); }
    assert Weights(c) == TrendPoints(t) by { WeightsOfBlock(c); }
    assert Weights(d) == NdmiPoints(ndmi) by { WeightsOfBlock(d); }
    WeightsAppend(a, b);
    WeightsAppend(a + b, c);
    WeightsAppend(a + b + c, d);
  }

  /** The score lies in [0, 100] and the raw sum never exceeds 110. */
  lemma ScoreBounds(ndvi: real, ndmi: real, z: Option<real>, t: TrendResult)
    ensures RawScore(ndvi, ndmi, z, t) <= 110
    ensures 0 <= Assess(ndvi, ndmi, z, t).score <= ScoreCap
  {
  }

  /** No factor, no score; any factor, a positive score. */
  lemma FactorsEmptyIffZeroScore(ndvi: real, ndmi: real, z: Option<real>, t: TrendResult)
    ensures Assess(ndvi, ndmi, z, t).factors == [] <==> Assess(ndvi, ndmi, z, t).score == 0
  {
    ScoreIsWeightOfFactors(ndvi, ndmi, z, t);
    WeightsZeroIffEmpty(RuleFactors(ndvi, ndmi, z, t));
  }

  predicate InRuleOrder(fs: seq<Factor>)
  {
    forall i, j :: 0 <= i < j < |fs| ==> RuleOf(fs[i]) < RuleOf(fs[j])
  }

  /** Appending at most one factor of a later rule keeps the factors in rule order. */
  lemma AppendRule(fs: seq<Factor>, block: seq<Factor>, r: nat)
    requires InRuleOrder(fs) && forall f :: f in fs ==> RuleOf(f) < r
    requires |block| <= 1 && forall f :: f in block ==> RuleOf(f) == r
    ensures InRuleOrder(fs + block)
    ensures forall f :: f in fs + block ==> RuleOf(f) <= r
  {
    if block == [] {
      assert fs + block == fs;
    } else {
      var all := fs + block;
      forall i, j | 0 <= i < j < |all|
        ensures RuleOf(all[i]) < RuleOf(all[j])
      {
        if j < |fs| {
          assert all[i] == fs[i] && all[j] == fs[j];
        } else {
          assert all[j] == block[0] && all[i] == fs[i];
          assert fs[i] in fs;
        }
      }
    }
  }

  /** At most one factor per rule, in the order NDVI, z-score, trend, NDMI. */
  lemma FactorsInRuleOrder(ndvi: real, ndmi: real, z: Option<real>, t: TrendResult)
    ensures |Assess(ndvi, ndmi, z, t).factors| <= 4
    ensures InRuleOrder(Assess(ndvi, ndmi, z, t).factors)
  {
    var a, b, c, d := NdviFactors(ndvi), ZFactors(z), TrendFactors(t), NdmiFactors(ndmi);
    assert [] + a == a;
    AppendRule([], a, 0);
    AppendRule(a, b, 1);
    AppendRule(a + b, c, 2);
    AppendRule(a + b + c, d, 3);
  }

  /** The NDVI rule: a critical factor below 0.20, a low factor in [0.20, 0.30), never both. */
  lemma NdviTier(ndvi: real, ndmi: real, z: Option<real>, t: TrendResult)
    ensures CriticalLowNdvi(ndvi) in Assess(ndvi, ndmi, z, t).factors <==> ndvi < CriticalNdvi
    ensures LowNdvi(ndvi) in Assess(ndvi, ndmi, z, t).factors <==> CriticalNdvi <= ndvi < LowNdviLimit
  {
    var fs := RuleFactors(ndvi, ndmi, z, t);
    assert forall f :: f in fs && (f.CriticalLowNdvi? || f.LowNdvi?) ==> f in NdviFactors(ndvi);
  }

  /** The z rule: only the first matching tier fires, and nothing fires without a z-score. */
  lemma DeviationTier(ndvi: real, ndmi: real, z: Option<real>, t: TrendResult)
    ensures z.None? ==> forall f :: f in Assess(ndvi, ndmi, z, t).factors ==> RuleOf(f) != 1
    ensures z.Some? ==>
      (SevereDeviation(z.value) in Assess(ndvi, ndmi, z, t).factors <==> Abs(z.value) > SevereZ) &&
      (MarkedDeviation(z.value) in Assess(ndvi, ndmi, z, t).factors <==> MarkedZ < Abs(z.value) <= SevereZ) &&
      (SlightDeviation(z.value) in Assess(ndvi, ndmi, z, t).factors <==> SlightZ < Abs(z.value) <= MarkedZ)
  {
    var fs := RuleFactors(ndvi, ndmi, z, t);
    assert forall f :: f in fs && RuleOf(f) == 1 ==> f in ZFactors(z);
  }

  /** The trend rule fires only on a decreasing trend, with the steeper tier below a slope of -0.05. */
  lemma DeclineTier(ndvi: real, ndmi: real, z: Option<real>, t: TrendResult)
    ensures RapidDecline in Assess(ndvi, ndmi, z, t).factors <==> t.direction == Decreasing && t.slope < RapidSlope
    ensures Decline in Assess(ndvi, ndmi, z, t).factors <==> t.direction == Decreasing && t.slope >= RapidSlope
  {
    var fs := RuleFactors(ndvi, ndmi, z, t);
    assert forall f :: f in fs && RuleOf(f) == 2 ==> f in TrendFactors(t);
  }

  /** The water-stress factor appears exactly when NDMI is below -0.2. */
  lemma WaterStressTier(ndvi: real, ndmi: real, z: Option<real>, t: TrendResult)
    ensures WaterStress(ndmi) in Assess(ndvi, ndmi, z, t).factors <==> ndmi < WaterStressNdmi
  {
    var fs := RuleFactors(ndvi, ndmi, z, t);
    assert forall f :: f in fs && RuleOf(f) == 3 ==> f in NdmiFactors(ndmi);
  }

  /** The label partitions [0, 100] at 30 and 60, and a higher score never gets a lower label. */
  lemma LevelMonotone(s1: int, s2: int)
    requires s1 <= s2
    ensures Rank(LevelOf(s1)) <= Rank(LevelOf(s2))
    ensures LevelOf(s1) == High ==> LevelOf(s2) == High
  {
  }

  /** A larger deviation never lowers the score or the label; a missing z-score scores lowest. */
  lemma ScoreMonotoneInZ(ndvi: real, ndmi: real, z1: Option<real>, z2: Option<real>, t: TrendResult)
    requires z1.Some? && z2.Some? ==> Abs(z1.value) <= Abs(z2.value)
    requires z2.None? ==> z1.None?
    ensures Assess(ndvi, ndmi, z1, t).score <= Assess(ndvi, ndmi, z2, t).score
    ensures Rank(Assess(ndvi, ndmi, z1, t).level) <= Rank(Assess(ndvi, ndmi, z2, t).level)
  {
    LevelMonotone(Assess(ndvi, ndmi, z1, t).score, Assess(ndvi, ndmi, z2, t).score);
  }

  /** All four rules at their top tier sum to 110, which the cap turns into 100. */
  lemma CapMatters()
    ensures RawScore(0.10, -0.30, Some(4.0), TrendResult(-0.10, Decreasing, 1.0)) == 110
    ensures Assess(0.10, -0.30, Some(4.0), TrendResult(-0.10, Decreasing, 1.0)).score == 100
    ensures Assess(0.10, -0.30, Some(4.0), TrendResult(-0.10, Decreasing, 1.0)).level == High
  {
  }

  /**
   * A field at NDVI 0.20 in week 11, whose baseline expects 0.45 with sigma
   * 0.03, with too short a series for a trend and no water stress: 0.20 is
   * not below 0.20, so the NDVI rule adds 25, the z-score of about -8.3 adds
   * 30, and the total 55 is Orta.
   */
  lemma BoundaryNdviScenario(timeseries: seq<Observation>)
    requires |timeseries| < DefaultWindow
    ensures var baseline := BaselineResult([BaselineRow(11, 0.45, 0.03, 3, 0.10, 0.03)], [], 3, [2021, 2022, 2023]);
      var r := RuleRisk(CurrentData(0.20, 0.05, Some(0.9)), 11, baseline, timeseries);
      r.score == 55 && r.level == Medium && r.factors == [LowNdvi(0.20), SevereDeviation((0.20 - 0.45) / 0.03)]
  {
  }

  // ---------------------------------------------------------------------
  // Feature vector and fusion with the classifier
  // ---------------------------------------------------------------------

  /**
   * `prepare_features`: one row of ten values in a fixed order. A missing
   * z-score counts as 0, the deviation is 0 when the week has no baseline
   * row, and a missing clear-pixel ratio counts as 0.8.
   */
  function PrepareFeatures(current: CurrentData, week: int, baseline: BaselineResult,
                           timeseries: seq<Observation>, ops: FloatOps): (fv: seq<real>)
    ensures |fv| == FeatureCount
    ensures fv[0] == current.ndviMean && fv[1] == current.ndmiMean
    ensures fv[2] == ZScore(current.ndviMean, week, baseline.rows, NdviIndex).GetOr(0.0)
    ensures fv[3] == ZScore(current.ndmiMean, week, baseline.rows, NdmiIndex).GetOr(0.0)
    ensures fv[4] == Abs(fv[2]) && fv[4] >= 0.0
    ensures FindWeek(baseline.rows, week).None? ==> fv[2] == 0.0 && fv[3] == 0.0 && fv[4] == 0.0 && fv[5] == 0.0
    ensures FindWeek(baseline.rows, week).Some? ==> fv[5] == ops.deviationPct(FindWeek(baseline.rows, week).value.ndviMu, current.ndviMean)
    ensures fv[6] == CalculateTrend(Ndvis(timeseries), DefaultWindow).slope
    ensures fv[7] == ops.weekSin(week) && fv[8] == ops.weekCos(week)
    ensures current.clearPixelRatio.None? ==> fv[9] == DefaultClearRatio
    ensures current.clearPixelRatio.Some? ==> fv[9] == current.clearPixelRatio.value
  {
    var zNdvi := ZScore(current.ndviMean, week, baseline.rows, NdviIndex).GetOr(0.0);
    var zNdmi := ZScore(current.ndmiMean, week, baseline.rows, NdmiIndex).GetOr(0.0);
    var trend := CalculateTrend(Ndvis(timeseries), DefaultWindow);
    var deviation :=
      match FindWeek(baseline.rows, week)
      case None => 0.0
      case Some(row) => ops.deviationPct(row.ndviMu, current.ndviMean);
    [current.ndviMean, current.ndmiMean, zNdvi, zNdmi, Abs(zNdvi), deviation,
     trend.slope, ops.weekSin(week), ops.weekCos(week), current.clearPixelRatio.GetOr(DefaultClearRatio)]
  }

  /**
   * A week whose baseline row has NDVI sigma 0 gets no z-score, and the
   * source's `or 0` turns it into a zero feature, absolute value included.
   */
  lemma ZeroSigmaFeatures(current: CurrentData, week: int, baseline: BaselineResult,
                          timeseries: seq<Observation>, ops: FloatOps)
    requires FindWeek(baseline.rows, week).Some? && FindWeek(baseline.rows, week).value.ndviSigma == 0.0
    ensures var fv := PrepareFeatures(current, week, baseline, timeseries, ops);
      fv[2] == 0.0 && fv[4] == 0.0
  {
  }

  /** What the trained model returns: a class and the probability of each class. */
  datatype ClassifierOutput = ClassifierOutput(predictedClass: int, probabilities: seq<real>)

  /**
   * The optional trained model: absent when no model file exists; otherwise
   * a function of the feature row that yields an output or fails (scaling or
   * prediction raised).
   */
  datatype Classifier = NoModel | Model(run: seq<real> -> Option<ClassifierOutput>)

  datatype MlPrediction = MlPrediction(predictedClass: int, level: RiskLevel, low: real, medium: real, high: real)

  datatype RiskReport = RiskReport(ruleBased: RuleAssessment, mlPrediction: Option<MlPrediction>, finalLevel: RiskLevel)

  /** The label table 0 → Düşük, 1 → Orta, 2 → Yüksek; any other class has no label. */
  function RiskLabel(c: int): (l: Option<RiskLevel>)
    ensures l.Some? <==> 0 <= c <= 2
    ensures l.Some? ==> Rank(l.value) == c
  {
    if c == 0 then Some(Low)
    else if c == 1 then Some(Medium)
    else if c == 2 then Some(High)
    else None
  }

  /**
   * The guarded classifier path: no model, a failing model, a class outside
   * the label table or fewer than three probabilities all leave no prediction.
   */
  function MlPredict(classifier: Classifier, features: seq<real>): (p: Option<MlPrediction>)
    ensures classifier.NoModel? ==> p.None?
    ensures p.Some? ==> 0 <= p.value.predictedClass <= 2 && Rank(p.value.level) == p.value.predictedClass
  {
    match classifier
    case NoModel => None
    case Model(run) =>
      match run(features)
      case None => None
      case Some(out) =>
        match RiskLabel(out.predictedClass)
        case None => None
        case Some(level) =>
          if |out.probabilities| < 3 then None
          else Some(MlPrediction(out.predictedClass, level, out.probabilities[0], out.probabilities[1], out.probabilities[2]))
  }

  /**
   * `predict_risk`: the rule-based assessment is always computed; the
   * classifier's level wins when it produced a prediction.
   */
  function PredictRisk(current: CurrentData, week: int, baseline: BaselineResult, timeseries: seq<Observation>,
                       classifier: Classifier, ops: FloatOps): (r: RiskReport)
    ensures r.ruleBased == RuleRisk(current, week, baseline, timeseries)
    ensures r.mlPrediction.None? ==> r.finalLevel == r.ruleBased.level
    ensures r.mlPrediction.Some? ==> r.finalLevel == r.mlPrediction.value.level
  {
    var rule := RuleRisk(current, week, baseline, timeseries);
    var ml := MlPredict(classifier, PrepareFeatures(current, week, baseline, timeseries, ops));
    RiskReport(rule, ml, if ml.Some? then ml.value.level else rule.level)
  }

  /** Without a model, or when the model fails, the final level is the rule-based one. */
  lemma FallbackToRules(current: CurrentData, week: int, baseline: BaselineResult, timeseries: seq<Observation>,
                        classifier: Classifier, ops: FloatOps)
    requires classifier.NoModel? || classifier.run(PrepareFeatures(current, week, baseline, timeseries, ops)).None?
    ensures PredictRisk(current, week, baseline, timeseries, classifier, ops).mlPrediction.None?
    ensures PredictRisk(current, week, baseline, timeseries, classifier, ops).finalLevel ==
      RuleRisk(current, week, baseline, timeseries).level
  {
  }

  /** A model answering a labelled class with three probabilities decides the final level. */
  lemma ModelDecides(current: CurrentData, week: int, baseline: BaselineResult, timeseries: seq<Observation>,
                     classifier: Classifier, ops: FloatOps, out: ClassifierOutput)
    requires classifier.Model?
    requires classifier.run(PrepareFeatures(current, week, baseline, timeseries, ops)) == Some(out)
    requires 0 <= out.predictedClass <= 2 && |out.probabilities| >= 3
    ensures Rank(PredictRisk(current, week, baseline, timeseries, classifier, ops).finalLevel) == out.predictedClass
  {
  }
}
