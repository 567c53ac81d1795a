/** From sliding windows to a risk score, a status and a decision to migrate. */
module Predictor {
  import opened Common
  import opened Windows
  import opened Monitors
  import opened Regression

  function Weight(m: MetricType): real {
    match m
    case DiskIOLatency => 0.25
    case DiskUtil => 0.20
    case ErrorRate => 0.25
    case ResponseTime => 0.15
    case CPUUsage => 0.05
    case MemoryUsage => 0.10
  }

  /** The danger zone of a metric. */
  function Threshold(m: MetricType): (t: real)
    ensures t > 0.0
  {
    match m
    case DiskIOLatency => 50.0
    case DiskUtil => 0.90
    case ErrorRate => 5.0
    case ResponseTime => 30.0
    case CPUUsage => 0.90
    case MemoryUsage => 0.90
  }

  // ------------------------------------------------------------------- volatility

  type Root = real -> real

  function Times(a: real, b: real): real { a * b }

  lemma {:induction false} TimesSign(a: real, b: real)
    ensures a == 0.0 ==> Times(a, b) == 0.0
    ensures (a > 0.0 && b > 0.0) || (a < 0.0 && b < 0.0) ==> Times(a, b) > 0.0
  {
  }

  function Square(x: real): (r: real)
    ensures x == 0.0 ==> r == 0.0
    ensures x != 0.0 ==> r > 0.0
  {
    TimesSign(x, x);
    Times(x, x)
  }

  ghost predicate IsSqrt(root: Root) {
    forall x :: x >= 0.0 ==> root(x) >= 0.0 && Square(root(x)) == x
  }

  function SquaredDeviations(values: seq<real>, mean: real): real {
    if values == [] then 0.0 else
      SquaredDeviations(values[..|values| - 1], mean) + Square(values[|values| - 1] - mean)
  }

  function MeanOf(values: seq<real>): real {
    if values == [] then 0.0 else Sum(values) / |values| as real
  }

  function Variance(values: seq<real>): real
    requires |values| >= 2
  {
    SquaredDeviations(values, MeanOf(values)) / (|values| - 1) as real
  }

  /** Standard deviation of a sample. */
  function Volatility(values: seq<real>, root: Root): real {
    if |values| < 2 then 0.0 else root(Variance(values))
  }

  // The sample variance needs no mean: it is a sum over pairs of values.

  /** Sum over the values u of (v - u)^2. */
  function DistancesTo(values: seq<real>, v: real): real {
    if values == [] then 0.0 else
      DistancesTo(values[..|values| - 1], v) + Square(v - values[|values| - 1])
  }

  /** Sum over all pairs i < j of (values[j] - values[i])^2. */
  function PairDistances(values: seq<real>): real {
    if values == [] then 0.0 else
      PairDistances(values[..|values| - 1]) + DistancesTo(values[..|values| - 1], values[|values| - 1])
  }

  /** Sum of the differences from `m`. */
  function Offset(values: seq<real>, m: real): real {
    if values == [] then 0.0 else Offset(values[..|values| - 1], m) + (values[|values| - 1] - m)
  }

  lemma {:induction false} OffsetFromMean(values: seq<real>, m: real)
    ensures Offset(values, m) == Sum(values) - m * |values| as real
  {
    if values != [] {
      OffsetFromMean(values[..|values| - 1], m);
      assert m * |values| as real == m * (|values| - 1) as real + m;
    }
  }

  /** Number, offset and squared deviations of some values. */
  datatype Moments = Moments(n: real, offset: real, deviations: real)

  function MomentsOf(values: seq<real>, m: real): Moments {
    Moments(|values| as real, Offset(values, m), SquaredDeviations(values, m))
  }

  /** One more value, that is off by `a`. */
  function OneMore(s: Moments, a: real): Moments { Moments(s.n + 1.0, s.offset + a, s.deviations + a * a) }

  /** The squared distances from a value that is off by `a`. */
  function DistanceForm(s: Moments, a: real): real { s.n * (a * a) - 2.0 * (a * s.offset) + s.deviations }

  function PairForm(s: Moments): real { s.n * s.deviations - s.offset * s.offset }

  lemma {:induction false} MomentsNext(values: seq<real>, m: real)
    requires values != []
    ensures MomentsOf(values, m) == OneMore(MomentsOf(values[..|values| - 1], m), values[|values| - 1] - m)
  {
    SquareIsProduct(values[|values| - 1] - m);
  }

  lemma {:induction false} SquareIsProduct(x: real)
    ensures Square(x) == x * x
  {
  }

  lemma {:induction false} DistanceStep(s: Moments, a: real, b: real)
    ensures DistanceForm(OneMore(s, b), a) == DistanceForm(s, a) + Square(a - b)
  {
    SquareIsProduct(a - b);
    assert (a - b) * (a - b) == a * a - 2.0 * (a * b) + b * b;
    assert (s.n + 1.0) * (a * a) == s.n * (a * a) + a * a;
    assert a * (s.offset + b) == a * s.offset + a * b;
  }

  lemma {:induction false} DistancesExpand(values: seq<real>, v: real, m: real)
    ensures DistancesTo(values, v) == DistanceForm(MomentsOf(values, m), v - m)
  {
    if values == [] {
      assert MomentsOf(values, m) == Moments(0.0, 0.0, 0.0);
    } else {
      var init, u := values[..|values| - 1], values[|values| - 1];
      DistancesExpand(init, v, m);
      MomentsNext(values, m);
      DistanceStep(MomentsOf(init, m), v - m, u - m);
      assert (v - m) - (u - m) == v - u;
    }
  }

  lemma {:induction false} PairStep(s: Moments, a: real)
    ensures PairForm(OneMore(s, a)) == PairForm(s) + DistanceForm(s, a)
  {
    assert (s.n + 1.0) * (s.deviations + a * a) == s.n * s.deviations + s.n * (a * a) + s.deviations + a * a;
    assert (s.offset + a) * (s.offset + a) == s.offset * s.offset + 2.0 * (a * s.offset) + a * a;
  }

  lemma {:induction false} PairDistancesExpand(values: seq<real>, m: real)
    ensures PairDistances(values) == PairForm(MomentsOf(values, m))
  {
    if values != [] {
      var init, v := values[..|values| - 1], values[|values| - 1];
      PairDistancesExpand(init, m);
      DistancesExpand(init, v, m);
      MomentsNext(values, m);
      PairStep(MomentsOf(init, m), v - m);
    }
  }

  lemma {:induction false} DeviationsArePairs(values: seq<real>)
    requires values != []
    ensures |values| as real * SquaredDeviations(values, MeanOf(values)) == PairDistances(values)
  {
    var n, m := |values| as real, MeanOf(values);
    PairDistancesExpand(values, m);
    OffsetFromMean(values, m);
    QuotientTimes(Sum(values), n);
    assert Offset(values, m) == 0.0;
  }

  /** The square of the volatility, times n (n - 1), is the sum over all pairs of their squared differences. */
  lemma {:induction false} VolatilityIsPairSum(values: seq<real>, root: Root)
    requires IsSqrt(root) && |values| >= 2
    ensures Volatility(values, root) >= 0.0
    ensures |values| as real * ((|values| - 1) as real * (Volatility(values, root) * Volatility(values, root)))
         == PairDistances(values)
  {
    var k, deviations := (|values| - 1) as real, SquaredDeviations(values, MeanOf(values));
    VarianceSign(values);
    var v := Volatility(values, root);
    assert Square(v) == Variance(values) == deviations / k;
    assert Square(v) == v * v;
    QuotientTimes(deviations, k);
    assert k * (v * v) == deviations;
    DeviationsArePairs(values);
  }

  method ComputeVolatility(values: seq<real>, root: Root) returns (volatility: real)
    ensures volatility == Volatility(values, root)
    ensures |values| < 2 ==> volatility == 0.0
    ensures IsSqrt(root) && |values| >= 2 ==>
      && volatility >= 0.0
      && |values| as real * ((|values| - 1) as real * (volatility * volatility)) == PairDistances(values)
  {
    var n := |values|;
    if n < 2 { return 0.0; }
    var sum := 0.0;
    for i := 0 to n
      invariant sum == Sum(values[..i])
    {
      assert values[..i + 1][..i] == values[..i];
      sum := sum + values[i];
    }
    assert values[..n] == values;
    var mean := sum / n as real;
    var variance := 0.0;
    for i := 0 to n
      invariant variance == SquaredDeviations(values[..i], mean)
    {
      assert values[..i + 1][..i] == values[..i];
      var diff := values[i] - mean;
      assert Square(diff) == diff * diff;
      variance := variance + diff * diff;
    }
    variance := variance / (n - 1) as real;
    volatility := root(variance);
    if IsSqrt(root) { VolatilityIsPairSum(values, root); }
  }

  ghost predicate AllEqual(values: seq<real>, c: real) {
    forall i :: 0 <= i < |values| ==> values[i] == c
  }

  lemma {:induction false} SumOfEqual(values: seq<real>, c: real)
    requires AllEqual(values, c)
    ensures Sum(values) == c * |values| as real
  {
    if values != [] {
      SumOfEqual(values[..|values| - 1], c);
      assert c * |values| as real == c * (|values| - 1) as real + c;
    }
  }

  lemma {:induction false} DeviationsOfEqual(values: seq<real>, c: real)
    requires AllEqual(values, c)
    ensures SquaredDeviations(values, c) == 0.0
  {
    if values != [] { DeviationsOfEqual(values[..|values| - 1], c); }
  }

  lemma {:induction false} DeviationsNonNegative(values: seq<real>, mean: real, k: nat)
    ensures SquaredDeviations(values, mean) >= 0.0
    ensures k < |values| && values[k] != mean ==> SquaredDeviations(values, mean) > 0.0
  {
    if values != [] {
      DeviationsNonNegative(values[..|values| - 1], mean, k);
    }
  }

  lemma {:induction false} VarianceSign(values: seq<real>)
    requires |values| >= 2
    ensures Variance(values) >= 0.0
    ensures Variance(values) == 0.0 <==> AllEqual(values, MeanOf(values))
  {
    var mean, n := MeanOf(values), (|values| - 1) as real;
    var deviations := SquaredDeviations(values, mean);
    DeviationsNonNegative(values, mean, 0);
    QuotientSign(deviations, n);
    QuotientTimes(deviations, n);
    if AllEqual(values, mean) {
      DeviationsOfEqual(values, mean);
    } else {
      var k: nat :| k < |values| && values[k] != mean;
      DeviationsNonNegative(values, mean, k);
    }
  }

  lemma {:induction false} MeanOfEqual(values: seq<real>, c: real)
    requires values != [] && AllEqual(values, c)
    ensures MeanOf(values) == c
  {
    SumOfEqual(values, c);
    Quotient(c * |values| as real, |values| as real, c);
  }

  /** Volatility is never negative, and it vanishes exactly when the values do not vary at all. */
  lemma {:induction false} VolatilitySign(values: seq<real>, root: Root)
    requires IsSqrt(root)
    ensures Volatility(values, root) >= 0.0
    ensures |values| >= 2 ==>
      (Volatility(values, root) == 0.0 <==> forall i, j :: 0 <= i < j < |values| ==> values[i] == values[j])
  {
    if |values| >= 2 {
      VarianceSign(values);
      RootSign(root, Variance(values));
      if forall i, j :: 0 <= i < j < |values| ==> values[i] == values[j] {
        assert AllEqual(values, values[0]);
        MeanOfEqual(values, values[0]);
      }
    }
  }

  lemma {:induction false} RootSign(root: Root, x: real)
    requires IsSqrt(root) && x >= 0.0
    ensures root(x) >= 0.0 && (root(x) == 0.0 <==> x == 0.0)
  {
    assert Square(root(x)) == x;
  }

  // ------------------------------------------------------------ risk of one metric

  datatype WindowUsed = NoWindow | Short | Medium

  datatype MetricRisk = MetricRisk(
    currentValue: real, meanValue: real, trendSlope: real, riskScore: real, window: WindowUsed)

  const NO_RISK := MetricRisk(0.0, 0.0, 0.0, 0.0, NoWindow)

  function Capped(x: real): (r: real)
    ensures r <= 1.0 && r <= x && (r == x || r == 1.0)
  {
    if x > 1.0 then 1.0 else x
  }

  function ClampRisk(v: real): (r: real)
    ensures 0.0 <= r <= 1.0
    ensures r == v <==> 0.0 <= v <= 1.0
  {
    if v < 0.0 then 0.0 else if v > 1.0 then 1.0 else v
  }

  function ValueRisk(value: real, threshold: real): real
    requires threshold > 0.0
  {
    Capped(value / threshold)
  }

  function TrendRisk(slope: real, threshold: real): real
    requires threshold > 0.0
  {
    if slope > 0.0 then Capped(slope * 60.0 / threshold) else 0.0
  }

  function VolRisk(volatility: real, threshold: real): real
    requires threshold > 0.0
  {
    Capped(volatility / (threshold * 0.5))
  }

  function Unswitched(value: real, trend: real, vol: real): real { 0.4 * value + 0.4 * trend + 0.2 * vol }

  function Switched(value: real, trend: real, vol: real): real { 0.6 * value + 0.25 * trend + 0.15 * vol }

  function Combined(value: real, trend: real, vol: real): real {
    if value > 0.7 then Switched(value, trend, vol) else Unswitched(value, trend, vol)
  }

  /** The score of a metric from its current value, its slope and its volatility, before the clamp. */
  function RawScore(value: real, slope: real, volatility: real, threshold: real): real
    requires threshold > 0.0
  {
    Combined(ValueRisk(value, threshold), TrendRisk(slope, threshold), VolRisk(volatility, threshold))
  }

  function Score(value: real, slope: real, volatility: real, threshold: real): real
    requires threshold > 0.0
  {
    ClampRisk(RawScore(value, slope, volatility, threshold))
  }

  function TrendWindow(short: seq<MetricPoint>, medium: seq<MetricPoint>): seq<MetricPoint> {
    if |medium| >= 3 then medium else short
  }

  /** What the analysis of one metric yields for the contents of its short and medium windows. */
  function Analysis(short: seq<MetricPoint>, medium: seq<MetricPoint>, threshold: real, root: Root): MetricRisk
    requires threshold > 0.0
  {
    if |short| < 2 then NO_RISK else
      var slope := Slope(At(TrendWindow(short, medium), 0));
      MetricRisk(LatestOf(short), MeanOf(ValuesOf(short)), slope,
                 Score(LatestOf(short), slope, Volatility(ValuesOf(short), root), threshold),
                 if |medium| >= 3 then Medium else Short)
  }

  method AnalyzeMetric(nm: NodeMetrics, m: MetricType, threshold: real, root: Root) returns (risk: MetricRisk)
    requires nm.Valid() && threshold > 0.0
    ensures risk == Analysis(Window(nm.History(m), WINDOW_SHORT), Window(nm.History(m), WINDOW_MEDIUM), threshold, root)
  {
    risk := NO_RISK;
    var shortWin := nm.windows[m].short;
    var mediumWin := nm.windows[m].medium;
    if |shortWin.points| < 2 { return; }

    var current := shortWin.Latest();
    var mean := shortWin.Mean();
    MeanIsMeanOf(shortWin.points, mean);
    risk := risk.(currentValue := current, meanValue := mean, window := Short);

    var trendWin := shortWin;
    if |mediumWin.points| >= 3 {
      trendWin := mediumWin;
      risk := risk.(window := Medium);
    }
    var slope := LinearRegressionSlope(trendWin.points);
    risk := risk.(trendSlope := slope);

    var values := shortWin.Values();
    var volatility := ComputeVolatility(values, root);
    var score := CombineRisks(current, slope, volatility, threshold);
    risk := risk.(riskScore := score);
  }

  lemma {:induction false} MeanIsMeanOf(points: seq<MetricPoint>, mean: real)
    requires points != [] && mean * |points| as real == Sum(ValuesOf(points))
    ensures mean == MeanOf(ValuesOf(points))
  {
    Quotient(Sum(ValuesOf(points)), |points| as real, mean);
  }

  /** The three components of the risk and their combination. */
  method CombineRisks(current: real, slope: real, volatility: real, threshold: real) returns (score: real)
    requires threshold > 0.0
    ensures score == Score(current, slope, volatility, threshold)
  {
    var valueRisk := current / threshold;
    if valueRisk > 1.0 { valueRisk := 1.0; }

    var trendRisk := 0.0;
    if slope > 0.0 {
      trendRisk := slope * 60.0 / threshold;
      if trendRisk > 1.0 { trendRisk := 1.0; }
    }

    var volRisk := volatility / (threshold * 0.5);
    if volRisk > 1.0 { volRisk := 1.0; }

    var combined := 0.4 * valueRisk + 0.4 * trendRisk + 0.2 * volRisk;
    if valueRisk > 0.7 {
      combined := 0.6 * valueRisk + 0.25 * trendRisk + 0.15 * volRisk;
    }
    score := ClampRisk(combined);
  }

  // ---------------------------------------------------------------- risk of a node

  /** The risk of a metric after a node's reports. */
  function MetricRiskOf(m: MetricType, reports: seq<HealthReport>, root: Root): MetricRisk {
    Analysis(Window(Series(m, reports), WINDOW_SHORT), Window(Series(m, reports), WINDOW_MEDIUM), Threshold(m), root)
  }

  function Risks(reports: seq<HealthReport>, root: Root): (risks: map<MetricType, MetricRisk>)
    ensures forall m :: m in risks
    ensures forall m {:trigger MetricRiskOf(m, reports, root)} :: risks[m] == MetricRiskOf(m, reports, root)
  {
    map m: MetricType :: MetricRiskOf(m, reports, root)
  }

  function WeightedRisk(risks: map<MetricType, MetricRisk>, k: nat): real
    requires k <= 6 && forall m :: m in risks
  {
    if k == 0 then 0.0 else
      var m := ALL_METRIC_TYPES[k - 1];
      WeightedRisk(risks, k - 1) + Times(risks[m].riskScore, Weight(m))
  }

  function TotalWeight(k: nat): real
    requires k <= 6
  {
    if k == 0 then 0.0 else TotalWeight(k - 1) + Weight(ALL_METRIC_TYPES[k - 1])
  }

  function OverallRisk(risks: map<MetricType, MetricRisk>): real
    requires forall m :: m in risks
  {
    ClampRisk(if TotalWeight(6) > 0.0 then WeightedRisk(risks, 6) / TotalWeight(6) else 0.0)
  }

  /** The metrics whose score is worth a reason, in the order of ALL_METRIC_TYPES. */
  function Reasons(risks: map<MetricType, MetricRisk>, k: nat): seq<MetricType>
    requires k <= 6 && forall m :: m in risks
  {
    if k == 0 then [] else
      var m := ALL_METRIC_TYPES[k - 1];
      Reasons(risks, k - 1) + if risks[m].riskScore >= 0.6 then [m] else []
  }

  datatype PredictionResult = PredictionResult(
    nodeID: string, overallRisk: real, status: NodeStatus,
    metricRisks: map<MetricType, MetricRisk>, reasons: seq<MetricType>)

  /** What the predictor says of a node that sent these reports. */
  function Prediction(nodeID: string, reports: seq<HealthReport>, root: Root): PredictionResult {
    var risks := Risks(reports, root);
    PredictionResult(nodeID, OverallRisk(risks), RiskToStatus(OverallRisk(risks)), risks, Reasons(risks, 6))
  }

  method PredictNode(monitor: Monitor, nodeID: string, root: Root, ghost reports: seq<HealthReport>)
    returns (result: Option<PredictionResult>)
    requires monitor.Knows(nodeID, reports)
    ensures result == if reports == [] then None else Some(Prediction(nodeID, reports, root))
    ensures result.Some? ==>
      var p := result.value;
      && p.nodeID == nodeID && 0.0 <= p.overallRisk <= 1.0
      && p.status == if p.overallRisk < 0.25 then Healthy else if p.overallRisk < 0.45 then Warning
                     else if p.overallRisk < 0.55 then AtRisk else Critical
  {
    if nodeID !in monitor.store { return None; }
    var metricRisks, weightedRiskSum, totalWeight, reasons :=
      AnalyzeAll(monitor.store[nodeID], root, reports, Risks(reports, root));
    var overallRisk := 0.0;
    if totalWeight > 0.0 {
      overallRisk := weightedRiskSum / totalWeight;
    }
    overallRisk := ClampRisk(overallRisk);
    result := Some(PredictionResult(nodeID, overallRisk, RiskToStatus(overallRisk), metricRisks, reasons));
  }

  /** The position of a metric in ALL_METRIC_TYPES. */
  function Index(m: MetricType): (i: nat)
    ensures i < 6 && ALL_METRIC_TYPES[i] == m
  {
    match m
    case DiskIOLatency => 0
    case DiskUtil => 1
    case ErrorRate => 2
    case ResponseTime => 3
    case CPUUsage => 4
    case MemoryUsage => 5
  }

  lemma {:induction false} IndexOf(i: nat)
    requires i < 6
    ensures Index(ALL_METRIC_TYPES[i]) == i
  {
  }

  /** The first `i` metrics have their entry. */
  ghost predicate Filled(done: map<MetricType, MetricRisk>, risks: map<MetricType, MetricRisk>, i: nat)
    requires forall m :: m in risks
  {
    forall m :: (m in done <==> Index(m) < i) && (m in done ==> done[m] == risks[m])
  }

  lemma {:induction false} FilledNext(done: map<MetricType, MetricRisk>, risks: map<MetricType, MetricRisk>, i: nat)
    requires i < 6 && (forall m :: m in risks) && Filled(done, risks, i)
    ensures Filled(done[ALL_METRIC_TYPES[i] := risks[ALL_METRIC_TYPES[i]]], risks, i + 1)
  {
    IndexOf(i);
  }

  /** The running totals after the first `i` metrics. */
  ghost predicate Summed(risks: map<MetricType, MetricRisk>, i: nat, weightedRiskSum: real, totalWeight: real,
                         reasons: seq<MetricType>)
    requires i <= 6 && forall m :: m in risks
  {
    weightedRiskSum == WeightedRisk(risks, i) && totalWeight == TotalWeight(i) && reasons == Reasons(risks, i)
  }

  lemma {:induction false} SummedNext(risks: map<MetricType, MetricRisk>, i: nat, weightedRiskSum: real,
                                      totalWeight: real,
                                      reasons: seq<MetricType>)
    requires i < 6 && (forall m :: m in risks) && Summed(risks, i, weightedRiskSum, totalWeight, reasons)
    ensures var m := ALL_METRIC_TYPES[i];
      Summed(risks, i + 1, weightedRiskSum + Times(risks[m].riskScore, Weight(m)), totalWeight + Weight(m),
             if risks[m].riskScore >= 0.6 then reasons + [m] else reasons)
  {
  }

  /** One pass over the six metrics. */
  method AnalyzeAll(nm: NodeMetrics, root: Root, ghost reports: seq<HealthReport>, ghost risks: map<MetricType,
                    MetricRisk>)
    returns (metricRisks: map<MetricType, MetricRisk>, weightedRiskSum: real, totalWeight: real, reasons: seq<MetricType>)
    requires Tracks(nm, reports)
    requires forall m :: m in risks
    requires forall m {:trigger MetricRiskOf(m, reports, root)} :: risks[m] == MetricRiskOf(m, reports, root)
    ensures metricRisks == risks && weightedRiskSum == WeightedRisk(risks, 6) && totalWeight == TotalWeight(6)
    ensures reasons == Reasons(risks, 6)
  {
    metricRisks, reasons := map[], [];
    weightedRiskSum, totalWeight := 0.0, 0.0;
    for i := 0 to |ALL_METRIC_TYPES|
      invariant Filled(metricRisks, risks, i)
      invariant Summed(risks, i, weightedRiskSum, totalWeight, reasons)
    {
      var m := ALL_METRIC_TYPES[i];
      var weight := Weight(m);
      var risk := AnalyzeTracked(nm, m, root, reports, risks);
      SummedNext(risks, i, weightedRiskSum, totalWeight, reasons);
      FilledNext(metricRisks, risks, i);
      metricRisks := metricRisks[m := risk];
      weightedRiskSum := weightedRiskSum + Times(risk.riskScore, weight);
      totalWeight := totalWeight + weight;
      if risk.riskScore >= 0.6 {
        reasons := reasons + [m];
      }
    }
  }

  method AnalyzeTracked(nm: NodeMetrics, m: MetricType, root: Root, ghost reports: seq<HealthReport>,
                        ghost risks: map<MetricType, MetricRisk>)
    returns (risk: MetricRisk)
    requires Tracks(nm, reports) && m in risks && risks[m] == MetricRiskOf(m, reports, root)
    ensures risk == risks[m]
  {
    risk := AnalyzeMetric(nm, m, Threshold(m), root);
  }
}
