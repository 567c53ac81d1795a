/** What a risk score can and cannot be: range, monotonicity, the jump at 0.7, and when a node turns critical. */
module RiskTheorems {
  import opened Common
  import opened Windows
  import opened Monitors
  import opened Regression
  import opened Predictor

  // ------------------------------------------------------------------ quotients

  lemma {:induction false} DivMonotone(x: real, y: real, t: real)
    requires t > 0.0 && x <= y
    ensures x / t <= y / t
  {
    QuotientSign(y - x, t);
    assert (y - x) / t == y / t - x / t;
  }

  lemma {:induction false} DivSign(x: real, t: real)
    requires t > 0.0 && x >= 0.0
    ensures x / t >= 0.0
  {
    QuotientSign(x, t);
  }

  // ---------------------------------------------------------- range of the scores

  lemma {:induction false} ComponentsInRange(value: real, slope: real, volatility: real, t: real)
    requires t > 0.0 && value >= 0.0 && volatility >= 0.0
    ensures 0.0 <= ValueRisk(value, t) <= 1.0
    ensures 0.0 <= TrendRisk(slope, t) <= 1.0
    ensures 0.0 <= VolRisk(volatility, t) <= 1.0
  {
    DivSign(value, t);
    DivSign(volatility, t * 0.5);
    if slope > 0.0 { DivSign(slope * 60.0, t); }
  }

  /** With a current value that is not negative the score is the convex combination itself: the clamp does not fire. */
  lemma {:induction false} ScoreUnclamped(short: seq<MetricPoint>, medium: seq<MetricPoint>, t: real, root: Root)
    requires t > 0.0 && IsSqrt(root) && |short| >= 2 && LatestOf(short) >= 0.0
    ensures var risk := Analysis(short, medium, t, root);
      risk.riskScore == RawScore(LatestOf(short), risk.trendSlope, Volatility(ValuesOf(short), root), t)
  {
    VolatilitySign(ValuesOf(short), root);
    ComponentsInRange(LatestOf(short), Slope(At(TrendWindow(short, medium), 0)), Volatility(ValuesOf(short), root), t);
  }

  ghost predicate InRange(risks: map<MetricType, MetricRisk>) {
    forall m :: m in risks && 0.0 <= risks[m].riskScore <= 1.0
  }

  lemma {:induction false} RisksInRange(reports: seq<HealthReport>, root: Root)
    ensures InRange(Risks(reports, root))
  {
    forall m ensures 0.0 <= Risks(reports, root)[m].riskScore <= 1.0 {
      ScoreInRange(m, reports, root);
    }
  }

  lemma {:induction false} ScoreInRange(m: MetricType, reports: seq<HealthReport>, root: Root)
    ensures 0.0 <= MetricRiskOf(m, reports, root).riskScore <= 1.0
  {
  }

  lemma {:induction false} WeightedSix(risks: map<MetricType, MetricRisk>)
    requires forall m :: m in risks
    ensures TotalWeight(6) == 1.0
    ensures WeightedRisk(risks, 6) ==
      Times(risks[DiskIOLatency].riskScore, 0.25) + Times(risks[DiskUtil].riskScore, 0.20) +
      Times(risks[ErrorRate].riskScore, 0.25) + Times(risks[ResponseTime].riskScore, 0.15) +
      Times(risks[CPUUsage].riskScore, 0.05) + Times(risks[MemoryUsage].riskScore, 0.10)
  {
    WeightedNext(risks, DiskIOLatency);
    WeightedNext(risks, DiskUtil);
    WeightedNext(risks, ErrorRate);
    WeightedNext(risks, ResponseTime);
    WeightedNext(risks, CPUUsage);
    WeightedNext(risks, MemoryUsage);
  }

  lemma {:induction false} WeightedNext(risks: map<MetricType, MetricRisk>, m: MetricType)
    requires forall m :: m in risks
    ensures WeightedRisk(risks, Index(m) + 1) == WeightedRisk(risks, Index(m)) + Times(risks[m].riskScore, Weight(m))
    ensures TotalWeight(Index(m) + 1) == TotalWeight(Index(m)) + Weight(m)
  {
  }

  /** The overall risk is the weighted mean of the six scores: the weights add up to one and the clamp never fires. */
  lemma {:induction false} OverallIsWeightedMean(risks: map<MetricType, MetricRisk>)
    requires InRange(risks)
    ensures OverallRisk(risks) ==
      0.25 * risks[DiskIOLatency].riskScore + 0.20 * risks[DiskUtil].riskScore +
      0.25 * risks[ErrorRate].riskScore + 0.15 * risks[ResponseTime].riskScore +
      0.05 * risks[CPUUsage].riskScore + 0.10 * risks[MemoryUsage].riskScore
  {
    WeightedSix(risks);
  }

  /** No two metrics alone make a node critical, however bad they are. */
  lemma {:induction false} CriticalNeedsThreeMetrics(nodeID: string, reports: seq<HealthReport>, root: Root)
    returns (a: MetricType, b: MetricType, c: MetricType)
    requires Prediction(nodeID, reports, root).status == Critical
    ensures a != b && a != c && b != c
    ensures var risks := Prediction(nodeID, reports, root).metricRisks;
      a in risks && b in risks && c in risks &&
      risks[a].riskScore > 0.0 && risks[b].riskScore > 0.0 && risks[c].riskScore > 0.0
  {
    var risks := Risks(reports, root);
    RisksInRange(reports, root);
    OverallIsWeightedMean(risks);
    a, b, c := ThreeAtRisk(risks);
  }

  lemma {:induction false} ThreeAtRisk(risks: map<MetricType, MetricRisk>) returns (a: MetricType, b: MetricType,
                                       c: MetricType)
    requires InRange(risks) && OverallRisk(risks) >= RISK_AT_RISK
    ensures a != b && a != c && b != c
    ensures risks[a].riskScore > 0.0 && risks[b].riskScore > 0.0 && risks[c].riskScore > 0.0
  {
    OverallIsWeightedMean(risks);
    a :| risks[a].riskScore > 0.0;
    b :| b != a && risks[b].riskScore > 0.0;
    c :| c != a && c != b && risks[c].riskScore > 0.0;
  }

  // --------------------------------------------------------------- monotonicity

  /** A steeper trend or a larger volatility never lowers the score. */
  lemma {:induction false} ScoreMonotone(value: real, slope1: real, slope2: real, vol1: real, vol2: real, t: real)
    requires t > 0.0 && slope1 <= slope2 && vol1 <= vol2
    ensures Score(value, slope1, vol1, t) <= Score(value, slope2, vol2, t)
  {
    DivMonotone(slope1 * 60.0, slope2 * 60.0, t);
    DivMonotone(vol1, vol2, t * 0.5);
    if slope2 > 0.0 { DivSign(slope2 * 60.0, t); }
  }

  /** Above the 0.7 mark the switched weights are the stricter ones exactly when the value outweighs the other risks. */
  lemma {:induction false} SwitchGainsIff(value: real, trend: real, vol: real)
    ensures Switched(value, trend, vol) >= Unswitched(value, trend, vol) <==> 4.0 * value >= 3.0 * trend + vol
  {
  }

  /** A larger current value lowers the score exactly when it crosses the 0.7 mark while the other risks outweigh it. */
  lemma {:induction false} ScoreDropsIff(value1: real, value2: real, slope: real, vol: real, t: real)
    requires t > 0.0 && value1 <= value2 && vol >= 0.0
    ensures Score(value1, slope, vol, t) > Score(value2, slope, vol, t) <==>
      && ValueRisk(value1, t) <= 0.7 < ValueRisk(value2, t)
      && 12.0 * ValueRisk(value2, t) - 8.0 * ValueRisk(value1, t) < 3.0 * TrendRisk(slope, t) + VolRisk(vol, t)
  {
    DivMonotone(value1, value2, t);
    ComponentsInRange(0.0, slope, vol, t);
  }

  /** And then by less than 0.06. */
  lemma {:induction false} ScoreDrop(value1: real, value2: real, slope: real, vol: real, t: real)
    requires t > 0.0 && value1 <= value2 && vol >= 0.0
    ensures Score(value1, slope, vol, t) - Score(value2, slope, vol, t) < 0.06
  {
    DivMonotone(value1, value2, t);
    ComponentsInRange(0.0, slope, vol, t);
  }

  /** The bound of 0.06 is sharp: as x comes down to the mark the fall comes as close to it as one likes. */
  lemma {:induction false} DropIsSharp(t: real, x: real)
    requires t > 0.0 && 0.7 < x <= 1.0
    ensures Score(0.7 * t, t / 60.0, t / 2.0, t) - Score(x * t, t / 60.0, t / 2.0, t) == 0.06 - 0.6 * (x - 0.7)
  {
    RatioOf(0.7, t);
    RatioOf(x, t);
    FullRisks(t);
  }

  lemma {:induction false} FullRisks(t: real)
    requires t > 0.0
    ensures TrendRisk(t / 60.0, t) == 1.0 && VolRisk(t / 2.0, t) == 1.0
  {
    RatioOf(1.0, t);
    RatioOf(1.0, t * 0.5);
    assert t / 60.0 * 60.0 == 1.0 * t && t / 2.0 == 1.0 * (t * 0.5);
  }

  lemma {:induction false} RatioOf(x: real, t: real)
    requires t > 0.0
    ensures (x * t) / t == x
  {
    assert Multiple(x * t, t, x);
    Quotient(x * t, t, x);
  }

  // ----------------------------------------------------- metrics that do not rise

  /** A metric that never rises over its trend window is scored as if it had no trend at all. */
  lemma {:induction false} NeverRisingHasNoTrend(short: seq<MetricPoint>, medium: seq<MetricPoint>, t: real, root: Root)
    requires t > 0.0 && NeverRises(At(TrendWindow(short, medium), 0)) && |short| >= 2
    ensures Analysis(short, medium, t, root).riskScore
         == Score(LatestOf(short), 0.0, Volatility(ValuesOf(short), root), t)
  {
    SlopeSign(At(TrendWindow(short, medium), 0));
  }

  // ------------------------------------------------------------------ steady nodes

  /** All reports show the same five metrics and the same error counter. */
  ghost predicate Steady(reports: seq<HealthReport>) {
    forall i, j :: 0 <= i < |reports| && 0 <= j < |reports| ==>
      reports[i].(timestamp := 0) == reports[j].(timestamp := 0)
  }

  ghost predicate Flat(points: seq<MetricPoint>, c: real) {
    forall i :: 0 <= i < |points| ==> points[i].value == c
  }

  lemma {:induction false} SteadySeries(m: MetricType, reports: seq<HealthReport>)
    requires Steady(reports) && reports != []
    ensures Flat(Series(m, reports), Sample(m, reports, 0))
  {
    forall i | 0 <= i < |reports| ensures Sample(m, reports, i) == Sample(m, reports, 0) {
      assert reports[i].(timestamp := 0) == reports[0].(timestamp := 0);
      if i > 0 { assert reports[i - 1].(timestamp := 0) == reports[i].(timestamp := 0); }
    }
  }

  lemma {:induction false} FlatWindow(points: seq<MetricPoint>, c: real, duration: int)
    requires Flat(points, c)
    ensures Flat(Window(points, duration), c)
  {
    WindowIsSuffix(points, duration);
  }

  /** A flat metric scores by its value alone. */
  lemma {:induction false} FlatScore(short: seq<MetricPoint>, medium: seq<MetricPoint>, c: real, t: real, root: Root)
    requires t > 0.0 && IsSqrt(root) && Flat(short, c) && Flat(medium, c)
    ensures Analysis(short, medium, t, root).riskScore == if |short| < 2 then 0.0 else Score(c, 0.0, 0.0, t)
  {
    if |short| >= 2 {
      NeverRisingHasNoTrend(short, medium, t, root);
      VolatilitySign(ValuesOf(short), root);
    }
  }

  lemma {:induction false} FlatScoreBound(c: real, t: real)
    requires t > 0.0
    ensures Score(c, 0.0, 0.0, t) <= 0.6
    ensures c == 0.0 ==> Score(c, 0.0, 0.0, t) == 0.0
    ensures c >= t ==> Score(c, 0.0, 0.0, t) == 0.6
  {
    ZeroRatio(t);
    ZeroRatio(t * 0.5);
    if c >= t {
      RatioOf(1.0, t);
      DivMonotone(t, c, t);
    }
  }

  lemma {:induction false} ZeroRatio(t: real)
    requires t > 0.0
    ensures 0.0 / t == 0.0
  {
    RatioOf(0.0, t);
  }

  lemma {:induction false} SteadyScore(m: MetricType, reports: seq<HealthReport>, root: Root)
    requires IsSqrt(root) && Steady(reports)
    ensures MetricRiskOf(m, reports, root).riskScore <= 0.6
    ensures m == ErrorRate ==> MetricRiskOf(m, reports, root).riskScore == 0.0
    ensures reports != [] && Sample(m, reports, 0) >= Threshold(m) && |Window(Series(m, reports), WINDOW_SHORT)| >= 2 ==>
      MetricRiskOf(m, reports, root).riskScore == 0.6
  {
    if reports != [] {
      var c, s := Sample(m, reports, 0), Series(m, reports);
      SteadySeries(m, reports);
      FlatWindow(s, c, WINDOW_SHORT);
      FlatWindow(s, c, WINDOW_MEDIUM);
      FlatScore(Window(s, WINDOW_SHORT), Window(s, WINDOW_MEDIUM), c, Threshold(m), root);
      FlatScoreBound(c, Threshold(m));
    } else {
      assert Series(m, reports) == [];
    }
  }

  /** The bound on steady nodes is reached: five metrics at or beyond their thresholds give exactly 0.45. */
  lemma {:induction false} SteadyBoundIsReached(nodeID: string, reports: seq<HealthReport>, root: Root)
    requires IsSqrt(root) && Steady(reports) && reports != []
    requires forall m :: m != ErrorRate ==> Sample(m, reports, 0) >= Threshold(m)
    requires |Window(Series(DiskUtil, reports), WINDOW_SHORT)| >= 2
    ensures Prediction(nodeID, reports, root).overallRisk == 0.45
    ensures Prediction(nodeID, reports, root).status == AtRisk
  {
    var risks := Risks(reports, root);
    forall m ensures risks[m].riskScore == if m == ErrorRate then 0.0 else 0.6 {
      WindowsInLockstep(m, DiskUtil, reports, WINDOW_SHORT);
      assert |TimesOf(Window(Series(m, reports), WINDOW_SHORT))| == |Window(Series(m, reports), WINDOW_SHORT)|;
      SteadyScore(m, reports, root);
    }
    RisksInRange(reports, root);
    OverallIsWeightedMean(risks);
  }

  /** A node whose reports stay the same never becomes critical, however bad they are: its risk is at most 0.45. */
  lemma {:induction false} SteadyNodeIsNeverCritical(nodeID: string, reports: seq<HealthReport>, root: Root)
    requires IsSqrt(root) && Steady(reports)
    ensures Prediction(nodeID, reports, root).overallRisk <= 0.45
    ensures Prediction(nodeID, reports, root).status != Critical
  {
    var risks := Risks(reports, root);
    forall m ensures ScoresLow(risks, m) {
      SteadyScore(m, reports, root);
    }
    RisksInRange(reports, root);
    LowIsNotCritical(risks);
  }

  ghost predicate ScoresLow(risks: map<MetricType, MetricRisk>, m: MetricType) {
    m in risks && risks[m].riskScore <= 0.6 && (m == ErrorRate ==> risks[m].riskScore == 0.0)
  }

  lemma {:induction false} LowIsNotCritical(risks: map<MetricType, MetricRisk>)
    requires InRange(risks) && forall m :: ScoresLow(risks, m)
    ensures OverallRisk(risks) <= 0.45
  {
    assert ScoresLow(risks, DiskIOLatency) && ScoresLow(risks, DiskUtil) && ScoresLow(risks, ErrorRate);
    assert ScoresLow(risks, ResponseTime) && ScoresLow(risks, CPUUsage) && ScoresLow(risks, MemoryUsage);
    OverallIsWeightedMean(risks);
  }

  // --------------------------------------------------- nodes that are steady lately

  ghost predicate ReportsInOrder(reports: seq<HealthReport>) {
    forall i, j :: 0 <= i < j < |reports| ==> reports[i].timestamp <= reports[j].timestamp
  }

  /** Report `j` is older than the medium window, or the first of all, and from it on nothing changed. */
  ghost predicate SteadySince(reports: seq<HealthReport>, j: nat) {
    && j < |reports| && Steady(reports[j..])
    && (j == 0 || reports[j].timestamp < reports[|reports| - 1].timestamp - WINDOW_MEDIUM)
  }

  ghost predicate SteadyLately(reports: seq<HealthReport>) {
    ReportsInOrder(reports) && exists j :: SteadySince(reports, j)
  }

  lemma {:induction false} NotBeforeKeeps(points: seq<MetricPoint>, cutoff: int, i: nat) returns (k: nat)
    requires i < |NotBefore(points, cutoff)|
    ensures k < |points| && points[k] == NotBefore(points, cutoff)[i] && points[k].timestamp >= cutoff
  {
    var n := |points| - 1;
    if i < |NotBefore(points[..n], cutoff)| {
      k := NotBeforeKeeps(points[..n], cutoff, i);
    } else {
      k := n;
    }
  }

  /** In the medium window every metric shows the value it has had since report `j`. */
  lemma {:induction false} SteadySample(m: MetricType, reports: seq<HealthReport>, j: nat, k: nat)
    requires j < |reports| && Steady(reports[j..]) && j <= k < |reports| && (j == 0 || j < k)
    ensures Sample(m, reports, k) == if m == ErrorRate then 0.0 else Sample(m, reports, j)
  {
    var tail := reports[j..];
    assert tail[k - j].(timestamp := 0) == tail[0].(timestamp := 0) && tail[k - j] == reports[k] && tail[0] == reports[j];
    if k > j {
      assert tail[k - 1 - j].(timestamp := 0) == tail[k - j].(timestamp := 0) && tail[k - 1 - j] == reports[k - 1];
    }
  }

  /** The reports inside the medium window are those after report `j`. */
  lemma {:induction false} RecentIsSteady(m: MetricType, reports: seq<HealthReport>, j: nat, k: nat)
    requires ReportsInOrder(reports) && SteadySince(reports, j) && k < |reports|
    requires reports[k].timestamp >= reports[|reports| - 1].timestamp - WINDOW_MEDIUM
    ensures Sample(m, reports, k) == if m == ErrorRate then 0.0 else Sample(m, reports, j)
  {
    SteadySample(m, reports, j, k);
  }

  lemma {:induction false} SeriesInTimeOrder(m: MetricType, reports: seq<HealthReport>)
    requires ReportsInOrder(reports)
    ensures InTimeOrder(Series(m, reports))
  {
  }

  lemma {:induction false} SteadyWindow(m: MetricType, reports: seq<HealthReport>, j: nat)
    requires ReportsInOrder(reports) && SteadySince(reports, j)
    ensures Flat(Window(Series(m, reports), WINDOW_MEDIUM), if m == ErrorRate then 0.0 else Sample(m, reports, j))
  {
    var s := Series(m, reports);
    var w, cutoff := Window(s, WINDOW_MEDIUM), s[|s| - 1].timestamp - WINDOW_MEDIUM;
    SeriesInTimeOrder(m, reports);
    WindowIsRecentHistory(s, WINDOW_MEDIUM);
    forall i | 0 <= i < |w| ensures w[i].value == if m == ErrorRate then 0.0 else Sample(m, reports, j) {
      var k := NotBeforeKeeps(s, cutoff, i);
      assert s[k].timestamp == reports[k].timestamp && s[k].value == Sample(m, reports, k);
      RecentIsSteady(m, reports, j, k);
    }
  }

  lemma {:induction false} LatelySteadyScore(m: MetricType, reports: seq<HealthReport>, root: Root, j: nat)
    requires IsSqrt(root) && ReportsInOrder(reports) && SteadySince(reports, j)
    ensures MetricRiskOf(m, reports, root).riskScore <= 0.6
    ensures m == ErrorRate ==> MetricRiskOf(m, reports, root).riskScore == 0.0
  {
    var s, c := Series(m, reports), if m == ErrorRate then 0.0 else Sample(m, reports, j);
    SteadyWindow(m, reports, j);
    WindowsNest(s, WINDOW_SHORT, WINDOW_MEDIUM);
    FlatScore(Window(s, WINDOW_SHORT), Window(s, WINDOW_MEDIUM), c, Threshold(m), root);
    FlatScoreBound(c, Threshold(m));
  }

  /** It is enough that nothing changed over the medium window: what came before does not count. */
  lemma {:induction false} LatelySteadyNodeIsNotCritical(nodeID: string, reports: seq<HealthReport>, root: Root, j: nat)
    requires IsSqrt(root) && ReportsInOrder(reports) && SteadySince(reports, j)
    ensures Prediction(nodeID, reports, root).overallRisk <= 0.45
    ensures Prediction(nodeID, reports, root).status != Critical
  {
    var risks := Risks(reports, root);
    forall m ensures ScoresLow(risks, m) {
      LatelySteadyScore(m, reports, root, j);
    }
    RisksInRange(reports, root);
    LowIsNotCritical(risks);
  }
}
