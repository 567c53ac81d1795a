/** What a prediction says in terms of the reports themselves: which fields, which time spans, which limits. */
module PredictionTheorems {
  import opened Common
  import opened Windows
  import opened Monitors
  import opened Regression
  import opened Predictor
  import opened RiskTheorems

  // -------------------------------------------------------------- which reports count

  lemma {:induction false} AllOlder(points: seq<MetricPoint>, cutoff: int, k: nat)
    requires InTimeOrder(points) && 0 < k <= |points| && points[|points| - 1].timestamp < cutoff
    ensures NotBefore(points, cutoff) == [] && points[|points| - k].timestamp < cutoff
  {
    NotBeforeNone(points, cutoff);
  }

  lemma {:induction false} NotBeforeAtLeast(points: seq<MetricPoint>, cutoff: int, k: nat)
    requires InTimeOrder(points) && k > 0
    ensures |NotBefore(points, cutoff)| >= k <==> k <= |points| && points[|points| - k].timestamp >= cutoff
    decreases k
  {
    if points != [] {
      var n := |points| - 1;
      if points[n].timestamp < cutoff {
        AllOlder(points, cutoff, if k <= |points| then k else 1);
      } else if k > 1 {
        var init := points[..n];
        assert init + [points[n]] == points;
        InitInTimeOrder(init, points[n]);
        NotBeforeNext(init, points[n], cutoff);
        NotBeforeAtLeast(init, cutoff, k - 1);
      } else {
        assert points[..n] + [points[n]] == points;
        NotBeforeNext(points[..n], points[n], cutoff);
      }
    }
  }

  /** With points in the order of time, the `k`-th last one decides whether a window holds `k` points. */
  lemma {:induction false} WindowAtLeast(s: seq<MetricPoint>, duration: nat, k: nat)
    requires InTimeOrder(s) && s != [] && k > 0
    ensures |Window(s, duration)| >= k <==> k <= |s| && s[|s| - k].timestamp >= s[|s| - 1].timestamp - duration
  {
    WindowIsRecentHistory(s, duration);
    NotBeforeAtLeast(s, s[|s| - 1].timestamp - duration, k);
  }

  lemma {:induction false} SizesInOrder(s: seq<MetricPoint>)
    requires InTimeOrder(s) && s != []
    ensures |Window(s, WINDOW_SHORT)| < 2 <==> |s| < 2 || s[|s| - 2].timestamp < s[|s| - 1].timestamp - 300_000
    ensures |Window(s, WINDOW_MEDIUM)| >= 3 <==> |s| >= 3 && s[|s| - 3].timestamp >= s[|s| - 1].timestamp - 900_000
  {
    WindowAtLeast(s, WINDOW_SHORT, 2);
    WindowAtLeast(s, WINDOW_MEDIUM, 3);
  }

  /** The analysis of two windows of a series, of which these points are the contents. */
  lemma {:induction false} AnalysisBySize(short: seq<MetricPoint>, medium: seq<MetricPoint>, t: real, root: Root)
    requires t > 0.0
    ensures var risk := Analysis(short, medium, t, root);
      && (risk.window == NoWindow <==> |short| < 2)
      && (risk.window == NoWindow ==> risk.riskScore == 0.0)
      && (risk.window == Medium <==> |short| >= 2 && |medium| >= 3)
      && (risk.window == Medium ==> risk.trendSlope == Slope(At(medium, 0)))
      && (risk.window == Short ==> risk.trendSlope == Slope(At(short, 0)))
      && (risk.window != NoWindow ==> risk.meanValue == MeanOf(ValuesOf(short)))
  {
  }

  lemma {:induction false} WindowsUsedOf(s: seq<MetricPoint>, t: real, root: Root)
    requires InTimeOrder(s) && s != [] && t > 0.0
    ensures var n, risk := |s|, Analysis(Window(s, WINDOW_SHORT), Window(s, WINDOW_MEDIUM), t, root);
      var last := s[n - 1].timestamp;
      && (risk.window == NoWindow <==> n < 2 || s[n - 2].timestamp < last - 300_000)
      && (risk.window == NoWindow ==> risk.riskScore == 0.0)
      && (risk.window == Medium <==> risk.window != NoWindow && n >= 3 && s[n - 3].timestamp >= last - 900_000)
      && (risk.window == Medium ==> risk.trendSlope == Slope(At(NotBefore(s, last - 900_000), 0)))
      && (risk.window == Short ==> risk.trendSlope == Slope(At(NotBefore(s, last - 300_000), 0)))
  {
    SizesInOrder(s);
    AnalysisBySize(Window(s, WINDOW_SHORT), Window(s, WINDOW_MEDIUM), t, root);
    WindowIsRecentHistory(s, WINDOW_SHORT);
    WindowIsRecentHistory(s, WINDOW_MEDIUM);
  }

  /**
   A metric is judged if the two latest reports are at most five minutes apart, and its trend is that of the last
   fifteen minutes if they hold at least three reports, else that of the last five.
   */
  lemma {:induction false} WindowsUsed(m: MetricType, reports: seq<HealthReport>, root: Root)
    requires ReportsInOrder(reports) && reports != []
    ensures var n, risk := |reports|, MetricRiskOf(m, reports, root);
      var last := reports[n - 1].timestamp;
      && (risk.window == NoWindow <==> n < 2 || reports[n - 2].timestamp < last - 300_000)
      && (risk.window == NoWindow ==> risk.riskScore == 0.0)
      && (risk.window == Medium <==> risk.window != NoWindow && n >= 3 && reports[n - 3].timestamp >= last - 900_000)
      && (risk.window == Medium ==> risk.trendSlope == Slope(At(NotBefore(Series(m, reports), last - 900_000), 0)))
      && (risk.window == Short ==> risk.trendSlope == Slope(At(NotBefore(Series(m, reports), last - 300_000), 0)))
  {
    SeriesFacts(m, reports);
    WindowsUsedOf(Series(m, reports), Threshold(m), root);
  }

  /** The mean value of a judged metric is that of the reports of the last five minutes. */
  lemma {:induction false} MeanOfRecent(m: MetricType, reports: seq<HealthReport>, root: Root)
    requires ReportsInOrder(reports) && reports != []
    ensures var risk := MetricRiskOf(m, reports, root);
      var recent := ValuesOf(NotBefore(Series(m, reports), reports[|reports| - 1].timestamp - 300_000));
      risk.window != NoWindow ==> recent != [] && risk.meanValue == MeanOf(recent)
  {
    SeriesFacts(m, reports);
    MeanOfSeries(Series(m, reports), Threshold(m), root);
  }

  lemma {:induction false} MeanTimesCount(values: seq<real>)
    requires values != []
    ensures |values| as real * MeanOf(values) == Sum(values)
  {
    QuotientTimes(Sum(values), |values| as real);
  }

  lemma {:induction false} MeanOfSeries(s: seq<MetricPoint>, t: real, root: Root)
    requires InTimeOrder(s) && s != [] && t > 0.0
    ensures var risk := Analysis(Window(s, WINDOW_SHORT), Window(s, WINDOW_MEDIUM), t, root);
      var recent := ValuesOf(NotBefore(s, s[|s| - 1].timestamp - 300_000));
      risk.window != NoWindow ==> recent != [] && risk.meanValue == MeanOf(recent)
  {
    AnalysisBySize(Window(s, WINDOW_SHORT), Window(s, WINDOW_MEDIUM), t, root);
    WindowIsRecentHistory(s, WINDOW_SHORT);
  }

  lemma {:induction false} SeriesFacts(m: MetricType, reports: seq<HealthReport>)
    requires ReportsInOrder(reports) && reports != []
    ensures var s := Series(m, reports);
      && InTimeOrder(s) && |s| == |reports|
      && forall i :: 0 <= i < |s| ==> s[i].timestamp == reports[i].timestamp && s[i].value == Sample(m, reports, i)
  {
    SeriesInTimeOrder(m, reports);
  }

  // ---------------------------------------------------------- which field feeds which metric

  lemma {:induction false} NewestOf(s: seq<MetricPoint>)
    requires |Window(s, WINDOW_SHORT)| >= 2
    ensures |s| >= 2 && LatestOf(Window(s, WINDOW_SHORT)) == s[|s| - 1].value
  {
    WindowIsSuffix(s, WINDOW_SHORT);
    NewestIsKept(s, WINDOW_SHORT);
  }

  lemma {:induction false} CurrentIsNewest(m: MetricType, reports: seq<HealthReport>, root: Root)
    requires |Window(Series(m, reports), WINDOW_SHORT)| >= 2
    ensures |reports| >= 2 && MetricRiskOf(m, reports, root).currentValue == Sample(m, reports, |reports| - 1)
  {
    NewestOf(Series(m, reports));
  }

  ghost predicate Judged(reports: seq<HealthReport>) { |Window(Series(DiskUtil, reports), WINDOW_SHORT)| >= 2 }

  lemma {:induction false} AllJudged(m: MetricType, reports: seq<HealthReport>)
    requires Judged(reports)
    ensures |Window(Series(m, reports), WINDOW_SHORT)| >= 2
  {
    WindowsInLockstep(m, DiskUtil, reports, WINDOW_SHORT);
    assert |TimesOf(Window(Series(m, reports), WINDOW_SHORT))| == |Window(Series(m, reports), WINDOW_SHORT)|;
  }

  lemma {:induction false} CurrentIsSample(m: MetricType, nodeID: string, reports: seq<HealthReport>, root: Root)
    requires Judged(reports)
    ensures |reports| >= 2 && m in Prediction(nodeID, reports, root).metricRisks
    ensures Prediction(nodeID, reports, root).metricRisks[m].currentValue == Sample(m, reports, |reports| - 1)
  {
    AllJudged(m, reports);
    CurrentIsNewest(m, reports, root);
  }

  /** The current values of a judged node are the fields of its latest report, and the rise of its error counter. */
  lemma {:induction false} CurrentValues(m: MetricType, nodeID: string, reports: seq<HealthReport>, root: Root)
    requires Judged(reports)
    ensures |reports| >= 2 && m in Prediction(nodeID, reports, root).metricRisks
    ensures var value, r := Prediction(nodeID, reports, root).metricRisks[m].currentValue, reports[|reports| - 1];
      var rise := r.errorCount - reports[|reports| - 2].errorCount;
      && (m == DiskIOLatency ==> value == r.diskIOLatency)
      && (m == DiskUtil ==> value == r.diskUtil)
      && (m == ErrorRate ==> value == if rise < 0 then 0.0 else rise as real)
      && (m == ResponseTime ==> value == r.responseTime)
      && (m == CPUUsage ==> value == r.cpuUsage)
      && (m == MemoryUsage ==> value == r.memoryUsage)
  {
    CurrentIsSample(m, nodeID, reports, root);
  }

  // ------------------------------------------------------------- which values are a reason

  lemma {:induction false} ReasonsAre(risks: map<MetricType, MetricRisk>, k: nat, m: MetricType)
    requires k <= 6 && forall m :: m in risks
    ensures m in Reasons(risks, k) <==> Index(m) < k && risks[m].riskScore >= 0.6
  {
    if k > 0 {
      ReasonsAre(risks, k - 1, m);
      IndexOf(k - 1);
    }
  }

  /** The three components in plain numbers: value, projected rise and volatility as shares of the limit, capped. */
  lemma {:induction false} ComponentsInNumbers(value: real, slope: real, volatility: real, t: real)
    requires t > 0.0
    ensures t * ValueRisk(value, t) == if value < t then value else t
    ensures t * TrendRisk(slope, t) == if slope <= 0.0 then 0.0 else if 60.0 * slope < t then 60.0 * slope else t
    ensures t * VolRisk(volatility, t) == if 2.0 * volatility < t then 2.0 * volatility else t
  {
    ShareOf(value, t);
    ShareOf(slope * 60.0, t);
    ShareOf(volatility, t * 0.5);
  }

  lemma {:induction false} ShareOf(x: real, t: real)
    requires t > 0.0
    ensures t * (x / t) == x && (x / t < 1.0 <==> x < t) && (x / t > 1.0 <==> x > t)
  {
    QuotientTimes(x, t);
    TimesLess(t, x / t);
  }

  lemma {:induction false} TimesLess(t: real, q: real)
    requires t > 0.0
    ensures (q < 1.0 <==> t * q < t) && (q > 1.0 <==> t * q > t)
  {
    assert t * q - t == t * (q - 1.0);
    if q < 1.0 { assert t * (q - 1.0) < 0.0; }
    if q > 1.0 { assert t * (q - 1.0) > 0.0; }
  }

  lemma {:induction false} FlatScoreIff(c: real, t: real)
    requires t > 0.0
    ensures Score(c, 0.0, 0.0, t) >= 0.6 <==> c >= t
  {
    FlatScoreBound(c, t);
    ZeroRatio(t * 0.5);
    ShareOf(c, t);
  }

  /** A metric that has not varied over the last fifteen minutes is a reason exactly from its limit up. */
  lemma {:induction false} FlatIsReasonIff(m: MetricType, nodeID: string, reports: seq<HealthReport>, root: Root, c: real)
    requires IsSqrt(root) && Judged(reports) && Flat(Window(Series(m, reports), WINDOW_MEDIUM), c)
    ensures m in Prediction(nodeID, reports, root).reasons <==> c >= Threshold(m)
  {
    var s := Series(m, reports);
    AllJudged(m, reports);
    WindowsNest(s, WINDOW_SHORT, WINDOW_MEDIUM);
    FlatScore(Window(s, WINDOW_SHORT), Window(s, WINDOW_MEDIUM), c, Threshold(m), root);
    FlatScoreIff(c, Threshold(m));
    ReasonsAre(Risks(reports, root), 6, m);
  }

  /** The limits of the six metrics, for a node whose reports have stayed the same lately. */
  lemma {:induction false} SteadyReasons(nodeID: string, reports: seq<HealthReport>, root: Root, j: nat)
    requires IsSqrt(root) && Judged(reports) && ReportsInOrder(reports) && SteadySince(reports, j)
    ensures var reasons, r := Prediction(nodeID, reports, root).reasons, reports[|reports| - 1];
      && (DiskIOLatency in reasons <==> r.diskIOLatency >= 50.0)
      && (DiskUtil in reasons <==> r.diskUtil >= 0.90)
      && ErrorRate !in reasons
      && (ResponseTime in reasons <==> r.responseTime >= 30.0)
      && (CPUUsage in reasons <==> r.cpuUsage >= 0.90)
      && (MemoryUsage in reasons <==> r.memoryUsage >= 0.90)
  {
    var n := |reports| - 1;
    assert reports[j..][n - j].(timestamp := 0) == reports[j..][0].(timestamp := 0);
    forall m ensures m in Prediction(nodeID, reports, root).reasons <==>
      (if m == ErrorRate then 0.0 else Sample(m, reports, j)) >= Threshold(m)
    {
      SteadyWindow(m, reports, j);
      FlatIsReasonIff(m, nodeID, reports, root, if m == ErrorRate then 0.0 else Sample(m, reports, j));
    }
  }

  function Rise(reports: seq<HealthReport>, i: nat): int
    requires 0 < i < |reports|
  {
    reports[i].errorCount - reports[i - 1].errorCount
  }

  /** In the last fifteen minutes every report shows this many errors more than the one before it. */
  ghost predicate RisesBy(reports: seq<HealthReport>, errors: nat)
    requires reports != []
  {
    forall i {:trigger Rise(reports, i)} ::
      0 < i < |reports| && reports[i].timestamp >= reports[|reports| - 1].timestamp - 900_000 ==> Rise(reports, i) == errors
  }

  /** A steady stream of errors is a reason exactly from five errors per report up. */
  lemma {:induction false} SteadyErrors(nodeID: string, reports: seq<HealthReport>, root: Root, errors: nat)
    requires IsSqrt(root) && Judged(reports) && ReportsInOrder(reports) && reports != []
    requires reports[0].timestamp < reports[|reports| - 1].timestamp - 900_000 && RisesBy(reports, errors)
    ensures ErrorRate in Prediction(nodeID, reports, root).reasons <==> errors >= 5
  {
    FlatErrors(reports, errors);
    FlatIsReasonIff(ErrorRate, nodeID, reports, root, errors as real);
  }

  lemma {:induction false} FlatErrors(reports: seq<HealthReport>, errors: nat)
    requires ReportsInOrder(reports) && |reports| > 0
    requires reports[0].timestamp < reports[|reports| - 1].timestamp - 900_000
    requires RisesBy(reports, errors)
    ensures Flat(Window(Series(ErrorRate, reports), WINDOW_MEDIUM), errors as real)
  {
    SeriesFacts(ErrorRate, reports);
    RisesAreErrors(reports, errors);
    FlatRecent(Series(ErrorRate, reports), WINDOW_MEDIUM, errors as real);
  }

  lemma {:induction false} RiseIsSample(reports: seq<HealthReport>, k: nat, errors: nat)
    requires 0 < k < |reports| && Rise(reports, k) == errors
    ensures Sample(ErrorRate, reports, k) == errors as real
  {
  }

  lemma {:induction false} RisesAreErrors(reports: seq<HealthReport>, errors: nat)
    requires reports != [] && reports[0].timestamp < reports[|reports| - 1].timestamp - 900_000 && RisesBy(reports, errors)
    ensures var s, cutoff := Series(ErrorRate, reports), reports[|reports| - 1].timestamp - 900_000;
      forall k :: 0 <= k < |s| && s[k].timestamp >= cutoff ==> s[k].value == errors as real
  {
    var s, cutoff := Series(ErrorRate, reports), reports[|reports| - 1].timestamp - 900_000;
    forall k | 0 <= k < |s| && s[k].timestamp >= cutoff ensures s[k].value == errors as real {
      assert s[k] == MetricPoint(Sample(ErrorRate, reports, k), reports[k].timestamp);
      assert Rise(reports, k) == errors;
      RiseIsSample(reports, k, errors);
    }
  }

  lemma {:induction false} FlatRecent(s: seq<MetricPoint>, duration: nat, c: real)
    requires InTimeOrder(s) && s != []
    requires forall k :: 0 <= k < |s| && s[k].timestamp >= s[|s| - 1].timestamp - duration ==> s[k].value == c
    ensures Flat(Window(s, duration), c)
  {
    var w := Window(s, duration);
    WindowIsRecentHistory(s, duration);
    forall i | 0 <= i < |w| ensures w[i].value == c {
      var k := NotBeforeKeeps(s, s[|s| - 1].timestamp - duration, i);
    }
  }
}
