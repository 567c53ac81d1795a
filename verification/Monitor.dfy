/** Collection of health reports into the sliding windows of each node. */
module Monitors {
  import opened Common
  import opened Windows

  datatype MetricType = DiskIOLatency | DiskUtil | ErrorRate | ResponseTime | CPUUsage | MemoryUsage

  const ALL_METRIC_TYPES: seq<MetricType> :=
    [DiskIOLatency, DiskUtil, ErrorRate, ResponseTime, CPUUsage, MemoryUsage]

  lemma {:induction false} AllMetricTypesListed()
    ensures forall m: MetricType :: m in ALL_METRIC_TYPES
  {
    forall m: MetricType ensures m in ALL_METRIC_TYPES {
      match m
      case DiskIOLatency => assert ALL_METRIC_TYPES[0] == m;
      case DiskUtil => assert ALL_METRIC_TYPES[1] == m;
      case ErrorRate => assert ALL_METRIC_TYPES[2] == m;
      case ResponseTime => assert ALL_METRIC_TYPES[3] == m;
      case CPUUsage => assert ALL_METRIC_TYPES[4] == m;
      case MemoryUsage => assert ALL_METRIC_TYPES[5] == m;
    }
  }

  datatype HealthReport = HealthReport(
    nodeID: string, diskIOLatency: real, diskUtil: real, errorCount: int,
    responseTime: real, cpuUsage: real, memoryUsage: real, timestamp: int)

  // -------------------------------------------------- what the reports amount to

  /** The errors of one interval: the counter's rise since the report before, none if it fell or there is no such report. */
  function ErrorSample(reports: seq<HealthReport>, i: nat): real
    requires i < |reports|
  {
    if i == 0 || reports[i].errorCount < reports[i - 1].errorCount then 0.0
    else (reports[i].errorCount - reports[i - 1].errorCount) as real
  }

  function Sample(m: MetricType, reports: seq<HealthReport>, i: nat): real
    requires i < |reports|
  {
    match m
    case DiskIOLatency => reports[i].diskIOLatency
    case DiskUtil => reports[i].diskUtil
    case ErrorRate => ErrorSample(reports, i)
    case ResponseTime => reports[i].responseTime
    case CPUUsage => reports[i].cpuUsage
    case MemoryUsage => reports[i].memoryUsage
  }

  /** The series of one metric that a node's reports give rise to. */
  function Series(m: MetricType, reports: seq<HealthReport>): (points: seq<MetricPoint>)
    ensures |points| == |reports|
    ensures forall i :: 0 <= i < |reports| ==>
      points[i] == MetricPoint(Sample(m, reports, i), reports[i].timestamp)
  {
    seq(|reports|, i requires 0 <= i < |reports| => MetricPoint(Sample(m, reports, i), reports[i].timestamp))
  }

  lemma {:induction false} SampleStays(m: MetricType, reports: seq<HealthReport>, r: HealthReport, i: nat)
    requires i < |reports|
    ensures Sample(m, reports + [r], i) == Sample(m, reports, i)
  {
    var next := reports + [r];
    assert next[i] == reports[i];
    if i > 0 { assert next[i - 1] == reports[i - 1]; }
  }

  lemma {:induction false} SeriesNext(m: MetricType, reports: seq<HealthReport>, r: HealthReport)
    ensures Series(m, reports + [r]) ==
      Series(m, reports) + [MetricPoint(Sample(m, reports + [r], |reports|), r.timestamp)]
  {
    var more := reports + [r];
    var want := Series(m, reports) + [MetricPoint(Sample(m, more, |reports|), r.timestamp)];
    forall i: nat | i < |more| ensures Series(m, more)[i] == want[i] {
      SeriesPoint(m, reports, r, i);
    }
  }

  lemma {:induction false} SeriesPoint(m: MetricType, reports: seq<HealthReport>, r: HealthReport, i: nat)
    requires i <= |reports|
    ensures Series(m, reports + [r])[i] ==
      if i < |reports| then Series(m, reports)[i] else MetricPoint(Sample(m, reports + [r], i), r.timestamp)
  {
    if i < |reports| { SampleStays(m, reports, r, i); }
  }

  /** The windows of all metrics over one duration hold the same timestamps at all times. */
  lemma {:induction false} WindowsInLockstep(a: MetricType, b: MetricType, reports: seq<HealthReport>, duration: int)
    ensures TimesOf(Window(Series(a, reports), duration)) == TimesOf(Window(Series(b, reports), duration))
  {
    assert TimesOf(Series(a, reports)) == TimesOf(Series(b, reports));
    WindowTimes(Series(a, reports), Series(b, reports), duration);
  }

  /** All error samples of a node added up, over its whole life. */
  function TotalErrors(reports: seq<HealthReport>): real {
    Sum(ValuesOf(Series(ErrorRate, reports)))
  }

  lemma {:induction false} TotalErrorsNext(reports: seq<HealthReport>, r: HealthReport)
    ensures TotalErrors(reports + [r]) == TotalErrors(reports) + ErrorSample(reports + [r], |reports|)
  {
    var points, last := Series(ErrorRate, reports), MetricPoint(ErrorSample(reports + [r], |reports|), r.timestamp);
    SeriesNext(ErrorRate, reports, r);
    SumNext(points, last);
  }

  lemma {:induction false} SumNext(points: seq<MetricPoint>, p: MetricPoint)
    ensures Sum(ValuesOf(points + [p])) == Sum(ValuesOf(points)) + p.value
  {
    assert ValuesOf(points + [p])[..|points|] == ValuesOf(points);
  }

  ghost predicate CountersNeverFall(reports: seq<HealthReport>) {
    forall i :: 0 < i < |reports| ==> reports[i - 1].errorCount <= reports[i].errorCount
  }

  lemma {:induction false} CountersNeverFallNext(reports: seq<HealthReport>, r: HealthReport)
    requires reports != []
    ensures CountersNeverFall(reports + [r]) <==>
      CountersNeverFall(reports) && reports[|reports| - 1].errorCount <= r.errorCount
  {
    var next := reports + [r];
    assert next[|reports|] == r && next[|reports| - 1] == reports[|reports| - 1];
    if CountersNeverFall(next) {
      forall i | 0 < i < |reports| ensures reports[i - 1].errorCount <= reports[i].errorCount {
        assert next[i - 1].errorCount <= next[i].errorCount;
      }
    }
  }

  /** The samples telescope to last minus first exactly when no counter ever fell; otherwise they exceed it. */
  lemma {:induction false} ErrorsTelescope(reports: seq<HealthReport>)
    requires reports != []
    ensures TotalErrors(reports) >= (reports[|reports| - 1].errorCount - reports[0].errorCount) as real
    ensures TotalErrors(reports) == (reports[|reports| - 1].errorCount - reports[0].errorCount) as real
      <==> CountersNeverFall(reports)
  {
    var k := |reports| - 1;
    var init, r := reports[..k], reports[k];
    assert reports == init + [r];
    TotalErrorsNext(init, r);
    if init == [] {
      assert ValuesOf(Series(ErrorRate, init)) == [];
    } else {
      ErrorsTelescope(init);
      CountersNeverFallNext(init, r);
      assert reports[k - 1] == init[k - 1] && reports[0] == init[0];
    }
  }

  // ------------------------------------------------------------ windows of one node

  /** The three windows of one metric. */
  class MetricWindows {
    const short: SlidingWindow
    const medium: SlidingWindow
    const long: SlidingWindow
    ghost var history: seq<MetricPoint>

    ghost function Repr(): set<object> { {this, short, medium, long} }

    ghost predicate Valid()
      reads this, short, medium, long
    {
      && short.duration == WINDOW_SHORT && medium.duration == WINDOW_MEDIUM && long.duration == WINDOW_LONG
      && short.Valid() && medium.Valid() && long.Valid()
      && short.history == medium.history == long.history == history
    }

    constructor ()
      ensures Valid() && fresh(Repr()) && history == []
    {
      short := new SlidingWindow(WINDOW_SHORT);
      medium := new SlidingWindow(WINDOW_MEDIUM);
      long := new SlidingWindow(WINDOW_LONG);
      history := [];
    }

    method Add(value: real, ts: int)
      requires Valid()
      modifies Repr()
      ensures Valid() && history == old(history) + [MetricPoint(value, ts)]
    {
      short.Add(value, ts);
      medium.Add(value, ts);
      long.Add(value, ts);
      history := history + [MetricPoint(value, ts)];
    }
  }

  class NodeMetrics {
    const nodeID: string
    const windows: map<MetricType, MetricWindows>
    ghost const Repr: set<object>

    ghost predicate Shape() {
      && this in Repr
      && (forall m: MetricType :: m in windows && windows[m].Repr() <= Repr && this !in windows[m].Repr())
      && (forall m, n :: m != n ==> windows[m].Repr() !! windows[n].Repr())
    }

    ghost predicate Valid()
      reads this, Repr
      ensures Valid() ==> this in Repr
    {
      Shape() && forall m: MetricType :: windows[m].Valid()
    }

    ghost function History(m: MetricType): seq<MetricPoint>
      requires Shape()
      reads Repr
    {
      windows[m].history
    }

    constructor (nodeID: string)
      ensures Valid() && fresh(Repr) && this.nodeID == nodeID
      ensures forall m :: History(m) == []
    {
      this.nodeID := nodeID;
      var table: map<MetricType, MetricWindows> := map[];
      ghost var objects: set<object> := {};
      for i := 0 to |ALL_METRIC_TYPES|
        invariant fresh(objects)
        invariant forall m :: m in table <==> m in ALL_METRIC_TYPES[..i]
        invariant forall m :: m in table ==> table[m].Repr() <= objects && table[m].Valid() && table[m].history == []
        invariant forall m, n :: m in table && n in table && m != n ==> table[m].Repr() !! table[n].Repr()
      {
        var w := new MetricWindows();
        objects := objects + w.Repr();
        table := table[ALL_METRIC_TYPES[i] := w];
      }
      assert ALL_METRIC_TYPES[..6] == ALL_METRIC_TYPES;
      AllMetricTypesListed();
      windows := table;
      Repr := objects + {this};
    }

    method Record(m: MetricType, value: real, ts: int)
      requires Valid()
      modifies Repr
      ensures Valid()
      ensures forall n :: History(n) == if n == m then old(History(n)) + [MetricPoint(value, ts)] else old(History(n))
    {
      windows[m].Add(value, ts);
    }
  }

  // ---------------------------------------------------------------- the monitor

  /** The node's metrics are the series of its reports. */
  ghost predicate Tracks(nm: NodeMetrics, reports: seq<HealthReport>)
    reads nm, nm.Repr
  {
    nm.Valid() && forall m :: nm.History(m) == Series(m, reports)
  }

  type Store = map<string, NodeMetrics>

  type Reports = map<string, seq<HealthReport>>

  ghost predicate TracksOne(nm: NodeMetrics, reports: seq<HealthReport>, objects: set<object>)
    reads objects
  {
    reports != [] && nm in objects && nm.Repr <= objects && Tracks(nm, reports)
  }

  /** Every node's metrics are the series of its reports, and live in these objects. */
  ghost predicate TracksAll(store: Store, reports: Reports, objects: set<object>)
    reads objects
  {
    && reports.Keys == store.Keys
    && forall id {:trigger TracksOne(store[id], reports[id], objects)} :: id in store ==> TracksOne(store[id], reports[id], objects)
  }

  /** The metrics of different nodes share no object. */
  ghost predicate Apart(store: Store) {
    forall a, b {:trigger store[a].Repr, store[b].Repr} :: a in store && b in store && a != b ==> store[a].Repr !! store[b].Repr
  }

  /** The other nodes' metrics live outside this node's objects. */
  lemma {:induction false} TracksOthers(store: Store, reports: Reports, objects: set<object>, id: string)
    requires TracksAll(store, reports, objects) && Apart(store) && id in store
    ensures TracksAll(store - {id}, reports - {id}, objects - store[id].Repr)
  {
    var store', reports', objects' := store - {id}, reports - {id}, objects - store[id].Repr;
    assert TracksOne(store[id], reports[id], objects);
    forall b | b in store' ensures TracksOne(store'[b], reports'[b], objects') {
      assert TracksOne(store[b], reports[b], objects);
      assert store[b].Repr !! store[id].Repr;
    }
  }

  lemma {:induction false} TracksOneMore(store: Store, reports: Reports, objects: set<object>, id: string,
                                         nm: NodeMetrics,
                                         rs: seq<HealthReport>)
    requires TracksAll(store, reports, objects) && Apart(store) && id !in store
    requires rs != [] && Tracks(nm, rs) && nm.Repr !! objects
    ensures TracksAll(store[id := nm], reports[id := rs], objects + nm.Repr) && Apart(store[id := nm])
  {
    var store', reports', objects' := store[id := nm], reports[id := rs], objects + nm.Repr;
    forall b | b in store' ensures TracksOne(store'[b], reports'[b], objects') {
      if b != id { assert TracksOne(store[b], reports[b], objects); }
    }
    forall a, b | a in store' && b in store' && a != b ensures store'[a].Repr !! store'[b].Repr {
      if a != id { assert TracksOne(store[a], reports[a], objects); }
      if b != id { assert TracksOne(store[b], reports[b], objects); }
    }
  }

  ghost predicate LastCounts(counts: map<string, int>, reports: Reports) {
    && counts.Keys == reports.Keys
    && forall id {:trigger counts[id]} :: id in reports && reports[id] != [] ==>
         counts[id] == reports[id][|reports[id]| - 1].errorCount
  }

  lemma {:induction false} LastCountsNext(counts: map<string, int>, reports: Reports, id: string,
                                          before: seq<HealthReport>, report: HealthReport)
    requires LastCounts(counts, reports)
    ensures LastCounts(counts[id := report.errorCount], reports[id := before + [report]])
  {
  }

  lemma {:induction false} MinusPlus<K, V>(m: map<K, V>, k: K, v: V)
    ensures (m - {k})[k := v] == m[k := v]
  {
  }

  lemma {:induction false} Rejoin(store: Store, otherReports: Reports, otherObjects: set<object>, id: string,
                                  rs: seq<HealthReport>)
    requires id in store && TracksAll(store - {id}, otherReports, otherObjects) && Apart(store - {id})
    requires rs != [] && Tracks(store[id], rs) && store[id].Repr !! otherObjects
    ensures TracksAll(store, otherReports[id := rs], otherObjects + store[id].Repr) && Apart(store)
  {
    TracksOneMore(store - {id}, otherReports, otherObjects, id, store[id], rs);
    MinusPlus(store, id, store[id]);
    assert store[id := store[id]] == store;
  }

  class Monitor {
    var store: map<string, NodeMetrics>
    var lastErrorCount: map<string, int>
    ghost var reports: Reports         // what each node has sent
    ghost var objects: set<object>     // where the metrics live

    /** Of every node the monitor knows exactly its reports. */
    ghost predicate Valid()
      reads this, objects
    {
      && this !in objects && TracksAll(store, reports, objects) && Apart(store)
      && LastCounts(lastErrorCount, reports)
    }

    ghost function ReportsOf(nodeID: string): seq<HealthReport>
      reads this
    {
      if nodeID in reports then reports[nodeID] else []
    }

    ghost function Footprint(nodeID: string): set<object>
      reads this
    {
      if nodeID in store then {store[nodeID]} + store[nodeID].Repr else {}
    }

    /** The monitor's knowledge of a node is that of the reports it has received from it, in that order. */
    ghost predicate Knows(nodeID: string, reports: seq<HealthReport>)
      reads this, Footprint(nodeID)
    {
      if reports == [] then
        nodeID !in store && nodeID !in lastErrorCount
      else
        && nodeID in store && this !in Footprint(nodeID)
        && Tracks(store[nodeID], reports)
        && nodeID in lastErrorCount && lastErrorCount[nodeID] == reports[|reports| - 1].errorCount
    }

    constructor ()
      ensures Valid() && fresh(objects) && reports == map[]
    {
      store := map[];
      lastErrorCount := map[];
      reports := map[];
      objects := {};
    }

    /** The report joins those of its node; what is known of other nodes stays. */
    method IngestReport(report: HealthReport)
      requires Valid()
      modifies this, objects
      ensures Valid() && fresh(objects - old(objects))
      ensures reports == old(reports)[report.nodeID := old(ReportsOf(report.nodeID)) + [report]]
    {
      ghost var id, before := report.nodeID, ReportsOf(report.nodeID);
      ghost var otherReports, otherObjects := reports - {id}, objects - Footprint(id);
      SplitOff(id);
      LastCountsNext(lastErrorCount, reports, id, before, report);
      MinusPlus(reports, id, before + [report]);
      Ingest(report, before);
      assert store - {id} == old(store) - {id};
      Rejoin(store, otherReports, otherObjects, id, before + [report]);
      assert reports[id := before + [report]] == otherReports[id := before + [report]];
      reports := reports[id := before + [report]];
      objects := otherObjects + store[id].Repr;
    }

    lemma {:induction false} SplitOff(id: string)
      requires Valid()
      ensures TracksAll(store - {id}, reports - {id}, objects - Footprint(id)) && Apart(store - {id})
      ensures Knows(id, ReportsOf(id)) && Footprint(id) <= objects
    {
      if id in store {
        assert TracksOne(store[id], reports[id], objects);
        assert Footprint(id) == store[id].Repr;
        TracksOthers(store, reports, objects, id);
      } else {
        assert store - {id} == store && reports - {id} == reports && objects - Footprint(id) == objects;
      }
    }

    /** Only the reporting node's metrics are touched. */
    method Ingest(report: HealthReport, ghost before: seq<HealthReport>)
      requires Knows(report.nodeID, before)
      modifies `store, `lastErrorCount, Footprint(report.nodeID)
      ensures Knows(report.nodeID, before + [report])
      ensures fresh(Footprint(report.nodeID) - old(Footprint(report.nodeID)))
      ensures report.nodeID in store && store == old(store)[report.nodeID := store[report.nodeID]]
      ensures lastErrorCount == old(lastErrorCount)[report.nodeID := report.errorCount]
    {
      var nm := GetOrCreate(report.nodeID, before);
      var errors := ErrorsSince(report, before);
      RecordReport(nm, report, errors, before);
      lastErrorCount := lastErrorCount[report.nodeID := report.errorCount];
      assert Tracks(nm, before + [report]) && (before + [report])[|before|] == report;
    }

    /** The error counter's rise since the node's report before this one; a counter that fell counts as no errors. */
    method ErrorsSince(report: HealthReport, ghost before: seq<HealthReport>) returns (errors: real)
      requires report.nodeID in lastErrorCount <==> before != []
      requires before != [] ==> lastErrorCount[report.nodeID] == before[|before| - 1].errorCount
      ensures errors == ErrorSample(before + [report], |before|)
    {
      errors := 0.0;
      if report.nodeID in lastErrorCount {
        var delta := report.errorCount - lastErrorCount[report.nodeID];
        if delta < 0 { delta := 0; }
        errors := delta as real;
      }
    }

    method GetOrCreate(nodeID: string, ghost before: seq<HealthReport>) returns (nm: NodeMetrics)
      requires Knows(nodeID, before)
      modifies `store
      ensures nm in nm.Repr && this !in nm.Repr && Tracks(nm, before)
      ensures store == old(store)[nodeID := nm]
      ensures if nodeID in old(store) then nm == old(store)[nodeID] else fresh(nm.Repr)
    {
      if nodeID in store {
        nm := store[nodeID];
      } else {
        nm := new NodeMetrics(nodeID);
        store := store[nodeID := nm];
      }
    }
  }

  function Reading(m: MetricType, report: HealthReport, errors: real): real {
    match m
    case DiskIOLatency => report.diskIOLatency
    case DiskUtil => report.diskUtil
    case ErrorRate => errors
    case ResponseTime => report.responseTime
    case CPUUsage => report.cpuUsage
    case MemoryUsage => report.memoryUsage
  }

  /** One sample for each of the six metrics. */
  method RecordAll(nm: NodeMetrics, report: HealthReport, errors: real)
    requires nm.Valid()
    modifies nm.Repr
    ensures nm.Valid()
    ensures forall m :: nm.History(m) == old(nm.History(m)) + [MetricPoint(Reading(m, report, errors), report.timestamp)]
  {
    RecordStorage(nm, report);
    RecordCompute(nm, report, errors);
  }

  predicate IsStorage(m: MetricType) { m.DiskIOLatency? || m.DiskUtil? || m.ResponseTime? }

  method RecordStorage(nm: NodeMetrics, report: HealthReport)
    requires nm.Valid()
    modifies nm.Repr
    ensures nm.Valid()
    ensures forall m | IsStorage(m) ::
      nm.History(m) == old(nm.History(m)) + [MetricPoint(Reading(m, report, 0.0), report.timestamp)]
    ensures forall m | !IsStorage(m) :: nm.History(m) == old(nm.History(m))
  {
    var ts := report.timestamp;
    nm.Record(DiskIOLatency, report.diskIOLatency, ts);
    nm.Record(DiskUtil, report.diskUtil, ts);
    nm.Record(ResponseTime, report.responseTime, ts);
  }

  method RecordCompute(nm: NodeMetrics, report: HealthReport, errors: real)
    requires nm.Valid()
    modifies nm.Repr
    ensures nm.Valid()
    ensures forall m | !IsStorage(m) ::
      nm.History(m) == old(nm.History(m)) + [MetricPoint(Reading(m, report, errors), report.timestamp)]
    ensures forall m | IsStorage(m) :: nm.History(m) == old(nm.History(m))
  {
    var ts := report.timestamp;
    nm.Record(CPUUsage, report.cpuUsage, ts);
    nm.Record(MemoryUsage, report.memoryUsage, ts);
    nm.Record(ErrorRate, errors, ts);
  }

  method RecordReport(nm: NodeMetrics, report: HealthReport, errors: real, ghost before: seq<HealthReport>)
    requires Tracks(nm, before)
    requires errors == ErrorSample(before + [report], |before|)
    modifies nm.Repr
    ensures Tracks(nm, before + [report])
  {
    RecordAll(nm, report, errors);
    forall m ensures nm.History(m) == Series(m, before + [report]) {
      SeriesNext(m, before, report);
    }
  }
}
