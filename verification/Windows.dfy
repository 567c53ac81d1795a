/** Sliding windows: the mutable series, the history it stands for, and what survives in it. */
module Windows {
  import opened Common

  datatype MetricPoint = MetricPoint(value: real, timestamp: int)

  // --------------------------------------------------------------- specification

  /** The points left after dropping the leading ones older than the cutoff; eviction stops at the first younger one. */
  function Evict(points: seq<MetricPoint>, cutoff: int): seq<MetricPoint> {
    if points != [] && points[0].timestamp < cutoff then Evict(points[1..], cutoff) else points
  }

  function Slide(points: seq<MetricPoint>, p: MetricPoint, duration: int): seq<MetricPoint> {
    Evict(points + [p], p.timestamp - duration)
  }

  /** The window after all the points of the history were added to it, in that order. */
  function Window(history: seq<MetricPoint>, duration: int): seq<MetricPoint> {
    if history == [] then [] else
      Slide(Window(history[..|history| - 1], duration), history[|history| - 1], duration)
  }

  lemma {:induction false} WindowNext(history: seq<MetricPoint>, p: MetricPoint, duration: int)
    ensures Window(history + [p], duration) == Slide(Window(history, duration), p, duration)
  {
    assert (history + [p])[..|history|] == history;
  }

  // -------------------------------------------------------------------- the class

  class SlidingWindow {
    const duration: int
    var points: seq<MetricPoint>
    ghost var history: seq<MetricPoint>   // every point ever added

    /** The window holds exactly what the whole history leaves in it. */
    ghost predicate Valid()
      reads this
    {
      points == Window(history, duration)
    }

    constructor (duration: int)
      ensures Valid() && this.duration == duration && history == []
    {
      this.duration := duration;
      history := [];
      points := [];
    }

    method Add(value: real, ts: int)
      requires Valid()
      modifies this
      ensures Valid() && history == old(history) + [MetricPoint(value, ts)]
      ensures points == Slide(old(points), MetricPoint(value, ts), duration)
    {
      points := points + [MetricPoint(value, ts)];
      EvictBefore(ts - duration);
      WindowNext(history, MetricPoint(value, ts), duration);
      history := history + [MetricPoint(value, ts)];
    }

    method EvictBefore(cutoff: int)
      modifies `points
      ensures points == Evict(old(points), cutoff)
    {
      var idx := 0;
      while idx < |points| && points[idx].timestamp < cutoff
        invariant 0 <= idx <= |points| && points == old(points)
        invariant Evict(points[idx..], cutoff) == Evict(points, cutoff)
      {
        assert points[idx..][1..] == points[idx + 1..];
        idx := idx + 1;
      }
      if idx > 0 {
        points := points[idx..];
      }
    }

    method Values() returns (values: seq<real>)
      ensures values == ValuesOf(points)
    {
      values := [];
      for i := 0 to |points|
        invariant values == ValuesOf(points[..i])
      {
        assert points[..i + 1] == points[..i] + [points[i]];
        values := values + [points[i].value];
      }
      assert points[..|points|] == points;
    }

    /** The newest point is always in the window, so this is the last value ever added. */
    method Latest() returns (value: real)
      ensures value == LatestOf(points)
      ensures Valid() && duration >= 0 ==> value == if history == [] then 0.0 else history[|history| - 1].value
    {
      if history != [] && Valid() && duration >= 0 { NewestIsKept(history, duration); }
      if |points| == 0 { return 0.0; }
      return points[|points| - 1].value;
    }

    method Mean() returns (mean: real)
      ensures points == [] ==> mean == 0.0
      ensures points != [] ==> mean * |points| as real == Sum(ValuesOf(points))
    {
      if |points| == 0 { return 0.0; }
      var sum := 0.0;
      for i := 0 to |points|
        invariant sum == Sum(ValuesOf(points[..i]))
      {
        assert ValuesOf(points[..i + 1])[..i] == ValuesOf(points[..i]);
        sum := sum + points[i].value;
      }
      assert points[..|points|] == points;
      return sum / |points| as real;
    }
  }

  function ValuesOf(points: seq<MetricPoint>): (values: seq<real>)
    ensures |values| == |points|
    ensures forall i :: 0 <= i < |points| ==> values[i] == points[i].value
  {
    seq(|points|, i requires 0 <= i < |points| => points[i].value)
  }

  function TimesOf(points: seq<MetricPoint>): (times: seq<int>)
    ensures |times| == |points|
    ensures forall i :: 0 <= i < |points| ==> times[i] == points[i].timestamp
  {
    seq(|points|, i requires 0 <= i < |points| => points[i].timestamp)
  }

  function LatestOf(points: seq<MetricPoint>): real {
    if points == [] then 0.0 else points[|points| - 1].value
  }

  function Sum(values: seq<real>): real {
    if values == [] then 0.0 else Sum(values[..|values| - 1]) + values[|values| - 1]
  }

  // ------------------------------------------------------------------ what is kept

  ghost predicate IsSuffix<T>(a: seq<T>, b: seq<T>) {
    |a| <= |b| && a == b[|b| - |a|..]
  }

  lemma {:induction false} SuffixOfSuffix<T>(a: seq<T>, b: seq<T>, c: seq<T>)
    requires IsSuffix(a, b) && IsSuffix(b, c)
    ensures IsSuffix(a, c)
  {
    assert c[|c| - |b|..][|b| - |a|..] == c[|c| - |a|..];
  }

  lemma {:induction false} EvictIsSuffix(points: seq<MetricPoint>, cutoff: int)
    ensures IsSuffix(Evict(points, cutoff), points)
  {
    if points != [] && points[0].timestamp < cutoff {
      EvictIsSuffix(points[1..], cutoff);
      SuffixOfSuffix(Evict(points[1..], cutoff), points[1..], points);
    }
  }

  lemma {:induction false} EvictStops(points: seq<MetricPoint>, cutoff: int)
    ensures points != [] && points[|points| - 1].timestamp >= cutoff ==> Evict(points, cutoff) != []
    ensures Evict(points, cutoff) != [] ==> Evict(points, cutoff)[0].timestamp >= cutoff
  {
    if points != [] && points[0].timestamp < cutoff {
      EvictStops(points[1..], cutoff);
    }
  }

  /** Whatever the order of the timestamps, the point just added is in the window. */
  lemma {:induction false} NewestIsKept(history: seq<MetricPoint>, duration: int)
    requires history != [] && duration >= 0
    ensures Window(history, duration) != []
    ensures Window(history, duration)[|Window(history, duration)| - 1] == history[|history| - 1]
  {
    var k := |history| - 1;
    var w := Window(history[..k], duration) + [history[k]];
    EvictIsSuffix(w, history[k].timestamp - duration);
    EvictStops(w, history[k].timestamp - duration);
  }

  lemma {:induction false} EvictNests(a: seq<MetricPoint>, b: seq<MetricPoint>, early: int, late: int)
    requires IsSuffix(a, b) && early <= late
    ensures IsSuffix(Evict(a, late), Evict(b, early))
  {
    if b != [] && b[0].timestamp < early {
      if |a| == |b| {
        assert a == b && IsSuffix(a[1..], b[1..]);
        EvictNests(a[1..], b[1..], early, late);
      } else {
        assert b[|b| - |a|..] == b[1..][|b| - 1 - |a|..];
        EvictNests(a, b[1..], early, late);
      }
    } else {
      EvictIsSuffix(a, late);
      SuffixOfSuffix(Evict(a, late), a, b);
    }
  }

  /** Whatever the order of the timestamps, a shorter window is a suffix of a longer one over the same history. */
  lemma {:induction false} WindowsNest(history: seq<MetricPoint>, shorter: int, longer: int)
    requires shorter <= longer
    ensures IsSuffix(Window(history, shorter), Window(history, longer))
  {
    if history != [] {
      var init, p := history[..|history| - 1], history[|history| - 1];
      WindowsNest(init, shorter, longer);
      EvictNests(Window(init, shorter) + [p], Window(init, longer) + [p], p.timestamp - longer, p.timestamp - shorter);
    }
  }

  lemma {:induction false} WindowIsSuffix(history: seq<MetricPoint>, duration: int)
    ensures IsSuffix(Window(history, duration), history)
  {
    if history != [] {
      var init, p := history[..|history| - 1], history[|history| - 1];
      WindowIsSuffix(init, duration);
      assert history == init + [p];
      SuffixGrows(Window(init, duration), init, p);
      EvictIsSuffix(Window(init, duration) + [p], p.timestamp - duration);
      SuffixOfSuffix(Window(history, duration), Window(init, duration) + [p], history);
    }
  }

  // --------------------------------------------------------- exact contents in time order

  ghost predicate InTimeOrder(points: seq<MetricPoint>) {
    forall i, j :: 0 <= i < j < |points| ==> points[i].timestamp <= points[j].timestamp
  }

  function NotBefore(points: seq<MetricPoint>, cutoff: int): seq<MetricPoint> {
    if points == [] then [] else
      NotBefore(points[..|points| - 1], cutoff) +
      (if points[|points| - 1].timestamp >= cutoff then [points[|points| - 1]] else [])
  }

  lemma {:induction false} NotBeforeAll(points: seq<MetricPoint>, cutoff: int)
    requires forall i :: 0 <= i < |points| ==> points[i].timestamp >= cutoff
    ensures NotBefore(points, cutoff) == points
  {
    if points != [] { NotBeforeAll(points[..|points| - 1], cutoff); }
  }

  lemma {:induction false} NotBeforeTail(points: seq<MetricPoint>, cutoff: int)
    requires points != [] && points[0].timestamp < cutoff
    ensures NotBefore(points, cutoff) == NotBefore(points[1..], cutoff)
  {
    if |points| > 1 {
      NotBeforeTail(points[..|points| - 1], cutoff);
      assert points[1..][..|points| - 2] == points[..|points| - 1][1..];
    }
  }

  lemma {:induction false} EvictIsFilter(points: seq<MetricPoint>, cutoff: int)
    requires InTimeOrder(points)
    ensures Evict(points, cutoff) == NotBefore(points, cutoff)
  {
    if points != [] && points[0].timestamp < cutoff {
      NotBeforeTail(points, cutoff);
      EvictIsFilter(points[1..], cutoff);
    } else {
      NotBeforeAll(points, cutoff);
    }
  }

  lemma {:induction false} NotBeforeTwice(points: seq<MetricPoint>, early: int, late: int)
    requires early <= late
    ensures NotBefore(NotBefore(points, early), late) == NotBefore(points, late)
  {
    if points != [] {
      var init, p := points[..|points| - 1], points[|points| - 1];
      NotBeforeTwice(init, early, late);
      var kept := NotBefore(init, early);
      if p.timestamp >= early {
        assert NotBefore(points, early) == kept + [p] && (kept + [p])[..|kept|] == kept;
      } else {
        assert NotBefore(points, early) == kept;
      }
    }
  }

  lemma {:induction false} SuffixGrows<T>(a: seq<T>, b: seq<T>, p: T)
    requires IsSuffix(a, b)
    ensures IsSuffix(a + [p], b + [p])
  {
  }

  lemma {:induction false} SuffixInTimeOrder(a: seq<MetricPoint>, b: seq<MetricPoint>)
    requires IsSuffix(a, b) && InTimeOrder(b)
    ensures InTimeOrder(a)
  {
  }

  lemma {:induction false} SlideIsFilter(w: seq<MetricPoint>, p: MetricPoint, duration: int)
    requires InTimeOrder(w + [p]) && duration >= 0
    ensures Slide(w, p, duration) == NotBefore(w, p.timestamp - duration) + [p]
  {
    EvictIsFilter(w + [p], p.timestamp - duration);
    assert (w + [p])[..|w|] == w;
  }

  lemma {:induction false} WindowInTimeOrder(init: seq<MetricPoint>, p: MetricPoint, duration: int)
    requires InTimeOrder(init + [p])
    ensures InTimeOrder(Window(init, duration) + [p])
  {
    WindowIsSuffix(init, duration);
    SuffixGrows(Window(init, duration), init, p);
    SuffixInTimeOrder(Window(init, duration) + [p], init + [p]);
  }

  /** The history init + [p] seen through its window. */
  lemma {:induction false} WindowOfAppend(init: seq<MetricPoint>, p: MetricPoint, duration: int)
    requires InTimeOrder(init + [p]) && duration >= 0
    ensures Window(init + [p], duration) == NotBefore(init, p.timestamp - duration) + [p]
    decreases 2 * |init|
  {
    WindowNext(init, p, duration);
    WindowInTimeOrder(init, p, duration);
    SlideIsFilter(Window(init, duration), p, duration);
    if init != [] {
      WindowTwice(init, p, duration);
    }
  }

  lemma {:induction false} WindowTwice(init: seq<MetricPoint>, p: MetricPoint, duration: int)
    requires init != [] && InTimeOrder(init + [p]) && duration >= 0
    ensures NotBefore(Window(init, duration), p.timestamp - duration) == NotBefore(init, p.timestamp - duration)
    decreases 2 * |init| - 1
  {
    var k := |init| - 1;
    var before, q := init[..k], init[k];
    assert init == before + [q];
    assert (init + [p])[k] == q && (init + [p])[k + 1] == p;
    InitInTimeOrder(init, p);
    WindowOfAppend(before, q, duration);
    NotBeforeNext(before, q, q.timestamp - duration);
    NotBeforeTwice(init, q.timestamp - duration, p.timestamp - duration);
  }

  lemma {:induction false} InitInTimeOrder(init: seq<MetricPoint>, p: MetricPoint)
    requires InTimeOrder(init + [p])
    ensures InTimeOrder(init)
  {
    forall i, j | 0 <= i < j < |init| ensures init[i].timestamp <= init[j].timestamp {
      assert (init + [p])[i] == init[i] && (init + [p])[j] == init[j];
    }
  }

  lemma {:induction false} NotBeforeNext(init: seq<MetricPoint>, p: MetricPoint, cutoff: int)
    ensures NotBefore(init + [p], cutoff) == NotBefore(init, cutoff) + (if p.timestamp >= cutoff then [p] else [])
  {
    assert (init + [p])[..|init|] == init;
  }

  /** With timestamps that never fall, the window is exactly the history of the last `duration` milliseconds. */
  lemma {:induction false} WindowIsRecentHistory(history: seq<MetricPoint>, duration: int)
    requires history != [] && InTimeOrder(history) && duration >= 0
    ensures Window(history, duration) == NotBefore(history, history[|history| - 1].timestamp - duration)
  {
    var k := |history| - 1;
    assert history == history[..k] + [history[k]];
    WindowOfAppend(history[..k], history[k], duration);
    NotBeforeNext(history[..k], history[k], history[k].timestamp - duration);
  }

  /** Consecutive reports are at least `gap` milliseconds apart. */
  ghost predicate Spaced(points: seq<MetricPoint>, gap: int) {
    forall i :: 0 <= i < |points| - 1 ==> points[i + 1].timestamp - points[i].timestamp >= gap
  }

  lemma {:induction false} SpacedSpan(points: seq<MetricPoint>, gap: nat)
    requires points != [] && Spaced(points, gap)
    ensures (|points| - 1) * gap <= points[|points| - 1].timestamp - points[0].timestamp
  {
    if |points| > 1 {
      var init := points[..|points| - 1];
      SpacedSpan(init, gap);
      assert points[|points| - 1].timestamp - points[|points| - 2].timestamp >= gap;
      assert (|points| - 1) * gap == (|init| - 1) * gap + gap;
    }
  }

  lemma {:induction false} SuffixSpaced(a: seq<MetricPoint>, b: seq<MetricPoint>, gap: int)
    requires IsSuffix(a, b) && Spaced(b, gap)
    ensures Spaced(a, gap)
  {
    var o := |b| - |a|;
    forall i | 0 <= i < |a| - 1 ensures a[i + 1].timestamp - a[i].timestamp >= gap {
      assert a[i] == b[o + i] && a[i + 1] == b[o + i + 1];
    }
  }

  lemma {:induction false} SizeOfSpan(w: seq<MetricPoint>, duration: nat, gap: nat)
    requires w != [] && Spaced(w, gap) && gap > 0
    requires w[|w| - 1].timestamp - w[0].timestamp <= duration
    ensures |w| <= duration / gap + 1
  {
    SpacedSpan(w, gap);
    DivMul(|w| - 1, gap, duration);
  }

  /** Memory is bounded: a window never holds more than duration / gap + 1 points. */
  lemma {:induction false} WindowSizeBound(history: seq<MetricPoint>, duration: nat, gap: nat)
    requires Spaced(history, gap) && gap > 0
    ensures |Window(history, duration)| <= duration / gap + 1
  {
    if history != [] {
      var k := |history| - 1;
      var w := Window(history, duration);
      WindowIsSuffix(history, duration);
      NewestIsKept(history, duration);
      EvictStops(Window(history[..k], duration) + [history[k]], history[k].timestamp - duration);
      SuffixSpaced(w, history, gap);
      SizeOfSpan(w, duration, gap);
    }
  }

  ghost predicate EvenlySpaced(points: seq<MetricPoint>, gap: int) {
    forall i, j :: 0 <= i < |points| && 0 <= j < |points| ==>
      points[j].timestamp - points[i].timestamp == (j - i) * gap
  }

  lemma {:induction false} NotBeforeNone(points: seq<MetricPoint>, cutoff: int)
    requires forall i :: 0 <= i < |points| ==> points[i].timestamp < cutoff
    ensures NotBefore(points, cutoff) == []
  {
    if points != [] { NotBeforeNone(points[..|points| - 1], cutoff); }
  }

  lemma {:induction false} NotBeforeConcat(a: seq<MetricPoint>, b: seq<MetricPoint>, cutoff: int)
    ensures NotBefore(a + b, cutoff) == NotBefore(a, cutoff) + NotBefore(b, cutoff)
  {
    if b == [] {
      assert a + b == a;
    } else {
      var k := |b| - 1;
      assert (a + b)[..|a + b| - 1] == a + b[..k];
      NotBeforeConcat(a, b[..k], cutoff);
    }
  }

  lemma {:induction false} DivMul(n: nat, gap: nat, total: nat)
    requires gap > 0
    ensures n * gap <= total <==> n <= total / gap
  {
    var q := total / gap;
    assert q * gap <= total < (q + 1) * gap;
    if n <= q {
      MulMonotone(n, q, gap);
    } else {
      MulMonotone(q + 1, n, gap);
    }
  }

  lemma {:induction false} EvenSince(history: seq<MetricPoint>, duration: nat, gap: nat, i: nat)
    requires EvenlySpaced(history, gap) && gap > 0 && i < |history|
    ensures history[i].timestamp >= history[|history| - 1].timestamp - duration <==> |history| - 1 - i <= duration / gap
  {
    var k := |history| - 1 - i;
    assert history[|history| - 1].timestamp - history[i].timestamp == k * gap;
    DivMul(k, gap, duration);
  }

  lemma {:induction false} NotBeforeSplit(history: seq<MetricPoint>, cutoff: int, k: nat)
    requires k <= |history|
    requires forall i :: 0 <= i < |history| ==> (history[i].timestamp >= cutoff <==> i >= k)
    ensures |NotBefore(history, cutoff)| == |history| - k
  {
    var a, b := history[..k], history[k..];
    assert history == a + b;
    NotBeforeNone(a, cutoff);
    NotBeforeAll(b, cutoff);
    NotBeforeConcat(a, b, cutoff);
  }

  lemma {:induction false} EvenTail(history: seq<MetricPoint>, duration: nat, gap: nat)
    requires EvenlySpaced(history, gap) && gap > 0 && history != []
    ensures |NotBefore(history, history[|history| - 1].timestamp - duration)|
         == if |history| < duration / gap + 1 then |history| else duration / gap + 1
  {
    var n, q, cutoff := |history|, duration / gap, history[|history| - 1].timestamp - duration;
    forall i | 0 <= i < n ensures history[i].timestamp >= cutoff <==> i >= n - 1 - q {
      EvenSince(history, duration, gap, i);
    }
    NotBeforeSplit(history, cutoff, if n <= q + 1 then 0 else n - 1 - q);
  }

  /** The bound is the exact size when reports come at even intervals and there have been enough of them. */
  lemma {:induction false} WindowSizeIsExact(history: seq<MetricPoint>, duration: nat, gap: nat)
    requires EvenlySpaced(history, gap) && gap > 0
    ensures |Window(history, duration)| == if |history| < duration / gap + 1 then |history| else duration / gap + 1
  {
    if history != [] {
      EvenIsOrdered(history, gap);
      WindowIsRecentHistory(history, duration);
      EvenTail(history, duration, gap);
    }
  }

  lemma {:induction false} EvenIsOrdered(history: seq<MetricPoint>, gap: nat)
    requires EvenlySpaced(history, gap)
    ensures InTimeOrder(history)
  {
    forall i, j | 0 <= i < j < |history| ensures history[i].timestamp <= history[j].timestamp {
      MulMonotone(0, j - i, gap);
    }
  }

  /** An hour of reports at five-second intervals is 721 points. */
  lemma {:induction false} HourOfReports(history: seq<MetricPoint>)
    requires EvenlySpaced(history, 5_000) && |history| >= 721
    ensures |Window(history, WINDOW_LONG)| == 721
  {
    WindowSizeIsExact(history, WINDOW_LONG, 5_000);
  }

  lemma {:induction false} MulMonotone(m: nat, n: nat, gap: nat)
    requires m <= n
    ensures m * gap <= n * gap
  {
  }

  // ------------------------------------------------------------------- lockstep

  lemma {:induction false} EvictTimes(a: seq<MetricPoint>, b: seq<MetricPoint>, cutoff: int)
    requires TimesOf(a) == TimesOf(b)
    ensures TimesOf(Evict(a, cutoff)) == TimesOf(Evict(b, cutoff))
  {
    assert |a| == |b|;
    if a != [] {
      assert a[0].timestamp == TimesOf(a)[0] == b[0].timestamp;
      assert TimesOf(a[1..]) == TimesOf(a)[1..] && TimesOf(b[1..]) == TimesOf(b)[1..];
      EvictTimes(a[1..], b[1..], cutoff);
    }
  }

  /** The timestamps of a window depend on the timestamps of the history only, not on the values. */
  lemma {:induction false} WindowTimes(a: seq<MetricPoint>, b: seq<MetricPoint>, duration: int)
    requires TimesOf(a) == TimesOf(b)
    ensures TimesOf(Window(a, duration)) == TimesOf(Window(b, duration))
  {
    assert |a| == |TimesOf(a)| == |b|;
    if a != [] {
      var k := |a| - 1;
      assert a[k].timestamp == TimesOf(a)[k] == b[k].timestamp;
      assert TimesOf(a[..k]) == TimesOf(a)[..k] && TimesOf(b[..k]) == TimesOf(b)[..k];
      WindowTimes(a[..k], b[..k], duration);
      var u, v := Window(a[..k], duration), Window(b[..k], duration);
      assert TimesOf(u + [a[k]]) == TimesOf(u) + [a[k].timestamp];
      assert TimesOf(v + [b[k]]) == TimesOf(v) + [b[k].timestamp];
      EvictTimes(u + [a[k]], v + [b[k]], a[k].timestamp - duration);
    }
  }
}
