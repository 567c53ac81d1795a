/** The least-squares slope: what its sums are, when its guard fires, and that it is optimal. */
module Regression {
  import opened Windows

  datatype Pt = Pt(x: real, y: real)

  /** Instants in seconds after `base`, paired with the values. */
  function At(points: seq<MetricPoint>, base: int): (pts: seq<Pt>)
    ensures |pts| == |points|
    ensures forall i :: 0 <= i < |points| ==>
      pts[i] == Pt((points[i].timestamp - base) as real / 1000.0, points[i].value)
  {
    seq(|points|, i requires 0 <= i < |points| =>
      Pt((points[i].timestamp - base) as real / 1000.0, points[i].value))
  }

  // ------------------------------------------------------------------------ sums

  function SumX(pts: seq<Pt>): real { if pts == [] then 0.0 else SumX(pts[..|pts| - 1]) + pts[|pts| - 1].x }

  function SumY(pts: seq<Pt>): real { if pts == [] then 0.0 else SumY(pts[..|pts| - 1]) + pts[|pts| - 1].y }

  function SumXY(pts: seq<Pt>): real {
    if pts == [] then 0.0 else SumXY(pts[..|pts| - 1]) + pts[|pts| - 1].x * pts[|pts| - 1].y
  }

  function SumX2(pts: seq<Pt>): real {
    if pts == [] then 0.0 else SumX2(pts[..|pts| - 1]) + pts[|pts| - 1].x * pts[|pts| - 1].x
  }

  function SumY2(pts: seq<Pt>): real {
    if pts == [] then 0.0 else SumY2(pts[..|pts| - 1]) + pts[|pts| - 1].y * pts[|pts| - 1].y
  }

  /** What one pass over the points accumulates (y2 only serves the proofs). */
  datatype Sums = Sums(n: real, x: real, y: real, xy: real, x2: real, y2: real)

  function SumsOf(pts: seq<Pt>): Sums {
    Sums(|pts| as real, SumX(pts), SumY(pts), SumXY(pts), SumX2(pts), SumY2(pts))
  }

  function Num(s: Sums): real { s.n * s.xy - s.x * s.y }

  function Den(s: Sums): real { s.n * s.x2 - s.x * s.x }

  function Numerator(pts: seq<Pt>): real { Num(SumsOf(pts)) }

  function Denominator(pts: seq<Pt>): real { Den(SumsOf(pts)) }

  const GUARD: real := 0.0000000001

  function Abs(x: real): real { if x < 0.0 then -x else x }

  function SlopeOf(s: Sums): real { if Abs(Den(s)) < GUARD then 0.0 else Num(s) / Den(s) }

  /** The slope the predictor computes. */
  function Slope(pts: seq<Pt>): real { if |pts| < 2 then 0.0 else SlopeOf(SumsOf(pts)) }

  method LinearRegressionSlope(points: seq<MetricPoint>) returns (slope: real)
    ensures forall base: int :: slope == Slope(At(points, base))
  {
    slope := SlopeFromFirst(points);
    if points != [] {
      forall base: int ensures slope == Slope(At(points, base)) {
        SlopeIgnoresBase(points, points[0].timestamp, base);
      }
    }
  }

  /** The computation, with the first timestamp as the origin of time. */
  method SlopeFromFirst(points: seq<MetricPoint>) returns (slope: real)
    ensures points == [] ==> slope == 0.0
    ensures points != [] ==> slope == Slope(At(points, points[0].timestamp))
  {
    var n := |points|;
    if n < 2 { return 0.0; }
    var baseTime := points[0].timestamp;
    var sumX, sumY, sumXY, sumX2 := Accumulate(points, baseTime);
    var fn := n as real;
    var denominator := fn * sumX2 - sumX * sumX;
    if Abs(denominator) < GUARD { return 0.0; }
    slope := (fn * sumXY - sumX * sumY) / denominator;
  }

  method Accumulate(points: seq<MetricPoint>, baseTime: int)
    returns (sumX: real, sumY: real, sumXY: real, sumX2: real)
    ensures var pts := At(points, baseTime);
      sumX == SumX(pts) && sumY == SumY(pts) && sumXY == SumXY(pts) && sumX2 == SumX2(pts)
  {
    ghost var pts := At(points, baseTime);
    sumX, sumY, sumXY, sumX2 := 0.0, 0.0, 0.0, 0.0;
    for i := 0 to |points|
      invariant sumX == SumX(pts[..i]) && sumY == SumY(pts[..i])
      invariant sumXY == SumXY(pts[..i]) && sumX2 == SumX2(pts[..i])
    {
      var x := (points[i].timestamp - baseTime) as real / 1000.0;
      var y := points[i].value;
      assert pts[..i + 1][..i] == pts[..i] && pts[i] == Pt(x, y);
      sumX := sumX + x;
      sumY := sumY + y;
      sumXY := sumXY + x * y;
      sumX2 := sumX2 + x * x;
    }
    assert pts[..|points|] == pts;
  }

  // -------------------------------------------------------------- pairwise forms

  function Product(p: Pt, q: Pt): real { (p.x - q.x) * (p.y - q.y) }

  /** Sum over the earlier points of (x - xi)(y - yi). */
  function Cross(pts: seq<Pt>, p: Pt): real {
    if pts == [] then 0.0 else
      var q := pts[|pts| - 1];
      Cross(pts[..|pts| - 1], p) + Product(p, q)
  }

  /** Sum over all pairs i < j of (xj - xi)(yj - yi). */
  function PairSum(pts: seq<Pt>): real {
    if pts == [] then 0.0 else PairSum(pts[..|pts| - 1]) + Cross(pts[..|pts| - 1], pts[|pts| - 1])
  }

  /** The same points with the time in both coordinates. */
  function Diagonal(pts: seq<Pt>): (ds: seq<Pt>)
    ensures |ds| == |pts| && forall i :: 0 <= i < |pts| ==> ds[i] == Pt(pts[i].x, pts[i].x)
  {
    seq(|pts|, i requires 0 <= i < |pts| => Pt(pts[i].x, pts[i].x))
  }

  /** Cross in terms of the sums. */
  function CrossOf(s: Sums, p: Pt): real { s.xy - p.x * s.y - p.y * s.x + s.n * (p.x * p.y) }

  function Plus(s: Sums, p: Pt): Sums {
    Sums(s.n + 1.0, s.x + p.x, s.y + p.y, s.xy + p.x * p.y, s.x2 + p.x * p.x, s.y2 + p.y * p.y)
  }

  lemma {:induction false} SumsNext(pts: seq<Pt>)
    requires pts != []
    ensures SumsOf(pts) == Plus(SumsOf(pts[..|pts| - 1]), pts[|pts| - 1])
  {
  }

  lemma {:induction false} CrossStep(s: Sums, q: Pt, p: Pt)
    ensures CrossOf(Plus(s, q), p) == CrossOf(s, p) + Product(p, q)
  {
    assert (p.x - q.x) * (p.y - q.y) == p.x * p.y - p.x * q.y - p.y * q.x + q.x * q.y;
    assert p.x * (s.y + q.y) == p.x * s.y + p.x * q.y;
    assert p.y * (s.x + q.x) == p.y * s.x + p.y * q.x;
    assert (s.n + 1.0) * (p.x * p.y) == s.n * (p.x * p.y) + p.x * p.y;
  }

  lemma {:induction false} CrossExpands(pts: seq<Pt>, p: Pt)
    ensures Cross(pts, p) == CrossOf(SumsOf(pts), p)
  {
    if pts != [] {
      var init, q := pts[..|pts| - 1], pts[|pts| - 1];
      CrossExpands(init, p);
      SumsNext(pts);
      CrossStep(SumsOf(init), q, p);
    }
  }

  lemma {:induction false} NumeratorStep(s: Sums, p: Pt)
    ensures Num(Plus(s, p)) == Num(s) + CrossOf(s, p)
  {
    assert (s.n + 1.0) * (s.xy + p.x * p.y) == s.n * s.xy + s.n * (p.x * p.y) + s.xy + p.x * p.y;
    assert (s.x + p.x) * (s.y + p.y) == s.x * s.y + s.x * p.y + p.x * s.y + p.x * p.y;
    assert s.x * p.y == p.y * s.x;
  }

  lemma {:induction false} NumeratorGrows(pts: seq<Pt>)
    requires pts != []
    ensures Numerator(pts) == Numerator(pts[..|pts| - 1]) + Cross(pts[..|pts| - 1], pts[|pts| - 1])
  {
    var init, q := pts[..|pts| - 1], pts[|pts| - 1];
    CrossExpands(init, q);
    NumeratorStep(SumsOf(init), q);
    SumsNext(pts);
  }

  /** The slope's numerator is a sum over pairs of products of time and value differences. */
  lemma {:induction false} NumeratorIsPairSum(pts: seq<Pt>)
    ensures Numerator(pts) == PairSum(pts)
  {
    if pts != [] {
      NumeratorIsPairSum(pts[..|pts| - 1]);
      NumeratorGrows(pts);
    }
  }

  lemma {:induction false} DiagonalSums(pts: seq<Pt>)
    ensures SumX(Diagonal(pts)) == SumY(Diagonal(pts)) == SumX(pts)
    ensures SumXY(Diagonal(pts)) == SumX2(pts)
  {
    if pts != [] {
      DiagonalSums(pts[..|pts| - 1]);
      assert Diagonal(pts)[..|pts| - 1] == Diagonal(pts[..|pts| - 1]);
    }
  }

  /** The slope's denominator is the sum over pairs of squared time differences. */
  lemma {:induction false} DenominatorIsPairSum(pts: seq<Pt>)
    ensures Denominator(pts) == PairSum(Diagonal(pts))
  {
    DiagonalSums(pts);
    NumeratorIsPairSum(Diagonal(pts));
  }

  // ------------------------------------------------------------------ invariance

  /** The two point lists differ by one displacement. */
  ghost predicate Displaced(a: seq<Pt>, b: seq<Pt>, dx: real, dy: real) {
    |a| == |b| && forall i :: 0 <= i < |a| ==> a[i].x == b[i].x + dx && a[i].y == b[i].y + dy
  }

  lemma {:induction false} CrossIgnoresDisplacement(a: seq<Pt>, b: seq<Pt>, p: Pt, q: Pt, dx: real, dy: real)
    requires Displaced(a, b, dx, dy) && p.x == q.x + dx && p.y == q.y + dy
    ensures Cross(a, p) == Cross(b, q)
  {
    if a != [] {
      CrossIgnoresDisplacement(a[..|a| - 1], b[..|b| - 1], p, q, dx, dy);
    }
  }

  lemma {:induction false} PairSumIgnoresDisplacement(a: seq<Pt>, b: seq<Pt>, dx: real, dy: real)
    requires Displaced(a, b, dx, dy)
    ensures PairSum(a) == PairSum(b)
  {
    if a != [] {
      PairSumIgnoresDisplacement(a[..|a| - 1], b[..|b| - 1], dx, dy);
      CrossIgnoresDisplacement(a[..|a| - 1], b[..|b| - 1], a[|a| - 1], b[|b| - 1], dx, dy);
    }
  }

  /** Neither the origin of time nor a constant added to the values changes the slope. */
  lemma {:induction false} SlopeIgnoresDisplacement(a: seq<Pt>, b: seq<Pt>, dx: real, dy: real)
    requires Displaced(a, b, dx, dy)
    ensures Slope(a) == Slope(b) && Numerator(a) == Numerator(b) && Denominator(a) == Denominator(b)
  {
    NumeratorIsPairSum(a);
    NumeratorIsPairSum(b);
    DenominatorIsPairSum(a);
    DenominatorIsPairSum(b);
    PairSumIgnoresDisplacement(a, b, dx, dy);
    PairSumIgnoresDisplacement(Diagonal(a), Diagonal(b), dx, dx);
  }

  lemma {:induction false} SlopeIgnoresBase(points: seq<MetricPoint>, base: int, other: int)
    ensures Slope(At(points, base)) == Slope(At(points, other))
  {
    var dx := (other - base) as real / 1000.0;
    forall i | 0 <= i < |points|
      ensures At(points, base)[i].x == At(points, other)[i].x + dx
    {
      var t := points[i].timestamp;
      assert (t - base) as real == (t - other) as real + (other - base) as real;
    }
    SlopeIgnoresDisplacement(At(points, base), At(points, other), dx, 0.0);
  }

  // ------------------------------------------------------------------------ signs

  /** Later points never lie lower (points at the same time are free). */
  ghost predicate NeverFalls(pts: seq<Pt>) {
    forall i, j :: 0 <= i < |pts| && 0 <= j < |pts| && pts[i].x < pts[j].x ==> pts[i].y <= pts[j].y
  }

  ghost predicate NeverRises(pts: seq<Pt>) {
    forall i, j :: 0 <= i < |pts| && 0 <= j < |pts| && pts[i].x < pts[j].x ==> pts[i].y >= pts[j].y
  }

  lemma {:induction false} ProductSign(p: Pt, q: Pt)
    ensures (p.x < q.x ==> p.y <= q.y) && (q.x < p.x ==> q.y <= p.y) ==> Product(p, q) >= 0.0
    ensures (p.x < q.x ==> p.y >= q.y) && (q.x < p.x ==> q.y >= p.y) ==> Product(p, q) <= 0.0
  {
    var a, b := p.x - q.x, p.y - q.y;
    if a > 0.0 && b >= 0.0 { assert a * b >= 0.0; }
    if a > 0.0 && b <= 0.0 { assert a * b <= 0.0; }
    if a < 0.0 && b >= 0.0 { assert a * b <= 0.0; }
    if a < 0.0 && b <= 0.0 { assert a * b >= 0.0; }
  }

  lemma {:induction false} CrossAtLeast(pts: seq<Pt>, p: Pt, k: nat)
    requires forall i :: 0 <= i < |pts| ==> Product(p, pts[i]) >= 0.0
    ensures Cross(pts, p) >= 0.0
    ensures k < |pts| ==> Cross(pts, p) >= Product(p, pts[k])
  {
    if pts != [] {
      CrossAtLeast(pts[..|pts| - 1], p, k);
      assert Product(p, pts[|pts| - 1]) >= 0.0;
    }
  }

  lemma {:induction false} PairSumNonNegative(pts: seq<Pt>)
    requires NeverFalls(pts)
    ensures PairSum(pts) >= 0.0
  {
    if pts != [] {
      var init, q := pts[..|pts| - 1], pts[|pts| - 1];
      PairSumNonNegative(init);
      forall i | 0 <= i < |init| ensures Product(q, init[i]) >= 0.0 { ProductSign(q, pts[i]); }
      CrossAtLeast(init, q, 0);
    }
  }

  lemma {:induction false} CrossNonPositive(pts: seq<Pt>, p: Pt)
    requires forall i :: 0 <= i < |pts| ==> Product(p, pts[i]) <= 0.0
    ensures Cross(pts, p) <= 0.0
  {
    if pts != [] {
      CrossNonPositive(pts[..|pts| - 1], p);
      assert Product(p, pts[|pts| - 1]) <= 0.0;
    }
  }

  lemma {:induction false} PairSumNonPositive(pts: seq<Pt>)
    requires NeverRises(pts)
    ensures PairSum(pts) <= 0.0
  {
    if pts != [] {
      var init, q := pts[..|pts| - 1], pts[|pts| - 1];
      PairSumNonPositive(init);
      forall i | 0 <= i < |init| ensures Product(q, init[i]) <= 0.0 { ProductSign(q, pts[i]); }
      CrossNonPositive(init, q);
    }
  }

  lemma {:induction false} DenominatorNonNegative(pts: seq<Pt>)
    ensures Denominator(pts) >= 0.0
  {
    DenominatorIsPairSum(pts);
    PairSumNonNegative(Diagonal(pts));
  }

  lemma {:induction false} QuotientSign(a: real, d: real)
    requires d > 0.0
    ensures a >= 0.0 ==> a / d >= 0.0
    ensures a <= 0.0 ==> a / d <= 0.0
  {
    var q := a / d;
    assert q * d == a;
    if q < 0.0 { assert q * d < 0.0; }
    if q > 0.0 { assert q * d > 0.0; }
  }

  /** A metric that never falls over time has no negative slope; one that never rises has no positive slope. */
  lemma {:induction false} SlopeSign(pts: seq<Pt>)
    ensures NeverFalls(pts) ==> Slope(pts) >= 0.0
    ensures NeverRises(pts) ==> Slope(pts) <= 0.0
  {
    NumeratorIsPairSum(pts);
    DenominatorNonNegative(pts);
    if Slope(pts) != 0.0 {
      QuotientSign(Numerator(pts), Denominator(pts));
    }
    if NeverFalls(pts) { PairSumNonNegative(pts); }
    if NeverRises(pts) { PairSumNonPositive(pts); }
  }

  // ------------------------------------------------------------------------ guard

  ghost predicate SameTime(points: seq<MetricPoint>) {
    forall i, j :: 0 <= i < |points| && 0 <= j < |points| ==> points[i].timestamp == points[j].timestamp
  }

  lemma {:induction false} CrossOfDiagonal(points: seq<MetricPoint>, base: int, t: int, k: nat)
    requires k < |points| && points[k].timestamp != t
    ensures var x := (t - base) as real / 1000.0;
      Cross(Diagonal(At(points, base)), Pt(x, x)) >= 0.000001
  {
    var x := (t - base) as real / 1000.0;
    var ds := Diagonal(At(points, base));
    forall i | 0 <= i < |ds| ensures Product(Pt(x, x), ds[i]) >= 0.0 { ProductSign(Pt(x, x), ds[i]); }
    CrossAtLeast(ds, Pt(x, x), k);
    MillisecondApart(t, points[k].timestamp, base);
  }

  lemma {:induction false} MillisecondApart(t: int, u: int, base: int)
    requires t != u
    ensures var x, y := (t - base) as real / 1000.0, (u - base) as real / 1000.0;
      Product(Pt(x, x), Pt(y, y)) >= 0.000001
  {
    var d := (t - u) as real;
    assert (t - base) as real / 1000.0 - (u - base) as real / 1000.0 == d / 1000.0;
    SquareAtLeastOne(d);
    assert (d / 1000.0) * (d / 1000.0) == d * d / 1000000.0;
  }

  lemma {:induction false} SquareAtLeastOne(d: real)
    requires d >= 1.0 || d <= -1.0
    ensures d * d >= 1.0
  {
  }

  lemma {:induction false} SpreadDenominator(points: seq<MetricPoint>, base: int)
    requires !SameTime(points)
    ensures PairSum(Diagonal(At(points, base))) >= 0.000001
  {
    var k := |points| - 1;
    var init, ds := points[..k], Diagonal(At(points, base));
    assert Diagonal(At(init, base)) == ds[..k];
    if SameTime(init) {
      LastDiffers(points, base);
    } else {
      SpreadDenominator(init, base);
      DiagonalCrossNonNegative(ds[..k], ds[k]);
    }
  }

  lemma {:induction false} DiagonalPairSumNonNegative(ds: seq<Pt>)
    requires forall i :: 0 <= i < |ds| ==> ds[i].x == ds[i].y
    ensures PairSum(ds) >= 0.0
  {
    PairSumNonNegative(ds);
  }

  lemma {:induction false} PairSumNext(pts: seq<Pt>)
    requires pts != []
    ensures PairSum(pts) == PairSum(pts[..|pts| - 1]) + Cross(pts[..|pts| - 1], pts[|pts| - 1])
  {
  }

  lemma {:induction false} LastDiffers(points: seq<MetricPoint>, base: int)
    requires !SameTime(points) && SameTime(points[..|points| - 1])
    ensures PairSum(Diagonal(At(points, base))) >= 0.000001
  {
    var k := |points| - 1;
    var init, ds := points[..k], Diagonal(At(points, base));
    assert Diagonal(At(init, base)) == ds[..k];
    var i: nat :| i < k && points[i].timestamp != points[k].timestamp;
    CrossOfDiagonal(init, base, points[k].timestamp, i);
    assert Cross(ds[..k], ds[k]) >= 0.000001;
    DiagonalPairSumNonNegative(ds[..k]);
    PairSumNext(ds);
  }

  lemma {:induction false} DiagonalCrossNonNegative(ds: seq<Pt>, p: Pt)
    requires p.x == p.y && forall i :: 0 <= i < |ds| ==> ds[i].x == ds[i].y
    ensures Cross(ds, p) >= 0.0
  {
    forall i | 0 <= i < |ds| ensures Product(p, ds[i]) >= 0.0 { ProductSign(p, ds[i]); }
    CrossAtLeast(ds, p, 0);
  }

  lemma {:induction false} EqualTimesPairSum(ds: seq<Pt>, x: real)
    requires forall i :: 0 <= i < |ds| ==> ds[i].x == x
    ensures PairSum(ds) == 0.0
    ensures forall y :: Cross(ds, Pt(x, y)) == 0.0
  {
    if ds != [] {
      var init, q := ds[..|ds| - 1], ds[|ds| - 1];
      EqualTimesPairSum(init, x);
      assert Cross(init, Pt(x, q.y)) == 0.0;
    }
  }

  /** With millisecond timestamps the guard fires exactly when all timestamps coincide. */
  lemma {:induction false} GuardFiresIffTimesCoincide(points: seq<MetricPoint>, base: int)
    ensures Abs(Denominator(At(points, base))) < GUARD <==> SameTime(points)
    ensures !SameTime(points) ==> Denominator(At(points, base)) > 0.0
  {
    var pts := At(points, base);
    DenominatorIsPairSum(pts);
    if SameTime(points) {
      if points != [] { EqualTimesPairSum(Diagonal(pts), pts[0].x); }
    } else {
      SpreadDenominator(points, base);
    }
  }

  // ----------------------------------------------------------------- exact lines

  ghost predicate OnLine(pts: seq<Pt>, a: real, b: real) {
    forall i :: 0 <= i < |pts| ==> LinePoint(pts[i], a, b)
  }

  ghost predicate LinePoint(p: Pt, a: real, b: real) { p.y == a * p.x + b }

  function Total(us: seq<real>): real { if us == [] then 0.0 else Total(us[..|us| - 1]) + us[|us| - 1] }

  lemma {:induction false} Combine(a: real, u: real, v: real, x: real, y: real)
    requires u == a * v && x == a * y
    ensures u + x == a * (v + y)
  {
  }

  ghost predicate Multiple(u: real, v: real, a: real) { u == a * v }

  ghost predicate Scaled(us: seq<real>, vs: seq<real>, a: real) {
    |us| == |vs| && forall i :: 0 <= i < |us| ==> Multiple(us[i], vs[i], a)
  }

  lemma {:induction false} ScaledTotal(us: seq<real>, vs: seq<real>, a: real)
    requires Scaled(us, vs, a)
    ensures Multiple(Total(us), Total(vs), a)
  {
    if us != [] {
      var k := |us| - 1;
      ScaledTotal(us[..k], vs[..k], a);
      Combine(a, Total(us[..k]), Total(vs[..k]), us[k], vs[k]);
    }
  }

  /** The products that Cross and PairSum add up, in their order. */
  function Products(pts: seq<Pt>, p: Pt): (us: seq<real>)
    ensures |us| == |pts| && forall i :: 0 <= i < |pts| ==> us[i] == Product(p, pts[i])
  {
    seq(|pts|, i requires 0 <= i < |pts| => Product(p, pts[i]))
  }

  function Crosses(pts: seq<Pt>): (us: seq<real>)
    ensures |us| == |pts| && forall i :: 0 <= i < |pts| ==> us[i] == Cross(pts[..i], pts[i])
  {
    seq(|pts|, i requires 0 <= i < |pts| => Cross(pts[..i], pts[i]))
  }

  lemma {:induction false} CrossIsTotal(pts: seq<Pt>, p: Pt)
    ensures Cross(pts, p) == Total(Products(pts, p))
  {
    if pts != [] {
      var k := |pts| - 1;
      CrossIsTotal(pts[..k], p);
      assert Products(pts, p)[..k] == Products(pts[..k], p);
      assert Products(pts, p)[k] == Product(p, pts[k]);
    }
  }

  lemma {:induction false} PairSumIsTotal(pts: seq<Pt>)
    ensures PairSum(pts) == Total(Crosses(pts))
  {
    if pts != [] {
      var k := |pts| - 1;
      PairSumIsTotal(pts[..k]);
      assert Crosses(pts)[..k] == Crosses(pts[..k]) by {
        forall i | 0 <= i < k ensures Crosses(pts)[i] == Crosses(pts[..k])[i] { assert pts[..k][..i] == pts[..i]; }
      }
    }
  }

  lemma {:induction false} LineTerm(p: Pt, q: Pt, a: real, b: real)
    requires LinePoint(p, a, b) && LinePoint(q, a, b)
    ensures Multiple(Product(p, q), Product(Pt(p.x, p.x), Pt(q.x, q.x)), a)
  {
    var dx := p.x - q.x;
    assert p.y - q.y == a * dx;
    assert dx * (a * dx) == a * (dx * dx);
  }

  lemma {:induction false} CrossOnLine(pts: seq<Pt>, p: Pt, a: real, b: real)
    requires OnLine(pts, a, b) && LinePoint(p, a, b)
    ensures Multiple(Cross(pts, p), Cross(Diagonal(pts), Pt(p.x, p.x)), a)
  {
    var us, vs := Products(pts, p), Products(Diagonal(pts), Pt(p.x, p.x));
    forall i | 0 <= i < |pts| ensures Multiple(us[i], vs[i], a) { LineTerm(p, pts[i], a, b); }
    ScaledTotal(us, vs, a);
    CrossIsTotal(pts, p);
    CrossIsTotal(Diagonal(pts), Pt(p.x, p.x));
  }

  lemma {:induction false} CrossesOnLine(pts: seq<Pt>, a: real, b: real)
    requires OnLine(pts, a, b)
    ensures Scaled(Crosses(pts), Crosses(Diagonal(pts)), a)
  {
    forall i | 0 <= i < |pts| ensures Multiple(Crosses(pts)[i], Crosses(Diagonal(pts))[i], a) {
      CrossOnLine(pts[..i], pts[i], a, b);
      assert Diagonal(pts)[..i] == Diagonal(pts[..i]);
    }
  }

  lemma {:induction false} PairSumOnLine(pts: seq<Pt>, a: real, b: real)
    requires OnLine(pts, a, b)
    ensures Multiple(PairSum(pts), PairSum(Diagonal(pts)), a)
  {
    CrossesOnLine(pts, a, b);
    ScaledTotal(Crosses(pts), Crosses(Diagonal(pts)), a);
    PairSumIsTotal(pts);
    PairSumIsTotal(Diagonal(pts));
  }

  lemma {:induction false} NumeratorOnLine(pts: seq<Pt>, a: real, b: real)
    requires OnLine(pts, a, b)
    ensures Multiple(Numerator(pts), Denominator(pts), a)
  {
    PairSumOnLine(pts, a, b);
    NumeratorIsPairSum(pts);
    DenominatorIsPairSum(pts);
  }

  /** Data on a line return the slope of the line, unless the guard fires. */
  lemma {:induction false} SlopeOfLine(pts: seq<Pt>, a: real, b: real)
    requires OnLine(pts, a, b) && |pts| >= 2
    ensures Slope(pts) == if Abs(Denominator(pts)) < GUARD then 0.0 else a
  {
    NumeratorOnLine(pts, a, b);
    if Abs(Denominator(pts)) >= GUARD { Quotient(Numerator(pts), Denominator(pts), a); }
  }

  lemma {:induction false} Quotient(x: real, d: real, a: real)
    requires d != 0.0 && Multiple(x, d, a)
    ensures x / d == a
  {
  }

  // ------------------------------------------------------------------ optimality

  /** The squared error of the line y = a * x + b. */
  function SquaredError(pts: seq<Pt>, a: real, b: real): real {
    if pts == [] then 0.0 else
      SquaredError(pts[..|pts| - 1], a, b) + Residual2(pts[|pts| - 1], a, b)
  }

  /** The intercept that goes with a slope: the line passes through the centre of gravity. */
  function InterceptOf(s: Sums, slope: real): real
    requires s.n > 0.0
  {
    (s.y - slope * s.x) / s.n
  }

  function Intercept(pts: seq<Pt>, slope: real): real
    requires pts != []
  {
    InterceptOf(SumsOf(pts), slope)
  }

  /** The squared error as a polynomial in the sums. */
  function ErrorForm(n: real, sx: real, sy: real, sxy: real, sx2: real, sy2: real, a: real, b: real): real {
    sy2 - 2.0 * (a * sxy) - 2.0 * (b * sy) + (a * a) * sx2 + 2.0 * ((a * b) * sx) + n * (b * b)
  }

  lemma {:induction false} ErrorStep(x: real, y: real, a: real, b: real)
    ensures (y - (a * x + b)) * (y - (a * x + b))
         == y * y - 2.0 * (a * (x * y)) - 2.0 * (b * y) + (a * a) * (x * x) + 2.0 * ((a * b) * x) + b * b
  {
    var l := a * x + b;
    assert (y - l) * (y - l) == y * y - 2.0 * (y * l) + l * l;
    assert y * l == a * (x * y) + b * y;
    assert l * l == (a * x) * (a * x) + 2.0 * ((a * x) * b) + b * b;
    assert (a * x) * (a * x) == (a * a) * (x * x);
    assert (a * x) * b == (a * b) * x;
  }

  lemma {:induction false} ErrorIsForm(pts: seq<Pt>, a: real, b: real)
    ensures SquaredError(pts, a, b) == FormOf(SumsOf(pts), a, b)
  {
    if pts != [] {
      ErrorIsForm(pts[..|pts| - 1], a, b);
      FormOfNext(pts, a, b);
    }
  }

  function FormOf(s: Sums, a: real, b: real): real { ErrorForm(s.n, s.x, s.y, s.xy, s.x2, s.y2, a, b) }

  function Residual2(p: Pt, a: real, b: real): real { (p.y - (a * p.x + b)) * (p.y - (a * p.x + b)) }

  lemma {:induction false} FormOfNext(pts: seq<Pt>, a: real, b: real)
    requires pts != []
    ensures FormOf(SumsOf(pts), a, b) == FormOf(SumsOf(pts[..|pts| - 1]), a, b) + Residual2(pts[|pts| - 1], a, b)
  {
    var init, p := pts[..|pts| - 1], pts[|pts| - 1];
    FormNext(|init| as real, SumX(init), SumY(init), SumXY(init), SumX2(init), SumY2(init), p.x, p.y, a, b,
             |pts| as real, SumX(pts), SumY(pts), SumXY(pts), SumX2(pts), SumY2(pts));
  }

  lemma {:induction false} FormNext(n: real, sx: real, sy: real, sxy: real, sx2: real, sy2: real, x: real, y: real,
                                    a: real, b: real,
                 n1: real, sx1: real, sy1: real, sxy1: real, sx21: real, sy21: real)
    requires n1 == n + 1.0 && sx1 == sx + x && sy1 == sy + y
    requires sxy1 == sxy + x * y && sx21 == sx2 + x * x && sy21 == sy2 + y * y
    ensures ErrorForm(n1, sx1, sy1, sxy1, sx21, sy21, a, b)
         == ErrorForm(n, sx, sy, sxy, sx2, sy2, a, b) + (y - (a * x + b)) * (y - (a * x + b))
  {
    ErrorStep(x, y, a, b);
    FormStep(n, sx, sy, sxy, sx2, sy2, x, y, a, b, n1, sx1, sy1, sxy1, sx21, sy21);
  }

  lemma {:induction false} Distribute(a: real, x: real, y: real)
    ensures a * (x + y) == a * x + a * y
  {
  }

  lemma {:induction false} FormStep(n: real, sx: real, sy: real, sxy: real, sx2: real, sy2: real, x: real, y: real,
                                    a: real, b: real,
                 n1: real, sx1: real, sy1: real, sxy1: real, sx21: real, sy21: real)
    requires n1 == n + 1.0 && sx1 == sx + x && sy1 == sy + y
    requires sxy1 == sxy + x * y && sx21 == sx2 + x * x && sy21 == sy2 + y * y
    ensures ErrorForm(n1, sx1, sy1, sxy1, sx21, sy21, a, b)
         == ErrorForm(n, sx, sy, sxy, sx2, sy2, a, b)
          + (y * y - 2.0 * (a * (x * y)) - 2.0 * (b * y) + (a * a) * (x * x) + 2.0 * ((a * b) * x) + b * b)
  {
    Distribute(a, sxy, x * y);
    Distribute(b, sy, y);
    Distribute(a * a, sx2, x * x);
    Distribute(a * b, sx, x);
    assert n1 * (b * b) == n * (b * b) + b * b;
  }

  /** The slope and its intercept satisfy the normal equations. */
  lemma {:induction false} NormalEquations(n: real, sx: real, sy: real, sxy: real, sx2: real, m: real, c: real)
    requires n > 0.0
    requires m * (n * sx2 - sx * sx) == n * sxy - sx * sy
    requires n * c == sy - m * sx
    ensures m * sx2 + c * sx == sxy
    ensures m * sx + n * c == sy
  {
    var r := m * sx2 + c * sx;
    assert n * r == m * (n * sx2) + (n * c) * sx;
    assert (n * c) * sx == sy * sx - (m * sx) * sx;
    assert m * (n * sx2 - sx * sx) == m * (n * sx2) - (m * sx) * sx;
    assert n * r == n * sxy;
  }

  /** Away from a solution of the normal equations the error grows by a sum of squares. */
  lemma {:induction false} FormAround(n: real, sx: real, sy: real, sxy: real, sx2: real, sy2: real, m: real, c: real,
                                      u: real, v: real)
    requires m * sx2 + c * sx == sxy && m * sx + n * c == sy
    ensures ErrorForm(n, sx, sy, sxy, sx2, sy2, m + u, c + v)
         == ErrorForm(n, sx, sy, sxy, sx2, sy2, m, c) + ((u * u) * sx2 + 2.0 * ((u * v) * sx) + n * (v * v))
  {
    assert (m + u) * sxy == m * sxy + u * sxy;
    assert (c + v) * sy == c * sy + v * sy;
    assert (m + u) * (m + u) == m * m + 2.0 * (m * u) + u * u;
    assert ((m + u) * (m + u)) * sx2 == (m * m) * sx2 + 2.0 * ((m * u) * sx2) + (u * u) * sx2;
    assert (m + u) * (c + v) == m * c + m * v + u * c + u * v;
    assert ((m + u) * (c + v)) * sx == (m * c) * sx + (m * v) * sx + (u * c) * sx + (u * v) * sx;
    assert (c + v) * (c + v) == c * c + 2.0 * (c * v) + v * v;
    assert n * ((c + v) * (c + v)) == n * (c * c) + 2.0 * (n * (c * v)) + n * (v * v);
    assert u * sxy == (m * u) * sx2 + (u * c) * sx;
    assert v * sy == (m * v) * sx + n * (c * v);
  }

  lemma {:induction false} SumOfSquares(n: real, sx: real, sx2: real, u: real, v: real)
    requires n > 0.0 && n * sx2 - sx * sx >= 0.0
    ensures (u * u) * sx2 + 2.0 * ((u * v) * sx) + n * (v * v) >= 0.0
  {
    var e := (u * u) * sx2 + 2.0 * ((u * v) * sx) + n * (v * v);
    var w, d := n * v + u * sx, n * sx2 - sx * sx;
    assert w * w == (n * v) * (n * v) + 2.0 * ((n * v) * (u * sx)) + (u * sx) * (u * sx);
    assert (n * v) * (n * v) == n * (n * (v * v));
    assert (n * v) * (u * sx) == n * ((u * v) * sx);
    assert (u * sx) * (u * sx) == (u * u) * (sx * sx);
    assert (u * u) * d == n * ((u * u) * sx2) - (u * u) * (sx * sx);
    assert n * e == w * w + (u * u) * d;
    assert (u * u) * d >= 0.0;
    NonNegativeFactor(n, e);
  }

  lemma {:induction false} NonNegativeFactor(n: real, e: real)
    requires n > 0.0 && n * e >= 0.0
    ensures e >= 0.0
  {
  }

  lemma {:induction false} BestFit(n: real, sx: real, sy: real, sxy: real, sx2: real, sy2: real,
                d: real, e: real, f: real, m: real, c: real, a: real, b: real)
    requires n > 0.0 && d == n * sx2 - sx * sx && d >= 0.0 && e == n * sxy - sx * sy && f == sy - m * sx
    requires m * d == e && n * c == f
    ensures ErrorForm(n, sx, sy, sxy, sx2, sy2, m, c) <= ErrorForm(n, sx, sy, sxy, sx2, sy2, a, b)
  {
    NormalEquations(n, sx, sy, sxy, sx2, m, c);
    FormAround(n, sx, sy, sxy, sx2, sy2, m, c, a - m, b - c);
    SumOfSquares(n, sx, sx2, a - m, b - c);
    assert m + (a - m) == a && c + (b - c) == b;
  }

  lemma {:induction false} QuotientTimes(x: real, d: real)
    requires d != 0.0
    ensures d * (x / d) == x && (x / d) * d == x
  {
  }

  /** Away from the guard, no line has a smaller error form than the slope with its intercept. */
  lemma {:induction false} BestOf(s: Sums, a: real, b: real)
    requires s.n > 0.0 && Den(s) >= GUARD
    ensures FormOf(s, SlopeOf(s), InterceptOf(s, SlopeOf(s))) <= FormOf(s, a, b)
  {
    var m := SlopeOf(s);
    QuotientTimes(Num(s), Den(s));
    QuotientTimes(s.y - m * s.x, s.n);
    BestFit(s.n, s.x, s.y, s.xy, s.x2, s.y2, Den(s), Num(s), s.y - m * s.x, m, InterceptOf(s, m), a, b);
  }

  /** Unless all timestamps coincide, no line has a smaller squared error than the slope with its intercept. */
  lemma {:induction false} LeastSquares(points: seq<MetricPoint>, base: int, a: real, b: real)
    requires !SameTime(points)
    ensures var pts := At(points, base);
      pts != [] && SquaredError(pts, Slope(pts), Intercept(pts, Slope(pts))) <= SquaredError(pts, a, b)
  {
    var pts := At(points, base);
    GuardFiresIffTimesCoincide(points, base);
    BestOf(SumsOf(pts), a, b);
    ErrorIsForm(pts, a, b);
    ErrorIsForm(pts, Slope(pts), Intercept(pts, Slope(pts)));
  }
}
