/** Diode and Zener metrics: least-squares slopes over a part of the measured curve. */
module ComponentMetrics {
  import opened Prelude
  import opened LeastSquares
  import opened CurveMetrics

  // --- parts of a curve ---

  function Part(points: seq<Point>, keep: Point -> bool): seq<Point> {
    if points == [] then []
    else
      var before, p := Part(points[..|points| - 1], keep), points[|points| - 1];
      if keep(p) then before + [p] else before
  }

  method Collect(points: seq<Point>, keep: Point -> bool) returns (part: seq<Point>)
    ensures part == Part(points, keep)
  {
    part := [];
    for i := 0 to |points|
      invariant part == Part(points[..i], keep)
    {
      assert points[..i + 1][..i] == points[..i];
      if keep(points[i]) { part := part + [points[i]]; }
    }
    assert points[..|points|] == points;
  }

  /** The points that conduct but are not clamped by the current limit. */
  function InRegion(iMax: real): Point -> bool {
    (p: Point) => CONDUCTION_FLOOR <= p.i <= iMax
  }

  predicate Rising(points: seq<Point>) {
    forall i, j | 0 <= i < j < |points| :: points[i].i <= points[j].i
  }

  lemma InsertedAt(sorted: seq<Point>, p: Point, k: nat)
    requires Rising(sorted) && k <= |sorted|
    requires (forall j | 0 <= j < k :: sorted[j].i <= p.i) && (k < |sorted| ==> p.i <= sorted[k].i)
    ensures Rising(sorted[..k] + [p] + sorted[k..])
  {
  }

  lemma InsertedContents(sorted: seq<Point>, p: Point, k: nat)
    requires k <= |sorted|
    ensures multiset(sorted[..k] + [p] + sorted[k..]) == multiset(sorted) + multiset{p}
  {
    assert sorted == sorted[..k] + sorted[k..];
  }

  method Insert(sorted: seq<Point>, p: Point) returns (r: seq<Point>)
    requires Rising(sorted)
    ensures Rising(r) && multiset(r) == multiset(sorted) + multiset{p}
  {
    var k := 0;
    while k < |sorted| && sorted[k].i <= p.i
      invariant k <= |sorted| && forall j | 0 <= j < k :: sorted[j].i <= p.i
    {
      k := k + 1;
    }
    r := sorted[..k] + [p] + sorted[k..];
    InsertedAt(sorted, p, k);
    InsertedContents(sorted, p, k);
  }

  method SortByCurrent(points: seq<Point>) returns (r: seq<Point>)
    ensures Rising(r) && multiset(r) == multiset(points)
  {
    r := [];
    for i := 0 to |points|
      invariant Rising(r) && multiset(r) == multiset(points[..i])
    {
      r := Insert(r, points[i]);
      assert points[..i + 1] == points[..i] + [points[i]];
    }
    assert points[..|points|] == points;
  }

  /** The share of n points that counts as the top: rounded up, at least two, at most all. */
  function TopSize(n: nat, frac: real): (k: nat)
    ensures if n < 2 then k == n else 2 <= k <= n
    ensures n >= 2 && k > 2 ==> (k - 1) as real < frac * n as real
    ensures n >= 2 && k < n ==> frac * n as real <= k as real
  {
    if n < 2 then n
    else
      var k := -((-(frac * n as real)).Floor);
      if k < 2 then 2 else if k > n then n else k
  }

  /** Splitting a part of the curve: the top has the right size and no lower current than the rest. */
  ghost predicate Splits(all: seq<Point>, rest: seq<Point>, top: seq<Point>) {
    && multiset(rest) + multiset(top) == multiset(all)
    && (forall p, q | p in rest && q in top :: p.i <= q.i)
  }

  ghost predicate IsTop(all: seq<Point>, top: seq<Point>, frac: real) {
    Rising(top) && |top| == TopSize(|all|, frac) && exists rest :: Splits(all, rest, top)
  }

  /** Cutting a sorted curve anywhere splits it. */
  lemma CutSplits(sorted: seq<Point>, n: nat)
    requires Rising(sorted) && n <= |sorted|
    ensures Splits(sorted, sorted[..n], sorted[n..]) && Rising(sorted[n..])
  {
    var rest, top := sorted[..n], sorted[n..];
    assert sorted == rest + top;
    forall p, q | p in rest && q in top ensures p.i <= q.i {
      var i :| 0 <= i < n && rest[i] == p;
      var j :| 0 <= j < |top| && top[j] == q;
      assert sorted[i] == p && sorted[n + j] == q;
    }
  }

  method TopByCurrent(points: seq<Point>, iMax: real, frac: real) returns (top: seq<Point>)
    ensures IsTop(Part(points, InRegion(iMax)), top, frac)
  {
    var region := Collect(points, InRegion(iMax));
    var sorted := SortByCurrent(region);
    assert |sorted| == |multiset(sorted)| == |multiset(region)| == |region|;
    var k := TopSize(|sorted|, frac);
    top := sorted[|sorted| - k..];
    CutSplits(sorted, |sorted| - k);
    assert Splits(region, sorted[..|sorted| - k], top);
  }

  // --- slopes ---

  /** s is the slope of the least-squares line, if there is one and it rises. */
  ghost predicate IsSlope(xs: seq<real>, ys: seq<real>, s: Option<real>) {
    match s
    case Some(a) => Fittable(xs, ys) && a > 0.0 && exists b, r2 :: BestFit(xs, ys, a, b, r2)
    case None => forall a, b, r2 :: Fittable(xs, ys) && BestFit(xs, ys, a, b, r2) ==> a <= 0.0
  }

  lemma SlopeIsUnique(xs: seq<real>, ys: seq<real>, a: real, b: real, r2: real, s: Option<real>)
    requires Fittable(xs, ys) && BestFit(xs, ys, a, b, r2) && IsSlope(xs, ys, s)
    ensures s == if a > 0.0 then Some(a) else None
  {
    if s.Some? {
      var b', r' :| BestFit(xs, ys, s.value, b', r');
      LeastSquaresLineIsUnique(xs, ys, a, b, s.value, b');
    }
  }

  lemma FallingLineHasNoSlope(xs: seq<real>, ys: seq<real>, slope: real, intercept: real, r2: real)
    requires Fittable(xs, ys) && BestFit(xs, ys, slope, intercept, r2) && slope <= 0.0
    ensures IsSlope(xs, ys, None)
  {
    forall a, b, r | BestFit(xs, ys, a, b, r) ensures a <= 0.0 {
      LeastSquaresLineIsUnique(xs, ys, slope, intercept, a, b);
    }
  }

  method RisingSlope(xs: seq<real>, ys: seq<real>) returns (s: Option<real>)
    ensures IsSlope(xs, ys, s)
  {
    var slope, intercept, r2, ok := LinearFit(xs, ys);
    if !ok { return None; }
    if slope <= 0.0 {
      FallingLineHasNoSlope(xs, ys, slope, intercept, r2);
      return None;
    }
    s := Some(slope);
  }

  /** Apparent series resistance: dV/dI over the top of the curve, from at least two points. */
  method SeriesResistance(points: seq<Point>, iMax: real, frac: real) returns (r: Option<real>, top: seq<Point>)
    ensures IsTop(Part(points, InRegion(iMax)), top, frac)
    ensures if |top| < 2 then r == None else IsSlope(Amps(top), Volts(top), r)
  {
    top := TopByCurrent(points, iMax, frac);
    r := None;
    if |top| >= 2 { r := RisingSlope(Amps(top), Volts(top)); }
  }

  // --- ideality ---

  const IDEALITY_MIN_POINTS := 8

  /** The logarithms of the currents, taken as given. */
  function Logs(points: seq<Point>, ln: real -> real): (ys: seq<real>)
    ensures |ys| == |points|
  {
    seq(|points|, k requires 0 <= k < |points| => ln(points[k].i))
  }

  /** 1 / (x * vt): the slope of ln I over V for an ideality factor, and the factor for a slope. */
  function Inverse(x: real, vt: real): real {
    if x * vt == 0.0 then 0.0 else 1.0 / (x * vt)
  }

  predicate IsReciprocal(n: real, slope: real, vt: real) {
    n * (slope * vt) == 1.0
  }

  /** The ideality factor comes from the slope of ln I over V in the exponential region. */
  ghost predicate IsIdeality(region: seq<Point>, ln: real -> real, vt: real, n: Option<real>) {
    if |region| < IDEALITY_MIN_POINTS then n == None
    else exists s :: IsSlope(Volts(region), Logs(region, ln), s)
                     && (n.Some? <==> s.Some?) && (n.Some? ==> IsReciprocal(n.value, s.value, vt))
  }

  method Ideality(points: seq<Point>, iMax: real, ln: real -> real, vt: real) returns (n: Option<real>)
    requires vt > 0.0
    ensures IsIdeality(Part(points, InRegion(iMax)), ln, vt, n)
  {
    var region := Collect(points, InRegion(iMax));
    n := None;
    if |region| >= IDEALITY_MIN_POINTS {
      var s := RisingSlope(Volts(region), Logs(region, ln));
      if s.Some? {
        InverseIsReciprocal(s.value, vt);
        n := Some(Inverse(s.value, vt));
      }
    }
  }

  lemma InverseIsReciprocal(x: real, vt: real)
    requires x > 0.0 && vt > 0.0
    ensures IsReciprocal(Inverse(x, vt), x, vt)
  {
    var p := ProductSign(x, vt);
    assert 1.0 / p * p == 1.0;
  }

  lemma SameFactor(a: real, b: real, slope: real, vt: real)
    requires IsReciprocal(a, slope, vt) && IsReciprocal(b, slope, vt)
    ensures a == b
  {
    var p := slope * vt;
    assert a * p == 1.0 && b * p == 1.0;
    assert a * (b * p) == b * (a * p);
  }

  /** A junction measured exactly on its exponential I = I0 * e^(V / (n * vt)), with support enough for a
      fit, is reported with its own ideality factor n: ln I then rises along a line of slope 1 / (n * vt). */
  lemma ExactExponentialIsRecovered(region: seq<Point>, ln: real -> real, vt: real, ideal: real, slope: real, c: real,
                                    n: Option<real>)
    requires |region| >= IDEALITY_MIN_POINTS && IsIdeality(region, ln, vt, n)
    requires Fittable(Volts(region), Logs(region, ln))
    requires vt > 0.0 && ideal > 0.0 && slope > 0.0 && IsReciprocal(ideal, slope, vt)
    requires Collinear(Volts(region), Logs(region, ln), slope, c)
    ensures n == Some(ideal)
  {
    var s :| IsSlope(Volts(region), Logs(region, ln), s) && (n.Some? <==> s.Some?)
             && (n.Some? ==> IsReciprocal(n.value, s.value, vt));
    ExactSlope(Volts(region), Logs(region, ln), slope, c, s);
    SameFactor(n.value, ideal, slope, vt);
  }

  lemma ExactSlope(xs: seq<real>, ys: seq<real>, g: real, c: real, s: Option<real>)
    requires Fittable(xs, ys) && Collinear(xs, ys, g, c) && g > 0.0 && IsSlope(xs, ys, s)
    ensures s == Some(g)
  {
    CollinearIsNormal(xs, ys, g, c);
    var r2 := 1.0 - SquaredError(xs, ys, g, c) / Spread(ys);
    NormalIsBestFit(xs, ys, g, c, r2);
    SlopeIsUnique(xs, ys, g, c, r2, s);
  }

  // --- Zener breakdown ---

  const DEFAULT_IZT := 0.005

  datatype ZenerMetrics = ZenerMetrics(vz: Option<real>, zzt: Option<real>)

  function TestCurrent(override_: Option<real>): (izt: real)
    ensures izt > 0.0
  {
    if override_.Some? && override_.value > 0.0 then override_.value else DEFAULT_IZT
  }

  function Breakdown(izt: real): Point -> bool {
    (p: Point) => p.i >= izt * 0.5
  }

  lemma BelowPeakIsUncrossed(points: seq<Point>, peak: real, izt: real)
    requires IsPeak(Amps(points), peak) && peak < izt
    ensures forall k :: !Straddles(points, k, izt)
  {
    forall k | 0 <= k < |points| ensures points[k].i < izt { assert Amps(points)[k] <= peak; }
  }

  /** The breakdown voltage is reported exactly when the curve crosses the test current, and lies on
      the first crossing segment; the impedance only with it, as the slope over the breakdown region. */
  method AnalyzeZener(points: seq<Point>, override_: Option<real>) returns (m: ZenerMetrics)
    ensures var izt := TestCurrent(override_);
            && (m.vz.Some? <==> exists k :: Straddles(points, k, izt))
            && (m.vz.Some? ==> exists k :: Straddles(points, k, izt) && OnSegment(points, k, izt, m.vz.value)
                                           && forall j | Straddles(points, j, izt) :: k <= j)
            && (m.vz.None? ==> m.zzt.None?)
    ensures var region := Part(points, Breakdown(TestCurrent(override_)));
            m.vz.Some? ==> if |region| < 2 then m.zzt.None? else IsSlope(Amps(region), Volts(region), m.zzt)
  {
    var izt := TestCurrent(override_);
    m := ZenerMetrics(None, None);
    var peak := MaxCurrent(points);
    if peak < izt {
      BelowPeakIsUncrossed(points, peak, izt);
      return;
    }
    var vz, ok := InterpVAtI(points, izt);
    if !ok { return; }
    var region := Collect(points, Breakdown(izt));
    var zzt := None;
    if |region| >= 2 { zzt := RisingSlope(Amps(region), Volts(region)); }
    m := ZenerMetrics(Some(vz), zzt);
  }

  // --- which points take part ---

  lemma {:induction false} PartMembers(points: seq<Point>, keep: Point -> bool, p: Point)
    ensures p in Part(points, keep) <==> p in points && keep(p)
    ensures multiset(Part(points, keep))[p] == if keep(p) then multiset(points)[p] else 0
  {
    if points != [] {
      var before, last := points[..|points| - 1], points[|points| - 1];
      PartMembers(before, keep, p);
      assert points == before + [last];
    }
  }

  /** The region of a diode: exactly the points from 1 mA up to the current limit, each as often as measured. */
  lemma RegionMembers(points: seq<Point>, iMax: real, p: Point)
    ensures p in Part(points, InRegion(iMax)) <==> p in points && 0.001 <= p.i <= iMax
    ensures multiset(Part(points, InRegion(iMax)))[p] == if 0.001 <= p.i <= iMax then multiset(points)[p] else 0
  {
    PartMembers(points, InRegion(iMax), p);
  }

  /** The breakdown region of a Zener: the points from half the test current on, 5 mA unless one is given. */
  lemma BreakdownMembers(points: seq<Point>, override_: Option<real>, p: Point)
    ensures var izt := TestCurrent(override_);
            && (override_.Some? && override_.value > 0.0 ==> izt == override_.value)
            && (override_.None? || override_.value <= 0.0 ==> izt == 0.005)
            && (p in Part(points, Breakdown(izt)) <==> p in points && 2.0 * p.i >= izt)
  {
    PartMembers(points, Breakdown(TestCurrent(override_)), p);
  }
}
