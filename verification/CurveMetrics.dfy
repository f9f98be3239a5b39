/** Metrics the IV analyser reads off a measured curve: the voltage at a target current, and the
    resistance of an ohmic part. */
module CurveMetrics {
  import opened LeastSquares

  datatype Point = Point(v: real, i: real)

  // --- the voltage at a target current ---

  /** The segment that ends at point k crosses the target current and is not flat in current. */
  predicate Straddles(points: seq<Point>, k: int, target: real) {
    && 1 <= k < |points|
    && points[k - 1].i != points[k].i
    && (points[k - 1].i <= target <= points[k].i || points[k].i <= target <= points[k - 1].i)
  }

  /** v lies on the segment ending at point k, at the target current. */
  ghost predicate OnSegment(points: seq<Point>, k: int, target: real, v: real) {
    && 1 <= k < |points|
    && var p, q := points[k - 1], points[k];
      && (v - p.v) * (q.i - p.i) == (target - p.i) * (q.v - p.v)
      && (p.v <= v <= q.v || q.v <= v <= p.v)
  }

  lemma NonNegative(x: real, y: real)
    requires x >= 0.0 && y >= 0.0
    ensures x * y >= 0.0
  {
    if x > 0.0 && y > 0.0 { var p := ProductSign(x, y); }
  }

  lemma ProductBetween(f: real, d: real) returns (p: real)
    requires 0.0 <= f <= 1.0
    ensures p == f * d && (0.0 <= p <= d || d <= p <= 0.0)
  {
    p := f * d;
    var e := if d >= 0.0 then d else -d;
    NonNegative(f, e);
    NonNegative(1.0 - f, e);
    assert (1.0 - f) * e == e - f * e;
  }

  lemma FractionBetween(x: real, d: real) returns (f: real)
    requires (0.0 <= x <= d && 0.0 < d) || (d <= x <= 0.0 && d < 0.0)
    ensures f == x / d && 0.0 <= f <= 1.0 && f * d == x
  {
    f := x / d;
    if d > 0.0 { Quotient(x, d); } else { Quotient(-x, -d); assert x / d == (-x) / (-d); }
  }

  lemma Chord(f: real, x: real, di: real, dv: real)
    requires f * di == x
    ensures f * dv * di == x * dv
  {
    assert f * dv * di == f * di * dv;
  }

  method InterpVAtI(points: seq<Point>, target: real) returns (v: real, ok: bool)
    ensures ok <==> exists k :: Straddles(points, k, target)
    ensures ok ==> exists k :: Straddles(points, k, target) && OnSegment(points, k, target, v)
                     && forall j | Straddles(points, j, target) :: k <= j
    ensures !ok ==> v == 0.0
  {
    v, ok := 0.0, false;
    var i := 1;
    while i < |points|
      invariant 1 <= i
      invariant forall j | Straddles(points, j, target) :: i <= j
    {
      var p, q := points[i - 1], points[i];
      var lo, hi := if p.i <= q.i then p.i else q.i, if p.i <= q.i then q.i else p.i;
      if hi > lo && target >= lo && target <= hi {
        assert Straddles(points, i, target);
        var frac := (target - p.i) / (q.i - p.i);
        var f := FractionBetween(target - p.i, q.i - p.i);
        var d := ProductBetween(f, q.v - p.v);
        Chord(f, target - p.i, q.i - p.i, q.v - p.v);
        v := p.v + frac * (q.v - p.v);
        assert OnSegment(points, i, target, v);
        return v, true;
      }
      i := i + 1;
    }
  }

  ghost predicate AtOrBelow(points: seq<Point>, target: real) {
    exists a :: 0 <= a < |points| && points[a].i <= target
  }

  ghost predicate AtOrAbove(points: seq<Point>, target: real) {
    exists b :: 0 <= b < |points| && points[b].i >= target
  }

  ghost predicate FlatAt(points: seq<Point>, target: real) {
    forall c | 0 <= c < |points| :: points[c].i == target
  }

  /** The curve crosses the target exactly when some current is at or below it, some at or above it,
      and not all of them sit on it. */
  lemma ReachedIffStraddled(points: seq<Point>, target: real)
    ensures (exists k :: Straddles(points, k, target)) <==>
      AtOrBelow(points, target) && AtOrAbove(points, target) && !FlatAt(points, target)
  {
    if k :| Straddles(points, k, target) {
      assert points[k - 1].i != points[k].i;
    } else if AtOrBelow(points, target) && AtOrAbove(points, target) {
      UnstraddledIsFlat(points, target);
    }
  }

  lemma UnstraddledIsFlat(points: seq<Point>, target: real)
    requires AtOrBelow(points, target) && AtOrAbove(points, target)
    requires forall k :: !Straddles(points, k, target)
    ensures FlatAt(points, target)
  {
    var a :| 0 <= a < |points| && points[a].i <= target;
    var b :| 0 <= b < |points| && points[b].i >= target;
    if points[a].i < target { StaysBelow(points, target, a, b); }
    if points[b].i > target { StaysAbove(points, target, b, a); }
    forall c | 0 <= c < |points| ensures points[c].i == target { StaysAt(points, target, a, c); }
  }

  lemma {:induction false} StaysBelow(points: seq<Point>, target: real, a: int, b: int)
    requires 0 <= a < |points| && 0 <= b < |points| && points[a].i < target
    requires forall k :: !Straddles(points, k, target)
    ensures points[b].i < target
    decreases if a < b then b - a else a - b
  {
    if a < b {
      StaysBelow(points, target, a, b - 1);
      assert !Straddles(points, b, target);
    } else if b < a {
      StaysBelow(points, target, a, b + 1);
      assert !Straddles(points, b + 1, target);
    }
  }

  lemma {:induction false} StaysAbove(points: seq<Point>, target: real, a: int, b: int)
    requires 0 <= a < |points| && 0 <= b < |points| && points[a].i > target
    requires forall k :: !Straddles(points, k, target)
    ensures points[b].i > target
    decreases if a < b then b - a else a - b
  {
    if a < b {
      StaysAbove(points, target, a, b - 1);
      assert !Straddles(points, b, target);
    } else if b < a {
      StaysAbove(points, target, a, b + 1);
      assert !Straddles(points, b + 1, target);
    }
  }

  lemma {:induction false} StaysAt(points: seq<Point>, target: real, a: int, b: int)
    requires 0 <= a < |points| && 0 <= b < |points| && points[a].i == target
    requires forall k :: !Straddles(points, k, target)
    ensures points[b].i == target
    decreases if a < b then b - a else a - b
  {
    if a < b {
      StaysAt(points, target, a, b - 1);
      assert !Straddles(points, b, target);
    } else if b < a {
      StaysAt(points, target, a, b + 1);
      assert !Straddles(points, b + 1, target);
    }
  }

  // --- the ohmic fit ---

  const CONDUCTION_FLOOR: real := 0.001
  const MIN_POINTS := 3
  const OHMIC_R2: real := 0.999

  datatype ResistorMetrics =
    | DidNotConduct
    | TooFewPoints
    | IllConditioned
    | Ohmic(resistance: real, rSquared: real, maxDevPct: real, approximate: bool)

  function Volts(points: seq<Point>): (vs: seq<real>)
    ensures |vs| == |points| && forall k | 0 <= k < |points| :: vs[k] == points[k].v
  {
    seq(|points|, k requires 0 <= k < |points| => points[k].v)
  }

  function Amps(points: seq<Point>): (amps: seq<real>)
    ensures |amps| == |points| && forall k | 0 <= k < |points| :: amps[k] == points[k].i
  {
    seq(|points|, k requires 0 <= k < |points| => points[k].i)
  }

  function Abs(x: real): real { if x < 0.0 then -x else x }

  /** m is the largest of the given values and zero. */
  ghost predicate IsPeak(values: seq<real>, m: real) {
    && m >= 0.0
    && (forall k | 0 <= k < |values| :: values[k] <= m)
    && (m == 0.0 || m in values)
  }

  /** How far each point is from the line, in amps. */
  function Deviation(points: seq<Point>, slope: real, intercept: real): (ds: seq<real>)
    ensures |ds| == |points|
  {
    var rs := Residuals(Volts(points), Amps(points), slope, intercept);
    seq(|points|, k requires 0 <= k < |points| => Abs(rs[k]))
  }

  predicate Conducts(points: seq<Point>) {
    exists k :: 0 <= k < |points| && points[k].i >= CONDUCTION_FLOOR
  }

  method MaxCurrent(points: seq<Point>) returns (m: real)
    ensures IsPeak(Amps(points), m)
  {
    m := 0.0;
    for k := 0 to |points|
      invariant IsPeak(Amps(points)[..k], m)
    {
      if points[k].i > m {
        m := points[k].i;
        assert Amps(points)[..k + 1][k] == m;
      }
      assert Amps(points)[..k + 1] == Amps(points)[..k] + [points[k].i];
    }
    assert Amps(points)[..|points|] == Amps(points);
  }

  /** What the analysis reports about a part, in terms of its least-squares conductance line. */
  ghost predicate Reports(points: seq<Point>, m: ResistorMetrics) {
    match m
    case DidNotConduct => !Conducts(points)
    case TooFewPoints => |points| < MIN_POINTS && Conducts(points)
    case IllConditioned =>
      && |points| >= MIN_POINTS && Conducts(points)
      && forall slope, intercept, r2 ::
           Fittable(Volts(points), Amps(points)) && BestFit(Volts(points), Amps(points), slope, intercept, r2) ==>
             slope <= 0.0
    case Ohmic(resistance, rSquared, maxDevPct, approximate) =>
      && |points| >= MIN_POINTS && Conducts(points)
      && Fittable(Volts(points), Amps(points))
      && exists slope, intercept, dev, top :: ReadOff(points, m, slope, intercept, dev, top)
  }

  /** The figures come from the least-squares line and the highest deviation and current. */
  ghost predicate ReadOff(points: seq<Point>, m: ResistorMetrics, slope: real, intercept: real, dev: real, top: real)
    requires m.Ohmic? && |points| > 0
  {
    && slope > 0.0 && BestFit(Volts(points), Amps(points), slope, intercept, m.rSquared)
    && m.resistance == 1.0 / slope
    && IsPeak(Deviation(points, slope, intercept), dev) && IsPeak(Amps(points), top)
    && top > 0.0 && m.maxDevPct == dev / top * 100.0
    && m.approximate == (m.rSquared < OHMIC_R2)
  }

  lemma DeviationAt(points: seq<Point>, slope: real, intercept: real, k: nat)
    requires k < |points|
    ensures Deviation(points, slope, intercept)[k] == Abs(points[k].i - (slope * points[k].v + intercept))
  {
    var v := points[k].v;
    assert Volts(points)[k] == v && Amps(points)[k] == points[k].i;
    assert slope * Volts(points)[k] == slope * v;
    assert Residuals(Volts(points), Amps(points), slope, intercept)[k]
           == points[k].i - (slope * Volts(points)[k] + intercept);
  }

  method MaxDeviation(points: seq<Point>, slope: real, intercept: real) returns (dev: real)
    ensures IsPeak(Deviation(points, slope, intercept), dev)
  {
    dev := 0.0;
    ghost var devs := Deviation(points, slope, intercept);
    for k := 0 to |points|
      invariant IsPeak(devs[..k], dev)
    {
      var d := Abs(points[k].i - (slope * points[k].v + intercept));
      DeviationAt(points, slope, intercept, k);
      assert devs[..k + 1] == devs[..k] + [d];
      if d > dev { dev := d; assert devs[..k + 1][k] == d; }
    }
    assert devs[..|points|] == devs;
  }

  lemma PeakShowsConduction(points: seq<Point>, top: real)
    requires IsPeak(Amps(points), top)
    ensures Conducts(points) <==> top >= CONDUCTION_FLOOR
  {
    if top >= CONDUCTION_FLOOR {
      var k :| 0 <= k < |points| && Amps(points)[k] == top;
      assert points[k].i >= CONDUCTION_FLOOR;
    }
    if k :| 0 <= k < |points| && points[k].i >= CONDUCTION_FLOOR { assert Amps(points)[k] <= top; }
  }

  lemma FallingLineIsIllConditioned(points: seq<Point>, slope: real, intercept: real, r2: real)
    requires |points| >= MIN_POINTS && Conducts(points) && slope <= 0.0
    requires Fittable(Volts(points), Amps(points)) && BestFit(Volts(points), Amps(points), slope, intercept, r2)
    ensures Reports(points, IllConditioned)
  {
    forall a, b, r | BestFit(Volts(points), Amps(points), a, b, r) ensures a <= 0.0 {
      LeastSquaresLineIsUnique(Volts(points), Amps(points), slope, intercept, a, b);
    }
  }

  method AnalyzeResistor(points: seq<Point>) returns (m: ResistorMetrics)
    ensures Reports(points, m)
  {
    var maxI := MaxCurrent(points);
    PeakShowsConduction(points, maxI);
    if maxI < CONDUCTION_FLOOR { return DidNotConduct; }
    if |points| < MIN_POINTS { return TooFewPoints; }
    var slope, intercept, r2, ok := LinearFit(Volts(points), Amps(points));
    if !ok { return IllConditioned; }
    if slope <= 0.0 {
      FallingLineIsIllConditioned(points, slope, intercept, r2);
      return IllConditioned;
    }
    var maxDev := MaxDeviation(points, slope, intercept);
    m := Ohmic(1.0 / slope, r2, maxDev / maxI * 100.0, r2 < OHMIC_R2);
    assert ReadOff(points, m, slope, intercept, maxDev, maxI);
  }

  /** A part measured exactly on a line I = g*V + c is reported as that conductance, with a perfect
      fit and no deviation. */
  lemma ExactLineIsRecovered(points: seq<Point>, g: real, c: real, m: ResistorMetrics)
    requires Reports(points, m)
    requires Collinear(Volts(points), Amps(points), g, c) && g > 0.0
    requires |points| >= MIN_POINTS && Conducts(points) && Fittable(Volts(points), Amps(points))
    ensures m == Ohmic(1.0 / g, 1.0, 0.0, false)
  {
    var vs, amps := Volts(points), Amps(points);
    CollinearIsNormal(vs, amps, g, c);
    var r2 := 1.0 - SquaredError(vs, amps, g, c) / Spread(amps);
    NormalIsBestFit(vs, amps, g, c, r2);
    if m.Ohmic? {
      var slope, intercept, dev, top :| ReadOff(points, m, slope, intercept, dev, top);
      LeastSquaresLineIsUnique(vs, amps, slope, intercept, g, c);
      ExactReadings(points, g, c, m, dev, top);
    }
  }

  lemma ExactReadings(points: seq<Point>, g: real, c: real, m: ResistorMetrics, dev: real, top: real)
    requires Collinear(Volts(points), Amps(points), g, c) && |points| > 0
    requires m.Ohmic? && ReadOff(points, m, g, c, dev, top)
    ensures m == Ohmic(1.0 / g, 1.0, 0.0, false)
  {
    NoDeviation(points, g, c, dev);
    Quotient(0.0, top);
  }

  lemma NoDeviation(points: seq<Point>, g: real, c: real, dev: real)
    requires Collinear(Volts(points), Amps(points), g, c) && IsPeak(Deviation(points, g, c), dev)
    ensures dev == 0.0
  {
    forall k | 0 <= k < |points| ensures Deviation(points, g, c)[k] == 0.0 {
      assert Amps(points)[k] == g * Volts(points)[k] + c;
    }
  }

  lemma CollinearIsNormal(xs: seq<real>, ys: seq<real>, a: real, b: real)
    requires |xs| == |ys| && Collinear(xs, ys, a, b)
    ensures Normal(xs, ys, a, b)
  {
    var rs := Residuals(xs, ys, a, b);
    forall k | 0 <= k < |xs| ensures rs[k] == 0.0 && Products(rs, xs)[k] == 0.0 {
      assert ys[k] == a * xs[k] + b;
      assert 0.0 * xs[k] == 0.0;
    }
    SumConstant(rs, 0.0, |xs|);
    SumConstant(Products(rs, xs), 0.0, |xs|);
  }
}
