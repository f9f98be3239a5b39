/** The curve-fit core of the IV analyser: ordinary least squares over measured samples. */
module LeastSquares {

  const MIN_SSXX: real := 0.000000000001
  const MIN_SSYY: real := 0.000000000000001

  /** Sum of the first n terms. */
  function Sum(ts: seq<real>, n: nat): real
    requires n <= |ts|
  {
    if n == 0 then 0.0 else Sum(ts, n - 1) + ts[n - 1]
  }

  function Total(ts: seq<real>): real { Sum(ts, |ts|) }

  function Mean(xs: seq<real>): real
    requires xs != []
  {
    Total(xs) / |xs| as real
  }

  function Deviations(xs: seq<real>, m: real): (ds: seq<real>)
    ensures |ds| == |xs| && forall k | 0 <= k < |xs| :: ds[k] == xs[k] - m
  {
    seq(|xs|, k requires 0 <= k < |xs| => xs[k] - m)
  }

  function Products(us: seq<real>, vs: seq<real>): (ps: seq<real>)
    requires |us| == |vs|
    ensures |ps| == |us| && forall k | 0 <= k < |us| :: ps[k] == us[k] * vs[k]
  {
    seq(|us|, k requires 0 <= k < |us| => us[k] * vs[k])
  }

  /** The distance of each sample above the line y = a*x + b. */
  function Residuals(xs: seq<real>, ys: seq<real>, a: real, b: real): (rs: seq<real>)
    requires |xs| == |ys|
    ensures |rs| == |xs| && forall k | 0 <= k < |xs| :: rs[k] == ys[k] - (a * xs[k] + b)
  {
    seq(|xs|, k requires 0 <= k < |xs| => ys[k] - (a * xs[k] + b))
  }

  function Squares(ts: seq<real>): seq<real> { Products(ts, ts) }

  function SquaredError(xs: seq<real>, ys: seq<real>, a: real, b: real): real
    requires |xs| == |ys|
  {
    Total(Squares(Residuals(xs, ys, a, b)))
  }

  /** Total squared deviation from the mean. */
  function Spread(xs: seq<real>): real
    requires xs != []
  {
    Total(Squares(Deviations(xs, Mean(xs))))
  }

  /** The samples are usable: at least two, paired, and spread out on both axes. */
  predicate Fittable(xs: seq<real>, ys: seq<real>) {
    2 <= |xs| == |ys| && Spread(xs) > MIN_SSXX && Spread(ys) > MIN_SSYY
  }

  predicate Collinear(xs: seq<real>, ys: seq<real>, a: real, b: real)
    requires |xs| == |ys|
  {
    forall k | 0 <= k < |xs| :: ys[k] == a * xs[k] + b
  }

  /** The normal equations: the residuals cancel out and are orthogonal to x. */
  ghost predicate Normal(xs: seq<real>, ys: seq<real>, a: real, b: real)
    requires |xs| == |ys|
  {
    var rs := Residuals(xs, ys, a, b);
    Total(rs) == 0.0 && Total(Products(rs, xs)) == 0.0
  }

  /** y = a*x + b is the least-squares line: its residuals cancel out and are orthogonal to x, no
      other line has a smaller squared error, and r2 is the share of the spread it explains:
      between 0 and 1, and 1 exactly when the samples lie on a line. */
  ghost predicate BestFit(xs: seq<real>, ys: seq<real>, a: real, b: real, r2: real)
    requires |xs| == |ys| > 0
  {
    && Normal(xs, ys, a, b)
    && (forall a', b' :: SquaredError(xs, ys, a, b) <= SquaredError(xs, ys, a', b'))
    && SquaredError(xs, ys, a, b) == (1.0 - r2) * Spread(ys)
    && 0.0 <= r2 <= 1.0
    && (r2 == 1.0 <==> exists a', b' :: Collinear(xs, ys, a', b'))
  }

  // --- sums ---

  lemma Distribute(c: real, v: real, x: real)
    ensures c * (v + x) == c * v + c * x
  {
  }

  lemma {:induction false} SumCombine(ts: seq<real>, us: seq<real>, c: real, vs: seq<real>, n: nat)
    requires n <= |ts| == |us| == |vs|
    requires forall k | 0 <= k < n :: ts[k] == us[k] + c * vs[k]
    ensures Sum(ts, n) == Sum(us, n) + c * Sum(vs, n)
  {
    if n > 0 {
      SumCombine(ts, us, c, vs, n - 1);
      Distribute(c, Sum(vs, n - 1), vs[n - 1]);
    }
  }

  /** A term-by-term combination carries over to the totals. */
  lemma Combine(ts: seq<real>, us: seq<real>, c: real, vs: seq<real>)
    requires |ts| == |us| == |vs|
    requires forall k | 0 <= k < |ts| :: ts[k] == us[k] + c * vs[k]
    ensures Total(ts) == Total(us) + c * Total(vs)
  {
    SumCombine(ts, us, c, vs, |ts|);
  }

  lemma ProductSign(x: real, y: real) returns (p: real)
    requires (x > 0.0 && y > 0.0) || (x < 0.0 && y < 0.0) || (x == 0.0 && y == 0.0)
    ensures p == x * y
    ensures p >= 0.0 && (p == 0.0 <==> x == 0.0)
  {
    p := x * y;
    if x > 0.0 { assert x * y > 0.0; } else if x < 0.0 { assert x * y == (-x) * (-y); }
  }

  lemma {:induction false} SumSquaresSign(ts: seq<real>, n: nat)
    requires n <= |ts|
    ensures Sum(Squares(ts), n) >= 0.0
    ensures Sum(Squares(ts), n) == 0.0 <==> forall k | 0 <= k < n :: ts[k] == 0.0
  {
    if n > 0 {
      SumSquaresSign(ts, n - 1);
      var sq := ProductSign(ts[n - 1], ts[n - 1]);
      assert Squares(ts)[n - 1] == sq;
      if Sum(Squares(ts), n) == 0.0 { assert sq == 0.0; }
    }
  }

  lemma {:induction false} SumConstant(ts: seq<real>, c: real, n: nat)
    requires n <= |ts| && forall k | 0 <= k < n :: ts[k] == c
    ensures Sum(ts, n) == c * n as real
  {
    if n > 0 {
      SumConstant(ts, c, n - 1);
      Distribute(c, (n - 1) as real, 1.0);
    }
  }

  // --- the residuals of the centred solution ---

  function Ones(n: nat): (os: seq<real>)
    ensures |os| == n && forall k | 0 <= k < n :: os[k] == 1.0
  {
    seq(n, _ => 1.0)
  }

  lemma MeanTimesCount(xs: seq<real>)
    requires xs != []
    ensures Mean(xs) * Total(Ones(|xs|)) == Total(xs)
  {
    SumConstant(Ones(|xs|), 1.0, |xs|);
  }

  /** Deviations from the mean cancel out. */
  lemma DeviationsCancel(xs: seq<real>)
    requires xs != []
    ensures Total(Deviations(xs, Mean(xs))) == 0.0
  {
    var ds, m := Deviations(xs, Mean(xs)), Mean(xs);
    forall k | 0 <= k < |xs| ensures ds[k] == xs[k] + (-m) * Ones(|xs|)[k] { assert (-m) * 1.0 == -m; }
    Combine(ds, xs, -m, Ones(|xs|));
    MeanTimesCount(xs);
    assert (-m) * Total(Ones(|xs|)) == -(m * Total(Ones(|xs|)));
  }

  lemma CentredResidual(x: real, y: real, mx: real, my: real, a: real, b: real)
    requires b == my - a * mx
    ensures y - (a * x + b) == (y - my) + (-a) * (x - mx)
  {
  }

  lemma ResidualTimesDeviation(dx: real, dy: real, a: real, r: real)
    requires r == dy + (-a) * dx
    ensures r * dx == dx * dy + (-a) * (dx * dx)
  {
  }

  /** The residuals of the line through the centre of mass, in centred terms. */
  lemma CentredResiduals(xs: seq<real>, ys: seq<real>, a: real, b: real)
    requires 0 < |xs| == |ys| && b == Mean(ys) - a * Mean(xs)
    ensures var rs, dx, dy := Residuals(xs, ys, a, b), Deviations(xs, Mean(xs)), Deviations(ys, Mean(ys));
      && (forall k | 0 <= k < |xs| :: rs[k] == dy[k] + (-a) * dx[k])
      && Total(rs) == 0.0
  {
    var rs, dx, dy := Residuals(xs, ys, a, b), Deviations(xs, Mean(xs)), Deviations(ys, Mean(ys));
    forall k | 0 <= k < |xs| ensures rs[k] == dy[k] + (-a) * dx[k] {
      CentredResidual(xs[k], ys[k], Mean(xs), Mean(ys), a, b);
    }
    Combine(rs, dy, -a, dx);
    DeviationsCancel(xs);
    DeviationsCancel(ys);
    assert (-a) * 0.0 == 0.0;
  }

  lemma ResidualsDotDeviations(rs: seq<real>, dx: seq<real>, dy: seq<real>, a: real)
    requires |rs| == |dx| == |dy|
    requires forall k | 0 <= k < |rs| :: rs[k] == dy[k] + (-a) * dx[k]
    ensures Total(Products(rs, dx)) == Total(Products(dx, dy)) + (-a) * Total(Squares(dx))
  {
    forall k | 0 <= k < |rs| ensures Products(rs, dx)[k] == Products(dx, dy)[k] + (-a) * Squares(dx)[k] {
      ResidualTimesDeviation(dx[k], dy[k], a, rs[k]);
    }
    Combine(Products(rs, dx), Products(dx, dy), -a, Squares(dx));
  }

  lemma ResidualsDotX(rs: seq<real>, xs: seq<real>, m: real)
    requires |rs| == |xs|
    ensures Total(Products(rs, xs)) == Total(Products(rs, Deviations(xs, m))) + m * Total(rs)
  {
    var ds := Deviations(xs, m);
    forall k | 0 <= k < |rs| ensures Products(rs, xs)[k] == Products(rs, ds)[k] + m * rs[k] {
      Distribute(rs[k], ds[k], m);
    }
    Combine(Products(rs, xs), Products(rs, ds), m, rs);
  }

  lemma Cancels(a: real, sxx: real, sxy: real)
    requires a * sxx == sxy
    ensures sxy + (-a) * sxx == 0.0
  {
    assert (-a) * sxx == -(a * sxx);
  }

  lemma TimesNothing(m: real, r: real)
    requires r == 0.0
    ensures m * r == 0.0
  {
  }

  lemma OrthogonalToDeviations(rs: seq<real>, dx: seq<real>, dy: seq<real>, a: real)
    requires |rs| == |dx| == |dy|
    requires forall k | 0 <= k < |rs| :: rs[k] == dy[k] + (-a) * dx[k]
    requires a * Total(Squares(dx)) == Total(Products(dx, dy))
    ensures Total(Products(rs, dx)) == 0.0
  {
    ResidualsDotDeviations(rs, dx, dy, a);
    Cancels(a, Total(Squares(dx)), Total(Products(dx, dy)));
  }

  lemma OrthogonalToX(rs: seq<real>, xs: seq<real>, m: real)
    requires |rs| == |xs| && Total(rs) == 0.0 && Total(Products(rs, Deviations(xs, m))) == 0.0
    ensures Total(Products(rs, xs)) == 0.0
  {
    ResidualsDotX(rs, xs, m);
    TimesNothing(m, Total(rs));
  }

  lemma CentredSolutionIsNormal(xs: seq<real>, ys: seq<real>, a: real, b: real)
    requires 0 < |xs| == |ys| && b == Mean(ys) - a * Mean(xs)
    requires a * Spread(xs) == Total(Products(Deviations(xs, Mean(xs)), Deviations(ys, Mean(ys))))
    ensures Normal(xs, ys, a, b)
  {
    var rs, dx, dy := Residuals(xs, ys, a, b), Deviations(xs, Mean(xs)), Deviations(ys, Mean(ys));
    CentredResiduals(xs, ys, a, b);
    OrthogonalToDeviations(rs, dx, dy, a);
    OrthogonalToX(rs, xs, Mean(xs));
  }

  // --- least squares ---

  /** How far the line p*x + q is above the x axis at every sample. */
  function Heights(xs: seq<real>, p: real, q: real): (hs: seq<real>)
    ensures |hs| == |xs| && forall k | 0 <= k < |xs| :: hs[k] == p * xs[k] + q
  {
    seq(|xs|, k requires 0 <= k < |xs| => p * xs[k] + q)
  }

  lemma MovedResidual(x: real, y: real, a: real, b: real, a': real, b': real)
    ensures y - (a' * x + b') == (y - (a * x + b)) - ((a' - a) * x + (b' - b))
  {
  }

  lemma SquareOfDifference(r: real, h: real)
    ensures (r - h) * (r - h) == (r * r + 1.0 * (h * h)) + (-2.0) * (r * h)
  {
  }

  lemma ResidualTimesHeight(r: real, x: real, p: real, q: real)
    ensures r * (p * x + q) == (q * r) + p * (r * x)
  {
  }

  function Scaled(c: real, ts: seq<real>): (ss: seq<real>)
    ensures |ss| == |ts| && forall k | 0 <= k < |ts| :: ss[k] == c * ts[k]
  {
    seq(|ts|, k requires 0 <= k < |ts| => c * ts[k])
  }

  lemma ScaledTotal(c: real, ts: seq<real>)
    ensures Total(Scaled(c, ts)) == c * Total(ts)
  {
    var zero := Scaled(0.0, ts);
    forall k | 0 <= k < |ts| ensures zero[k] == 0.0 { assert 0.0 * ts[k] == 0.0; }
    SumConstant(zero, 0.0, |ts|);
    Combine(Scaled(c, ts), zero, c, ts);
  }

  /** Residuals that satisfy the normal equations are orthogonal to every line. */
  lemma OrthogonalToLines(rs: seq<real>, xs: seq<real>, p: real, q: real)
    requires |rs| == |xs| && Total(rs) == 0.0 && Total(Products(rs, xs)) == 0.0
    ensures Total(Products(rs, Heights(xs, p, q))) == 0.0
  {
    var hs := Heights(xs, p, q);
    forall k | 0 <= k < |rs| ensures Products(rs, hs)[k] == Scaled(q, rs)[k] + p * Products(rs, xs)[k] {
      ResidualTimesHeight(rs[k], xs[k], p, q);
    }
    Combine(Products(rs, hs), Scaled(q, rs), p, Products(rs, xs));
    ScaledTotal(q, rs);
    assert q * 0.0 == 0.0 && p * 0.0 == 0.0;
  }

  lemma SquaredDifferences(ds: seq<real>, rs: seq<real>, hs: seq<real>)
    requires |ds| == |rs| == |hs| && forall k | 0 <= k < |ds| :: ds[k] == rs[k] - hs[k]
    ensures Total(Squares(ds)) == Total(Squares(rs)) + Total(Squares(hs)) + (-2.0) * Total(Products(rs, hs))
  {
    var sum := seq(|ds|, k requires 0 <= k < |ds| => Squares(rs)[k] + 1.0 * Squares(hs)[k]);
    Combine(sum, Squares(rs), 1.0, Squares(hs));
    forall k | 0 <= k < |ds| ensures Squares(ds)[k] == sum[k] + (-2.0) * Products(rs, hs)[k] {
      SquareOfDifference(rs[k], hs[k]);
    }
    Combine(Squares(ds), sum, -2.0, Products(rs, hs));
  }

  /** Pythagoras: moving off the normal line adds exactly the squared heights of the move. */
  lemma ErrorOfAnotherLine(xs: seq<real>, ys: seq<real>, a: real, b: real, a': real, b': real)
    requires |xs| == |ys| && Normal(xs, ys, a, b)
    ensures SquaredError(xs, ys, a', b') ==
            SquaredError(xs, ys, a, b) + Total(Squares(Heights(xs, a' - a, b' - b)))
  {
    var rs, rs', hs := Residuals(xs, ys, a, b), Residuals(xs, ys, a', b'), Heights(xs, a' - a, b' - b);
    forall k | 0 <= k < |xs| ensures rs'[k] == rs[k] - hs[k] {
      MovedResidual(xs[k], ys[k], a, b, a', b');
    }
    SquaredDifferences(rs', rs, hs);
    OrthogonalToLines(rs, xs, a' - a, b' - b);
  }

  lemma ConstantHasNoSpread(xs: seq<real>, c: real)
    requires xs != [] && forall k | 0 <= k < |xs| :: xs[k] == c
    ensures Spread(xs) == 0.0
  {
    SumConstant(xs, c, |xs|);
    assert Mean(xs) == c;
    SumSquaresSign(Deviations(xs, c), |xs|);
  }

  lemma Root(p: real, q: real, x: real)
    requires p != 0.0 && p * x + q == 0.0
    ensures x == -q / p
  {
    assert p * x == -q;
  }

  /** A line that vanishes at every sample is the x axis, when the samples differ in x. */
  lemma OnlyFlatLineVanishes(xs: seq<real>, p: real, q: real)
    requires |xs| > 0 && Spread(xs) > 0.0
    requires forall k | 0 <= k < |xs| :: Heights(xs, p, q)[k] == 0.0
    ensures p == 0.0 && q == 0.0
  {
    if p != 0.0 {
      forall k | 0 <= k < |xs| ensures xs[k] == -q / p {
        assert Heights(xs, p, q)[k] == 0.0;
        Root(p, q, xs[k]);
      }
      ConstantHasNoSpread(xs, -q / p);
      assert false;
    }
    assert Heights(xs, p, q)[0] == 0.0;
    TimesNothing(xs[0], p);
  }

  /** Another line has a larger squared error. */
  lemma OtherLinesAreWorse(xs: seq<real>, ys: seq<real>, a: real, b: real, a': real, b': real)
    requires 0 < |xs| == |ys| && Spread(xs) > 0.0 && Normal(xs, ys, a, b)
    ensures SquaredError(xs, ys, a, b) <= SquaredError(xs, ys, a', b')
    ensures SquaredError(xs, ys, a, b) == SquaredError(xs, ys, a', b') ==> a == a' && b == b'
  {
    ErrorOfAnotherLine(xs, ys, a, b, a', b');
    SumSquaresSign(Heights(xs, a' - a, b' - b), |xs|);
    if SquaredError(xs, ys, a, b) == SquaredError(xs, ys, a', b') { OnlyFlatLineVanishes(xs, a' - a, b' - b); }
  }

  /** Only one line satisfies the normal equations, so no other line would meet LinearFit's contract. */
  lemma LeastSquaresLineIsUnique(xs: seq<real>, ys: seq<real>, a: real, b: real, a': real, b': real)
    requires Fittable(xs, ys) && Normal(xs, ys, a, b) && Normal(xs, ys, a', b')
    ensures a == a' && b == b'
  {
    OtherLinesAreWorse(xs, ys, a, b, a', b');
    OtherLinesAreWorse(xs, ys, a', b', a, b);
  }

  lemma NoErrorIsCollinear(xs: seq<real>, ys: seq<real>, a: real, b: real)
    requires |xs| == |ys|
    ensures SquaredError(xs, ys, a, b) == 0.0 <==> Collinear(xs, ys, a, b)
  {
    var rs := Residuals(xs, ys, a, b);
    SumSquaresSign(rs, |xs|);
    forall k | 0 <= k < |xs| ensures rs[k] == 0.0 <==> ys[k] == a * xs[k] + b {}
    if SquaredError(xs, ys, a, b) == 0.0 {
      forall k | 0 <= k < |xs| ensures ys[k] == a * xs[k] + b { assert rs[k] == 0.0; }
    }
  }

  lemma Quotient(x: real, d: real)
    requires d > 0.0
    ensures (x / d) * d == x
    ensures 0.0 <= x <= d ==> 0.0 <= x / d <= 1.0
    ensures x / d == 0.0 <==> x == 0.0
  {
  }

  /** The spread of y is the squared error of the flat line through its mean. */
  lemma SpreadIsFlatError(xs: seq<real>, ys: seq<real>)
    requires 0 < |xs| == |ys|
    ensures SquaredError(xs, ys, 0.0, Mean(ys)) == Spread(ys)
  {
    var rs := Residuals(xs, ys, 0.0, Mean(ys));
    forall k | 0 <= k < |xs| ensures rs[k] == Deviations(ys, Mean(ys))[k] { assert 0.0 * xs[k] == 0.0; }
    assert rs == Deviations(ys, Mean(ys));
  }

  lemma NormalIsLeast(xs: seq<real>, ys: seq<real>, a: real, b: real)
    requires |xs| == |ys| && Normal(xs, ys, a, b)
    ensures forall a', b' :: SquaredError(xs, ys, a, b) <= SquaredError(xs, ys, a', b')
  {
    forall a', b' ensures SquaredError(xs, ys, a, b) <= SquaredError(xs, ys, a', b') {
      ErrorOfAnotherLine(xs, ys, a, b, a', b');
      SumSquaresSign(Heights(xs, a' - a, b' - b), |xs|);
    }
  }

  lemma NoErrorIffSomeLineFits(xs: seq<real>, ys: seq<real>, a: real, b: real)
    requires |xs| == |ys| && Normal(xs, ys, a, b)
    ensures SquaredError(xs, ys, a, b) == 0.0 <==> exists a', b' :: Collinear(xs, ys, a', b')
  {
    NoErrorIsCollinear(xs, ys, a, b);
    NormalIsLeast(xs, ys, a, b);
    SumSquaresSign(Residuals(xs, ys, a, b), |xs|);
    if a', b' :| Collinear(xs, ys, a', b') { NoErrorIsCollinear(xs, ys, a', b'); }
  }

  lemma ExplainedShare(error: real, spread: real, r2: real)
    requires 0.0 <= error <= spread && spread > 0.0 && r2 == 1.0 - error / spread
    ensures error == (1.0 - r2) * spread && 0.0 <= r2 <= 1.0 && (r2 == 1.0 <==> error == 0.0)
  {
    Quotient(error, spread);
    assert 1.0 - r2 == error / spread;
  }

  lemma ErrorWithinSpread(xs: seq<real>, ys: seq<real>, a: real, b: real)
    requires 0 < |xs| == |ys| && Normal(xs, ys, a, b)
    ensures 0.0 <= SquaredError(xs, ys, a, b) <= Spread(ys)
  {
    NormalIsLeast(xs, ys, a, b);
    SumSquaresSign(Residuals(xs, ys, a, b), |xs|);
    SpreadIsFlatError(xs, ys);
  }

  lemma NormalIsBestFit(xs: seq<real>, ys: seq<real>, a: real, b: real, r2: real)
    requires Fittable(xs, ys) && Normal(xs, ys, a, b)
    requires r2 == 1.0 - SquaredError(xs, ys, a, b) / Spread(ys)
    ensures BestFit(xs, ys, a, b, r2)
  {
    NormalIsLeast(xs, ys, a, b);
    NoErrorIffSomeLineFits(xs, ys, a, b);
    ErrorWithinSpread(xs, ys, a, b);
    ExplainedShare(SquaredError(xs, ys, a, b), Spread(ys), r2);
  }

  /** What the three accumulated sums are worth. */
  lemma SolvedFromSums(xs: seq<real>, ys: seq<real>, mx: real, my: real, ssxx: real, ssxy: real,
                       slope: real, intercept: real)
    requires Fittable(xs, ys) && mx == Mean(xs) && my == Mean(ys)
    requires ssxx == Spread(xs) && ssxy == Total(Products(Deviations(xs, mx), Deviations(ys, my)))
    requires slope == ssxy / ssxx && intercept == my - slope * mx
    ensures Normal(xs, ys, slope, intercept)
  {
    Quotient(ssxy, ssxx);
    CentredSolutionIsNormal(xs, ys, slope, intercept);
  }

  lemma ProductAt(us: seq<real>, vs: seq<real>, i: nat, u: real, v: real)
    requires i < |us| == |vs| && us[i] == u && vs[i] == v
    ensures Sum(Products(us, vs), i + 1) == Sum(Products(us, vs), i) + u * v
  {
  }

  method LinearFit(xs: seq<real>, ys: seq<real>) returns (slope: real, intercept: real, r2: real, ok: bool)
    ensures ok <==> Fittable(xs, ys)
    ensures !ok ==> slope == intercept == r2 == 0.0
    ensures ok ==> BestFit(xs, ys, slope, intercept, r2)
  {
    slope, intercept, r2, ok := 0.0, 0.0, 0.0, false;
    var n := |xs|;
    if n < 2 || n != |ys| { return; }
    var sx, sy := 0.0, 0.0;
    for i := 0 to n
      invariant sx == Sum(xs, i) && sy == Sum(ys, i)
    {
      sx, sy := sx + xs[i], sy + ys[i];
    }
    var mx, my := sx / n as real, sy / n as real;
    ghost var dxs, dys := Deviations(xs, mx), Deviations(ys, my);
    var ssxx, ssxy, ssyy := 0.0, 0.0, 0.0;
    for i := 0 to n
      invariant ssxx == Sum(Squares(dxs), i)
      invariant ssxy == Sum(Products(dxs, dys), i)
      invariant ssyy == Sum(Squares(dys), i)
    {
      var dx, dy := xs[i] - mx, ys[i] - my;
      ProductAt(dxs, dxs, i, dx, dx);
      ProductAt(dxs, dys, i, dx, dy);
      ProductAt(dys, dys, i, dy, dy);
      ssxx, ssxy, ssyy := ssxx + dx * dx, ssxy + dx * dy, ssyy + dy * dy;
    }
    if ssxx <= MIN_SSXX || ssyy <= MIN_SSYY { return; }
    slope := ssxy / ssxx;
    intercept := my - slope * mx;
    ghost var rs := Residuals(xs, ys, slope, intercept);
    var ssres := 0.0;
    for i := 0 to n
      invariant ssres == Sum(Squares(rs), i)
    {
      var d := ys[i] - (slope * xs[i] + intercept);
      ProductAt(rs, rs, i, d, d);
      ssres := ssres + d * d;
    }
    r2 := 1.0 - ssres / ssyy;
    ok := true;
    SolvedFromSums(xs, ys, mx, my, ssxx, ssxy, slope, intercept);
    NormalIsBestFit(xs, ys, slope, intercept, r2);
  }
}
