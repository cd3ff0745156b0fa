/**
  The Yule-Walker fit and the forecast loop of analytics-nim/server.nim, over exact reals.
*/
module Autoregression {
  import opened RealSums

  // ---------------------------------------------------------------------------------------
  // Lagged product sums of a series padded with zeros
  // ---------------------------------------------------------------------------------------

  /** x vanishes outside 0..n-1. */
  ghost predicate Padded(n: nat, x: int -> real) {
    forall i | i < 0 || n <= i :: x(i) == 0.0
  }

  ghost function Delay(x: int -> real, lag: int): int -> real { i => x(i - lag) }

  /** The sum of x(i) * x(i - lag) that the fit's inner loop accumulates. */
  ghost function LagSum(n: nat, x: int -> real, lag: nat): real { Dot(n, x, Delay(x, lag)) }

  lemma ShiftDot(N: nat, f: int -> real, g: int -> real, f': int -> real, g': int -> real)
    requires N > 0 && f(0) == 0.0 && forall i :: f'(i) == f(i + 1) && g'(i) == g(i + 1)
    ensures Dot(N, f, g) == Dot(N - 1, f', g')
  {
    var u: int -> real := i => f(i) * g(i);
    var v: int -> real := i => f'(i) * g'(i);
    forall i ensures v(i) == u(i + 1) {}
    assert u(0) == 0.0;
    SumShift(N - 1, u, v);
  }

  lemma TruncateDot(n: nat, N: nat, f: int -> real, g: int -> real)
    requires n <= N && forall i | n <= i < N :: f(i) == 0.0
    ensures Dot(N, f, g) == Dot(n, f, g)
  {
    var u: int -> real := i => f(i) * g(i);
    forall i | n <= i < N ensures u(i) == 0.0 { assert f(i) == 0.0; }
    SumTruncate(n, N, u);
  }

  /** Delaying both factors alike changes nothing, once the range covers the delayed series. */
  lemma {:induction false} DelayedDot(n: nat, x: int -> real, a: nat, b: nat, N: nat)
    requires Padded(n, x) && a <= b && N >= n + a
    ensures Dot(N, Delay(x, a), Delay(x, b)) == LagSum(n, x, b - a)
    decreases a
  {
    if a == 0 {
      Undelayed(n, x, b, N);
    } else {
      DelayedByOneLess(n, x, a, b, N);
      DelayedDot(n, x, a - 1, b - 1, N - 1);
    }
  }

  lemma Undelayed(n: nat, x: int -> real, b: nat, N: nat)
    requires Padded(n, x) && N >= n
    ensures Dot(N, Delay(x, 0), Delay(x, b)) == LagSum(n, x, b)
  {
    TruncateDot(n, N, Delay(x, 0), Delay(x, b));
    DotCongruence(n, Delay(x, 0), Delay(x, b), x, Delay(x, b));
  }

  lemma DelayedByOneLess(n: nat, x: int -> real, a: nat, b: nat, N: nat)
    requires Padded(n, x) && 0 < a <= b && N > 0
    ensures Dot(N, Delay(x, a), Delay(x, b)) == Dot(N - 1, Delay(x, a - 1), Delay(x, b - 1))
  {
    assert Delay(x, a)(0) == x(0 - a) == 0.0;
    ShiftDot(N, Delay(x, a), Delay(x, b), Delay(x, a - 1), Delay(x, b - 1));
  }

  /** u + k v, pointwise. */
  ghost function Combine(u: int -> real, v: int -> real, k: real): int -> real { i => u(i) + k * v(i) }

  lemma NormExpands(N: nat, u: int -> real, v: int -> real, k: real)
    ensures var w := Combine(u, v, k);
            Dot(N, w, w) == Dot(N, u, u) + 2.0 * k * Dot(N, u, v) + k * k * Dot(N, v, v)
  {
    var w := Combine(u, v, k);
    DotLinear(N, u, v, k, w);
    DotLinear(N, u, v, k, u);
    DotLinear(N, u, v, k, v);
    DotCommutes(N, u, w);
    DotCommutes(N, v, w);
    DotCommutes(N, v, u);
    Gather(Dot(N, w, w), Dot(N, u, w), Dot(N, v, w), Dot(N, u, u), Dot(N, u, v), Dot(N, v, v), k);
  }

  lemma Gather(ww: real, uw: real, vw: real, uu: real, uv: real, vv: real, k: real)
    requires ww == uw + k * vw && uw == uu + k * uv && vw == uv + k * vv
    ensures ww == uu + 2.0 * k * uv + k * k * vv
  {
    assert k * vw == k * uv + k * k * vv;
  }

  lemma {:induction false} DotLinear(N: nat, u: int -> real, v: int -> real, k: real, z: int -> real)
    ensures Dot(N, Combine(u, v, k), z) == Dot(N, u, z) + k * Dot(N, v, z)
  {
    if N > 0 {
      DotLinear(N - 1, u, v, k, z);
      LinearStep(Dot(N - 1, u, z), Dot(N - 1, v, z), u(N - 1), v(N - 1), k, Combine(u, v, k)(N - 1), z(N - 1));
    }
  }

  lemma LinearStep(uz: real, vz: real, a: real, b: real, k: real, w: real, z: real)
    requires w == a + k * b
    ensures (uz + k * vz) + w * z == (uz + a * z) + k * (vz + b * z)
  {
    assert w * z == a * z + k * (b * z);
  }

  /** The energy of the filtered series, in terms of the lagged sums. */
  ghost function Form(g0: real, g1: real, g2: real, p: real, q: real): real {
    (g0 + 2.0 * p * g1 + p * p * g0) + 2.0 * q * (g2 + p * g1) + q * q * g0
  }

  /** |u + q c|^2 where u = a + p b, when a, b and c are alike up to a delay. */
  lemma TwiceCombined(N: nat, a: int -> real, b: int -> real, c: int -> real, p: real, q: real)
    requires Dot(N, b, b) == Dot(N, a, a) == Dot(N, c, c) && Dot(N, b, c) == Dot(N, a, b)
    ensures var w := Combine(Combine(a, b, p), c, q);
            Dot(N, w, w) == Form(Dot(N, a, a), Dot(N, a, b), Dot(N, a, c), p, q)
  {
    var u := Combine(a, b, p);
    NormExpands(N, a, b, p);
    DotLinear(N, a, b, p, c);
    NormExpands(N, u, c, q);
    Assemble(Dot(N, u, u), Dot(N, u, c), Dot(N, a, a), Dot(N, a, b), Dot(N, a, c), p, q);
  }

  lemma Assemble(uu: real, uc: real, g0: real, g1: real, g2: real, p: real, q: real)
    requires uu == g0 + 2.0 * p * g1 + p * p * g0 && uc == g2 + p * g1
    ensures uu + 2.0 * q * uc + q * q * g0 == Form(g0, g1, g2, p, q)
  {}

  // ---------------------------------------------------------------------------------------
  // The autocovariances are positive definite
  // ---------------------------------------------------------------------------------------

  /** x(i) + p x(i-1) + q x(i-2) */
  ghost function Filter(x: int -> real, p: real, q: real): int -> real {
    Combine(Combine(Delay(x, 0), Delay(x, 1), p), Delay(x, 2), q)
  }

  lemma FilterEnergy(n: nat, x: int -> real, p: real, q: real)
    requires Padded(n, x)
    ensures Dot(n + 2, Filter(x, p, q), Filter(x, p, q)) ==
            Form(LagSum(n, x, 0), LagSum(n, x, 1), LagSum(n, x, 2), p, q)
  {
    var N, x0, x1, x2 := n + 2, Delay(x, 0), Delay(x, 1), Delay(x, 2);
    DelayedDot(n, x, 0, 0, N);
    DelayedDot(n, x, 0, 1, N);
    DelayedDot(n, x, 0, 2, N);
    DelayedDot(n, x, 1, 1, N);
    DelayedDot(n, x, 1, 2, N);
    DelayedDot(n, x, 2, 2, N);
    TwiceCombined(N, x0, x1, x2, p, q);
  }

  /** A filter that keeps the present value cannot annihilate a series that is not all zero. */
  lemma FormPositive(n: nat, x: int -> real, p: real, q: real)
    requires Padded(n, x) && exists k :: 0 <= k < n && x(k) != 0.0
    ensures Form(LagSum(n, x, 0), LagSum(n, x, 1), LagSum(n, x, 2), p, q) > 0.0
  {
    FilterEnergy(n, x, p, q);
    var k := FirstNonZero(n, x);
    FilterAtFirst(x, p, q, k);
    NormPositive(n + 2, Filter(x, p, q), k);
  }

  lemma FilterAtFirst(x: int -> real, p: real, q: real, k: int)
    requires x(k - 1) == 0.0 && x(k - 2) == 0.0
    ensures Filter(x, p, q)(k) == x(k)
  {
    var u := Combine(Delay(x, 0), Delay(x, 1), p);
    assert u(k) == x(k) + p * 0.0;
    assert Filter(x, p, q)(k) == u(k) + q * 0.0;
  }

  lemma FirstNonZero(n: nat, x: int -> real) returns (k: int)
    requires Padded(n, x) && exists k :: 0 <= k < n && x(k) != 0.0
    ensures 0 <= k < n && x(k) != 0.0 && forall i | i < k :: x(i) == 0.0
  {
    k := 0;
    while x(k) == 0.0
      invariant 0 <= k < n && forall i | i < k :: x(i) == 0.0
      decreases n - k
    {
      var j :| 0 <= j < n && x(j) != 0.0;
      assert j > k;
      k := k + 1;
    }
  }

  /** What the lagged sums of a series that is not constant satisfy. */
  ghost predicate Dominated(g0: real, g1: real, g2: real) {
    && g0 > 0.0 && -g0 < g1 < g0 && g2 < g0
    && g0 * (g0 + g2) > 2.0 * g1 * g1
  }

  lemma LagSumsDominated(n: nat, x: int -> real)
    requires Padded(n, x) && exists k :: 0 <= k < n && x(k) != 0.0
    ensures Dominated(LagSum(n, x, 0), LagSum(n, x, 1), LagSum(n, x, 2))
  {
    LagSumsOrdered(n, x, LagSum(n, x, 0), LagSum(n, x, 1), LagSum(n, x, 2));
  }

  lemma LagSumsOrdered(n: nat, x: int -> real, g0: real, g1: real, g2: real)
    requires Padded(n, x) && exists k :: 0 <= k < n && x(k) != 0.0
    requires g0 == LagSum(n, x, 0) && g1 == LagSum(n, x, 1) && g2 == LagSum(n, x, 2)
    ensures Dominated(g0, g1, g2)
  {
    FormPositive(n, x, 0.0, 0.0);
    FormPositive(n, x, -1.0, 0.0);
    FormPositive(n, x, 1.0, 0.0);
    FormPositive(n, x, 0.0, -1.0);
    SimpleForms(g0, g1, g2);
    DiscriminantPositive(n, x, g0, g1, g2);
  }

  lemma DiscriminantPositive(n: nat, x: int -> real, g0: real, g1: real, g2: real)
    requires Padded(n, x) && (exists k :: 0 <= k < n && x(k) != 0.0) && g0 > 0.0
    requires g0 == LagSum(n, x, 0) && g1 == LagSum(n, x, 1) && g2 == LagSum(n, x, 2)
    ensures g0 * (g0 + g2) > 2.0 * g1 * g1
  {
    var s := -2.0 * g1 / g0;
    FormPositive(n, x, s, 1.0);
    Discriminant(g0, g1, g2, s);
  }

  lemma SimpleForms(g0: real, g1: real, g2: real)
    ensures Form(g0, g1, g2, 0.0, 0.0) == g0
    ensures Form(g0, g1, g2, -1.0, 0.0) == 2.0 * g0 - 2.0 * g1
    ensures Form(g0, g1, g2, 1.0, 0.0) == 2.0 * g0 + 2.0 * g1
    ensures Form(g0, g1, g2, 0.0, -1.0) == 2.0 * g0 - 2.0 * g2
  {}

  lemma Discriminant(g0: real, g1: real, g2: real, s: real)
    requires g0 > 0.0 && s == -2.0 * g1 / g0 && Form(g0, g1, g2, s, 1.0) > 0.0
    ensures g0 * (g0 + g2) > 2.0 * g1 * g1
  {
    assert s * g0 == -2.0 * g1;
    assert s * s * g0 == s * (-2.0 * g1);
    var e := 2.0 * g0 + 2.0 * g2 + 2.0 * (s * g1);
    assert e > 0.0;
    ProductPositive(e, g0, e * g0);
    assert e * g0 == 2.0 * g0 * g0 + 2.0 * g2 * g0 + 2.0 * (s * g0) * g1;
  }

  // ---------------------------------------------------------------------------------------
  // The fit
  // ---------------------------------------------------------------------------------------

  ghost function Values(s: seq<real>): int -> real { i => if 0 <= i < |s| then s[i] else 0.0 }

  ghost function MeanOf(s: seq<real>): real {
    if s == [] then 0.0 else Sum(|s|, Values(s)) / |s| as real
  }

  /** The deviations from the mean, zero outside the series. */
  ghost function Deviations(s: seq<real>): int -> real {
    i => if 0 <= i < |s| then s[i] - MeanOf(s) else 0.0
  }

  /** The sample autocovariance at a lag. */
  ghost function Gamma(s: seq<real>, lag: nat): real
    requires s != []
  {
    LagSum(|s|, Deviations(s), lag) / |s| as real
  }

  ghost predicate Constant(s: seq<real>) {
    forall i | 0 <= i < |s| :: Deviations(s)(i) == 0.0
  }

  lemma DominatedScales(g0: real, g1: real, g2: real, n: real)
    requires Dominated(g0, g1, g2) && n > 0.0
    ensures Dominated(g0 / n, g1 / n, g2 / n)
  {
    var k := 1.0 / n;
    assert k > 0.0;
    ProductPositive(g0, k, g0 * k);
    ProductPositive(g0 - g1, k, (g0 - g1) * k);
    ProductPositive(g0 + g1, k, (g0 + g1) * k);
    ProductPositive(g0 - g2, k, (g0 - g2) * k);
    var e := g0 * (g0 + g2) - 2.0 * g1 * g1;
    ProductPositive(e, k, e * k);
    ProductPositive(e * k, k, e * k * k);
    assert g0 / n == g0 * k && g1 / n == g1 * k && g2 / n == g2 * k;
    assert (g0 * k) * (g0 * k + g2 * k) - 2.0 * (g1 * k) * (g1 * k) == e * k * k;
  }

  lemma GammasDominated(s: seq<real>)
    requires s != [] && !Constant(s)
    ensures Dominated(Gamma(s, 0), Gamma(s, 1), Gamma(s, 2))
  {
    LagSumsDominated(|s|, Deviations(s));
    var n, x := |s|, Deviations(s);
    DominatedScales(LagSum(n, x, 0), LagSum(n, x, 1), LagSum(n, x, 2), n as real);
  }

  lemma GammaOfConstant(s: seq<real>, lag: nat)
    requires s != [] && Constant(s)
    ensures Gamma(s, lag) == 0.0
  {
    var x := Deviations(s);
    var f: int -> real := i => x(i) * Delay(x, lag)(i);
    forall i | 0 <= i < |s| ensures f(i) == 0.0 { assert x(i) == 0.0; }
    SumZero(|s|, f);
  }

  /** An AR(1) coefficient strictly inside the unit interval. */
  lemma Ar1Stationary(g0: real, g1: real, phi: real)
    requires g0 > 0.0 && -g0 < g1 < g0 && phi == g1 / g0
    ensures -1.0 < phi < 1.0 && phi * g0 == g1
  {
    assert phi * g0 == g1;
    assert (1.0 - phi) * g0 == g0 - g1 && (1.0 + phi) * g0 == g0 + g1;
    PositiveFactor(1.0 - phi, g0);
    PositiveFactor(1.0 + phi, g0);
  }

  /** The triangle of stationary AR(2) coefficients. */
  ghost predicate Stationary2(phi1: real, phi2: real) {
    -1.0 < phi2 && phi1 + phi2 < 1.0 && phi2 - phi1 < 1.0
  }

  lemma PositiveFactor(a: real, d: real)
    requires d > 0.0 && a * d > 0.0
    ensures a > 0.0
  {}

  /** The AR(2) coefficients solve the Yule-Walker equations and are stationary. */
  lemma Ar2Stationary(g0: real, g1: real, g2: real, det: real, phi1: real, phi2: real)
    requires Dominated(g0, g1, g2) && det == g0 * g0 - g1 * g1 && det != 0.0
    requires phi1 == (g1 * g0 - g2 * g1) / det && phi2 == (g2 * g0 - g1 * g1) / det
    ensures Stationary2(phi1, phi2)
    ensures phi1 * g0 + phi2 * g1 == g1 && phi1 * g1 + phi2 * g0 == g2
  {
    ProductPositive(g0 - g1, g0 + g1, (g0 - g1) * (g0 + g1));
    assert det == (g0 - g1) * (g0 + g1) > 0.0;
    var n1, n2 := g1 * g0 - g2 * g1, g2 * g0 - g1 * g1;
    assert phi1 * det == n1 && phi2 * det == n2;
    ProductPositive(g0 - g1, g0 - g2, (g0 - g1) * (g0 - g2));
    ProductPositive(g0 + g1, g0 - g2, (g0 + g1) * (g0 - g2));
    assert (1.0 - phi1 - phi2) * det == det - n1 - n2 == (g0 - g1) * (g0 - g2);
    assert (1.0 + phi1 - phi2) * det == det + n1 - n2 == (g0 + g1) * (g0 - g2);
    assert (1.0 + phi2) * det == det + n2 == g0 * (g0 + g2) - 2.0 * g1 * g1;
    PositiveFactor(1.0 - phi1 - phi2, det);
    PositiveFactor(1.0 + phi1 - phi2, det);
    PositiveFactor(1.0 + phi2, det);
    YuleWalker(g0, g1, g2, det, n1, n2, phi1, phi2);
  }

  lemma YuleWalker(g0: real, g1: real, g2: real, det: real, n1: real, n2: real, phi1: real, phi2: real)
    requires det == g0 * g0 - g1 * g1 && det != 0.0 && n1 == g1 * g0 - g2 * g1 && n2 == g2 * g0 - g1 * g1
    requires phi1 * det == n1 && phi2 * det == n2
    ensures phi1 * g0 + phi2 * g1 == g1 && phi1 * g1 + phi2 * g0 == g2
  {
    assert n1 * g0 + n2 * g1 == g1 * det;
    assert n1 * g1 + n2 * g0 == g2 * det;
    Cancel(phi1 * g0 + phi2 * g1, g1, det);
    Cancel(phi1 * g1 + phi2 * g0, g2, det);
  }

  lemma Cancel(a: real, b: real, d: real)
    requires d != 0.0
    ensures a * d == b * d ==> a == b
  {}

  /** What the mean is: the deviations from it sum to zero. */
  lemma DeviationsSumToZero(s: seq<real>)
    requires s != []
    ensures Sum(|s|, Deviations(s)) == 0.0
  {
    var n, m, v := |s|, MeanOf(s), Values(s);
    DeviationsTotal(s, m, n);
    TimesLength(m, Sum(n, v), n as real);
  }

  lemma {:induction false} DeviationsTotal(s: seq<real>, m: real, n: nat)
    requires m == MeanOf(s) && n <= |s|
    ensures Sum(n, Deviations(s)) == Sum(n, Values(s)) - n as real * m
  {
    if n > 0 { DeviationsTotal(s, m, n - 1); }
  }

  lemma TimesLength(m: real, total: real, n: real)
    requires n != 0.0 && m == total / n
    ensures n * m == total
  {}

  /** What the autocovariance at lag 0 is: the mean of the squares less the square of the mean. */
  lemma GammaIsVariance(s: seq<real>)
    requires s != []
    ensures |s| as real * Gamma(s, 0) == Sum(|s|, SquaresOf(s)) - |s| as real * Square(MeanOf(s))
  {
    SquaredDeviations(s, MeanOf(s), |s|);
    SpreadOfValues(s, MeanOf(s), Sum(|s|, Values(s)), |s| as real);
    GammaTimesLength(s, Gamma(s, 0), LagSum(|s|, Deviations(s), 0), |s| as real);
  }

  lemma GammaTimesLength(s: seq<real>, gamma: real, total: real, n: real)
    requires s != [] && n == |s| as real && gamma == Gamma(s, 0) && total == LagSum(|s|, Deviations(s), 0)
    ensures n * gamma == total
  {
    TimesLength(gamma, total, n);
  }

  lemma SpreadOfValues(s: seq<real>, m: real, total: real, n: real)
    requires s != [] && n == |s| as real && m == MeanOf(s) && total == Sum(|s|, Values(s))
    ensures Spread(total, n, m) == -(n * Square(m))
  {
    TimesLength(m, total, n);
    SpreadAtMean(total, n, m);
  }

  ghost function SquaresOf(s: seq<real>): int -> real { i => if 0 <= i < |s| then Square(s[i]) else 0.0 }

  /** What squaring the deviations of n values from m adds to the squares of the values. */
  ghost function Spread(total: real, n: real, m: real): real { n * Square(m) - 2.0 * m * total }

  lemma {:induction false} SquaredDeviations(s: seq<real>, m: real, n: nat)
    requires m == MeanOf(s) && n <= |s|
    ensures LagSum(n, Deviations(s), 0) == Sum(n, SquaresOf(s)) + Spread(Sum(n, Values(s)), n as real, m)
  {
    if n > 0 {
      SquaredDeviations(s, m, n - 1);
      LagZeroStep(n - 1, Deviations(s));
      SpreadStep(s[n - 1], m, Deviations(s)(n - 1), Sum(n - 1, Values(s)), (n - 1) as real, n as real);
    }
  }

  lemma LagZeroStep(n: nat, x: int -> real)
    ensures LagSum(n + 1, x, 0) == LagSum(n, x, 0) + Square(x(n))
  {
    DotStep(n, x, Delay(x, 0), x(n), x(n));
  }

  lemma SpreadStep(x: real, m: real, d: real, total: real, n: real, next: real)
    requires d == x - m && next == n + 1.0
    ensures Square(x) + Spread(total + x, next, m) == Spread(total, n, m) + Square(d)
  {}

  lemma SpreadAtMean(total: real, n: real, m: real)
    requires n * m == total
    ensures Spread(total, n, m) == -(n * Square(m))
  {
    assert m * total == n * Square(m);
  }

  method Mean(s: seq<real>) returns (mean: real)
    ensures mean == MeanOf(s)
  {
    if |s| == 0 { return 0.0; }
    mean := 0.0;
    for i := 0 to |s|
      invariant mean == Sum(i, Values(s))
    {
      mean := mean + s[i];
    }
    mean := mean / |s| as real;
  }

  /** One autocovariance: the inner loop of the fit. */
  method Autocovariance(s: seq<real>, mean: real, lag: nat) returns (gamma: real)
    requires mean == MeanOf(s) && lag < |s|
    ensures gamma == Gamma(s, lag)
  {
    ghost var x := Deviations(s);
    ghost var y := Delay(x, lag);
    var sum := 0.0;
    LeadingZeros(s, lag);
    for i := lag to |s|
      invariant sum == Dot(i, x, y)
    {
      var a, b := s[i] - mean, s[i - lag] - mean;
      DotStep(i, x, y, a, b);
      sum := sum + a * b;
    }
    gamma := sum / |s| as real;
  }

  /** Before the lag the delayed series is zero, so the loop may start at the lag. */
  lemma LeadingZeros(s: seq<real>, lag: nat)
    requires lag < |s|
    ensures Dot(lag, Deviations(s), Delay(Deviations(s), lag)) == 0.0
  {
    var x := Deviations(s);
    var f: int -> real := i => x(i) * Delay(x, lag)(i);
    forall i | 0 <= i < lag ensures f(i) == 0.0 { assert Delay(x, lag)(i) == x(i - lag) == 0.0; }
    SumZero(lag, f);
  }

  const EPSILON := 0.000000000001

  function Zeros(p: nat): seq<real> { seq(p, _ => 0.0) }

  /** The autocovariances of a series: those of a constant one vanish. */
  ghost predicate Autocovariances(g0: real, g1: real, g2: real) {
    Dominated(g0, g1, g2) || (g0 == 0.0 && g1 == 0.0 && g2 == 0.0)
  }

  lemma GammasAreAutocovariances(s: seq<real>)
    requires s != []
    ensures Autocovariances(Gamma(s, 0), Gamma(s, 1), Gamma(s, 2))
  {
    if Constant(s) {
      GammaOfConstant(s, 0);
      GammaOfConstant(s, 1);
      GammaOfConstant(s, 2);
    } else {
      GammasDominated(s);
    }
  }

  /** The Yule-Walker equation of order 1. */
  ghost predicate Solves1(g0: real, g1: real, phi: real) { phi * g0 == g1 }

  /** The Yule-Walker equations of order 2. */
  ghost predicate Solves2(g0: real, g1: real, g2: real, phi1: real, phi2: real) {
    phi1 * g0 + phi2 * g1 == g1 && phi1 * g1 + phi2 * g0 == g2
  }

  predicate Degenerate(g0: real, g1: real) { Abs(g0 * g0 - g1 * g1) < EPSILON }

  /** The cut-off is at 10^-12. */
  lemma CutOff(g0: real, g1: real)
    ensures Degenerate(g0, g1) <==> 1000000000000.0 * Abs(g0 * g0 - g1 * g1) < 1.0
  {}

  method Solve1(g0: real, g1: real, ghost g2: real) returns (phi: real)
    requires Autocovariances(g0, g1, g2)
    ensures -1.0 < phi < 1.0 && Solves1(g0, g1, phi) && (g0 == 0.0 ==> phi == 0.0)
  {
    phi := if g0 != 0.0 then g1 / g0 else 0.0;
    if g0 != 0.0 { Ar1Stationary(g0, g1, phi); }
  }

  method Solve2(g0: real, g1: real, g2: real) returns (phi1: real, phi2: real)
    requires Autocovariances(g0, g1, g2)
    ensures Stationary2(phi1, phi2)
    ensures if Degenerate(g0, g1) then phi1 == phi2 == 0.0 else Solves2(g0, g1, g2, phi1, phi2)
  {
    if Degenerate(g0, g1) { return 0.0, 0.0; }
    var det := g0 * g0 - g1 * g1;
    phi1 := (g1 * g0 - g2 * g1) / det;
    phi2 := (g2 * g0 - g1 * g1) / det;
    Ar2Stationary(g0, g1, g2, det, phi1, phi2);
  }

  method AutocovariancesUpTo(s: seq<real>, p: nat) returns (gamma: seq<real>)
    requires p < |s|
    ensures |gamma| == p + 1 && forall l | 0 <= l <= p :: gamma[l] == Gamma(s, l)
  {
    gamma := [];
    var m := Mean(s);
    for lag := 0 to p + 1
      invariant |gamma| == lag && forall l | 0 <= l < lag :: gamma[l] == Gamma(s, l)
    {
      var g := Autocovariance(s, m, lag);
      gamma := gamma + [g];
    }
  }

  /**
    arFit. Every model it returns is stationary, and solves the Yule-Walker equations of the series
    unless the series is too short, the order is above 2, or (for order 2) the determinant is below
    the cut-off.
  */
  method ArFit(s: seq<real>, p: nat) returns (coeffs: seq<real>)
    ensures |coeffs| == p
    ensures |s| <= p || p > 2 ==> coeffs == Zeros(p)
    ensures p == 1 ==> -1.0 < coeffs[0] < 1.0
    ensures p == 1 && |s| > 1 ==> Solves1(Gamma(s, 0), Gamma(s, 1), coeffs[0])
    ensures p == 1 && |s| > 1 && Gamma(s, 0) == 0.0 ==> coeffs == [0.0]
    ensures p == 2 ==> Stationary2(coeffs[0], coeffs[1])
    ensures p == 2 && |s| > 2 ==>
              if Degenerate(Gamma(s, 0), Gamma(s, 1)) then coeffs == [0.0, 0.0]
              else Solves2(Gamma(s, 0), Gamma(s, 1), Gamma(s, 2), coeffs[0], coeffs[1])
  {
    var n := |s|;
    if n <= p { return Zeros(p); }
    var gamma := AutocovariancesUpTo(s, p);
    GammasAreAutocovariances(s);
    if p == 1 {
      var g0, g1 := gamma[0], gamma[1];
      var phi := Solve1(g0, g1, Gamma(s, 2));
      return [phi];
    }
    if p == 2 {
      var g0, g1, g2 := gamma[0], gamma[1], gamma[2];
      assert g0 == Gamma(s, 0) && g1 == Gamma(s, 1) && g2 == Gamma(s, 2);
      var phi1, phi2 := Solve2(g0, g1, g2);
      return [phi1, phi2];
    }
    return Zeros(p);
  }

  // ---------------------------------------------------------------------------------------
  // The forecast
  // ---------------------------------------------------------------------------------------

  /** The contribution of coefficient i to the prediction after `history`. */
  ghost function Term(history: seq<real>, coeffs: seq<real>, m: real): int -> real {
    i => if 0 <= i < |coeffs| && i < |history| then coeffs[i] * (history[|history| - 1 - i] - m) else 0.0
  }

  ghost function Predict(history: seq<real>, coeffs: seq<real>, m: real): real {
    m + Sum(|coeffs|, Term(history, coeffs, m))
  }

  /** Each forecast is the prediction from the series and the forecasts before it. */
  ghost predicate Forecasts(s: seq<real>, coeffs: seq<real>, fs: seq<real>) {
    forall k | 0 <= k < |fs| :: fs[k] == Predict(s + fs[..k], coeffs, MeanOf(s))
  }

  lemma TermAdded(history: seq<real>, coeffs: seq<real>, m: real, i: nat)
    requires i < |coeffs|
    ensures Sum(i + 1, Term(history, coeffs, m)) == Sum(i, Term(history, coeffs, m)) +
            if i < |history| then coeffs[i] * (history[|history| - 1 - i] - m) else 0.0
  {}

  /** The inner loop: one prediction. */
  method PredictNext(history: seq<real>, coeffs: seq<real>, m: real) returns (pred: real)
    ensures pred == Predict(history, coeffs, m)
  {
    pred := m;
    for i := 0 to |coeffs|
      invariant pred == m + Sum(i, Term(history, coeffs, m))
    {
      TermAdded(history, coeffs, m, i);
      var idx := |history| - 1 - i;
      if idx >= 0 { pred := pred + coeffs[i] * (history[idx] - m); }
    }
  }

  method Forecast(s: seq<real>, coeffs: seq<real>, steps: nat) returns (fs: seq<real>)
    ensures |fs| == steps && Forecasts(s, coeffs, fs)
  {
    fs := [];
    var history := s;
    var m := Mean(s);
    for k := 0 to steps
      invariant |fs| == k && Forecasts(s, coeffs, fs) && history == s + fs
    {
      var pred := PredictNext(history, coeffs, m);
      ForecastsExtend(s, coeffs, fs, pred);
      fs := fs + [pred];
      history := history + [pred];
    }
  }

  lemma ForecastsExtend(s: seq<real>, coeffs: seq<real>, fs: seq<real>, pred: real)
    requires Forecasts(s, coeffs, fs) && pred == Predict(s + fs, coeffs, MeanOf(s))
    ensures Forecasts(s, coeffs, fs + [pred])
  {
    var gs := fs + [pred];
    forall k | 0 <= k < |gs| ensures gs[k] == Predict(s + gs[..k], coeffs, MeanOf(s)) {
      assert gs[..k] == fs[..k];
      if k == |fs| { assert fs[..k] == fs; }
    }
  }

  /** The value forecast k starts from. */
  function Previous(fs: seq<real>, last: real, k: nat): real
    requires k < |fs|
  {
    if k == 0 then last else fs[k - 1]
  }

  /** `next` is phi times as far from m as `prev`. */
  ghost predicate Scaled(phi: real, m: real, prev: real, next: real) { next - m == phi * (prev - m) }

  /** v is phi^k times as far from m as `last`. */
  ghost predicate AtPower(phi: real, k: nat, m: real, last: real, v: real) {
    v == m + Pow(phi, k) * (last - m)
  }

  lemma PredictOne(h: seq<real>, phi: real, m: real)
    requires h != []
    ensures Predict(h, [phi], m) == m + phi * (h[|h| - 1] - m)
  {
    var f := Term(h, [phi], m);
    assert Sum(1, f) == Sum(0, f) + f(0) && f(0) == phi * (h[|h| - 1] - m);
  }

  /** With one coefficient each forecast keeps the fraction phi of the previous distance from the mean. */
  lemma Ar1Recurrence(s: seq<real>, phi: real, fs: seq<real>, k: nat)
    requires s != [] && Forecasts(s, [phi], fs) && k < |fs|
    ensures Scaled(phi, MeanOf(s), Previous(fs, s[|s| - 1], k), fs[k])
  {
    var h := s + fs[..k];
    assert h[|h| - 1] == Previous(fs, s[|s| - 1], k);
    PredictOne(h, phi, MeanOf(s));
  }

  lemma NextPower(phi: real, k: nat, m: real, last: real, prev: real, next: real)
    requires AtPower(phi, k, m, last, prev) && Scaled(phi, m, prev, next)
    ensures AtPower(phi, k + 1, m, last, next)
  {
    Chain(phi, Pow(phi, k), last - m, prev - m, next - m);
  }

  lemma Chain(phi: real, power: real, d: real, previous: real, next: real)
    requires previous == power * d && next == phi * previous
    ensures next == (power * phi) * d
  {}

  /** Step k of an AR(1) forecast is m + phi^(k+1) (last - m). */
  lemma {:induction false} Ar1ClosedForm(s: seq<real>, phi: real, fs: seq<real>, k: nat)
    requires s != [] && Forecasts(s, [phi], fs) && k < |fs|
    ensures AtPower(phi, k + 1, MeanOf(s), s[|s| - 1], fs[k])
  {
    var m, last := MeanOf(s), s[|s| - 1];
    assert AtPower(phi, k, m, last, Previous(fs, last, k)) by {
      if k > 0 { Ar1ClosedForm(s, phi, fs, k - 1); }
    }
    assert Scaled(phi, m, Previous(fs, last, k), fs[k]) by { Ar1Recurrence(s, phi, fs, k); }
    NextPower(phi, k, m, last, Previous(fs, last, k), fs[k]);
  }

  /** So a forecast never moves away from the mean. */
  lemma Ar1Contracts(s: seq<real>, phi: real, fs: seq<real>, k: nat)
    requires s != [] && Forecasts(s, [phi], fs) && k < |fs| && -1.0 <= phi <= 1.0
    ensures Abs(fs[k] - MeanOf(s)) <= Abs(Previous(fs, s[|s| - 1], k) - MeanOf(s))
  {
    assert Scaled(phi, MeanOf(s), Previous(fs, s[|s| - 1], k), fs[k]) by { Ar1Recurrence(s, phi, fs, k); }
    ScaledDown(phi, MeanOf(s), Previous(fs, s[|s| - 1], k), fs[k]);
  }

  lemma ProductNonNegative(a: real, b: real, p: real)
    requires a >= 0.0 && b >= 0.0 && p == a * b
    ensures p >= 0.0
  {}

  lemma ScaledDown(phi: real, m: real, prev: real, next: real)
    requires -1.0 <= phi <= 1.0 && Scaled(phi, m, prev, next)
    ensures Abs(next - m) <= Abs(prev - m)
  {
    var d := prev - m;
    var a, b := (1.0 - phi) * Abs(d), (1.0 + phi) * Abs(d);
    ProductNonNegative(1.0 - phi, Abs(d), a);
    ProductNonNegative(1.0 + phi, Abs(d), b);
    assert phi * Abs(d) == Abs(d) - a == b - Abs(d);
  }

  // Order 2

  /** A quadratic form in two successive distances from the mean. */
  ghost function Energy(g0: real, g1: real, a: real, b: real): real {
    g0 * (a * a) - 2.0 * (g1 * (a * b)) + g0 * (b * b)
  }

  lemma SquareShrinks(phi: real, d: real, e: real)
    requires -1.0 < phi < 1.0 && e == phi * d
    ensures e * e <= d * d
  {
    var a, b := (1.0 - phi) * (1.0 + phi), d * d;
    ProductNonNegative(1.0 - phi, 1.0 + phi, a);
    SquareSign(d);
    ProductNonNegative(a, b, a * b);
    assert e * e == phi * phi * b && a == 1.0 - phi * phi;
    assert a * b == b - e * e;
  }

  /** Completing the square: g0 times the energy is a square and a part that only depends on the first distance. */
  lemma EnergySplits(g0: real, g1: real, a: real, b: real)
    ensures g0 * Energy(g0, g1, a, b) == (g0 * b - g1 * a) * (g0 * b - g1 * a) + (g0 * g0 - g1 * g1) * (a * a)
    ensures Energy(g0, g1, a, b) == Energy(g0, g1, b, a)
  {
    assert g0 * (g0 * (a * a)) == g0 * g0 * (a * a);
    assert g0 * (g1 * (a * b)) == (g0 * b) * (g1 * a);
    assert g0 * (g0 * (b * b)) == (g0 * b) * (g0 * b);
    assert g1 * g1 * (a * a) == (g1 * a) * (g1 * a);
  }

  /** `next` is the order-2 combination of the two distances before it. */
  ghost predicate Combined(phi1: real, phi2: real, a: real, b: real, next: real) { next == phi1 * a + phi2 * b }

  /** The first Yule-Walker equation of order 2. */
  ghost predicate Balanced(g0: real, g1: real, phi1: real, phi2: real) { phi1 * g0 + phi2 * g1 == g1 }

  lemma NextDeviation(g0: real, g1: real, phi1: real, phi2: real, a: real, b: real, c: real)
    requires Balanced(g0, g1, phi1, phi2) && Combined(phi1, phi2, a, b, c)
    ensures g0 * c - g1 * a == phi2 * (g0 * b - g1 * a)
  {
    assert g0 * c == (phi1 * g0) * a + phi2 * (g0 * b);
    assert (phi1 * g0) * a == g1 * a - phi2 * (g1 * a) by { assert phi1 * g0 == g1 - phi2 * g1; }
  }

  lemma CancelPositive(d: real, a: real, b: real)
    requires d > 0.0 && d * a <= d * b
    ensures a <= b
  {
    if a > b { ProductPositive(d, a - b, d * (a - b)); }
  }

  /** A Yule-Walker step of a stationary model never raises the energy. */
  lemma EnergyFalls(g0: real, g1: real, phi1: real, phi2: real, a: real, b: real, c: real)
    requires g0 > 0.0 && Stationary2(phi1, phi2) && Balanced(g0, g1, phi1, phi2) && Combined(phi1, phi2, a, b, c)
    ensures Energy(g0, g1, c, a) <= Energy(g0, g1, a, b)
  {
    EnergySplits(g0, g1, a, b);
    EnergySplits(g0, g1, a, c);
    NextDeviation(g0, g1, phi1, phi2, a, b, c);
    SquareShrinks(phi2, g0 * b - g1 * a, g0 * c - g1 * a);
    CancelPositive(g0, Energy(g0, g1, a, c), Energy(g0, g1, a, b));
  }

  /** The energy bounds both distances: it is positive definite. */
  lemma EnergyBounds(g0: real, g1: real, a: real, b: real)
    requires g0 > 0.0
    ensures (g0 * g0 - g1 * g1) * (a * a) <= g0 * Energy(g0, g1, a, b)
  {
    EnergySplits(g0, g1, a, b);
    SquareNonNegative(g0 * b - g1 * a, (g0 * b - g1 * a) * (g0 * b - g1 * a));
  }

  lemma SquareNonNegative(x: real, s: real)
    requires s == x * x
    ensures s >= 0.0
  {
    SquareSign(x);
  }

  lemma PredictTwo(h: seq<real>, phi1: real, phi2: real, m: real, a: real, b: real)
    requires |h| >= 2 && a == h[|h| - 1] - m && b == h[|h| - 2] - m
    ensures Combined(phi1, phi2, a, b, Predict(h, [phi1, phi2], m) - m)
  {
    var coeffs := [phi1, phi2];
    TermAdded(h, coeffs, m, 0);
    TermAdded(h, coeffs, m, 1);
    assert Sum(0, Term(h, coeffs, m)) == 0.0;
  }

  /** How far the i-th value is from m. */
  ghost function Distance(h: seq<real>, m: real, i: nat): real
    requires i < |h|
  {
    h[i] - m
  }

  /** The energy of the i-th value of a series and the one before it. */
  ghost function EnergyAt(h: seq<real>, g0: real, g1: real, m: real, i: nat): real
    requires 0 < i < |h|
  {
    Energy(g0, g1, Distance(h, m, i), Distance(h, m, i - 1))
  }

  lemma Ar2Recurrence(s: seq<real>, phi1: real, phi2: real, fs: seq<real>, k: nat, h: seq<real>, i: nat, m: real)
    requires |s| >= 2 && Forecasts(s, [phi1, phi2], fs) && k < |fs|
    requires h == s + fs && i == |s| + k && m == MeanOf(s)
    ensures Combined(phi1, phi2, Distance(h, m, i - 1), Distance(h, m, i - 2), Distance(h, m, i))
  {
    var past := s + fs[..k];
    assert past == h[..i];
    PredictTwo(past, phi1, phi2, m, Distance(h, m, i - 1), Distance(h, m, i - 2));
    assert h[i] == fs[k] == Predict(past, [phi1, phi2], m);
  }

  /** With the fitted coefficients no forecast has more energy than the one before. */
  lemma Ar2Contracts(s: seq<real>, g0: real, g1: real, phi1: real, phi2: real, fs: seq<real>, k: nat)
    requires |s| >= 2 && Forecasts(s, [phi1, phi2], fs) && k < |fs|
    requires g0 > 0.0 && Stationary2(phi1, phi2) && Balanced(g0, g1, phi1, phi2)
    ensures EnergyAt(s + fs, g0, g1, MeanOf(s), |s| + k) <= EnergyAt(s + fs, g0, g1, MeanOf(s), |s| + k - 1)
  {
    var h, i, m := s + fs, |s| + k, MeanOf(s);
    Ar2Recurrence(s, phi1, phi2, fs, k, h, i, m);
    EnergyFalls(g0, g1, phi1, phi2, Distance(h, m, i - 1), Distance(h, m, i - 2), Distance(h, m, i));
  }

  /** So all forecasts stay within an ellipse fixed by the last two observations. */
  lemma {:induction false} Ar2Bounded(s: seq<real>, g0: real, g1: real, phi1: real, phi2: real, fs: seq<real>, k: nat)
    requires |s| >= 2 && Forecasts(s, [phi1, phi2], fs) && k < |fs|
    requires g0 > 0.0 && Stationary2(phi1, phi2) && Balanced(g0, g1, phi1, phi2)
    ensures EnergyAt(s + fs, g0, g1, MeanOf(s), |s| + k) <= EnergyAt(s, g0, g1, MeanOf(s), |s| - 1)
  {
    Ar2Contracts(s, g0, g1, phi1, phi2, fs, k);
    if k > 0 { Ar2Bounded(s, g0, g1, phi1, phi2, fs, k - 1); }
  }

  lemma PredictNothing(h: seq<real>, m: real)
    ensures Predict(h, [0.0, 0.0], m) == m
  {
    TermAdded(h, [0.0, 0.0], m, 0);
    TermAdded(h, [0.0, 0.0], m, 1);
    assert Sum(0, Term(h, [0.0, 0.0], m)) == 0.0;
  }

  /** A distance e that some energy up to `most` allows. */
  ghost predicate Within(g0: real, g1: real, e: real, most: real) { (g0 * g0 - g1 * g1) * (e * e) <= g0 * most }

  lemma EnergyLimits(g0: real, g1: real, e: real, b: real, most: real)
    requires g0 > 0.0 && Energy(g0, g1, e, b) <= most
    ensures Within(g0, g1, e, most)
  {
    EnergyBounds(g0, g1, e, b);
    ScaleUp(g0, Energy(g0, g1, e, b), most);
  }

  lemma ScaleUp(d: real, a: real, b: real)
    requires d > 0.0 && a <= b
    ensures d * a <= d * b
  {
    ProductNonNegative(d, b - a, d * (b - a));
  }

  /** Forecast k has no more energy than what came before it, and lies within the ellipse of the observations. */
  ghost predicate Settles(s: seq<real>, fs: seq<real>, g0: real, g1: real, m: real, k: nat)
    requires |s| >= 2 && k < |fs|
  {
    && EnergyAt(s + fs, g0, g1, m, |s| + k) <= EnergyAt(s + fs, g0, g1, m, |s| + k - 1)
    && Within(g0, g1, Distance(fs, m, k), EnergyAt(s, g0, g1, m, |s| - 1))
  }

  lemma ForecastSettles(s: seq<real>, g0: real, g1: real, phi1: real, phi2: real, fs: seq<real>, k: nat, m: real)
    requires |s| >= 2 && Forecasts(s, [phi1, phi2], fs) && k < |fs| && m == MeanOf(s)
    requires g0 > 0.0 && Stationary2(phi1, phi2) && Balanced(g0, g1, phi1, phi2)
    ensures Settles(s, fs, g0, g1, m, k)
  {
    var h, i := s + fs, |s| + k;
    Ar2Contracts(s, g0, g1, phi1, phi2, fs, k);
    Ar2Bounded(s, g0, g1, phi1, phi2, fs, k);
    EnergyLimits(g0, g1, Distance(h, m, i), Distance(h, m, i - 1), EnergyAt(s, g0, g1, m, |s| - 1));
    assert Distance(h, m, i) == Distance(fs, m, k);
  }

  lemma ZeroModelForecastsMean(s: seq<real>, fs: seq<real>)
    requires Forecasts(s, [0.0, 0.0], fs)
    ensures forall k | 0 <= k < |fs| :: fs[k] == MeanOf(s)
  {
    forall k | 0 <= k < |fs| ensures fs[k] == MeanOf(s) { PredictNothing(s + fs[..k], MeanOf(s)); }
  }

  lemma NotDegenerate(g0: real, g1: real, g2: real)
    requires Autocovariances(g0, g1, g2) && !Degenerate(g0, g1)
    ensures g0 > 0.0
  {}

  lemma SolutionIsBalanced(g0: real, g1: real, g2: real, phi1: real, phi2: real)
    requires Solves2(g0, g1, g2, phi1, phi2)
    ensures Balanced(g0, g1, phi1, phi2)
  {}

  /** What the forecasts of a fitted order-2 model do, with g0 and g1 the autocovariances of the series. */
  lemma FittedForecastsSettle(s: seq<real>, phi1: real, phi2: real, fs: seq<real>, g0: real, g1: real, g2: real)
    requires |s| >= 2 && Forecasts(s, [phi1, phi2], fs) && Autocovariances(g0, g1, g2) && !Degenerate(g0, g1)
    requires Stationary2(phi1, phi2) && Solves2(g0, g1, g2, phi1, phi2)
    ensures forall k | 0 <= k < |fs| :: Settles(s, fs, g0, g1, MeanOf(s), k)
  {
    NotDegenerate(g0, g1, g2);
    SolutionIsBalanced(g0, g1, g2, phi1, phi2);
    forall k | 0 <= k < |fs| ensures Settles(s, fs, g0, g1, MeanOf(s), k) {
      ForecastSettles(s, g0, g1, phi1, phi2, fs, k, MeanOf(s));
    }
  }

  /**
    The forecast endpoint for order 2. The fitted model is stationary; unless the fit gave up, no forecast
    raises the energy of the deviations, so all stay within the ellipse of the last two observations; and
    if it did, every forecast is the mean.
  */
  method ForecastOrder2(s: seq<real>, steps: nat) returns (phi1: real, phi2: real, fs: seq<real>)
    ensures Stationary2(phi1, phi2) && |fs| == steps
    ensures |s| <= 2 || Degenerate(Gamma(s, 0), Gamma(s, 1)) ==> forall k | 0 <= k < steps :: fs[k] == MeanOf(s)
    ensures |s| > 2 && !Degenerate(Gamma(s, 0), Gamma(s, 1)) ==>
              && Solves2(Gamma(s, 0), Gamma(s, 1), Gamma(s, 2), phi1, phi2)
              && forall k | 0 <= k < steps :: Settles(s, fs, Gamma(s, 0), Gamma(s, 1), MeanOf(s), k)
  {
    var coeffs := ArFit(s, 2);
    fs := Forecast(s, coeffs, steps);
    phi1, phi2 := coeffs[0], coeffs[1];
    assert coeffs == [phi1, phi2];
    if |s| <= 2 || Degenerate(Gamma(s, 0), Gamma(s, 1)) {
      assert coeffs == [0.0, 0.0];
      ZeroModelForecastsMean(s, fs);
    } else {
      GammasAreAutocovariances(s);
      FittedForecastsSettle(s, phi1, phi2, fs, Gamma(s, 0), Gamma(s, 1), Gamma(s, 2));
    }
  }

  /**
    The forecast endpoint for order 1, fit and forecast chained: every forecast is
    m + phi^(k+1) (last - m) for a fitted |phi| < 1, so none is farther from the mean than the one before.
  */
  method ForecastOrder1(s: seq<real>, steps: nat) returns (phi: real, fs: seq<real>)
    requires s != []
    ensures -1.0 < phi < 1.0 && |fs| == steps
    ensures |s| > 1 ==> Solves1(Gamma(s, 0), Gamma(s, 1), phi)
    ensures forall k | 0 <= k < steps :: AtPower(phi, k + 1, MeanOf(s), s[|s| - 1], fs[k])
    ensures forall k | 0 <= k < steps :: Abs(fs[k] - MeanOf(s)) <= Abs(Previous(fs, s[|s| - 1], k) - MeanOf(s))
  {
    var coeffs := ArFit(s, 1);
    fs := Forecast(s, coeffs, steps);
    phi := coeffs[0];
    assert coeffs == [phi];
    forall k | 0 <= k < steps
      ensures AtPower(phi, k + 1, MeanOf(s), s[|s| - 1], fs[k])
      ensures Abs(fs[k] - MeanOf(s)) <= Abs(Previous(fs, s[|s| - 1], k) - MeanOf(s))
    {
      Ar1ClosedForm(s, phi, fs, k);
      Ar1Contracts(s, phi, fs, k);
    }
  }
}
