/**
  Sample covariance and portfolio variance of core-cpp/src/matrix.cpp, over exact reals.
*/
module Covariance {
  import opened RealSums
  import opened Matrix

  // ---------------------------------------------------------------------------------------
  // What the numbers mean
  // ---------------------------------------------------------------------------------------

  ghost function Mean(T: nat, s: int -> real): real
    requires T > 0
  {
    Sum(T, s) * (1.0 / T as real)
  }

  /** The series with its mean subtracted. */
  ghost function Centred(T: nat, s: int -> real): int -> real
    requires T > 0
  {
    t => s(t) - Mean(T, s)
  }

  /** The unbiased sample variance of a series. */
  ghost function SampleVariance(T: nat, s: int -> real): real
    requires T >= 2
  {
    Dot(T, Centred(T, s), Centred(T, s)) * (1.0 / (T - 1) as real)
  }

  /** Row i of the returns matrix with its mean subtracted. */
  ghost function Deviations(r: Mat, T: nat): Mat
    requires T > 0
  {
    (i, t) => r(i, t) - Mean(T, Row(r, i))
  }

  ghost function CovarianceOf(r: Mat, T: nat): Mat
    requires T >= 2
  {
    (i, j) => Dot(T, Row(Deviations(r, T), i), Row(Deviations(r, T), j)) * (1.0 / (T - 1) as real)
  }

  /** The return of the whole portfolio in each period: the weighted sum over its assets. */
  ghost function PortfolioSeries(r: Mat, assets: nat, w: int -> real): int -> real {
    ApplyTransposed(r, assets, w)
  }

  // ---------------------------------------------------------------------------------------
  // w^T S w is the variance of the portfolio series
  // ---------------------------------------------------------------------------------------

  lemma DotScale(n: nat, f: int -> real, g: int -> real, x: int -> real, c: real)
    requires forall j | 0 <= j < n :: g(j) == f(j) * c
    ensures Dot(n, g, x) == c * Dot(n, f, x)
  {
    var u: int -> real := j => f(j) * x(j);
    var v: int -> real := j => g(j) * x(j);
    forall j | 0 <= j < n ensures v(j) == c * u(j) {
      assert (f(j) * c) * x(j) == c * (f(j) * x(j));
    }
    SumScale(n, c, u, v);
  }

  lemma QuadScale(a: Mat, b: Mat, n: nat, x: int -> real, c: real)
    requires forall i, j | 0 <= i < n && 0 <= j < n :: b(i, j) == a(i, j) * c
    ensures Quad(b, n, x) == c * Quad(a, n, x)
  {
    forall i | 0 <= i < n ensures Apply(b, n, x)(i) == Apply(a, n, x)(i) * c {
      ApplyScale(a, b, n, x, c, i);
    }
    DotScaleRight(n, Apply(a, n, x), Apply(b, n, x), x, c);
  }

  lemma DotScaleRight(n: nat, f: int -> real, g: int -> real, x: int -> real, c: real)
    requires forall j | 0 <= j < n :: g(j) == f(j) * c
    ensures Dot(n, x, g) == c * Dot(n, x, f)
  {
    DotScale(n, f, g, x, c);
    DotCommutes(n, x, f);
    DotCommutes(n, x, g);
  }

  lemma ApplyScale(a: Mat, b: Mat, n: nat, x: int -> real, c: real, i: int)
    requires 0 <= i < n && forall j | 0 <= j < n :: b(i, j) == a(i, j) * c
    ensures Apply(b, n, x)(i) == Apply(a, n, x)(i) * c
  {
    DotScale(n, Row(a, i), Row(b, i), x, c);
  }

  lemma Rotate(x: real, c: real, y: real)
    ensures x * (c * y) == c * (x * y)
  {}

  ghost predicate Ones(ones: int -> real) { forall t :: ones(t) == 1.0 }

  /** A sum is an inner product with a vector of ones. */
  lemma SumIsDot(n: nat, f: int -> real, ones: int -> real)
    requires Ones(ones)
    ensures Sum(n, f) == Dot(n, f, ones)
  {
    SumCongruence(n, f, t => f(t) * ones(t));
  }

  lemma WeightedRowMean(r: Mat, T: nat, w: real, ones: int -> real, i: int, inv: real)
    requires T > 0 && Ones(ones) && inv == 1.0 / T as real
    ensures Mean(T, Row(r, i)) * w == inv * (w * Apply(r, T, ones)(i))
  {
    SumIsDot(T, Row(r, i), ones);
    Rotate(w, inv, Sum(T, Row(r, i)));
  }

  /** Asset i's mean, weighted. */
  ghost function WeightedMeans(r: Mat, T: nat, w: int -> real): int -> real
    requires T > 0
  {
    i => Mean(T, Row(r, i)) * w(i)
  }

  lemma MeansAreRowSums(r: Mat, assets: nat, T: nat, w: int -> real, ones: int -> real, inv: real)
    requires T > 0 && Ones(ones) && inv == 1.0 / T as real
    ensures Sum(assets, WeightedMeans(r, T, w)) == inv * Dot(assets, w, Apply(r, T, ones))
  {
    var f: int -> real := i => w(i) * Apply(r, T, ones)(i);
    var g := WeightedMeans(r, T, w);
    forall i ensures g(i) == inv * f(i) { WeightedRowMean(r, T, w(i), ones, i, inv); }
    SumScale(assets, inv, f, g);
  }

  /** The mean of the portfolio series is the weighted sum of the asset means. */
  lemma PortfolioMean(r: Mat, assets: nat, T: nat, w: int -> real)
    requires T > 0
    ensures Mean(T, PortfolioSeries(r, assets, w)) == Sum(assets, WeightedMeans(r, T, w))
  {
    var ones: int -> real := t => 1.0;
    var s, inv := PortfolioSeries(r, assets, w), 1.0 / T as real;
    MeansAreRowSums(r, assets, T, w, ones, inv);
    Adjoint(r, assets, T, w, ones);
    SumIsDot(T, s, ones);
    Commutes(inv, Sum(T, s));
  }

  /** Combining the deviations of the assets gives the centred portfolio series. */
  lemma CentredPortfolio(r: Mat, assets: nat, T: nat, w: int -> real, t: int)
    requires T > 0
    ensures ApplyTransposed(Deviations(r, T), assets, w)(t) == Centred(T, PortfolioSeries(r, assets, w))(t)
  {
    var f: int -> real := i => Column(Deviations(r, T), t)(i) * w(i);
    var g := WeightedMeans(r, T, w);
    var h: int -> real := i => Column(r, t)(i) * w(i);
    forall i ensures h(i) == f(i) + g(i) {
      assert Column(Deviations(r, T), t)(i) == r(i, t) - Mean(T, Row(r, i));
    }
    SumAdd(assets, f, g, h);
    PortfolioMean(r, assets, T, w);
  }

  /** The inner products of the rows of d over T columns. */
  ghost function Gram(d: Mat, T: nat): Mat { (i, j) => Dot(T, Row(d, i), Row(d, j)) }

  lemma CovarianceIsScaledGram(r: Mat, assets: nat, T: nat, w: int -> real, c: real)
    requires T >= 2 && c == 1.0 / (T - 1) as real
    ensures Quad(CovarianceOf(r, T), assets, w) == c * Quad(Gram(Deviations(r, T), T), assets, w)
  {
    var gram, cov := Gram(Deviations(r, T), T), CovarianceOf(r, T);
    forall i, j | 0 <= i < assets && 0 <= j < assets ensures cov(i, j) == gram(i, j) * c {
      ScaledEntry(r, T, i, j, c);
    }
    QuadScale(gram, cov, assets, w, c);
  }

  lemma ScaledEntry(r: Mat, T: nat, i: int, j: int, c: real)
    requires T >= 2 && c == 1.0 / (T - 1) as real
    ensures CovarianceOf(r, T)(i, j) == Gram(Deviations(r, T), T)(i, j) * c
  {}

  /** The quadratic form of the Gram matrix is the energy of the centred portfolio series. */
  lemma GramIsCentredEnergy(r: Mat, assets: nat, T: nat, w: int -> real)
    requires T > 0
    ensures var s := Centred(T, PortfolioSeries(r, assets, w));
            Quad(Gram(Deviations(r, T), T), assets, w) == Dot(T, s, s)
  {
    var d := Deviations(r, T);
    QuadOfGram(Gram(d, T), assets, d, T, w);
    var y, s := ApplyTransposed(d, assets, w), Centred(T, PortfolioSeries(r, assets, w));
    forall t | 0 <= t < T ensures y(t) == s(t) { CentredPortfolio(r, assets, T, w, t); }
    DotCongruence(T, y, y, s, s);
  }

  lemma PortfolioVarianceIsSampleVariance(r: Mat, assets: nat, T: nat, w: int -> real)
    requires T >= 2
    ensures Quad(CovarianceOf(r, T), assets, w) == SampleVariance(T, PortfolioSeries(r, assets, w))
  {
    var c := 1.0 / (T - 1) as real;
    var s := Centred(T, PortfolioSeries(r, assets, w));
    CovarianceIsScaledGram(r, assets, T, w, c);
    GramIsCentredEnergy(r, assets, T, w);
    Commutes(c, Dot(T, s, s));
  }

  lemma Commutes(a: real, b: real)
    ensures a * b == b * a
  {}

  /** A sample covariance matrix is symmetric and positive semidefinite. */
  lemma CovarianceIsSemidefinite(r: Mat, assets: nat, T: nat)
    requires T >= 2
    ensures Symmetric(CovarianceOf(r, T), assets)
    ensures PositiveSemidefinite(CovarianceOf(r, T), assets)
  {
    var d := Deviations(r, T);
    forall i, j | 0 <= i < assets && 0 <= j < assets
      ensures CovarianceOf(r, T)(i, j) == CovarianceOf(r, T)(j, i)
    {
      DotCommutes(T, Row(d, i), Row(d, j));
    }
    forall w: int -> real ensures Quad(CovarianceOf(r, T), assets, w) >= 0.0 {
      PortfolioVarianceIsSampleVariance(r, assets, T, w);
      SampleVarianceNonNegative(T, PortfolioSeries(r, assets, w));
    }
  }

  lemma SampleVarianceNonNegative(T: nat, s: int -> real)
    requires T >= 2
    ensures SampleVariance(T, s) >= 0.0
  {
    DotSelf(T, Centred(T, s));
    assert 1.0 / (T - 1) as real > 0.0;
  }

  // ---------------------------------------------------------------------------------------
  // The loops
  // ---------------------------------------------------------------------------------------

  ghost function Vec(s: seq<real>): int -> real {
    i => if 0 <= i < |s| then s[i] else 0.0
  }

  ghost predicate MeansOf(means: seq<real>, r: Mat, T: nat)
    requires T > 0
  {
    forall k | 0 <= k < |means| :: means[k] == Mean(T, Row(r, k))
  }

  /** The mean of one asset's row. */
  method RowMean(series: array<real>, assets: nat, T: nat, i: nat) returns (mean: real)
    requires T >= 2 && assets * T <= series.Length && i < assets
    ensures mean == Mean(T, Row(AsMat(series[..], T), i))
  {
    ghost var r := Row(AsMat(series[..], T), i);
    var row := i * T;
    RowCells(series[..], assets, T, i, row);
    var sum := 0.0;
    for t := 0 to T
      invariant sum == Sum(t, r)
    {
      assert r(t) == series[row + t];
      sum := sum + series[row + t];
    }
    mean := sum * (1.0 / T as real);
  }

  /** The per-asset means. */
  method ComputeMeans(series: array<real>, assets: nat, T: nat) returns (means: array<real>)
    requires T >= 2 && assets * T <= series.Length
    ensures fresh(means) && means.Length == assets
    ensures MeansOf(means[..], AsMat(series[..], T), T)
  {
    means := new real[assets];
    for i := 0 to assets
      invariant forall k | 0 <= k < i :: means[k] == Mean(T, Row(AsMat(series[..], T), k))
    {
      var mean := RowMean(series, assets, T, i);
      means[i] := mean;
    }
  }

  /** One entry of the covariance matrix. */
  method ComputeEntry(series: array<real>, assets: nat, T: nat, means: array<real>, i: nat, j: nat) returns (cov: real)
    requires T >= 2 && assets * T <= series.Length && i < assets && j < assets && means.Length == assets
    requires MeansOf(means[..], AsMat(series[..], T), T)
    ensures cov == CovarianceOf(AsMat(series[..], T), T)(i, j)
  {
    ghost var r := AsMat(series[..], T);
    ghost var di, dj := Row(Deviations(r, T), i), Row(Deviations(r, T), j);
    var rowI, rowJ := i * T, j * T;
    RowCells(series[..], assets, T, i, rowI);
    RowCells(series[..], assets, T, j, rowJ);
    var meanI, meanJ := means[i], means[j];
    cov := 0.0;
    for t := 0 to T
      invariant cov == Dot(t, di, dj)
    {
      var x, y := series[rowI + t] - meanI, series[rowJ + t] - meanJ;
      assert x == di(t) by { assert di(t) == Row(r, i)(t) - meanI; }
      assert y == dj(t) by { assert dj(t) == Row(r, j)(t) - meanJ; }
      DotStep(t, di, dj, x, y);
      cov := cov + x * y;
    }
    cov := cov * (1.0 / (T - 1) as real);
  }

  /** The entries filled when the loops stand at row i, column j: the upper triangle and its mirror. */
  ghost predicate Filled(s: Mat, c: Mat, n: nat, i: int, j: int) {
    forall p, q | 0 <= p <= q < n && (p < i || (p == i && q < j)) :: s(p, q) == c(p, q) && s(q, p) == c(q, p)
  }

  lemma FillPair(before: seq<real>, n: nat, c: Mat, i: nat, j: nat, v: real)
    requires i <= j < n && n * n <= |before| && Symmetric(c, n) && v == c(i, j)
    requires Filled(AsMat(before, n), c, n, i, j)
    ensures 0 <= i * n + j < n * n && 0 <= j * n + i < n * n
    ensures Filled(AsMat(before[i * n + j := v][j * n + i := v], n), c, n, i, j + 1)
  {
    IndexInBounds(n, n, i, j);
    IndexInBounds(n, n, j, i);
    var middle := before[i * n + j := v];
    var after := middle[j * n + i := v];
    StoreCell(before, middle, n, n, i, j, v, 0.0);
    StoreCell(middle, after, n, n, j, i, v, 0.0);
    var s, s' := AsMat(before, n), AsMat(after, n);
    assert forall p, q | 0 <= p < n && 0 <= q < n ::
        s'(p, q) == if (p == i && q == j) || (p == j && q == i) then v else s(p, q);
  }

  /** Stores one entry of the upper triangle of c and its mirror image. */
  method StorePair(out: array<real>, n: nat, i: nat, j: nat, cov: real, ghost c: Mat)
    requires n * n <= out.Length && i <= j < n && Symmetric(c, n) && cov == c(i, j)
    requires Filled(AsMat(out[..], n), c, n, i, j)
    modifies out
    ensures Filled(AsMat(out[..], n), c, n, i, j + 1)
    ensures out[n * n..] == old(out[n * n..])
  {
    ghost var before := out[..];
    FillPair(before, n, c, i, j, cov);
    var upper, lower := i * n + j, j * n + i;
    out[upper] := cov;
    out[lower] := cov;
    assert out[..] == before[upper := cov][lower := cov];
  }

  /** The loops over the upper triangle. */
  method FillCovariance(series: array<real>, n: nat, T: nat, means: array<real>, out: array<real>)
    requires T >= 2 && n * T <= series.Length && n * n <= out.Length && means.Length == n
    requires out != series && out != means && MeansOf(means[..], AsMat(series[..], T), T)
    modifies out
    ensures Filled(AsMat(out[..], n), CovarianceOf(AsMat(series[..], T), T), n, n, n)
    ensures out[n * n..] == old(out[n * n..])
  {
    ghost var s, ms := series[..], means[..];
    ghost var c := CovarianceOf(AsMat(s, T), T);
    CovarianceIsSemidefinite(AsMat(s, T), n, T);
    for i := 0 to n
      invariant Filled(AsMat(out[..], n), c, n, i, i)
      invariant out[n * n..] == old(out[n * n..]) && series[..] == s && means[..] == ms
    {
      for j := i to n
        invariant Filled(AsMat(out[..], n), c, n, i, j)
        invariant out[n * n..] == old(out[n * n..]) && series[..] == s && means[..] == ms
      {
        var cov := ComputeEntry(series, n, T, means, i, j);
        StorePair(out, n, i, j, cov, c);
      }
    }
  }

  /** Fills the output with the sample covariance matrix; invalid arguments leave it untouched. */
  method CovarianceMatrix(series: array?<real>, assets: int, periods: int, out: array?<real>)
    requires series != null && out != null && assets > 0 && periods >= 2 ==>
               series != out && assets * periods <= series.Length && assets * assets <= out.Length
    modifies out
    ensures out != null && (series == null || assets <= 0 || periods < 2) ==> out[..] == old(out[..])
    ensures series != null && out != null && assets > 0 && periods >= 2 ==>
              var c := CovarianceOf(AsMat(series[..], periods), periods);
              && (forall i, j | 0 <= i < assets && 0 <= j < assets :: AsMat(out[..], assets)(i, j) == c(i, j))
              && out[assets * assets..] == old(out[assets * assets..])
  {
    if series == null || out == null || assets <= 0 || periods < 2 { return; }
    var means := ComputeMeans(series, assets, periods);
    ghost var s, ms := series[..], means[..];
    var size := assets * assets;
    forall k | 0 <= k < size { out[k] := 0.0; }
    assert series[..] == s && means[..] == ms;
    FillCovariance(series, assets, periods, means, out);
  }

  /** y = A x, row by row; invalid arguments leave y untouched. */
  method MatVecMul(a: array?<real>, m: int, n: int, x: array?<real>, y: array?<real>)
    requires a != null && x != null && y != null && m > 0 && n > 0 ==>
               y != a && y != x && m * n <= a.Length && n <= x.Length && m <= y.Length
    modifies y
    ensures y != null && (a == null || x == null || m <= 0 || n <= 0) ==> y[..] == old(y[..])
    ensures a != null && x != null && y != null && m > 0 && n > 0 ==>
              && (forall i | 0 <= i < m :: y[i] == Apply(AsMat(a[..], n), n, Vec(x[..]))(i))
              && y[m..] == old(y[m..])
  {
    if a == null || x == null || y == null || m <= 0 || n <= 0 { return; }
    for i := 0 to m
      invariant forall k | 0 <= k < i :: y[k] == Apply(AsMat(a[..], n), n, Vec(x[..]))(k)
      invariant y[m..] == old(y[m..])
    {
      var acc := RowTimes(a, m, n, x, i);
      y[i] := acc;
    }
  }

  /** The dot product of row i with x. */
  method RowTimes(a: array<real>, m: nat, n: nat, x: array<real>, i: nat) returns (acc: real)
    requires m * n <= a.Length && n <= x.Length && i < m
    ensures acc == Apply(AsMat(a[..], n), n, Vec(x[..]))(i)
  {
    ghost var r, v := Row(AsMat(a[..], n), i), Vec(x[..]);
    var row := i * n;
    RowCells(a[..], m, n, i, row);
    acc := 0.0;
    for j := 0 to n
      invariant acc == Dot(j, r, v)
    {
      assert r(j) == a[row + j] && v(j) == x[j];
      acc := acc + a[row + j] * x[j];
    }
  }

  /** The quadratic form w^T cov w; zero on invalid arguments. */
  method PortfolioVariance(cov: array?<real>, weights: array?<real>, assets: int) returns (v: real)
    requires cov != null && weights != null && assets > 0 ==>
               assets * assets <= cov.Length && assets <= weights.Length
    ensures cov == null || weights == null || assets <= 0 ==> v == 0.0
    ensures cov != null && weights != null && assets > 0 ==>
              v == Quad(AsMat(cov[..], assets), assets, Vec(weights[..]))
  {
    if cov == null || weights == null || assets <= 0 { return 0.0; }
    var tmp := new real[assets];
    ghost var A, w := AsMat(cov[..], assets), Vec(weights[..]);
    MatVecMul(cov, assets, assets, weights, tmp);
    v := DotProduct(weights, tmp, assets);
    DotCongruence(assets, w, Vec(tmp[..]), w, Apply(A, assets, w));
  }

  method DotProduct(x: array<real>, y: array<real>, n: nat) returns (v: real)
    requires n <= x.Length && n <= y.Length
    ensures v == Dot(n, Vec(x[..]), Vec(y[..]))
  {
    v := 0.0;
    for i := 0 to n
      invariant v == Dot(i, Vec(x[..]), Vec(y[..]))
    {
      v := v + x[i] * y[i];
    }
  }

  /**
    The two calls chained: the variance computed from the covariance matrix of the returns is the
    unbiased sample variance of the portfolio's own return series, and is never negative.
  */
  method PortfolioVarianceOfReturns(series: array<real>, assets: nat, periods: nat, weights: array<real>)
    returns (v: real)
    requires assets > 0 && periods >= 2 && assets * periods <= series.Length && assets <= weights.Length
    ensures v == SampleVariance(periods, PortfolioSeries(AsMat(series[..], periods), assets, Vec(weights[..])))
    ensures v >= 0.0
  {
    ghost var r, w := AsMat(series[..], periods), Vec(weights[..]);
    var cov := new real[assets * assets];
    CovarianceMatrix(series, assets, periods, cov);
    v := PortfolioVariance(cov, weights, assets);
    QuadCongruence(AsMat(cov[..], assets), CovarianceOf(r, periods), assets, w);
    PortfolioVarianceIsSampleVariance(r, assets, periods, w);
    SampleVarianceNonNegative(periods, PortfolioSeries(r, assets, w));
  }
}
