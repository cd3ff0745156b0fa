/**
  The Cholesky-Banachiewicz factorisation of core-cpp/src/matrix.cpp, over exact reals.

  The square root is a parameter: any function with s > 0 and s*s == d for every d > 0.
*/
module Cholesky {
  import opened RealSums
  import opened Matrix

  ghost predicate LowerTriangular(l: Mat, n: nat) {
    forall i, j | 0 <= i < j < n :: l(i, j) == 0.0
  }

  ghost predicate PositiveDiagonal(l: Mat, n: nat) {
    forall i | 0 <= i < n :: l(i, i) > 0.0
  }

  /** L is the Cholesky factor of the leading n x n block of A. */
  ghost predicate Factor(a: Mat, l: Mat, n: nat) {
    LowerTriangular(l, n) && PositiveDiagonal(l, n) && GramOf(a, n, l, n)
  }

  // ---------------------------------------------------------------------------------------
  // A factorised matrix is positive definite
  // ---------------------------------------------------------------------------------------

  /** The last non-zero component of x survives in L^T x. */
  lemma LastComponent(l: Mat, n: nat, x: int -> real, k: int)
    requires LowerTriangular(l, n) && PositiveDiagonal(l, n)
    requires 0 <= k < n && x(k) != 0.0
    requires forall i | k < i < n :: x(i) == 0.0
    ensures ApplyTransposed(l, n, x)(k) != 0.0
  {
    var f: int -> real := i => Column(l, k)(i) * x(i);
    forall i | k < i < n ensures f(i) == 0.0 { assert x(i) == 0.0; }
    SumTruncate(k + 1, n, f);
    forall i | 0 <= i < k ensures f(i) == 0.0 { assert l(i, k) == 0.0; }
    SumZero(k, f);
    assert Dot(n, Column(l, k), x) == f(k) == l(k, k) * x(k);
  }

  lemma {:induction false} LastNonZero(n: nat, x: int -> real) returns (k: int)
    requires NonZero(n, x)
    ensures 0 <= k < n && x(k) != 0.0 && forall i | k < i < n :: x(i) == 0.0
  {
    k := n - 1;
    while x(k) == 0.0
      invariant 0 <= k < n && forall i | k < i < n :: x(i) == 0.0
      decreases k
    {
      var w :| 0 <= w < n && x(w) != 0.0;
      assert w < k;
      k := k - 1;
    }
  }

  lemma FactorIsPositiveDefinite(a: Mat, l: Mat, n: nat)
    requires Factor(a, l, n)
    ensures PositiveDefinite(a, n)
  {
    forall x: int -> real | NonZero(n, x)
      ensures Quad(a, n, x) > 0.0
    {
      var k := LastNonZero(n, x);
      LastComponent(l, n, x, k);
      QuadOfGram(a, n, l, n, x);
      NormPositive(n, ApplyTransposed(l, n, x), k);
    }
  }

  /** A matrix has at most one factor, so the factor computed is the only one there is. */
  lemma {:induction false} FactorIsUnique(a: Mat, l: Mat, m: Mat, n: nat, i: nat, j: nat)
    requires Factor(a, l, n) && Factor(a, m, n) && i < n && j < n
    ensures l(i, j) == m(i, j)
    decreases i + j
  {
    if i < j { return; }
    forall t | 0 <= t < j ensures l(i, t) == m(i, t) && l(j, t) == m(j, t) {
      FactorIsUnique(a, l, m, n, i, t);
      FactorIsUnique(a, l, m, n, j, t);
    }
    DotCongruence(j, Row(l, i), Row(l, j), Row(m, i), Row(m, j));
    FactorCell(a, l, n, i, j);
    FactorCell(a, m, n, i, j);
    if j < i { FactorIsUnique(a, l, m, n, j, j); }
    SameFactor(l(i, j), l(j, j), m(i, j), m(j, j), i == j);
  }

  lemma FactorCell(a: Mat, l: Mat, n: nat, i: nat, j: nat)
    requires Factor(a, l, n) && j <= i < n
    ensures a(i, j) == Dot(j, Row(l, i), Row(l, j)) + l(i, j) * l(j, j)
  {
    var f: int -> real := t => Row(l, i)(t) * Row(l, j)(t);
    forall t | j + 1 <= t < n ensures f(t) == 0.0 { assert l(j, t) == 0.0; }
    SumTruncate(j + 1, n, f);
    DotStep(j, Row(l, i), Row(l, j), l(i, j), l(j, j));
  }

  lemma SameFactor(x: real, p: real, y: real, q: real, diagonal: bool)
    requires p > 0.0 && q > 0.0 && x * p == y * q
    requires if diagonal then x == p && y == q else p == q
    ensures x == y
  {
    if x < y { ProductPositive(y - x, p, (y - x) * p); }
    if y < x { ProductPositive(x - y, p, (x - y) * p); }
  }

  // ---------------------------------------------------------------------------------------
  // A non-positive pivot yields a vector on which the quadratic form is not positive
  // ---------------------------------------------------------------------------------------

  /** The transposed triangular system L^T y = b over the leading p x p block has a solution. */
  lemma BackSubstitute(l: Mat, p: nat, b: int -> real) returns (y: int -> real)
    requires LowerTriangular(l, p) && PositiveDiagonal(l, p)
    ensures forall t | 0 <= t < p :: ApplyTransposed(l, p, y)(t) == b(t)
  {
    y := i => 0.0;
    var k := p;
    while k > 0
      invariant 0 <= k <= p
      invariant forall i | 0 <= i < k :: y(i) == 0.0
      invariant forall t | k <= t < p :: ApplyTransposed(l, p, y)(t) == b(t)
    {
      y := SolveRow(l, p, b, k - 1, y);
      k := k - 1;
    }
  }

  /** One back-substitution step: choose y(k) so that equation k holds; later equations keep. */
  lemma SolveRow(l: Mat, p: nat, b: int -> real, k: nat, y: int -> real) returns (z: int -> real)
    requires LowerTriangular(l, p) && PositiveDiagonal(l, p) && k < p
    requires forall i | 0 <= i <= k :: y(i) == 0.0
    requires forall t | k < t < p :: ApplyTransposed(l, p, y)(t) == b(t)
    ensures forall i | 0 <= i < k :: z(i) == 0.0
    ensures forall t | k <= t < p :: ApplyTransposed(l, p, z)(t) == b(t)
  {
    var c := (b(k) - ApplyTransposed(l, p, y)(k)) / l(k, k);
    z := i => if i == k then c else y(i);
    forall t | k <= t < p
      ensures ApplyTransposed(l, p, z)(t) == ApplyTransposed(l, p, y)(t) + l(k, t) * c
    {
      DotUpdate(p, Column(l, t), y, z, k);
    }
    forall t | k < t < p ensures ApplyTransposed(l, p, z)(t) == b(t) { assert l(k, t) == 0.0; }
    assert l(k, k) * c == b(k) - ApplyTransposed(l, p, y)(k);
  }

  lemma {:induction false} DotUpdate(n: nat, f: int -> real, y: int -> real, z: int -> real, k: nat)
    requires k < n && y(k) == 0.0
    requires forall i | 0 <= i < n && i != k :: z(i) == y(i)
    ensures Dot(n, f, z) == Dot(n, f, y) + f(k) * z(k)
  {
    var u: int -> real := i => f(i) * y(i);
    var v: int -> real := i => f(i) * z(i);
    if k == n - 1 {
      SumCongruence(k, u, v);
    } else {
      DotUpdate(n - 1, f, y, z, k);
      assert Dot(n, f, z) == Dot(n - 1, f, z) + v(n - 1);
      assert Dot(n, f, y) == Dot(n - 1, f, y) + u(n - 1);
    }
  }

  /** A with its (p, p) entry replaced by the squared norm of row p of L. */
  ghost function Completed(a: Mat, l: Mat, p: nat): Mat {
    (i, j) => if i == p && j == p then Dot(p, Row(l, p), Row(l, p)) else a(i, j)
  }

  /** Replacing the last diagonal entry changes the quadratic form by that difference alone. */
  lemma QuadOfCompleted(a: Mat, l: Mat, p: nat, x: int -> real)
    requires x(p) == 1.0
    ensures Quad(a, p + 1, x) == Quad(Completed(a, l, p), p + 1, x) + a(p, p) - Dot(p, Row(l, p), Row(l, p))
  {
    var c := Completed(a, l, p);
    var f: int -> real := i => x(i) * Apply(a, p + 1, x)(i);
    var g: int -> real := i => x(i) * Apply(c, p + 1, x)(i);
    forall i | 0 <= i < p ensures f(i) == g(i) {
      DotCongruence(p + 1, Row(a, i), x, Row(c, i), x);
    }
    SumCongruence(p, f, g);
    DotCongruence(p, Row(a, p), x, Row(c, p), x);
    var u: int -> real := j => Row(a, p)(j) * x(j);
    var v: int -> real := j => Row(c, p)(j) * x(j);
    assert Dot(p + 1, Row(a, p), x) == Dot(p, Row(a, p), x) + u(p);
    assert Dot(p + 1, Row(c, p), x) == Dot(p, Row(c, p), x) + v(p);
    assert u(p) == a(p, p) && v(p) == c(p, p);
    assert Quad(a, p + 1, x) == Sum(p, f) + f(p);
    assert Quad(c, p + 1, x) == Sum(p, g) + g(p);
  }

  /** Trailing zero components do not matter. */
  lemma QuadTruncate(a: Mat, m: nat, n: nat, x: int -> real)
    requires m <= n && forall i | m <= i < n :: x(i) == 0.0
    ensures Quad(a, n, x) == Quad(a, m, x)
  {
    forall i ensures Apply(a, n, x)(i) == Apply(a, m, x)(i) {
      var f: int -> real := j => Row(a, i)(j) * x(j);
      forall j | m <= j < n ensures f(j) == 0.0 { assert x(j) == 0.0; }
      SumTruncate(m, n, f);
    }
    var f: int -> real := i => x(i) * Apply(a, n, x)(i);
    forall i | m <= i < n ensures f(i) == 0.0 { assert x(i) == 0.0; }
    SumTruncate(m, n, f);
    DotCongruence(m, x, Apply(a, n, x), x, Apply(a, m, x));
  }

  /** Rows 0..p-1 are factorised, row p is computed left of the diagonal, and its pivot is not positive. */
  ghost predicate BadPivot(a: Mat, l: Mat, n: nat, p: nat) {
    && p < n
    && Factor(a, l, p)
    && (forall j | 0 <= j < p :: a(p, j) == Dot(p, Row(l, p), Row(l, j)))
    && a(p, p) - Dot(p, Row(l, p), Row(l, p)) <= 0.0
  }

  /** A = L L^T over rows 0..p with p columns, once the (p, p) entry is completed. */
  lemma CompletedIsGram(a: Mat, l: Mat, n: nat, p: nat)
    requires BadPivot(a, l, n, p) && Symmetric(a, n)
    ensures GramOf(Completed(a, l, p), p + 1, l, p)
  {
    forall j | 0 <= j < p
      ensures a(j, p) == Dot(p, Row(l, j), Row(l, p))
    {
      DotCommutes(p, Row(l, j), Row(l, p));
    }
  }

  /** The vector (-y, 1, 0, ...), on which a bad pivot shows. */
  ghost function Witness(p: nat, y: int -> real): int -> real {
    i => if i < p then -y(i) else if i == p then 1.0 else 0.0
  }

  /** If L^T y is row p of L over the leading block, then L^T of the witness vanishes. */
  lemma WitnessAnnihilated(l: Mat, p: nat, y: int -> real, t: int)
    requires ApplyTransposed(l, p, y)(t) == l(p, t)
    ensures ApplyTransposed(l, p + 1, Witness(p, y))(t) == 0.0
  {
    DotNegated(p, Column(l, t), y, Witness(p, y));
    DotStep(p, Column(l, t), Witness(p, y), l(p, t), 1.0);
  }

  lemma {:induction false} DotNegated(n: nat, f: int -> real, y: int -> real, x: int -> real)
    requires forall i | 0 <= i < n :: x(i) == -y(i)
    ensures Dot(n, f, x) == -Dot(n, f, y)
  {
    if n > 0 {
      DotNegated(n - 1, f, y, x);
      DotStep(n - 1, f, x, f(n - 1), x(n - 1));
      DotStep(n - 1, f, y, f(n - 1), y(n - 1));
      assert f(n - 1) * x(n - 1) == -(f(n - 1) * y(n - 1));
    }
  }

  lemma BadPivotRefutes(a: Mat, l: Mat, n: nat, p: nat)
    requires BadPivot(a, l, n, p) && Symmetric(a, n)
    ensures !PositiveDefinite(a, n)
  {
    var y := BackSubstitute(l, p, Row(l, p));
    var x := Witness(p, y);
    CompletedIsGram(a, l, n, p);
    QuadOfGram(Completed(a, l, p), p + 1, l, p, x);
    var w := ApplyTransposed(l, p + 1, x);
    forall t | 0 <= t < p ensures w(t) == 0.0 { WitnessAnnihilated(l, p, y, t); }
    ZeroNorm(p, w);
    QuadOfCompleted(a, l, p, x);
    QuadTruncate(a, p + 1, n, x);
    assert x(p) != 0.0 && NonZero(n, x);
  }

  lemma ZeroNorm(n: nat, w: int -> real)
    requires forall t | 0 <= t < n :: w(t) == 0.0
    ensures Dot(n, w, w) == 0.0
  {
    var f: int -> real := t => w(t) * w(t);
    forall t | 0 <= t < n ensures f(t) == 0.0 { assert w(t) == 0.0; }
    SumZero(n, f);
  }

  // ---------------------------------------------------------------------------------------
  // The algorithm
  // ---------------------------------------------------------------------------------------

  /** The algorithm reads only the lower triangle: the symmetric matrix it stands for. */
  ghost function Mirror(a: Mat): Mat {
    (i, j) => if j <= i then a(i, j) else a(j, i)
  }

  /** On symmetric input the mirrored matrix is the input, so the results about it carry over. */
  lemma MirrorOfSymmetric(a: Mat, l: Mat, n: nat)
    requires Symmetric(a, n)
    ensures PositiveDefinite(Mirror(a), n) <==> PositiveDefinite(a, n)
    ensures Factor(Mirror(a), l, n) <==> Factor(a, l, n)
  {
    var s := Mirror(a);
    assert forall i, j | 0 <= i < n && 0 <= j < n :: s(i, j) == a(i, j);
    forall x: int -> real ensures Quad(s, n, x) == Quad(a, n, x) { QuadCongruence(s, a, n, x); }
    assert GramOf(s, n, l, n) <==> GramOf(a, n, l, n);
  }

  /** Cells already computed when the loops stand at row i, column j. */
  ghost predicate Written(i: int, j: int, r: int, c: int) {
    0 <= c <= r && (r < i || (r == i && c < j))
  }

  /** What a computed cell satisfies: A(r, c) is the partial inner product of rows r and c. */
  ghost predicate CellDone(a: Mat, l: Mat, r: int, c: nat) {
    && a(r, c) == Dot(c + 1, Row(l, r), Row(l, c))
    && (r == c ==> l(r, r) > 0.0)
  }

  /** The loop invariant: computed cells are done, all others are still zero. */
  ghost predicate Computed(a: Mat, l: Mat, n: nat, i: int, j: int) {
    forall r, c | 0 <= r < n && 0 <= c < n ::
      if Written(i, j, r, c) then CellDone(a, l, r, c) else l(r, c) == 0.0
  }

  /** Filling cell (i, j) keeps every earlier cell done. */
  lemma FillCell(a: Mat, l: Mat, l': Mat, n: nat, i: nat, j: nat)
    requires j <= i < n && Computed(a, l, n, i, j)
    requires forall r, c | 0 <= r < n && 0 <= c < n && (r != i || c != j) :: l'(r, c) == l(r, c)
    requires CellDone(a, l', i, j)
    ensures Computed(a, l', n, i, j + 1)
  {
    forall r, c | 0 <= r < n && 0 <= c < n
      ensures if Written(i, j + 1, r, c) then CellDone(a, l', r, c) else l'(r, c) == 0.0
    {
      if Written(i, j, r, c) {
        assert CellDone(a, l, r, c);
        DotCongruence(c + 1, Row(l, r), Row(l, c), Row(l', r), Row(l', c));
      }
    }
  }

  /** With rows 0..p-1 complete, a done cell is a full inner product over any q > c columns. */
  lemma DoneCellGram(a: Mat, l: Mat, n: nat, i: int, j: int, r: nat, c: nat, q: nat)
    requires Computed(a, l, n, i, j) && Written(i, j, r, c) && r < n && c < q <= n
    ensures a(r, c) == Dot(q, Row(l, r), Row(l, c))
  {
    var f: int -> real := t => Row(l, r)(t) * Row(l, c)(t);
    forall t | c + 1 <= t < q ensures f(t) == 0.0 { assert l(c, t) == 0.0; }
    SumTruncate(c + 1, q, f);
    assert CellDone(a, l, r, c);
  }

  /** Complete rows are a factor of the leading block. */
  lemma ComputedFactor(a: Mat, l: Mat, n: nat, i: nat, j: nat)
    requires i <= n && Symmetric(a, n) && Computed(a, l, n, i, j)
    ensures Factor(a, l, i)
  {
    forall r, c | 0 <= r < i && 0 <= c < i
      ensures a(r, c) == Dot(i, Row(l, r), Row(l, c))
    {
      if c <= r {
        DoneCellGram(a, l, n, i, j, r, c, i);
      } else {
        DoneCellGram(a, l, n, i, j, c, r, i);
        DotCommutes(i, Row(l, r), Row(l, c));
      }
    }
    forall r | 0 <= r < i ensures l(r, r) > 0.0 { assert Written(i, j, r, r) && CellDone(a, l, r, r); }
    forall r, c | 0 <= r < c < i ensures l(r, c) == 0.0 { assert !Written(i, j, r, c); }
  }

  /** When the loops stand at the diagonal of row i, a non-positive pivot is a BadPivot. */
  lemma PivotFails(a: Mat, l: Mat, n: nat, i: nat)
    requires i < n && Symmetric(a, n) && Computed(a, l, n, i, i)
    requires a(i, i) - Dot(i, Row(l, i), Row(l, i)) <= 0.0
    ensures !PositiveDefinite(a, n)
  {
    ComputedFactor(a, l, n, i, i);
    forall j | 0 <= j < i ensures a(i, j) == Dot(i, Row(l, i), Row(l, j)) {
      DoneCellGram(a, l, n, i, i, i, j, i);
    }
    BadPivotRefutes(a, l, n, i);
  }

  /** The running sum of products of rows i and j, over t < j. */
  method PartialDot(l: array<real>, n: nat, i: nat, j: nat) returns (sum: real)
    requires j <= i < n && n * n <= l.Length
    ensures sum == Dot(j, Row(AsMat(l[..], n), i), Row(AsMat(l[..], n), j))
  {
    ghost var m := AsMat(l[..], n);
    sum := 0.0;
    for t := 0 to j
      invariant sum == Dot(t, Row(m, i), Row(m, j))
    {
      IndexInBounds(n, n, i, t);
      IndexInBounds(n, n, j, t);
      assert Row(m, i)(t) == l[i * n + t] && Row(m, j)(t) == l[j * n + t];
      sum := sum + l[i * n + t] * l[j * n + t];
    }
  }

  /** The value to store in cell (i, j): the root of the pivot, or the quotient by the diagonal. */
  ghost predicate CellValue(a: Mat, l: Mat, i: nat, j: nat, v: real) {
    var rest := a(i, j) - Dot(j, Row(l, i), Row(l, j));
    if i == j then v > 0.0 && v * v == rest else v * l(j, j) == rest
  }

  lemma ValueMakesCellDone(a: Mat, l: Mat, l': Mat, n: nat, i: nat, j: nat)
    requires j <= i < n && CellValue(a, l, i, j, l'(i, j))
    requires forall r, c | 0 <= r < n && 0 <= c < n && (r != i || c != j) :: l'(r, c) == l(r, c)
    ensures CellDone(a, l', i, j)
  {
    DotCongruence(j, Row(l, i), Row(l, j), Row(l', i), Row(l', j));
    var f: int -> real := t => Row(l', i)(t) * Row(l', j)(t);
    assert Dot(j + 1, Row(l', i), Row(l', j)) == Dot(j, Row(l', i), Row(l', j)) + f(j);
  }

  lemma CellStored(a: Mat, s: seq<real>, n: nat, i: nat, j: nat, v: real)
    requires j <= i < n && n * n <= |s| && 0 <= i * n + j < n * n
    requires Computed(a, AsMat(s, n), n, i, j) && CellValue(a, AsMat(s, n), i, j, v)
    ensures Computed(a, AsMat(s[i * n + j := v], n), n, i, j + 1)
  {
    var l, l' := AsMat(s, n), AsMat(s[i * n + j := v], n);
    StoreCell(s, s[i * n + j := v], n, n, i, j, v, 0.0);
    assert l'(i, j) == v;
    assert forall r, c | 0 <= r < n && 0 <= c < n && (r != i || c != j) :: l'(r, c) == l(r, c);
    ValueMakesCellDone(a, l, l', n, i, j);
    FillCell(a, l, l', n, i, j);
  }

  lemma NothingComputed(a: Mat, s: seq<real>, n: nat)
    requires n * n <= |s| && forall k | 0 <= k < n * n :: s[k] == 0.0
    ensures Computed(a, AsMat(s, n), n, 0, 0)
  {
    var l := AsMat(s, n);
    forall r, c | 0 <= r < n && 0 <= c < n ensures l(r, c) == 0.0 { IndexInBounds(n, n, r, c); }
  }

  /** What the algorithm stores in cell (i, j), given the entry, the diagonal and the partial sum. */
  lemma StoredValue(a: Mat, l: Mat, n: nat, i: nat, j: nat, entry: real, diagonal: real, sum: real, sqrt: real -> real)
    requires IsSqrt(sqrt) && j <= i < n && Computed(a, l, n, i, j) && Symmetric(a, n)
    requires entry == a(i, j) && diagonal == l(j, j) && sum == Dot(j, Row(l, i), Row(l, j))
    ensures i == j && entry - sum > 0.0 ==> CellValue(a, l, i, j, sqrt(entry - sum))
    ensures i == j && entry - sum <= 0.0 ==> !PositiveDefinite(a, n)
    ensures i != j ==> diagonal > 0.0 && CellValue(a, l, i, j, (entry - sum) / diagonal)
  {
    if i != j {
      assert Written(i, j, j, j) && CellDone(a, l, j, j);
    } else if entry - sum <= 0.0 {
      PivotFails(a, l, n, i);
    }
  }

  lemma CellOf(s: seq<real>, n: nat, i: nat, j: nat)
    requires n * n <= |s| && j <= i < n
    ensures 0 <= i * n + j < n * n && AsMat(s, n)(i, j) == Mirror(AsMat(s, n))(i, j) == s[i * n + j]
  {
    IndexInBounds(n, n, i, j);
  }

  /**
    The value for cell (i, j). There is none only at a diagonal cell whose pivot shows that the
    matrix is not positive definite; the division never meets a zero pivot.
  */
  method NextValue(a: array<real>, n: nat, l: array<real>, sqrt: real -> real, i: nat, j: nat)
    returns (ok: bool, v: real)
    requires IsSqrt(sqrt) && n * n <= a.Length && n * n <= l.Length && j <= i < n
    requires Computed(Mirror(AsMat(a[..], n)), AsMat(l[..], n), n, i, j)
    ensures ok ==> CellValue(Mirror(AsMat(a[..], n)), AsMat(l[..], n), i, j, v)
    ensures !ok ==> !PositiveDefinite(Mirror(AsMat(a[..], n)), n)
  {
    var sum := PartialDot(l, n, i, j);
    CellOf(a[..], n, i, j);
    CellOf(l[..], n, j, j);
    var entry, diagonal := a[i * n + j], l[j * n + j];
    StoredValue(Mirror(AsMat(a[..], n)), AsMat(l[..], n), n, i, j, entry, diagonal, sum, sqrt);
    if i == j {
      var d := entry - sum;
      if d <= 0.0 { return false, 0.0; }
      return true, sqrt(d);
    }
    if diagonal == 0.0 {
      assert false;
    }
    return true, (entry - sum) / diagonal;
  }

  lemma ZeroPivot(s: seq<real>, n: nat)
    requires 0 < n && n * n <= |s| && forall k | 0 <= k < n * n :: s[k] == 0.0
    ensures Mirror(AsMat(s, n))(0, 0) == 0.0
  {
    IndexInBounds(n, n, 0, 0);
  }

  /** A zero in the first cell has no positive root. */
  lemma NoValue(a: Mat, l: Mat, v: real)
    requires a(0, 0) == 0.0
    ensures !CellValue(a, l, 0, 0, v)
  {
    if v > 0.0 { ProductPositive(v, v, v * v); }
  }

  /** memset of the first n*n cells to zero. */
  method Clear(l: array<real>, n: nat)
    requires n * n <= l.Length
    modifies l
    ensures forall k | 0 <= k < n * n :: l[k] == 0.0
    ensures l[n * n..] == old(l[n * n..])
  {
    var size := n * n;
    forall k | 0 <= k < size { l[k] := 0.0; }
  }

  /**
    Returns 0 exactly when the matrix is positive definite; l_out then holds its Cholesky
    factor, and is all zero otherwise. Cells beyond the n x n block are untouched. For input
    that is not symmetric, "the matrix" is the mirrored lower triangle. Factoring in place always
    fails: clearing the output clears the input.
  */
  method Decompose(a: array?<real>, n: int, l: array?<real>, sqrt: real -> real) returns (rc: int)
    requires IsSqrt(sqrt)
    requires a != null && l != null && n > 0 ==> n * n <= a.Length && n * n <= l.Length
    modifies l
    ensures rc == 0 || rc == -1
    ensures a == null || l == null || n <= 0 ==> rc == -1 && (l != null ==> l[..] == old(l[..]))
    ensures a != null && l != null && n > 0 ==>
              var A, L := Mirror(AsMat(old(a[..]), n)), AsMat(l[..], n);
              && l[n * n..] == old(l[n * n..])
              && (rc == -1 ==> forall k | 0 <= k < n * n :: l[k] == 0.0)
              && (rc == 0 <==> a != l && PositiveDefinite(A, n))
              && (rc == 0 ==> Factor(A, L, n))
  {
    if a == null || l == null || n <= 0 { return -1; }
    Clear(l, n);
    ghost var A := Mirror(AsMat(a[..], n));
    NothingComputed(A, l[..], n);
    if a == l { ZeroPivot(a[..], n); }
    for i := 0 to n
      invariant l[n * n..] == old(l[n * n..]) && A == Mirror(AsMat(a[..], n))
      invariant Computed(A, AsMat(l[..], n), n, i, 0) && (a == l ==> i == 0 && A(0, 0) == 0.0)
    {
      for j := 0 to i + 1
        invariant l[n * n..] == old(l[n * n..]) && A == Mirror(AsMat(a[..], n))
        invariant Computed(A, AsMat(l[..], n), n, i, j) && (a == l ==> i == j == 0 && A(0, 0) == 0.0)
      {
        var ok, v := NextValue(a, n, l, sqrt, i, j);
        if a == l { NoValue(A, AsMat(l[..], n), v); }
        if !ok {
          Clear(l, n);
          return -1;
        }
        IndexInBounds(n, n, i, j);
        CellStored(A, l[..], n, i, j, v);
        ghost var before := l[..];
        l[i * n + j] := v;
        assert l[..] == before[i * n + j := v];
      }
    }
    rc := 0;
    ComputedFactor(A, AsMat(l[..], n), n, n, 0);
    FactorIsPositiveDefinite(A, AsMat(l[..], n), n);
  }
}
