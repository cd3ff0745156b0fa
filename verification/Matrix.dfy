/**
  Row-major matrices over flat buffers, as core-cpp/src/matrix.cpp lays them out:
  element (i, j) of an [m x n] matrix is buffer[i*n + j].
*/
module Matrix {
  import opened RealSums

  /** A matrix as the function of its indices; only indices within the stated shape matter. */
  type Mat = (int, int) -> real

  /** The cell index i*n + j is inside an [m x n] buffer. */
  lemma IndexInBounds(m: nat, n: nat, i: nat, j: nat)
    requires i < m && j < n
    ensures 0 <= i * n + j < m * n
  {
    IndexMonotone(n, i + 1, m);
    assert (i + 1) * n == i * n + n;
  }

  /** Cells of an earlier row come first. */
  lemma RowsInOrder(n: nat, i: nat, j: nat, i': nat, j': nat)
    requires i < i' && j < n
    ensures i * n + j < i' * n + j'
  {
    assert (i + 1) * n <= i' * n by { IndexMonotone(n, i + 1, i'); }
  }

  lemma CellsDiffer(n: nat, i: nat, j: nat, r: nat, c: nat)
    requires j < n && c < n && (r != i || c != j)
    ensures r * n + c != i * n + j
  {
    if r < i { RowsInOrder(n, r, c, i, j); }
    if i < r { RowsInOrder(n, i, j, r, c); }
  }

  lemma IndexMonotone(n: nat, p: nat, q: nat)
    requires p <= q
    ensures p * n <= q * n
  {
    assert (q - p) * n >= 0;
    assert q * n == p * n + (q - p) * n;
  }

  /** Cell (i, j) of a row-major buffer with n columns. */
  ghost function At<T>(s: seq<T>, n: nat, i: int, j: int, default: T): T {
    if 0 <= i && 0 <= j < n && i * n + j < |s| then s[i * n + j] else default
  }

  ghost function AsMat(s: seq<real>, n: nat): Mat {
    (i, j) => At(s, n, i, j, 0.0)
  }

  /** Storing into one cell changes that cell and no other. */
  lemma StoreCell<T>(s: seq<T>, u: seq<T>, m: nat, n: nat, i: nat, j: nat, v: T, default: T)
    requires i < m && j < n && m * n <= |s| && 0 <= i * n + j < |s| && u == s[i * n + j := v]
    ensures forall r, c | 0 <= r < m && 0 <= c < n ::
              At(u, n, r, c, default) == if r == i && c == j then v else At(s, n, r, c, default)
  {
    forall r, c | 0 <= r < m && 0 <= c < n
      ensures At(u, n, r, c, default) == if r == i && c == j then v else At(s, n, r, c, default)
    {
      IndexInBounds(m, n, r, c);
      if r != i || c != j { CellsDiffer(n, i, j, r, c); }
    }
  }

  ghost predicate Symmetric(a: Mat, n: nat) {
    forall i, j | 0 <= i < n && 0 <= j < n :: a(i, j) == a(j, i)
  }

  ghost function Row(a: Mat, i: int): int -> real { j => a(i, j) }

  /** Row i of an [m x n] buffer starts at index i*n. */
  lemma RowCells(s: seq<real>, m: nat, n: nat, i: nat, row: nat)
    requires i < m && m * n <= |s| && row == i * n
    ensures row + n <= |s|
    ensures forall j | 0 <= j < n :: Row(AsMat(s, n), i)(j) == s[row + j]
  {
    IndexMonotone(n, i + 1, m);
    assert (i + 1) * n == row + n;
  }

  ghost function Column(a: Mat, j: int): int -> real { i => a(i, j) }

  /** A x, for A with n columns. */
  ghost function Apply(a: Mat, n: nat, x: int -> real): int -> real {
    i => Dot(n, Row(a, i), x)
  }

  /** A^T x, for A with m rows. */
  ghost function ApplyTransposed(a: Mat, m: nat, x: int -> real): int -> real {
    j => Dot(m, Column(a, j), x)
  }

  /** The quadratic form x^T A x over the leading n x n block. */
  ghost function Quad(a: Mat, n: nat, x: int -> real): real {
    Dot(n, x, Apply(a, n, x))
  }

  lemma QuadCongruence(a: Mat, b: Mat, n: nat, x: int -> real)
    requires forall i, j | 0 <= i < n && 0 <= j < n :: a(i, j) == b(i, j)
    ensures Quad(a, n, x) == Quad(b, n, x)
  {
    forall i | 0 <= i < n ensures Apply(a, n, x)(i) == Apply(b, n, x)(i) {
      DotCongruence(n, Row(a, i), x, Row(b, i), x);
    }
    DotCongruence(n, x, Apply(a, n, x), x, Apply(b, n, x));
  }

  ghost predicate NonZero(n: nat, x: int -> real) {
    exists i :: 0 <= i < n && x(i) != 0.0
  }

  ghost predicate PositiveDefinite(a: Mat, n: nat) {
    forall x: int -> real :: NonZero(n, x) ==> Quad(a, n, x) > 0.0
  }

  ghost predicate PositiveSemidefinite(a: Mat, n: nat) {
    forall x: int -> real :: Quad(a, n, x) >= 0.0
  }

  /** A(i, j) is the inner product of rows i and j of L, over q columns. */
  ghost predicate GramOf(a: Mat, n: nat, l: Mat, q: nat) {
    forall i, j | 0 <= i < n && 0 <= j < n :: a(i, j) == Dot(q, Row(l, i), Row(l, j))
  }

  /** The summands u_i a_ij v_j of u . (A v). */
  ghost function Summand(a: Mat, u: int -> real, v: int -> real): Mat {
    (i, j) => u(i) * (a(i, j) * v(j))
  }

  lemma SummandRow(a: Mat, n: nat, u: int -> real, v: int -> real, i: int)
    ensures RowSum(n, Summand(a, u, v))(i) == u(i) * Apply(a, n, v)(i)
  {
    var f: int -> real := j => Row(a, i)(j) * v(j);
    var g: int -> real := j => Summand(a, u, v)(i, j);
    forall j ensures g(j) == u(i) * f(j) {
      assert g(j) == Summand(a, u, v)(i, j) == u(i) * (a(i, j) * v(j));
    }
    SumScale(n, u(i), f, g);
  }

  lemma SummandColumn(a: Mat, m: nat, u: int -> real, v: int -> real, j: int)
    ensures ColumnSum(m, Summand(a, u, v))(j) == ApplyTransposed(a, m, u)(j) * v(j)
  {
    var f: int -> real := i => Column(a, j)(i) * u(i);
    var g: int -> real := i => Summand(a, u, v)(i, j);
    forall i ensures g(i) == v(j) * f(i) {
      assert g(i) == Summand(a, u, v)(i, j) == u(i) * (a(i, j) * v(j));
      assert u(i) * (a(i, j) * v(j)) == v(j) * (a(i, j) * u(i));
    }
    SumScale(m, v(j), f, g);
  }

  lemma SummandRows(a: Mat, m: nat, n: nat, u: int -> real, v: int -> real)
    ensures Sum(m, RowSum(n, Summand(a, u, v))) == Dot(m, u, Apply(a, n, v))
  {
    var f, g := RowSum(n, Summand(a, u, v)), Apply(a, n, v);
    forall i ensures f(i) == u(i) * g(i) { SummandRow(a, n, u, v, i); }
    SumCongruence(m, f, i => u(i) * g(i));
  }

  lemma SummandColumns(a: Mat, m: nat, n: nat, u: int -> real, v: int -> real)
    ensures Sum(n, ColumnSum(m, Summand(a, u, v))) == Dot(n, ApplyTransposed(a, m, u), v)
  {
    var f, g := ColumnSum(m, Summand(a, u, v)), ApplyTransposed(a, m, u);
    forall j ensures f(j) == g(j) * v(j) { SummandColumn(a, m, u, v, j); }
    SumCongruence(n, f, j => g(j) * v(j));
  }

  /** u . (A v) = (A^T u) . v */
  lemma Adjoint(a: Mat, m: nat, n: nat, u: int -> real, v: int -> real)
    ensures Dot(m, u, Apply(a, n, v)) == Dot(n, ApplyTransposed(a, m, u), v)
  {
    SummandRows(a, m, n, u, v);
    SumExchange(m, n, Summand(a, u, v));
    SummandColumns(a, m, n, u, v);
  }

  /** If A = L L^T then x^T A x = |L^T x|^2, whatever the number of columns of L. */
  lemma QuadOfGram(a: Mat, n: nat, l: Mat, q: nat, x: int -> real)
    requires GramOf(a, n, l, q)
    ensures var y := ApplyTransposed(l, n, x); Quad(a, n, x) == Dot(q, y, y)
  {
    var y := ApplyTransposed(l, n, x);
    forall i | 0 <= i < n
      ensures Apply(a, n, x)(i) == Apply(l, q, y)(i)
    {
      forall j | 0 <= j < n ensures Row(a, i)(j) == Apply(l, q, Row(l, i))(j) {
        DotCommutes(q, Row(l, i), Row(l, j));
      }
      DotCongruence(n, Row(a, i), x, Apply(l, q, Row(l, i)), x);
      DotCommutes(n, Apply(l, q, Row(l, i)), x);
      Adjoint(l, n, q, x, Row(l, i));
      DotCommutes(q, y, Row(l, i));
    }
    DotCongruence(n, x, Apply(a, n, x), x, Apply(l, q, y));
    Adjoint(l, n, q, x, y);
  }
}
