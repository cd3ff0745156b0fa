/**
  Finite sums of exact reals, indexed by functions, and the scalar functions beside them.

  Every numeric service in the project (the matrix kernel, bond pricing, the AR fit,
  the backtester) accumulates left to right from zero; `Sum` is that loop, and the lemmas
  below are the algebra the theorems about those loops rest on.
*/
module RealSums {

  /** f(0) + f(1) + ... + f(n-1), accumulated left to right from zero. */
  ghost function Sum(n: nat, f: int -> real): real {
    if n == 0 then 0.0 else Sum(n - 1, f) + f(n - 1)
  }

  lemma {:induction false} SumCongruence(n: nat, f: int -> real, g: int -> real)
    requires forall i | 0 <= i < n :: f(i) == g(i)
    ensures Sum(n, f) == Sum(n, g)
  {
    if n > 0 { SumCongruence(n - 1, f, g); }
  }

  lemma {:induction false} SumZero(n: nat, f: int -> real)
    requires forall i | 0 <= i < n :: f(i) == 0.0
    ensures Sum(n, f) == 0.0
  {
    if n > 0 { SumZero(n - 1, f); }
  }

  lemma {:induction false} SumAdd(n: nat, f: int -> real, g: int -> real, h: int -> real)
    requires forall i | 0 <= i < n :: h(i) == f(i) + g(i)
    ensures Sum(n, h) == Sum(n, f) + Sum(n, g)
  {
    if n > 0 { SumAdd(n - 1, f, g, h); }
  }

  lemma {:induction false} SumScale(n: nat, c: real, f: int -> real, g: int -> real)
    requires forall i | 0 <= i < n :: g(i) == c * f(i)
    ensures Sum(n, g) == c * Sum(n, f)
  {
    if n > 0 { SumScale(n - 1, c, f, g); }
  }

  lemma {:induction false} SumNonNegative(n: nat, f: int -> real)
    requires forall i | 0 <= i < n :: f(i) >= 0.0
    ensures Sum(n, f) >= 0.0
  {
    if n > 0 { SumNonNegative(n - 1, f); }
  }

  lemma {:induction false} SumMonotone(n: nat, f: int -> real, g: int -> real)
    requires forall i | 0 <= i < n :: f(i) <= g(i)
    ensures Sum(n, f) <= Sum(n, g)
  {
    if n > 0 { SumMonotone(n - 1, f, g); }
  }

  /** A sum of non-negative terms is positive as soon as one of them is. */
  lemma {:induction false} SumPositive(n: nat, f: int -> real, k: int)
    requires forall i | 0 <= i < n :: f(i) >= 0.0
    requires 0 <= k < n && f(k) > 0.0
    ensures Sum(n, f) > 0.0
  {
    if k == n - 1 { SumNonNegative(n - 1, f); } else { SumPositive(n - 1, f, k); }
  }

  /** Terms from `m` on that are all zero can be dropped. */
  lemma {:induction false} SumTruncate(m: nat, n: nat, f: int -> real)
    requires m <= n
    requires forall i | m <= i < n :: f(i) == 0.0
    ensures Sum(n, f) == Sum(m, f)
  {
    if m < n { SumTruncate(m, n - 1, f); }
  }

  /** The first term can be split off, the rest being shifted by one. */
  lemma {:induction false} SumShift(n: nat, f: int -> real, g: int -> real)
    requires forall i | 0 <= i < n :: g(i) == f(i + 1)
    ensures Sum(n + 1, f) == f(0) + Sum(n, g)
  {
    if n > 0 { SumShift(n - 1, f, g); }
  }

  /** The sum over j of f(i, j), for each row i. */
  ghost function RowSum(n: nat, f: (int, int) -> real): int -> real {
    i => Sum(n, j => f(i, j))
  }

  /** The sum over i of f(i, j), for each column j. */
  ghost function ColumnSum(m: nat, f: (int, int) -> real): int -> real {
    j => Sum(m, i => f(i, j))
  }

  /** Finite sums may be exchanged. */
  lemma {:induction false} SumExchange(m: nat, n: nat, f: (int, int) -> real)
    ensures Sum(m, RowSum(n, f)) == Sum(n, ColumnSum(m, f))
  {
    if m == 0 {
      SumZero(n, ColumnSum(0, f));
    } else {
      SumExchange(m - 1, n, f);
      SumAdd(n, ColumnSum(m - 1, f), j => f(m - 1, j), ColumnSum(m, f));
    }
  }

  /** Inner product over the first n components. */
  ghost function Dot(n: nat, f: int -> real, g: int -> real): real {
    Sum(n, i => f(i) * g(i))
  }

  /** One step of an accumulating loop. */
  lemma DotStep(n: nat, f: int -> real, g: int -> real, x: real, y: real)
    requires x == f(n) && y == g(n)
    ensures Dot(n + 1, f, g) == Dot(n, f, g) + x * y
  {}

  lemma DotCommutes(n: nat, f: int -> real, g: int -> real)
    ensures Dot(n, f, g) == Dot(n, g, f)
  {
    SumCongruence(n, i => f(i) * g(i), i => g(i) * f(i));
  }

  lemma DotCongruence(n: nat, f: int -> real, g: int -> real, f': int -> real, g': int -> real)
    requires forall i | 0 <= i < n :: f(i) == f'(i) && g(i) == g'(i)
    ensures Dot(n, f, g) == Dot(n, f', g')
  {
    SumCongruence(n, i => f(i) * g(i), i => f'(i) * g'(i));
  }

  function Pow(b: real, n: nat): real {
    if n == 0 then 1.0 else Pow(b, n - 1) * b
  }

  function Abs(r: real): real { if r < 0.0 then -r else r }

  /** Any exact square root will do. */
  ghost predicate IsSqrt(sqrt: real -> real) {
    forall d: real :: d > 0.0 ==> sqrt(d) > 0.0 && sqrt(d) * sqrt(d) == d
  }

  ghost function Square(r: real): real { r * r }

  lemma ProductPositive(a: real, b: real, p: real)
    requires a > 0.0 && b > 0.0 && p == a * b
    ensures p > 0.0
  {}

  lemma SquareSign(r: real)
    ensures Square(r) >= 0.0
    ensures r != 0.0 ==> Square(r) > 0.0
  {
    if r > 0.0 { ProductPositive(r, r, Square(r)); }
    if r < 0.0 { ProductPositive(-r, -r, Square(r)); }
  }

  /** An inner product of a vector with itself is the sum of the squares of its components. */
  lemma DotSelf(n: nat, y: int -> real)
    ensures Dot(n, y, y) == Sum(n, i => Square(y(i)))
    ensures Dot(n, y, y) >= 0.0
  {
    var f: int -> real := i => Square(y(i));
    forall i ensures f(i) == y(i) * y(i) && f(i) >= 0.0 { SquareSign(y(i)); }
    SumCongruence(n, i => y(i) * y(i), f);
    SumNonNegative(n, f);
  }

  lemma NormPositive(n: nat, y: int -> real, k: int)
    requires 0 <= k < n && y(k) != 0.0
    ensures Dot(n, y, y) > 0.0
  {
    DotSelf(n, y);
    var f: int -> real := i => Square(y(i));
    forall i ensures f(i) >= 0.0 && (y(i) != 0.0 ==> f(i) > 0.0) { SquareSign(y(i)); }
    SumPositive(n, f, k);
  }
}
