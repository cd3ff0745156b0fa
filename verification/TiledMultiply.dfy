/**
  The cache-tiled matrix product of core-cpp/src/matrix.cpp.

  Addition and multiplication are arbitrary functions: the tiled loops add the products of each
  cell in the same order as the naive loop, so the equality needs no associativity and therefore
  also holds for floating-point rounding.
*/
module TiledMultiply {
  import opened Matrix
  import opened RealSums

  const TILE_SIZE := 64

  /** The operands of one product C = A * B, with A [m x k] and B [k x n], both row-major. */
  datatype Product<!T> = Product(zero: T, add: (T, T) -> T, mul: (T, T) -> T,
                                a: seq<T>, m: nat, k: nat, b: seq<T>, n: nat)

  /** Cell (i, j) after the first l terms of the naive left-to-right accumulation. */
  ghost function Cell<T>(p: Product<T>, i: int, j: int, l: int): T
    decreases l
  {
    if l <= 0 then p.zero
    else p.add(Cell(p, i, j, l - 1),
               p.mul(At(p.a, p.k, i, l - 1, p.zero), At(p.b, p.n, l - 1, j, p.zero)))
  }

  /** Every cell (i, j) of the output buffer has accumulated its first done(i, j) terms. */
  ghost predicate Holds<T>(p: Product<T>, out: seq<T>, done: (int, int) -> int) {
    && p.m * p.n <= |out|
    && forall i, j | 0 <= i < p.m && 0 <= j < p.n ::
         At(out, p.n, i, j, p.zero) == Cell(p, i, j, done(i, j))
  }

  /** The term counts once a block of cells has advanced to `l`. */
  ghost function Advance(done: (int, int) -> int, i0: int, i1: int, j0: int, j1: int, l: int): (int, int) -> int {
    (i, j) => if i0 <= i < i1 && j0 <= j < j1 then l else done(i, j)
  }

  lemma HoldsCongruence<T>(p: Product<T>, out: seq<T>, done: (int, int) -> int, done': (int, int) -> int)
    requires Holds(p, out, done)
    requires forall i, j | 0 <= i < p.m && 0 <= j < p.n :: done(i, j) == done'(i, j)
    ensures Holds(p, out, done')
  {}

  /** Accumulating term l into cell (i, j) advances that cell alone. */
  lemma AccumulateCell<T>(p: Product<T>, out: seq<T>, done: (int, int) -> int, i: nat, j: nat, l: nat)
    requires Holds(p, out, done) && i < p.m && j < p.n && l < p.k && done(i, j) == l
    requires p.m * p.k <= |p.a| && p.k * p.n <= |p.b|
    ensures 0 <= i * p.k + l < |p.a| && 0 <= l * p.n + j < |p.b| && 0 <= i * p.n + j < |out|
    ensures var v := p.add(out[i * p.n + j], p.mul(p.a[i * p.k + l], p.b[l * p.n + j]));
            Holds(p, out[i * p.n + j := v], Advance(done, i, i + 1, j, j + 1, l + 1))
  {
    IndexInBounds(p.m, p.k, i, l);
    IndexInBounds(p.k, p.n, l, j);
    IndexInBounds(p.m, p.n, i, j);
    var v := p.add(out[i * p.n + j], p.mul(p.a[i * p.k + l], p.b[l * p.n + j]));
    StoreCell(out, out[i * p.n + j := v], p.m, p.n, i, j, v, p.zero);
    assert v == Cell(p, i, j, l + 1) by {
      assert At(out, p.n, i, j, p.zero) == Cell(p, i, j, done(i, j));
    }
  }

  /** The innermost loop: row i of a tile accumulates term l in columns jj..jEnd. */
  method AccumulateRow<T>(ghost p: Product<T>, a: array<T>, k: nat, b: array<T>, n: nat, out: array<T>,
                          add: (T, T) -> T, mul: (T, T) -> T,
                          i: nat, l: nat, jj: nat, jEnd: nat, ghost done: (int, int) -> int)
    requires p == Product(p.zero, add, mul, a[..], p.m, k, b[..], n) && out != a && out != b
    requires p.m * k <= a.Length && k * n <= b.Length
    requires Holds(p, out[..], done) && i < p.m && l < k && jj <= jEnd <= n
    requires forall j | jj <= j < jEnd :: done(i, j) == l
    modifies out
    ensures Holds(p, out[..], Advance(done, i, i + 1, jj, jEnd, l + 1))
    ensures out[p.m * n..] == old(out[p.m * n..])
  {
    IndexInBounds(p.m, k, i, l);
    var factor := a[i * k + l];
    HoldsCongruence(p, out[..], done, Advance(done, i, i + 1, jj, jj, l + 1));
    for j := jj to jEnd
      invariant p.m * n <= out.Length && out[p.m * n..] == old(out[p.m * n..])
      invariant Holds(p, out[..], Advance(done, i, i + 1, jj, j, l + 1))
    {
      ghost var now := Advance(done, i, i + 1, jj, j, l + 1);
      ghost var before := out[..];
      IndexInBounds(p.m, n, i, j);
      AccumulateCell(p, before, now, i, j, l);
      var v := add(out[i * n + j], mul(factor, b[l * n + j]));
      out[i * n + j] := v;
      assert out[..] == before[i * n + j := v];
      HoldsCongruence(p, out[..], Advance(now, i, i + 1, j, j + 1, l + 1), Advance(done, i, i + 1, jj, j + 1, l + 1));
    }
  }

  /** The three inner loops: every cell of the tile advances from ll to lEnd terms. */
  method AccumulateTile<T>(ghost p: Product<T>, a: array<T>, k: nat, b: array<T>, n: nat, out: array<T>,
                           add: (T, T) -> T, mul: (T, T) -> T,
                           ii: nat, iEnd: nat, ll: nat, lEnd: nat, jj: nat, jEnd: nat, ghost done: (int, int) -> int)
    requires p == Product(p.zero, add, mul, a[..], p.m, k, b[..], n) && out != a && out != b
    requires p.m * k <= a.Length && k * n <= b.Length
    requires Holds(p, out[..], done) && ii <= iEnd <= p.m && ll <= lEnd <= k && jj <= jEnd <= n
    requires forall i, j | ii <= i < iEnd && jj <= j < jEnd :: done(i, j) == ll
    modifies out
    ensures Holds(p, out[..], Advance(done, ii, iEnd, jj, jEnd, lEnd))
    ensures out[p.m * n..] == old(out[p.m * n..])
  {
    HoldsCongruence(p, out[..], done, Advance(done, ii, ii, jj, jEnd, lEnd));
    for i := ii to iEnd
      invariant p.m * n <= out.Length && out[p.m * n..] == old(out[p.m * n..])
      invariant Holds(p, out[..], Advance(done, ii, i, jj, jEnd, lEnd))
    {
      ghost var rows := Advance(done, ii, i, jj, jEnd, lEnd);
      HoldsCongruence(p, out[..], rows, Advance(rows, i, i + 1, jj, jEnd, ll));
      for l := ll to lEnd
        invariant p.m * n <= out.Length && out[p.m * n..] == old(out[p.m * n..])
        invariant Holds(p, out[..], Advance(rows, i, i + 1, jj, jEnd, l))
      {
        ghost var now := Advance(rows, i, i + 1, jj, jEnd, l);
        AccumulateRow(p, a, k, b, n, out, add, mul, i, l, jj, jEnd, now);
        HoldsCongruence(p, out[..], Advance(now, i, i + 1, jj, jEnd, l + 1), Advance(rows, i, i + 1, jj, jEnd, l + 1));
      }
      HoldsCongruence(p, out[..], Advance(rows, i, i + 1, jj, jEnd, lEnd), Advance(done, ii, i + 1, jj, jEnd, lEnd));
    }
  }

  function TileEnd(start: nat, tile: nat, limit: nat): nat {
    if start + tile < limit then start + tile else limit
  }

  /** The term and column tile loops for one band of rows: its cells advance from 0 to k terms. */
  method AccumulateBand<T>(ghost p: Product<T>, a: array<T>, k: nat, b: array<T>, n: nat, out: array<T>,
                           add: (T, T) -> T, mul: (T, T) -> T,
                           ii: nat, iEnd: nat, tile: nat, ghost done: (int, int) -> int)
    requires p == Product(p.zero, add, mul, a[..], p.m, k, b[..], n) && out != a && out != b
    requires p.m * k <= a.Length && k * n <= b.Length && tile > 0
    requires Holds(p, out[..], done) && ii <= iEnd <= p.m
    requires forall i, j | ii <= i < iEnd && 0 <= j < n :: done(i, j) == 0
    modifies out
    ensures Holds(p, out[..], Advance(done, ii, iEnd, 0, n, k))
    ensures out[p.m * n..] == old(out[p.m * n..])
  {
    HoldsCongruence(p, out[..], done, Advance(done, ii, iEnd, 0, n, 0));
    var ll := 0;
    while ll < k
      invariant 0 <= ll && p.m * n <= out.Length && out[p.m * n..] == old(out[p.m * n..])
      invariant Holds(p, out[..], Advance(done, ii, iEnd, 0, n, if ll < k then ll else k))
    {
      var lEnd := TileEnd(ll, tile, k);
      ghost var terms := Advance(done, ii, iEnd, 0, n, ll);
      HoldsCongruence(p, out[..], terms, Advance(terms, ii, iEnd, 0, 0, lEnd));
      var jj := 0;
      while jj < n
        invariant 0 <= jj && p.m * n <= out.Length && out[p.m * n..] == old(out[p.m * n..])
        invariant Holds(p, out[..], Advance(terms, ii, iEnd, 0, if jj < n then jj else n, lEnd))
      {
        var jEnd := TileEnd(jj, tile, n);
        ghost var now := Advance(terms, ii, iEnd, 0, jj, lEnd);
        AccumulateTile(p, a, k, b, n, out, add, mul, ii, iEnd, ll, lEnd, jj, jEnd, now);
        HoldsCongruence(p, out[..], Advance(now, ii, iEnd, jj, jEnd, lEnd), Advance(terms, ii, iEnd, 0, jEnd, lEnd));
        jj := jj + tile;
      }
      HoldsCongruence(p, out[..], Advance(terms, ii, iEnd, 0, n, lEnd), Advance(done, ii, iEnd, 0, n, lEnd));
      ll := ll + tile;
    }
  }

  /**
    For every shape and tile size, each output cell is the naive left-to-right accumulation.
    Invalid arguments leave the output untouched, and so are the cells beyond the m x n block.
  */
  method Multiply<T>(a: array?<T>, m: int, k: int, b: array?<T>, n: int, out: array?<T>,
                     zero: T, add: (T, T) -> T, mul: (T, T) -> T, tile: nat := TILE_SIZE)
    requires tile > 0
    requires a != null && b != null && out != null && m > 0 && k > 0 && n > 0 ==>
               out != a && out != b && m * k <= a.Length && k * n <= b.Length && m * n <= out.Length
    modifies out
    ensures out != null && (a == null || b == null || m <= 0 || k <= 0 || n <= 0) ==> out[..] == old(out[..])
    ensures a != null && b != null && out != null && m > 0 && k > 0 && n > 0 ==>
              var p := Product(zero, add, mul, a[..], m, k, b[..], n);
              && out[m * n..] == old(out[m * n..])
              && forall i, j | 0 <= i < m && 0 <= j < n :: At(out[..], n, i, j, zero) == Cell(p, i, j, k)
  {
    if a == null || b == null || out == null || m <= 0 || k <= 0 || n <= 0 { return; }
    ghost var p := Product(zero, add, mul, a[..], m, k, b[..], n);
    ghost var none: (int, int) -> int := (i, j) => 0;
    ClearOutput(p, m, n, out, zero);
    HoldsCongruence(p, out[..], none, Advance(none, 0, 0, 0, n, k));
    var ii := 0;
    while ii < m
      invariant 0 <= ii && m * n <= out.Length && out[m * n..] == old(out[m * n..])
      invariant Holds(p, out[..], Advance(none, 0, ii, 0, n, k))
    {
      var iEnd := TileEnd(ii, tile, m);
      ghost var rows := Advance(none, 0, ii, 0, n, k);
      AccumulateBand(p, a, k, b, n, out, add, mul, ii, iEnd, tile, rows);
      ii := ii + tile;
      HoldsCongruence(p, out[..], Advance(rows, ii - tile, iEnd, 0, n, k), Advance(none, 0, ii, 0, n, k));
    }
  }

  /** memset of the m x n output cells to zero: no cell has accumulated anything yet. */
  method ClearOutput<T>(ghost p: Product<T>, m: nat, n: nat, out: array<T>, zero: T)
    requires p.m == m && p.n == n && p.zero == zero && m * n <= out.Length
    modifies out
    ensures Holds(p, out[..], (i, j) => 0)
    ensures out[m * n..] == old(out[m * n..])
  {
    var size := m * n;
    forall c | 0 <= c < size { out[c] := zero; }
    forall i, j | 0 <= i < m && 0 <= j < n ensures At(out[..], n, i, j, zero) == zero {
      IndexInBounds(m, n, i, j);
    }
  }

  /** Over the reals the accumulated cell is the matrix product: row i of A times column j of B. */
  lemma {:induction false} RealCell(p: Product<real>, i: int, j: int, l: nat)
    requires forall x, y :: p.add(x, y) == x + y && p.mul(x, y) == x * y
    requires p.zero == 0.0
    ensures Cell(p, i, j, l) == Dot(l, Row(AsMat(p.a, p.k), i), Column(AsMat(p.b, p.n), j))
  {
    if l > 0 { RealCell(p, i, j, l - 1); }
  }
}
