/**
  The 5% quantile of the Monte Carlo value-at-risk in wasm-zig/src/finance.zig: a partial selection
  sort of the simulated returns. The path simulation itself is not part of this model.
*/
module PartialSelection {

  const MAX_PATHS := 2000

  ghost predicate Sorted(s: seq<real>) {
    forall i, j | 0 <= i < j < |s| :: s[i] <= s[j]
  }

  /** The first k elements are the k smallest, in order. */
  ghost predicate Front(s: seq<real>, k: int) {
    forall i, j | 0 <= i < k && i < j < |s| :: s[i] <= s[j]
  }

  lemma SameElement(s: seq<real>, t: seq<real>, i: nat)
    requires multiset(s) == multiset(t) && i < |s|
    ensures s[i] in t
  {
    assert s[i] in multiset(s);
  }

  lemma SameSmallest(s: seq<real>, t: seq<real>)
    requires multiset(s) == multiset(t) && Sorted(t) && Front(s, 1) && s != []
    ensures t != [] && s[0] == t[0]
  {
    SameElement(s, t, 0);
    SameElement(t, s, 0);
  }

  lemma TailPermutes(s: seq<real>, t: seq<real>)
    requires multiset(s) == multiset(t) && s != [] && t != [] && s[0] == t[0]
    ensures multiset(s[1..]) == multiset(t[1..])
  {
    assert s == [s[0]] + s[1..] && t == [t[0]] + t[1..];
    assert multiset(s[1..]) == multiset(s) - multiset{s[0]};
  }

  /** The front of a partial selection agrees with any full sort of the same values. */
  lemma {:induction false} FrontOfSort(s: seq<real>, t: seq<real>, k: nat, i: nat)
    requires multiset(s) == multiset(t) && Sorted(t) && Front(s, k) && i < k <= |s|
    ensures |s| == |t| && s[i] == t[i]
    decreases i
  {
    assert |multiset(s)| == |s| && |multiset(t)| == |t|;
    SameSmallest(s, t);
    if i > 0 {
      TailPermutes(s, t);
      FrontOfSort(s[1..], t[1..], k - 1, i - 1);
    }
  }

  lemma SwapPermutes(s: seq<real>, i: nat, j: nat)
    requires i < |s| && j < |s|
    ensures multiset(s[i := s[j]][j := s[i]]) == multiset(s)
  {}

  /** Restoring the tail, a permutation of the whole is one of the head. */
  lemma HeadPermutes(s: seq<real>, t: seq<real>, n: nat)
    requires n <= |s| == |t| && multiset(s) == multiset(t) && s[n..] == t[n..]
    ensures multiset(s[..n]) == multiset(t[..n])
  {
    assert s == s[..n] + s[n..] && t == t[..n] + t[n..];
    forall x ensures multiset(s[..n])[x] == multiset(t[..n])[x] {
      assert multiset(s)[x] == multiset(s[..n])[x] + multiset(s[n..])[x];
      assert multiset(t)[x] == multiset(t[..n])[x] + multiset(t[n..])[x];
    }
  }

  /** The index of the smallest of a[j..n]. */
  method IndexOfMin(a: array<real>, j: nat, n: nat) returns (min: nat)
    requires j < a.Length && n <= a.Length
    ensures j <= min < a.Length && (min < n || min == j)
    ensures forall m | j <= m < n :: a[min] <= a[m]
  {
    min := j;
    var m := j + 1;
    while m < n
      invariant j < m && j <= min < a.Length && (min < n || min == j)
      invariant forall i | j <= i < m && i < n :: a[min] <= a[i]
    {
      if a[m] < a[min] { min := m; }
      m := m + 1;
    }
  }

  method Swap(a: array<real>, i: nat, j: nat)
    requires i < a.Length && j < a.Length
    modifies a
    ensures a[..] == old(a[..])[i := old(a[j])][j := old(a[i])]
  {
    var tmp := a[i];
    a[i] := a[j];
    a[j] := tmp;
  }

  /** k rounds of selection over the first n cells. */
  method SelectFront(a: array<real>, n: nat, k: nat)
    requires n <= a.Length && 1 <= k <= a.Length && (if n > 0 then k <= n else k == 1)
    modifies a
    ensures multiset(a[..]) == multiset(old(a[..])) && a[n..] == old(a[n..]) && Front(a[..n], k)
  {
    for j := 0 to k
      invariant multiset(a[..]) == multiset(old(a[..])) && a[n..] == old(a[n..])
      invariant Front(a[..n], j)
    {
      var minIdx := IndexOfMin(a, j, n);
      ghost var before := a[..];
      assert before[..n] == a[..n];
      SelectStep(before, n, j, minIdx);
      Swap(a, j, minIdx);
      assert a[..][..n] == a[..n] && a[..][n..] == a[n..] && before[n..] == old(a[n..]);
    }
  }

  function Paths(requested: nat): (n: nat)
    ensures n <= requested && n <= 2000 && (n == requested || n == 2000)
  {
    if requested < MAX_PATHS then requested else MAX_PATHS
  }

  /** The rank of the 5% quantile among n returns: the last that 5% of them reach, and at least the first. */
  function Rank(n: nat): (k: nat)
    ensures k >= 1 && (k > 1 ==> 20 * k <= n) && 20 * (k + 1) > n
  {
    if n / 20 < 1 then 1 else n / 20
  }

  /**
    The selection at the end of mcVaR95, on the first n returns, at most 2000. It permutes them,
    leaves the k smallest in order at the front, and returns the negated k-th smallest: whatever full
    sort of the returns one takes, its k-th entry is the one found.
  */
  method SelectVar95(finals: array<real>, paths: nat) returns (loss: real)
    requires finals.Length == MAX_PATHS
    modifies finals
    ensures var n := Paths(paths);
            && multiset(finals[..n]) == multiset(old(finals[..n])) && finals[n..] == old(finals[n..])
            && Front(finals[..n], Rank(n)) && loss == -finals[Rank(n) - 1]
            && (n > 0 ==> IsQuantile(old(finals[..n]), Rank(n), -loss))
  {
    var n := Paths(paths);
    var k := Rank(n);
    SelectFront(finals, n, k);
    HeadPermutes(finals[..], old(finals[..]), n);
    assert finals[..][..n] == finals[..n] && old(finals[..])[..n] == old(finals[..n]);
    loss := -finals[k - 1];
    if n > 0 { FrontIsQuantile(finals[..n], old(finals[..n]), k); }
  }

  /** v is the k-th entry of every sorted arrangement of s. */
  ghost predicate IsQuantile(s: seq<real>, k: nat, v: real) {
    1 <= k <= |s| && forall t: seq<real> | multiset(t) == multiset(s) && Sorted(t) :: |t| == |s| && t[k - 1] == v
  }

  lemma FrontIsQuantile(s: seq<real>, original: seq<real>, k: nat)
    requires multiset(s) == multiset(original) && Front(s, k) && 1 <= k <= |s|
    ensures IsQuantile(original, k, s[k - 1])
  {
    assert |multiset(s)| == |s| && |multiset(original)| == |original|;
    forall t: seq<real> | multiset(t) == multiset(original) && Sorted(t) ensures |t| == |s| && t[k - 1] == s[k - 1] {
      FrontOfSort(s, t, k, k - 1);
    }
  }

  /** Swapping the minimum of the rest into place j extends the front by one. */
  lemma SelectStep(s: seq<real>, n: nat, j: nat, min: nat)
    requires j < |s| && n <= |s| && j <= min < |s| && (min < n || min == j) && (n > 0 ==> j < n)
    requires Front(s[..n], j) && forall m | j <= m < n :: s[min] <= s[m]
    ensures var u := s[j := s[min]][min := s[j]];
            multiset(u) == multiset(s) && (n > 0 || min == j ==> u[n..] == s[n..]) && Front(u[..n], j + 1)
  {
    SwapPermutes(s, j, min);
    var u := s[j := s[min]][min := s[j]];
    forall i, m | 0 <= i < j + 1 && i < m < n ensures u[..n][i] <= u[..n][m] {
      if i < j {
        assert s[..n][i] <= s[..n][m];
        assert (j < n ==> s[..n][i] <= s[..n][j]) && (min < n ==> s[..n][i] <= s[..n][min]);
      }
    }
  }
}
