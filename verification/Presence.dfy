/**
  Presence tracking of the Phoenix JavaScript client: the diff and state merges and the message
  handlers of hub-elixir/deps/phoenix/assets/js/phoenix/presence.js.
*/
module PhoenixPresence {
  import opened Common

  /** One connection of a user; `ref` is its phx_ref. */
  datatype Meta = Meta(ref: string, data: string)

  /** A presence object: its metas and whatever other fields it carries. */
  datatype Entry = Entry(metas: seq<Meta>, extra: string)

  type State = map<string, Entry>

  datatype Diff = Diff(joins: State, leaves: State)

  // ---------------------------------------------------------------------------------------
  // The reference view: which (key, phx_ref) pairs are present
  // ---------------------------------------------------------------------------------------

  function Refs(metas: seq<Meta>): set<string> {
    set m | m in metas :: m.ref
  }

  ghost function Pairs(s: State): set<(string, string)> {
    set k, m | k in s && m in s[k].metas :: (k, m.ref)
  }

  ghost function ApplyDiff(view: set<(string, string)>, d: Diff): set<(string, string)> {
    view + Pairs(d.joins) - Pairs(d.leaves)
  }

  ghost function ApplyDiffs(view: set<(string, string)>, ds: seq<Diff>): set<(string, string)> {
    if ds == [] then view else ApplyDiff(ApplyDiffs(view, ds[..|ds| - 1]), ds[|ds| - 1])
  }

  lemma {:induction false} ApplyDiffsConcat(view: set<(string, string)>, ds: seq<Diff>, es: seq<Diff>)
    ensures ApplyDiffs(view, ds + es) == ApplyDiffs(ApplyDiffs(view, ds), es)
  {
    if es == [] {
      assert ds + es == ds;
    } else {
      ApplyDiffsConcat(view, ds, es[..|es| - 1]);
      assert (ds + es)[..|ds + es| - 1] == ds + es[..|es| - 1];
    }
  }

  ghost predicate NoEmpty(s: State) {
    forall k | k in s :: s[k].metas != []
  }

  ghost predicate DistinctRefs(metas: seq<Meta>) {
    forall i, j | 0 <= i < j < |metas| :: metas[i].ref != metas[j].ref
  }

  ghost predicate AllDistinct(s: State) {
    forall k | k in s :: DistinctRefs(s[k].metas)
  }

  // ---------------------------------------------------------------------------------------
  // Filtering metas by reference
  // ---------------------------------------------------------------------------------------

  /** The metas whose reference is not in `refs`, in order. */
  function Without(metas: seq<Meta>, refs: set<string>): (r: seq<Meta>)
    ensures forall m :: m in r <==> m in metas && m.ref !in refs
  {
    if metas == [] then []
    else
      var rest := Without(metas[1..], refs);
      if metas[0].ref in refs then rest else [metas[0]] + rest
  }

  lemma {:induction false} WithoutDistinct(metas: seq<Meta>, refs: set<string>)
    requires DistinctRefs(metas)
    ensures DistinctRefs(Without(metas, refs))
  {
    if metas != [] {
      WithoutDistinct(metas[1..], refs);
      var rest := Without(metas[1..], refs);
      forall m | m in rest ensures m.ref != metas[0].ref {
        var i :| 1 <= i < |metas| && metas[i] == m;
      }
    }
  }

  lemma ConcatDistinct(a: seq<Meta>, b: seq<Meta>)
    requires DistinctRefs(a) && DistinctRefs(b) && Refs(a) !! Refs(b)
    ensures DistinctRefs(a + b)
  {
    forall i, j | 0 <= i < |a| && 0 <= j < |b| ensures a[i].ref != b[j].ref {
      assert a[i].ref in Refs(a) && b[j].ref in Refs(b);
    }
  }

  // ---------------------------------------------------------------------------------------
  // syncDiff and syncState, key by key
  // ---------------------------------------------------------------------------------------

  /** A joining presence replaces the current one, keeping the current metas it does not carry. */
  function Merge(state: State, key: string, joined: Entry): Entry {
    if key in state
    then joined.(metas := Without(state[key].metas, Refs(joined.metas)) + joined.metas)
    else joined
  }

  function Joined(state: State, joins: State): State {
    map k | k in state.Keys + joins.Keys :: if k in joins then Merge(state, k, joins[k]) else state[k]
  }

  /** What is left of key's metas after a leave. */
  function Remaining(state: State, leaves: State, key: string): seq<Meta>
    requires key in state
  {
    if key in leaves then Without(state[key].metas, Refs(leaves[key].metas)) else state[key].metas
  }

  function Left(state: State, leaves: State): State {
    map k | k in state && (k in leaves ==> Remaining(state, leaves, k) != []) ::
      state[k].(metas := Remaining(state, leaves, k))
  }

  function DiffResult(state: State, d: Diff): State {
    Left(Joined(state, d.joins), d.leaves)
  }

  /** The diff that syncState derives from the two states. */
  function StateDiff(cur: State, new_: State): Diff {
    Diff(
      map k | k in new_ && (k in cur ==> Without(new_[k].metas, Refs(cur[k].metas)) != []) ::
        if k in cur then new_[k].(metas := Without(new_[k].metas, Refs(cur[k].metas))) else new_[k],
      map k | k in cur && (k in new_ ==> Without(cur[k].metas, Refs(new_[k].metas)) != []) ::
        if k in new_ then cur[k].(metas := Without(cur[k].metas, Refs(new_[k].metas))) else cur[k])
  }

  function StateResult(cur: State, new_: State): State {
    DiffResult(cur, StateDiff(cur, new_))
  }

  lemma JoinedPairs(state: State, joins: State)
    ensures Pairs(Joined(state, joins)) == Pairs(state) + Pairs(joins)
  {
    var s := Joined(state, joins);
    forall k, r ensures (k, r) in Pairs(s) <==> (k, r) in Pairs(state) || (k, r) in Pairs(joins) {
      PairOf(s, k, r);
      PairOf(state, k, r);
      PairOf(joins, k, r);
      if k in joins && k in state {
        var kept := Without(state[k].metas, Refs(joins[k].metas));
        RefsConcat(kept, joins[k].metas);
        RefsWithout(state[k].metas, Refs(joins[k].metas));
      }
    }
  }

  lemma LeftPairs(state: State, leaves: State)
    ensures Pairs(Left(state, leaves)) == Pairs(state) - Pairs(leaves)
  {
    var s := Left(state, leaves);
    forall k, r ensures (k, r) in Pairs(s) <==> (k, r) in Pairs(state) && (k, r) !in Pairs(leaves) {
      PairOf(s, k, r);
      PairOf(state, k, r);
      PairOf(leaves, k, r);
      if k in state && k in leaves { RefsWithout(state[k].metas, Refs(leaves[k].metas)); }
    }
  }

  lemma PairOf(s: State, k: string, r: string)
    ensures (k, r) in Pairs(s) <==> k in s && r in Refs(s[k].metas)
  {
    if k in s && r in Refs(s[k].metas) {
      var m :| m in s[k].metas && m.ref == r;
      assert (k, m.ref) in Pairs(s);
    }
  }

  lemma RefsConcat(a: seq<Meta>, b: seq<Meta>)
    ensures Refs(a + b) == Refs(a) + Refs(b)
  {
    forall r ensures r in Refs(a + b) <==> r in Refs(a) || r in Refs(b) {
      if r in Refs(a) { var m :| m in a && m.ref == r; assert m in a + b; }
      if r in Refs(b) { var m :| m in b && m.ref == r; assert m in a + b; }
    }
  }

  lemma RefsWithout(metas: seq<Meta>, refs: set<string>)
    ensures Refs(Without(metas, refs)) == Refs(metas) - refs
  {}

  // ---------------------------------------------------------------------------------------
  // Main results on the merges
  // ---------------------------------------------------------------------------------------

  /** syncDiff yields (state + joins) - leaves, on every key and reference. */
  lemma SyncDiffPairs(state: State, d: Diff)
    ensures Pairs(DiffResult(state, d)) == ApplyDiff(Pairs(state), d)
  {
    JoinedPairs(state, d.joins);
    LeftPairs(Joined(state, d.joins), d.leaves);
  }

  /**
    syncDiff leaves no key with empty metas exactly when every key that no leave touches has metas
    in the state or in the joins; in particular whenever state and joins have no empty keys.
  */
  lemma SyncDiffNoEmpty(state: State, d: Diff)
    ensures NoEmpty(DiffResult(state, d)) <==>
              forall k | k in state.Keys + d.joins.Keys && k !in d.leaves ::
                (k in state && state[k].metas != []) || (k in d.joins && d.joins[k].metas != [])
    ensures NoEmpty(state) && NoEmpty(d.joins) ==> NoEmpty(DiffResult(state, d))
  {
    var s, j := DiffResult(state, d), Joined(state, d.joins);
    forall k | k in state.Keys + d.joins.Keys && k !in d.leaves
      ensures k in s && s[k].metas == j[k].metas
      ensures s[k].metas == [] <==> !((k in state && state[k].metas != []) || (k in d.joins && d.joins[k].metas != []))
    {
      if k in state && k in d.joins && d.joins[k].metas == [] && state[k].metas != [] {
        assert state[k].metas[0] in Without(state[k].metas, {});
        assert Refs(d.joins[k].metas) == {};
      }
    }
  }

  /** syncDiff keeps the references of each key distinct. */
  lemma SyncDiffDistinct(state: State, d: Diff)
    requires AllDistinct(state) && AllDistinct(d.joins)
    ensures AllDistinct(DiffResult(state, d))
  {
    var j := Joined(state, d.joins);
    forall k | k in j ensures DistinctRefs(j[k].metas) {
      if k in state && k in d.joins {
        var refs := Refs(d.joins[k].metas);
        WithoutDistinct(state[k].metas, refs);
        RefsWithout(state[k].metas, refs);
        ConcatDistinct(Without(state[k].metas, refs), d.joins[k].metas);
      }
    }
    var s := DiffResult(state, d);
    forall k | k in s ensures DistinctRefs(s[k].metas) {
      if k in d.leaves { WithoutDistinct(j[k].metas, Refs(d.leaves[k].metas)); }
    }
  }

  /** syncState yields exactly the references of the new state, whatever the client had before. */
  lemma SyncStatePairs(cur: State, new_: State)
    ensures Pairs(StateResult(cur, new_)) == Pairs(new_)
  {
    var d := StateDiff(cur, new_);
    SyncDiffPairs(cur, d);
    forall k, r ensures (k, r) in ApplyDiff(Pairs(cur), d) <==> (k, r) in Pairs(new_) {
      PairOf(cur, k, r);
      PairOf(new_, k, r);
      PairOf(d.joins, k, r);
      PairOf(d.leaves, k, r);
      if k in cur && k in new_ {
        RefsWithout(new_[k].metas, Refs(cur[k].metas));
        RefsWithout(cur[k].metas, Refs(new_[k].metas));
        EmptyRefs(Without(new_[k].metas, Refs(cur[k].metas)));
        EmptyRefs(Without(cur[k].metas, Refs(new_[k].metas)));
      }
    }
  }

  lemma EmptyRefs(metas: seq<Meta>)
    ensures Refs(metas) == {} <==> metas == []
  {
    if metas != [] { assert metas[0].ref in Refs(metas); }
  }

  /**
    syncState yields exactly the new keys if and only if no key loses all its metas while the new
    state still lists it: such a key is deleted as if it had left.
  */
  lemma SyncStateKeys(cur: State, new_: State)
    ensures StateResult(cur, new_).Keys == new_.Keys <==>
              forall k | k in cur && k in new_ && new_[k].metas == [] :: cur[k].metas == []
    ensures NoEmpty(new_) ==> NoEmpty(StateResult(cur, new_)) && StateResult(cur, new_).Keys == new_.Keys
  {
    var s, d := StateResult(cur, new_), StateDiff(cur, new_);
    forall k
      ensures k in s <==> k in new_ && (k in cur && new_[k].metas == [] ==> cur[k].metas == [])
      ensures k in s && new_[k].metas != [] ==> s[k].metas != []
    {
      KeyAfterSync(cur, new_, k);
    }
    if forall k | k in cur && k in new_ && new_[k].metas == [] :: cur[k].metas == [] {
      assert s.Keys == new_.Keys;
    }
  }

  /** So a key the client shows is dropped when the server lists it without metas. */
  lemma ListedKeyVanishes(k: string, e: Entry)
    requires e.metas != []
    ensures StateResult(map[k := e], map[k := e.(metas := [])]) == map[]
  {
    var cur, new_ := map[k := e], map[k := e.(metas := [])];
    KeyAfterSync(cur, new_, k);
    assert k !in StateResult(cur, new_);
    forall k' ensures k' !in StateResult(cur, new_) { KeyAfterSync(cur, new_, k'); }
    assert StateResult(cur, new_).Keys == {};
  }

  lemma KeyAfterSync(cur: State, new_: State, k: string)
    ensures k in StateResult(cur, new_) <==> k in new_ && (k in cur && new_[k].metas == [] ==> cur[k].metas == [])
    ensures k in StateResult(cur, new_) && new_[k].metas != [] ==> StateResult(cur, new_)[k].metas != []
  {
    var s, d := StateResult(cur, new_), StateDiff(cur, new_);
    var j := Joined(cur, d.joins);
    SyncStatePairs(cur, new_);
    if k in new_ && new_[k].metas != [] {
      PairOf(new_, k, new_[k].metas[0].ref);
      PairOf(s, k, new_[k].metas[0].ref);
      assert new_[k].metas[0].ref in Refs(new_[k].metas);
      EmptyRefs(s[k].metas);
    } else if k in cur {
      NothingKept(cur[k].metas);
      AllKept(cur[k].metas);
      assert k !in d.joins && j[k] == cur[k];
      if k in new_ {
        assert Refs(new_[k].metas) == {};
        assert k in d.leaves <==> cur[k].metas != [];
        assert k in d.leaves ==> d.leaves[k].metas == cur[k].metas;
      }
    }
  }

  lemma {:induction false} AllKept(metas: seq<Meta>)
    ensures Without(metas, {}) == metas
  {
    if metas != [] { AllKept(metas[1..]); }
  }

  lemma NothingKept(metas: seq<Meta>)
    ensures Without(metas, Refs(metas)) == []
  {
    RefsWithout(metas, Refs(metas));
    EmptyRefs(Without(metas, Refs(metas)));
  }

  /** Which metas survive a diff: those joining, and current ones not replaced, unless they leave. */
  lemma SyncDiffMetas(state: State, d: Diff, k: string, m: Meta)
    ensures var s := DiffResult(state, d);
            (k in s && m in s[k].metas) <==>
            && ((k in d.joins && m in d.joins[k].metas) ||
                (k in state && m in state[k].metas && (k in d.joins ==> m.ref !in Refs(d.joins[k].metas))))
            && (k in d.leaves ==> m.ref !in Refs(d.leaves[k].metas))
  {
    var j := Joined(state, d.joins);
    assert (k in j && m in j[k].metas) <==>
           ((k in d.joins && m in d.joins[k].metas) ||
            (k in state && m in state[k].metas && (k in d.joins ==> m.ref !in Refs(d.joins[k].metas))));
  }

  /** Which metas a resynchronised client holds: its own for references it knew, the server's for the rest. */
  lemma SyncStateMetas(cur: State, new_: State, k: string, m: Meta)
    requires k in cur && k in new_
    ensures var s := StateResult(cur, new_);
            (k in s && m in s[k].metas) <==>
              (m in cur[k].metas && m.ref in Refs(new_[k].metas)) ||
              (m in new_[k].metas && m.ref !in Refs(cur[k].metas))
  {
    var d := StateDiff(cur, new_);
    SyncDiffMetas(cur, d, k, m);
    var joined, left := Without(new_[k].metas, Refs(cur[k].metas)), Without(cur[k].metas, Refs(new_[k].metas));
    RefsWithout(new_[k].metas, Refs(cur[k].metas));
    RefsWithout(cur[k].metas, Refs(new_[k].metas));
    if m in cur[k].metas { assert m.ref in Refs(cur[k].metas); }
    if m in new_[k].metas { assert m.ref in Refs(new_[k].metas); }
    assert k in d.joins <==> joined != [];
    assert k in d.leaves <==> left != [];
  }

  // ---------------------------------------------------------------------------------------
  // The order of a key's metas
  // ---------------------------------------------------------------------------------------

  /** a is b with some elements left out. */
  ghost predicate Sublist(a: seq<Meta>, b: seq<Meta>) {
    || a == []
    || (b != [] && ((a[0] == b[0] && Sublist(a[1..], b[1..])) || Sublist(a, b[1..])))
  }

  lemma {:induction false} SublistOfItself(a: seq<Meta>)
    ensures Sublist(a, a)
  {
    if a != [] { SublistOfItself(a[1..]); }
  }

  lemma {:induction false} SublistWithout(a: seq<Meta>, b: seq<Meta>, refs: set<string>)
    requires Sublist(a, b)
    ensures Sublist(Without(a, refs), b)
    decreases b
  {
    if a != [] {
      if a[0] == b[0] && Sublist(a[1..], b[1..]) {
        SublistWithout(a[1..], b[1..], refs);
        if a[0].ref !in refs { assert Without(a, refs)[1..] == Without(a[1..], refs); }
      } else {
        SublistWithout(a, b[1..], refs);
      }
    }
  }

  lemma WithoutHead(a: seq<Meta>, x: Meta, rest: seq<Meta>, refs: set<string>, head: seq<Meta>)
    requires a != [] && a[0] == x && a[1..] == rest && head == if x.ref in refs then [] else [x]
    ensures Without(a, refs) == head + Without(rest, refs)
  {}

  lemma HeadOfConcat(a: seq<Meta>, b: seq<Meta>)
    requires a != []
    ensures (a + b)[0] == a[0] && (a + b)[1..] == a[1..] + b
  {}

  /** Two sequences with the same head, put together from their rests. */
  lemma SameHead(head: seq<Meta>, rest: seq<Meta>, b: seq<Meta>, both: seq<Meta>, a: seq<Meta>, ab: seq<Meta>)
    requires a == head + rest && ab == head + both && both == rest + b
    ensures ab == a + b
  {}

  lemma {:induction false} WithoutConcat(a: seq<Meta>, b: seq<Meta>, refs: set<string>)
    ensures Without(a + b, refs) == Without(a, refs) + Without(b, refs)
  {
    if a == [] {
      assert a + b == b;
    } else {
      var x, rest := a[0], a[1..];
      var head := if x.ref in refs then [] else [x];
      WithoutConcat(rest, b, refs);
      HeadOfConcat(a, b);
      WithoutHead(a, x, rest, refs, head);
      WithoutHead(a + b, x, rest + b, refs, head);
      SameHead(head, Without(rest, refs), Without(b, refs), Without(rest + b, refs), Without(a, refs),
               Without(a + b, refs));
    }
  }

  /** The metas a state lists under a key. */
  function Listed(state: State, k: string): seq<Meta> { if k in state then state[k].metas else [] }

  /**
    The first n metas are current ones that the diff does not replace, the rest are joining ones; each
    group keeps its order.
  */
  ghost predicate CurrentThenJoined(metas: seq<Meta>, n: nat, current: seq<Meta>, joined: seq<Meta>) {
    && n <= |metas|
    && Sublist(metas[..n], current) && Sublist(metas[n..], joined)
    && forall i | 0 <= i < n :: metas[i].ref !in Refs(joined)
  }

  /**
    syncDiff puts the surviving metas of a key before its joining ones, each in the order they had, and
    gives the key the other fields of the joining presence.
  */
  lemma SyncDiffOrder(state: State, d: Diff, k: string) returns (n: nat)
    requires k in DiffResult(state, d)
    ensures CurrentThenJoined(DiffResult(state, d)[k].metas, n, Listed(state, k), Listed(d.joins, k))
    ensures k in d.joins ==> DiffResult(state, d)[k].extra == d.joins[k].extra
    ensures k !in d.joins ==> k in state && DiffResult(state, d)[k].extra == state[k].extra
  {
    var current, joined := Listed(state, k), Listed(d.joins, k);
    var gone := if k in d.leaves then Refs(d.leaves[k].metas) else {};
    var kept := Without(current, Refs(joined));
    SublistOfItself(current);
    SublistOfItself(joined);
    SublistWithout(current, current, Refs(joined));
    SublistWithout(kept, current, gone);
    SublistWithout(joined, joined, gone);
    WithoutConcat(kept, joined, gone);
    AllKept(current);
    AllKept(kept + joined);
    n := |Without(kept, gone)|;
    MetasAfterDiff(state, d, k, kept + joined, gone);
    var metas := DiffResult(state, d)[k].metas;
    assert metas[..n] == Without(kept, gone) && metas[n..] == Without(joined, gone);
    forall i | 0 <= i < n ensures metas[i].ref !in Refs(joined) {
      assert metas[i] == Without(kept, gone)[i] && metas[i] in Without(kept, gone);
    }
  }

  lemma MetasAfterDiff(state: State, d: Diff, k: string, metas: seq<Meta>, gone: set<string>)
    requires k in DiffResult(state, d)
    requires metas == Without(Listed(state, k), Refs(Listed(d.joins, k))) + Listed(d.joins, k)
    requires gone == if k in d.leaves then Refs(d.leaves[k].metas) else {}
    requires Without(Listed(state, k), {}) == Listed(state, k) && Without(metas, {}) == metas
    ensures DiffResult(state, d)[k].metas == Without(metas, gone)
  {
    JoinedMetas(state, d.joins, k);
    LeftMetas(Joined(state, d.joins), d.leaves, k, gone);
  }

  lemma JoinedMetas(state: State, joins: State, k: string)
    requires k in state || k in joins
    requires Without(Listed(state, k), {}) == Listed(state, k)
    ensures k in Joined(state, joins)
    ensures Joined(state, joins)[k].metas == Without(Listed(state, k), Refs(Listed(joins, k))) + Listed(joins, k)
  {
    if k !in joins {
      assert Refs(Listed(joins, k)) == {} && Listed(state, k) + [] == Listed(state, k);
    } else if k !in state {
      assert Without([], Refs(joins[k].metas)) == [] && [] + joins[k].metas == joins[k].metas;
    }
  }

  lemma LeftMetas(state: State, leaves: State, k: string, gone: set<string>)
    requires k in Left(state, leaves) && gone == if k in leaves then Refs(leaves[k].metas) else {}
    requires Without(state[k].metas, {}) == state[k].metas
    ensures Left(state, leaves)[k].metas == Without(state[k].metas, gone)
  {}

  /** syncState likewise: the metas the client had for known references first, then the server's new ones. */
  lemma SyncStateOrder(cur: State, new_: State, k: string) returns (n: nat)
    requires k in StateResult(cur, new_)
    ensures var metas := StateResult(cur, new_)[k].metas;
            && n <= |metas| && Sublist(metas[..n], Listed(cur, k)) && Sublist(metas[n..], Listed(new_, k))
            && forall i | n <= i < |metas| :: metas[i].ref !in Refs(Listed(cur, k))
    ensures k in new_
    ensures StateResult(cur, new_)[k].extra ==
            if k in cur && Refs(new_[k].metas) <= Refs(cur[k].metas) then cur[k].extra else new_[k].extra
  {
    var d := StateDiff(cur, new_);
    n := SyncDiffOrder(cur, d, k);
    KeyAfterSync(cur, new_, k);
    var metas := StateResult(cur, new_)[k].metas;
    NewMetas(cur, new_, k);
    RestIsNew(metas, n, Listed(d.joins, k), Listed(new_, k), Refs(Listed(cur, k)));
  }

  lemma RestIsNew(metas: seq<Meta>, n: nat, joined: seq<Meta>, listed: seq<Meta>, known: set<string>)
    requires n <= |metas| && Sublist(metas[n..], joined) && Sublist(joined, listed)
    requires forall m | m in joined :: m.ref !in known
    ensures Sublist(metas[n..], listed) && forall i | n <= i < |metas| :: metas[i].ref !in known
  {
    SublistTrans(metas[n..], joined, listed);
    forall i | n <= i < |metas| ensures metas[i].ref !in known {
      SublistMember(metas[n..], joined, i - n);
      assert metas[n..][i - n] == metas[i];
    }
  }

  /** What syncState lets join under a key: the new state's metas whose references the client lacks. */
  lemma NewMetas(cur: State, new_: State, k: string)
    requires k in new_
    ensures var joined := Listed(StateDiff(cur, new_).joins, k);
            Sublist(joined, new_[k].metas) && forall m | m in joined :: m.ref !in Refs(Listed(cur, k))
    ensures k in StateDiff(cur, new_).joins <==> !(k in cur && Refs(new_[k].metas) <= Refs(cur[k].metas))
    ensures k in StateDiff(cur, new_).joins ==> StateDiff(cur, new_).joins[k].extra == new_[k].extra
  {
    SublistOfItself(new_[k].metas);
    if k in cur {
      var joined := Without(new_[k].metas, Refs(cur[k].metas));
      SublistWithout(new_[k].metas, new_[k].metas, Refs(cur[k].metas));
      RefsWithout(new_[k].metas, Refs(cur[k].metas));
      EmptyRefs(joined);
    } else {
      assert Refs([]) == {};
    }
  }

  lemma {:induction false} SublistMember(a: seq<Meta>, b: seq<Meta>, i: nat)
    requires Sublist(a, b) && i < |a|
    ensures a[i] in b
    decreases b
  {
    if a[0] == b[0] && Sublist(a[1..], b[1..]) {
      if i > 0 { SublistMember(a[1..], b[1..], i - 1); }
    } else {
      SublistMember(a, b[1..], i);
    }
  }

  lemma {:induction false} SublistTrans(a: seq<Meta>, b: seq<Meta>, c: seq<Meta>)
    requires Sublist(a, b) && Sublist(b, c)
    ensures Sublist(a, c)
    decreases c
  {
    if a != [] {
      if b[0] == c[0] && Sublist(b[1..], c[1..]) {
        if a[0] == b[0] && Sublist(a[1..], b[1..]) {
          SublistTrans(a[1..], b[1..], c[1..]);
        } else {
          SublistTrans(a, b[1..], c[1..]);
        }
      } else {
        SublistTrans(a, b, c[1..]);
      }
    }
  }

  /** x stands before y. */
  ghost predicate InOrder(metas: seq<Meta>, x: Meta, y: Meta) {
    exists p, q :: 0 <= p < q < |metas| && metas[p] == x && metas[q] == y
  }

  /** Elements of a sublist stand in the same order in the whole. */
  lemma {:induction false} SublistInOrder(a: seq<Meta>, b: seq<Meta>, i: nat, j: nat) returns (p: nat, q: nat)
    requires Sublist(a, b) && i < j < |a|
    ensures p < q < |b| && b[p] == a[i] && b[q] == a[j]
    decreases b
  {
    if a[0] == b[0] && Sublist(a[1..], b[1..]) {
      if i == 0 {
        SublistMember(a[1..], b[1..], j - 1);
        var r :| 0 <= r < |b[1..]| && b[1..][r] == a[1..][j - 1];
        p, q := 0, r + 1;
      } else {
        p, q := SublistInOrder(a[1..], b[1..], i - 1, j - 1);
        p, q := p + 1, q + 1;
      }
    } else {
      p, q := SublistInOrder(a, b[1..], i, j);
      p, q := p + 1, q + 1;
    }
  }

  // ---------------------------------------------------------------------------------------
  // The loops, in any key order
  // ---------------------------------------------------------------------------------------

  method ApplyJoins(state: State, joins: State) returns (s: State)
    ensures s == Joined(state, joins)
  {
    s := state;
    var todo := joins.Keys;
    while todo != {}
      invariant todo <= joins.Keys
      invariant s.Keys == state.Keys + (joins.Keys - todo)
      invariant forall k | k in s :: s[k] == if k in joins && k !in todo then Merge(state, k, joins[k]) else state[k]
    {
      var key :| key in todo;
      var joined := joins[key];
      if key in s {
        var curMetas := Without(s[key].metas, Refs(joined.metas));
        s := s[key := joined.(metas := curMetas + joined.metas)];
      } else {
        s := s[key := joined];
      }
      todo := todo - {key};
    }
  }

  method ApplyLeaves(state: State, leaves: State) returns (s: State)
    ensures s == Left(state, leaves)
  {
    s := state;
    var todo := leaves.Keys;
    while todo != {}
      invariant todo <= leaves.Keys
      invariant forall k :: k in s <==> k in state && (k in leaves && k !in todo ==> Remaining(state, leaves, k) != [])
      invariant forall k | k in s ::
                s[k] == if k in leaves && k !in todo then state[k].(metas := Remaining(state, leaves, k)) else state[k]
    {
      var key :| key in todo;
      if key in s {
        var metas := Without(s[key].metas, Refs(leaves[key].metas));
        if |metas| == 0 {
          s := s - {key};
        } else {
          s := s[key := s[key].(metas := metas)];
        }
      }
      todo := todo - {key};
    }
  }

  method SyncDiff(state: State, d: Diff) returns (s: State)
    ensures s == DiffResult(state, d)
  {
    s := ApplyJoins(state, d.joins);
    s := ApplyLeaves(s, d.leaves);
  }

  /** The part of a map whose keys have been visited. */
  ghost function Visited(s: State, todo: set<string>): State {
    map k | k in s && k !in todo :: s[k]
  }

  lemma VisitKey(s: State, todo: set<string>, key: string)
    requires key in todo
    ensures Visited(s, todo - {key}) == if key in s then Visited(s, todo)[key := s[key]] else Visited(s, todo)
  {}

  method SyncState(cur: State, new_: State) returns (s: State)
    ensures s == StateResult(cur, new_)
  {
    var leaves: State := map[];
    var todo := cur.Keys;
    while todo != {}
      invariant todo <= cur.Keys
      invariant leaves == map k | k in cur && k !in todo && k !in new_ :: cur[k]
    {
      var key :| key in todo;
      if key !in new_ { leaves := leaves[key := cur[key]]; }
      todo := todo - {key};
    }
    var d := CompareKeys(cur, new_, leaves);
    s := SyncDiff(cur, d);
  }

  /** The second loop of syncState: compares the references of the keys the new state lists. */
  method CompareKeys(cur: State, new_: State, gone: State) returns (d: Diff)
    requires gone == map k | k in cur && k !in new_ :: cur[k]
    ensures d == StateDiff(cur, new_)
  {
    var joins: State, leaves := map[], gone;
    ghost var goal := StateDiff(cur, new_);
    var todo := new_.Keys;
    while todo != {}
      invariant todo <= new_.Keys
      invariant joins == Visited(goal.joins, todo) && leaves == Visited(goal.leaves, todo)
    {
      var key :| key in todo;
      VisitKey(goal.joins, todo, key);
      VisitKey(goal.leaves, todo, key);
      var newPresence := new_[key];
      if key in cur {
        var joinedMetas := Without(newPresence.metas, Refs(cur[key].metas));
        var leftMetas := Without(cur[key].metas, Refs(newPresence.metas));
        if |joinedMetas| > 0 { joins := joins[key := newPresence.(metas := joinedMetas)]; }
        if |leftMetas| > 0 { leaves := leaves[key := cur[key].(metas := leftMetas)]; }
      } else {
        joins := joins[key := newPresence];
      }
      todo := todo - {key};
    }
    assert joins == goal.joins && leaves == goal.leaves;
    d := Diff(joins, leaves);
  }

  // ---------------------------------------------------------------------------------------
  // The client over a run of messages
  // ---------------------------------------------------------------------------------------

  /**
    What can happen to a presence client: a snapshot or a diff arrives, or its channel starts a new
    join attempt (`skipped` other references having been handed out meanwhile) or drops its join
    reference after an error.
  */
  datatype Event = Snapshot(state: State) | DiffMsg(diff: Diff) | Rejoin(skipped: nat) | DropRef

  /** `channelRef` and `lastRef` belong to the channel and its socket; the rest is the client. */
  datatype Client = Client(state: State, pendingDiffs: seq<Diff>, joinRef: Option<nat>,
                           channelRef: Option<nat>, lastRef: nat)
  {
    predicate InPendingSyncState() { joinRef.None? || joinRef != channelRef }
  }

  const INIT := Client(map[], [], None, None, 0)

  function ApplyPending(state: State, ds: seq<Diff>): State {
    if ds == [] then state else DiffResult(ApplyPending(state, ds[..|ds| - 1]), ds[|ds| - 1])
  }

  function Step(c: Client, e: Event): Client {
    match e
    case Snapshot(s) =>
      c.(joinRef := c.channelRef, state := ApplyPending(StateResult(c.state, s), c.pendingDiffs), pendingDiffs := [])
    case DiffMsg(d) =>
      if c.InPendingSyncState() then c.(pendingDiffs := c.pendingDiffs + [d]) else c.(state := DiffResult(c.state, d))
    case Rejoin(skipped) =>
      c.(channelRef := Some(c.lastRef + skipped + 1), lastRef := c.lastRef + skipped + 1)
    case DropRef => c.(channelRef := None)
  }

  function Run(c: Client, es: seq<Event>): Client {
    if es == [] then c else Step(Run(c, es[..|es| - 1]), es[|es| - 1])
  }

  /** The diffs among a run of messages, in order. */
  ghost function Diffs(es: seq<Event>): seq<Diff> {
    if es == [] then []
    else Diffs(es[..|es| - 1]) + (if es[|es| - 1].DiffMsg? then [es[|es| - 1].diff] else [])
  }

  ghost predicate WithoutSnapshots(es: seq<Event>) {
    forall i | 0 <= i < |es| :: !es[i].Snapshot?
  }

  /** No join attempt starts or is dropped. */
  ghost predicate SameJoin(es: seq<Event>) {
    forall i | 0 <= i < |es| :: !es[i].Rejoin? && !es[i].DropRef?
  }

  /** Join references are fresh: none of those seen is above the socket's counter. */
  ghost predicate RefsIssued(c: Client) {
    && (c.joinRef.Some? ==> c.joinRef.value <= c.lastRef)
    && (c.channelRef.Some? ==> c.channelRef.value <= c.lastRef)
  }

  lemma {:induction false} RefsStayIssued(es: seq<Event>)
    ensures RefsIssued(Run(INIT, es))
  {
    if es != [] { RefsStayIssued(es[..|es| - 1]); }
  }

  lemma {:induction false} ApplyPendingPairs(state: State, ds: seq<Diff>)
    ensures Pairs(ApplyPending(state, ds)) == ApplyDiffs(Pairs(state), ds)
  {
    if ds != [] {
      ApplyPendingPairs(state, ds[..|ds| - 1]);
      SyncDiffPairs(ApplyPending(state, ds[..|ds| - 1]), ds[|ds| - 1]);
    }
  }

  /** Once the channel has moved on to another join attempt, the client buffers until a snapshot. */
  ghost predicate OutOfSync(c: Client) {
    RefsIssued(c) && (c.joinRef.None? || c.channelRef.None? || c.joinRef.value < c.channelRef.value)
  }

  lemma {:induction false} BuffersUntilSnapshot(c: Client, es: seq<Event>)
    requires OutOfSync(c) && WithoutSnapshots(es)
    ensures OutOfSync(Run(c, es))
    ensures Run(c, es).pendingDiffs == c.pendingDiffs + Diffs(es)
  {
    if es != [] { BuffersUntilSnapshot(c, es[..|es| - 1]); }
  }

  lemma {:induction false} AppliesWhileInSync(c: Client, es: seq<Event>)
    requires !c.InPendingSyncState() && WithoutSnapshots(es) && SameJoin(es)
    ensures !Run(c, es).InPendingSyncState()
    ensures Pairs(Run(c, es).state) == ApplyDiffs(Pairs(c.state), Diffs(es))
    ensures Run(c, es).pendingDiffs == c.pendingDiffs
  {
    if es != [] {
      var prefix := es[..|es| - 1];
      AppliesWhileInSync(c, prefix);
      if es[|es| - 1].DiffMsg? { SyncDiffPairs(Run(c, prefix).state, es[|es| - 1].diff); }
    }
  }

  /** Between a snapshot and the next change of join attempt nothing is buffered. */
  lemma {:induction false} NothingBufferedInSync(es: seq<Event>)
    ensures !Run(INIT, es).InPendingSyncState() ==> Run(INIT, es).pendingDiffs == []
    ensures OutOfSync(Run(INIT, es)) || !Run(INIT, es).InPendingSyncState()
  {
    RefsStayIssued(es);
    if es != [] { NothingBufferedInSync(es[..|es| - 1]); }
  }

  // ---------------------------------------------------------------------------------------
  // What every run shows, in terms of its events alone
  // ---------------------------------------------------------------------------------------

  /** The channel has a join reference: its latest change of join attempt was a rejoin. */
  ghost predicate HasRef(es: seq<Event>) {
    es != [] &&
    match es[|es| - 1]
    case Rejoin(_) => true
    case DropRef => false
    case _ => HasRef(es[..|es| - 1])
  }

  /** A snapshot has arrived on the current join attempt. */
  ghost predicate InSync(es: seq<Event>) {
    es != [] &&
    match es[|es| - 1]
    case Snapshot(_) => HasRef(es[..|es| - 1])
    case DiffMsg(_) => InSync(es[..|es| - 1])
    case _ => false
  }

  /** The diffs received out of sync since the latest snapshot. */
  ghost function Buffered(es: seq<Event>): seq<Diff> {
    if es == [] then []
    else
      var init := es[..|es| - 1];
      match es[|es| - 1]
      case Snapshot(_) => []
      case DiffMsg(d) => if InSync(init) then Buffered(init) else Buffered(init) + [d]
      case _ => Buffered(init)
  }

  /** The pairs shown: a snapshot replaces them, with the diffs buffered till then; diffs count in sync. */
  ghost function View(es: seq<Event>): set<(string, string)> {
    if es == [] then {}
    else
      var init := es[..|es| - 1];
      match es[|es| - 1]
      case Snapshot(s) => ApplyDiffs(Pairs(s), Buffered(init))
      case DiffMsg(d) => if InSync(init) then ApplyDiff(View(init), d) else View(init)
      case _ => View(init)
  }

  /** The client's references say whether it is in sync. */
  ghost predicate TracksJoin(c: Client, es: seq<Event>) {
    (HasRef(es) <==> c.channelRef.Some?) && (InSync(es) <==> !c.InPendingSyncState())
  }

  lemma {:induction false} SyncIsTracked(es: seq<Event>)
    ensures TracksJoin(Run(INIT, es), es)
  {
    if es != [] {
      SyncIsTracked(es[..|es| - 1]);
      RefsStayIssued(es[..|es| - 1]);
    }
  }

  /**
    In every run, in sync or not, the client holds back exactly the diffs received out of sync since
    the latest snapshot, and shows exactly the pairs its events account for.
  */
  lemma {:induction false} EveryRunShows(es: seq<Event>)
    ensures Run(INIT, es).pendingDiffs == Buffered(es)
    ensures Pairs(Run(INIT, es).state) == View(es)
  {
    if es != [] {
      var init := es[..|es| - 1];
      EveryRunShows(init);
      SyncIsTracked(init);
      ShowsAfter(Run(INIT, init), es[|es| - 1]);
    }
  }

  lemma ShowsAfter(c: Client, e: Event)
    ensures match e
            case Snapshot(s) => Pairs(Step(c, e).state) == ApplyDiffs(Pairs(s), c.pendingDiffs)
            case DiffMsg(d) => !c.InPendingSyncState() ==> Pairs(Step(c, e).state) == ApplyDiff(Pairs(c.state), d)
            case _ => true
  {
    match e
    case Snapshot(s) =>
      SyncStatePairs(c.state, s);
      ApplyPendingPairs(StateResult(c.state, s), c.pendingDiffs);
    case DiffMsg(d) => SyncDiffPairs(c.state, d);
    case _ =>
  }

  // ---------------------------------------------------------------------------------------
  // In which order the metas of a key stand
  // ---------------------------------------------------------------------------------------

  /** 1 + the index of the latest diff in which a reference joined under key k, or 0. */
  ghost function LastJoin(ds: seq<Diff>, k: string, r: string): nat {
    if ds == [] then 0
    else if r in Refs(Listed(ds[|ds| - 1].joins, k)) then |ds|
    else LastJoin(ds[..|ds| - 1], k, r)
  }

  lemma {:induction false} LastJoinBounded(ds: seq<Diff>, k: string, r: string)
    ensures LastJoin(ds, k, r) <= |ds|
  {
    if ds != [] { LastJoinBounded(ds[..|ds| - 1], k, r); }
  }

  /** Where the metas that joined last at t were listed: in diff t - 1, or in the state at the beginning. */
  ghost function Source(start: State, ds: seq<Diff>, k: string, t: nat): seq<Meta>
    requires t <= |ds|
  {
    if t == 0 then Listed(start, k) else Listed(ds[t - 1].joins, k)
  }

  /** x joined before y did, or they joined together, x listed first. */
  ghost predicate JoinedBefore(start: State, ds: seq<Diff>, k: string, x: Meta, y: Meta) {
    var t, u := LastJoin(ds, k, x.ref), LastJoin(ds, k, y.ref);
    t < u || (t == u <= |ds| && InOrder(Source(start, ds, k, t), x, y))
  }

  ghost predicate ByJoin(start: State, ds: seq<Diff>, k: string, metas: seq<Meta>) {
    forall i, j | 0 <= i < j < |metas| :: JoinedBefore(start, ds, k, metas[i], metas[j])
  }

  /** Diffs applied in order leave the metas of every key in the order in which their references joined. */
  lemma {:induction false} OrderOfJoins(start: State, ds: seq<Diff>, k: string)
    ensures ByJoin(start, ds, k, Listed(ApplyPending(start, ds), k))
  {
    if ds != [] {
      var prefix, d := ds[..|ds| - 1], ds[|ds| - 1];
      var before, after := ApplyPending(start, prefix), ApplyPending(start, ds);
      OrderOfJoins(start, prefix, k);
      if k in after {
        var n := SyncDiffOrder(before, d, k);
        forall i, j | 0 <= i < j < |after[k].metas|
          ensures JoinedBefore(start, ds, k, after[k].metas[i], after[k].metas[j])
        {
          OrderOfPair(start, ds, k, Listed(before, k), after[k].metas, n, i, j);
        }
      }
    }
  }

  lemma OrderOfPair(start: State, ds: seq<Diff>, k: string, current: seq<Meta>, metas: seq<Meta>, n: nat, i: nat,
                    j: nat)
    requires ds != [] && ByJoin(start, ds[..|ds| - 1], k, current) && i < j < |metas|
    requires CurrentThenJoined(metas, n, current, Listed(ds[|ds| - 1].joins, k))
    ensures JoinedBefore(start, ds, k, metas[i], metas[j])
  {
    var joined := Listed(ds[|ds| - 1].joins, k);
    if j < n {
      var p, q := SublistInOrder(metas[..n], current, i, j);
      assert JoinedBefore(start, ds[..|ds| - 1], k, current[p], current[q]);
      OrderStays(start, ds, k, metas[i], metas[j]);
    } else if i < n {
      JoinsNow(ds, k, metas, n, j);
      LastJoinBounded(ds[..|ds| - 1], k, metas[i].ref);
    } else {
      JoinsNow(ds, k, metas, n, i);
      JoinsNow(ds, k, metas, n, j);
      JoinedTogether(metas, n, joined, i, j);
    }
  }

  /** Metas that the latest diff does not join keep their order. */
  lemma OrderStays(start: State, ds: seq<Diff>, k: string, x: Meta, y: Meta)
    requires ds != [] && JoinedBefore(start, ds[..|ds| - 1], k, x, y)
    requires x.ref !in Refs(Listed(ds[|ds| - 1].joins, k)) && y.ref !in Refs(Listed(ds[|ds| - 1].joins, k))
    ensures JoinedBefore(start, ds, k, x, y)
  {
    var t := LastJoin(ds[..|ds| - 1], k, x.ref);
    if t < |ds| { assert Source(start, ds, k, t) == Source(start, ds[..|ds| - 1], k, t); }
  }

  /** From position n on, metas join with the latest diff. */
  lemma JoinsNow(ds: seq<Diff>, k: string, metas: seq<Meta>, n: nat, j: nat)
    requires ds != [] && n <= j < |metas| && Sublist(metas[n..], Listed(ds[|ds| - 1].joins, k))
    ensures LastJoin(ds, k, metas[j].ref) == |ds|
  {
    SublistMember(metas[n..], Listed(ds[|ds| - 1].joins, k), j - n);
    assert metas[n..][j - n] == metas[j];
  }

  lemma JoinedTogether(metas: seq<Meta>, n: nat, joined: seq<Meta>, i: nat, j: nat)
    requires n <= i < j < |metas| && Sublist(metas[n..], joined)
    ensures InOrder(joined, metas[i], metas[j])
  {
    assert metas[n..][i - n] == metas[i] && metas[n..][j - n] == metas[j];
    var p, q := SublistInOrder(metas[n..], joined, i - n, j - n);
  }

  /** In sync, the state is the one before with every diff applied in order. */
  lemma {:induction false} StateInSync(c: Client, es: seq<Event>)
    requires !c.InPendingSyncState() && WithoutSnapshots(es) && SameJoin(es)
    ensures Run(c, es).state == ApplyPending(c.state, Diffs(es))
    ensures !Run(c, es).InPendingSyncState()
  {
    if es != [] {
      var prefix, last := es[..|es| - 1], es[|es| - 1];
      StateInSync(c, prefix);
      if last.DiffMsg? { assert Diffs(es)[..|Diffs(prefix)|] == Diffs(prefix); }
    }
  }

  lemma {:induction false} ApplyPendingConcat(state: State, ds: seq<Diff>, fs: seq<Diff>)
    ensures ApplyPending(state, ds + fs) == ApplyPending(ApplyPending(state, ds), fs)
  {
    if fs == [] {
      assert ds + fs == ds;
    } else {
      assert (ds + fs)[..|ds + fs| - 1] == ds + fs[..|fs| - 1];
      ApplyPendingConcat(state, ds, fs[..|fs| - 1]);
    }
  }

  lemma {:induction false} RunConcat(c: Client, es: seq<Event>, fs: seq<Event>)
    ensures Run(c, es + fs) == Run(Run(c, es), fs)
  {
    if fs == [] {
      assert es + fs == es;
    } else {
      assert (es + fs)[..|es + fs| - 1] == es + fs[..|fs| - 1];
      RunConcat(c, es, fs[..|fs| - 1]);
    }
  }

  /**
    For every run outside pending sync, with es[i] the latest snapshot: the state is what syncState made
    of it, with the diffs buffered by then and those received since applied in order; so the metas
    of every key stand in the order in which their references joined since the snapshot, those that
    did not first, as syncState left them.
  */
  lemma MetasInJoinOrder(es: seq<Event>, k: string) returns (i: nat)
    requires !Run(INIT, es).InPendingSyncState()
    ensures Latest(es, i)
    ensures var start, ds := StateResult(Run(INIT, es[..i]).state, es[i].state), Buffered(es[..i]) + Diffs(es[i + 1..]);
            && Run(INIT, es).state == ApplyPending(start, ds)
            && ByJoin(start, ds, k, Listed(Run(INIT, es).state, k))
  {
    i := ViewInSync(es);
    var before, later := es[..i], es[i + 1..];
    var start := StateResult(Run(INIT, before).state, es[i].state);
    EveryRunShows(before);
    AfterSnapshot(es, i);
    StateInSync(Run(INIT, es[..i + 1]), later);
    ApplyPendingConcat(start, Buffered(before), Diffs(later));
    OrderOfJoins(start, Buffered(before) + Diffs(later), k);
  }

  /** A run is what its latest snapshot left, continued. */
  lemma AfterSnapshot(es: seq<Event>, i: nat)
    requires Latest(es, i) && !Run(INIT, es).InPendingSyncState()
    ensures Run(INIT, es[..i + 1]) == Step(Run(INIT, es[..i]), es[i])
    ensures Run(INIT, es) == Run(Run(INIT, es[..i + 1]), es[i + 1..])
    ensures !Run(INIT, es[..i + 1]).InPendingSyncState()
  {
    assert es == es[..i + 1] + es[i + 1..] && es[..i + 1][..i] == es[..i];
    RunConcat(INIT, es[..i + 1], es[i + 1..]);
    SnapshotInSync(es, i);
  }

  /** If a run ends in sync, it was in sync right after its latest snapshot. */
  lemma SnapshotInSync(es: seq<Event>, i: nat)
    requires Latest(es, i) && !Run(INIT, es).InPendingSyncState()
    ensures !Run(INIT, es[..i + 1]).InPendingSyncState()
  {
    SyncIsTracked(es);
    InSyncBack(es, i + 1);
    SyncIsTracked(es[..i + 1]);
  }

  lemma {:induction false} InSyncBack(es: seq<Event>, n: nat)
    requires n <= |es| && InSync(es) && WithoutSnapshots(es[n..])
    ensures InSync(es[..n])
  {
    if n < |es| {
      assert es[n..][|es| - n - 1] == es[|es| - 1];
      assert es[..|es| - 1][n..] == es[n..][..|es| - n - 1] && es[..|es| - 1][..n] == es[..n];
      InSyncBack(es[..|es| - 1], n);
    } else {
      assert es[..n] == es;
    }
  }

  /**
    For every run outside pending sync: the client shows the latest snapshot, es[i], with the diffs
    buffered when it arrived and the diffs received since applied in order.
  */
  lemma ViewInSync(es: seq<Event>) returns (i: nat)
    requires !Run(INIT, es).InPendingSyncState()
    ensures Latest(es, i)
    ensures Pairs(Run(INIT, es).state) == ApplyDiffs(Pairs(es[i].state), Buffered(es[..i]) + Diffs(es[i + 1..]))
  {
    SyncIsTracked(es);
    EveryRunShows(es);
    i := SinceSnapshot(es);
  }

  /** es[i] is the latest snapshot, and the join attempt has not changed since. */
  ghost predicate Latest(es: seq<Event>, i: nat) {
    i < |es| && es[i].Snapshot? && WithoutSnapshots(es[i + 1..]) && SameJoin(es[i + 1..])
  }

  /** Snapshot es[i] with the diffs buffered when it arrived and those received since. */
  ghost function Since(es: seq<Event>, i: nat): set<(string, string)>
    requires Latest(es, i)
  {
    ApplyDiffs(Pairs(es[i].state), Buffered(es[..i]) + Diffs(es[i + 1..]))
  }

  lemma {:induction false} SinceSnapshot(es: seq<Event>) returns (i: nat)
    requires InSync(es)
    ensures Latest(es, i) && View(es) == Since(es, i)
  {
    var init, last := es[..|es| - 1], es[|es| - 1];
    if last.Snapshot? {
      i := |init|;
      assert es[i + 1..] == [] && Buffered(es[..i]) + [] == Buffered(es[..i]);
    } else {
      i := SinceSnapshot(init);
      LatestExtends(init, last, i, es);
    }
  }

  lemma LatestExtends(init: seq<Event>, last: Event, i: nat, es: seq<Event>)
    requires Latest(init, i) && last.DiffMsg? && es == init + [last]
    ensures Latest(es, i) && Since(es, i) == ApplyDiff(Since(init, i), last.diff)
  {
    assert init[..i] == es[..i] && es[i + 1..] == init[i + 1..] + [last];
    ExtendsBy(Pairs(es[i].state), Buffered(es[..i]), init[i + 1..], last);
  }

  lemma ExtendsBy(view: set<(string, string)>, buffered: seq<Diff>, later: seq<Event>, e: Event)
    requires e.DiffMsg?
    ensures ApplyDiffs(view, buffered + Diffs(later + [e])) ==
            ApplyDiff(ApplyDiffs(view, buffered + Diffs(later)), e.diff)
  {
    assert (later + [e])[..|later|] == later;
    ApplyDiffsConcat(view, buffered + Diffs(later), [e.diff]);
    assert buffered + Diffs(later + [e]) == buffered + Diffs(later) + [e.diff];
    assert [e.diff][..0] == [];
    assert ApplyDiffs(ApplyDiffs(view, buffered + Diffs(later)), []) == ApplyDiffs(view, buffered + Diffs(later));
  }

  /** What is buffered at that snapshot, after a run in sync and a change of join attempt: every diff since. */
  lemma {:induction false} BufferedSinceChange(before: seq<Event>, change: Event, waiting: seq<Event>)
    requires InSync(before) && (change.Rejoin? || change.DropRef?) && WithoutSnapshots(waiting)
    ensures !InSync(before + [change] + waiting)
    ensures Buffered(before + [change] + waiting) == Diffs(waiting)
  {
    var es := before + [change] + waiting;
    if waiting == [] {
      assert es[..|es| - 1] == before;
      NothingBufferedInSync(before);
      SyncIsTracked(before);
      EveryRunShows(before);
    } else {
      assert es[..|es| - 1] == before + [change] + waiting[..|waiting| - 1];
      BufferedSinceChange(before, change, waiting[..|waiting| - 1]);
    }
  }

  /** Messages whose presences all have metas keep every key of the client non-empty. */
  ghost predicate WellFormed(e: Event) {
    match e
    case Snapshot(s) => NoEmpty(s)
    case DiffMsg(d) => NoEmpty(d.joins)
    case _ => true
  }

  lemma {:induction false} KeysNeverEmpty(es: seq<Event>)
    requires forall i | 0 <= i < |es| :: WellFormed(es[i])
    ensures NoEmpty(Run(INIT, es).state)
    ensures forall i | 0 <= i < |Run(INIT, es).pendingDiffs| :: NoEmpty(Run(INIT, es).pendingDiffs[i].joins)
  {
    if es != [] {
      var c, e := Run(INIT, es[..|es| - 1]), es[|es| - 1];
      KeysNeverEmpty(es[..|es| - 1]);
      match e
      case Snapshot(s) =>
        SyncStateKeys(c.state, s);
        PendingNoEmpty(StateResult(c.state, s), c.pendingDiffs);
      case DiffMsg(d) => SyncDiffNoEmpty(c.state, d);
      case _ =>
    }
  }

  /** syncState keeps the references of each key distinct. */
  lemma SyncStateDistinct(cur: State, new_: State)
    requires AllDistinct(cur) && AllDistinct(new_)
    ensures AllDistinct(StateResult(cur, new_))
  {
    var d := StateDiff(cur, new_);
    forall k | k in d.joins ensures DistinctRefs(d.joins[k].metas) {
      if k in cur { WithoutDistinct(new_[k].metas, Refs(cur[k].metas)); }
    }
    SyncDiffDistinct(cur, d);
  }

  /** Messages in which no presence lists a reference twice. */
  ghost predicate DistinctMessage(e: Event) {
    match e
    case Snapshot(s) => AllDistinct(s)
    case DiffMsg(d) => AllDistinct(d.joins)
    case _ => true
  }

  /** Over every run of such messages the client never holds a reference of a key twice. */
  lemma {:induction false} RefsStayDistinct(es: seq<Event>)
    requires forall i | 0 <= i < |es| :: DistinctMessage(es[i])
    ensures AllDistinct(Run(INIT, es).state)
    ensures forall i | 0 <= i < |Run(INIT, es).pendingDiffs| :: AllDistinct(Run(INIT, es).pendingDiffs[i].joins)
  {
    if es != [] {
      var c, e := Run(INIT, es[..|es| - 1]), es[|es| - 1];
      RefsStayDistinct(es[..|es| - 1]);
      match e
      case Snapshot(s) =>
        SyncStateDistinct(c.state, s);
        PendingDistinct(StateResult(c.state, s), c.pendingDiffs);
      case DiffMsg(d) => if !c.InPendingSyncState() { SyncDiffDistinct(c.state, d); }
      case _ =>
    }
  }

  lemma {:induction false} PendingDistinct(state: State, ds: seq<Diff>)
    requires AllDistinct(state) && forall i | 0 <= i < |ds| :: AllDistinct(ds[i].joins)
    ensures AllDistinct(ApplyPending(state, ds))
  {
    if ds != [] {
      PendingDistinct(state, ds[..|ds| - 1]);
      SyncDiffDistinct(ApplyPending(state, ds[..|ds| - 1]), ds[|ds| - 1]);
    }
  }

  lemma {:induction false} PendingNoEmpty(state: State, ds: seq<Diff>)
    requires NoEmpty(state) && forall i | 0 <= i < |ds| :: NoEmpty(ds[i].joins)
    ensures NoEmpty(ApplyPending(state, ds))
  {
    if ds != [] {
      PendingNoEmpty(state, ds[..|ds| - 1]);
      SyncDiffNoEmpty(ApplyPending(state, ds[..|ds| - 1]), ds[|ds| - 1]);
    }
  }

  /** The client object: its two message handlers perform the steps. */
  class Presence {
    var state: State
    var pendingDiffs: seq<Diff>
    var joinRef: Option<nat>

    constructor ()
      ensures state == map[] && pendingDiffs == [] && joinRef == None
    {
      state, pendingDiffs, joinRef := map[], [], None;
    }

    /** The client together with its channel's join reference. */
    function View(channelRef: Option<nat>, lastRef: nat): Client
      reads this
    {
      Client(state, pendingDiffs, joinRef, channelRef, lastRef)
    }

    method OnState(newState: State, channelRef: Option<nat>, ghost lastRef: nat)
      modifies this
      ensures View(channelRef, lastRef) == Step(old(View(channelRef, lastRef)), Snapshot(newState))
    {
      joinRef := channelRef;
      state := SyncState(state, newState);
      ghost var synced := state;
      for i := 0 to |pendingDiffs|
        invariant pendingDiffs == old(pendingDiffs) && joinRef == channelRef
        invariant state == ApplyPending(synced, pendingDiffs[..i])
      {
        assert pendingDiffs[..i + 1][..i] == pendingDiffs[..i];
        state := SyncDiff(state, pendingDiffs[i]);
      }
      assert pendingDiffs[..|pendingDiffs|] == pendingDiffs;
      pendingDiffs := [];
    }

    method OnDiff(diff: Diff, channelRef: Option<nat>, ghost lastRef: nat)
      modifies this
      ensures View(channelRef, lastRef) == Step(old(View(channelRef, lastRef)), DiffMsg(diff))
    {
      if joinRef.None? || joinRef != channelRef {
        pendingDiffs := pendingDiffs + [diff];
      } else {
        state := SyncDiff(state, diff);
      }
    }
  }
}
