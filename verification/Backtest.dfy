/**
  The moving-average crossover backtester of quant-v/server.v: positions, trades, net asset value and
  drawdown over a given price series. Numbers are exact reals; price generation is not modelled.
*/
module Backtest {
  import opened RealSums

  // ---------------------------------------------------------------------------------------
  // From prices to entries
  // ---------------------------------------------------------------------------------------

  datatype Side = Long | Short

  /** How the fast average compares with the slow one. */
  datatype Signal = Golden | Dead | Flat

  /** Entering a position at the price of a tick. */
  datatype Entry = Entry(side: Side, tick: nat)

  ghost function SumOf(s: seq<real>): real {
    if s == [] then 0.0 else SumOf(s[..|s| - 1]) + s[|s| - 1]
  }

  ghost function Average(prices: seq<real>, from: nat, to: nat): real
    requires from < to <= |prices|
  {
    SumOf(prices[from..to]) / (to - from) as real
  }

  function Compare(fastMa: real, slowMa: real): Signal {
    if fastMa > slowMa then Golden else if fastMa < slowMa then Dead else Flat
  }

  ghost function SignalAt(prices: seq<real>, fast: nat, slow: nat, t: nat): Signal
    requires 0 < fast <= slow <= t <= |prices|
  {
    Compare(Average(prices, t - fast, t), Average(prices, t - slow, t))
  }

  /** The signals of the first n ticks from the slow period on. */
  ghost function Signals(prices: seq<real>, fast: nat, slow: nat, n: nat): (s: seq<Signal>)
    requires 0 < fast <= slow && (n == 0 || slow + n <= |prices|)
    ensures |s| == n
  {
    if n == 0 then [] else Signals(prices, fast, slow, n - 1) + [SignalAt(prices, fast, slow, slow + n - 1)]
  }

  /** The entry a signal causes, given the entries so far: a golden cross unless long, a dead one unless short. */
  function React(es: seq<Entry>, signal: Signal, tick: nat): seq<Entry> {
    if signal == Golden && (es == [] || es[|es| - 1].side == Short) then es + [Entry(Long, tick)]
    else if signal == Dead && (es == [] || es[|es| - 1].side == Long) then es + [Entry(Short, tick)]
    else es
  }

  /** The entries caused by the signals of the ticks from `start` on. */
  function Entries(signals: seq<Signal>, start: nat): seq<Entry> {
    if signals == [] then []
    else React(Entries(signals[..|signals| - 1], start), signals[|signals| - 1], start + |signals| - 1)
  }

  /** Entries within lo..hi that alternate between long and short, at increasing ticks. */
  ghost predicate Alternating(es: seq<Entry>, lo: nat, hi: nat) {
    && (forall j | 0 <= j < |es| :: lo <= es[j].tick < hi)
    && (forall j, k | 0 <= j && k == j + 1 < |es| :: es[k].side != es[j].side && es[j].tick < es[k].tick)
  }

  lemma ReactAlternates(es: seq<Entry>, lo: nat, hi: nat, signal: Signal, fs: seq<Entry>)
    requires Alternating(es, lo, hi) && lo <= hi && fs == React(es, signal, hi)
    ensures Alternating(fs, lo, hi + 1)
  {}

  lemma {:induction false} EntriesAlternate(signals: seq<Signal>, start: nat)
    ensures Alternating(Entries(signals, start), start, start + |signals|)
  {
    if signals != [] {
      var prefix := signals[..|signals| - 1];
      EntriesAlternate(prefix, start);
      ReactAlternates(Entries(prefix, start), start, start + |prefix|, signals[|signals| - 1], Entries(signals, start));
    }
  }

  /** The last signal that is not flat, or flat if there is none. */
  function LastCall(signals: seq<Signal>): Signal {
    if signals == [] then Flat
    else if signals[|signals| - 1] != Flat then signals[|signals| - 1]
    else LastCall(signals[..|signals| - 1])
  }

  /** The signal that called for the position held. */
  function Held(es: seq<Entry>): Signal {
    if es == [] then Flat else if es[|es| - 1].side == Long then Golden else Dead
  }

  /**
    The position held is always the one last called for, and a tick adds an entry exactly when its
    signal calls for another: that entry is then long on a golden cross and short on a dead one.
  */
  lemma {:induction false} EntriesFollowSignals(signals: seq<Signal>, start: nat)
    ensures Held(Entries(signals, start)) == LastCall(signals)
    ensures signals != [] ==>
              var n := |signals| - 1;
              var es, last := Entries(signals[..n], start), signals[n];
              Entries(signals, start) ==
              if last == Flat || last == LastCall(signals[..n]) then es
              else es + [Entry(if last == Golden then Long else Short, start + n)]
  {
    if signals != [] { EntriesFollowSignals(signals[..|signals| - 1], start); }
  }

  // ---------------------------------------------------------------------------------------
  // From entries to returns
  // ---------------------------------------------------------------------------------------

  ghost predicate Priced(prices: seq<real>, es: seq<Entry>) {
    forall j | 0 <= j < |es| :: es[j].tick < |prices| && prices[es[j].tick] > 0.0
  }

  /** The return of a position opened at `open` and closed at `close`. */
  function Return(side: Side, open: real, close: real): real
    requires open > 0.0
  {
    match side
    case Long => (close - open) / open
    case Short => (open - close) / open
  }

  /** What a return is: a long position grows its stake from open to close, a short one earns the opposite. */
  lemma ReturnGrows(open: real, close: real)
    requires open > 0.0
    ensures (1.0 + Return(Long, open, close)) * open == close
    ensures Return(Short, open, close) == -Return(Long, open, close)
  {
    var gain := close - open;
    assert (gain / open) * open == gain;
    assert (-gain) / open == -(gain / open);
  }

  /** Every entry but the last is closed at the next one: the returns of the closed trades. */
  ghost function Returns(prices: seq<real>, es: seq<Entry>): (rs: seq<real>)
    requires Priced(prices, es)
    ensures |rs| == if es == [] then 0 else |es| - 1
  {
    if |es| <= 1 then []
    else
      var last, prev := es[|es| - 1], es[|es| - 2];
      Returns(prices, es[..|es| - 1]) + [Return(prev.side, prices[prev.tick], prices[last.tick])]
  }

  ghost function Growth(rs: seq<real>): real {
    if rs == [] then 1.0 else Growth(rs[..|rs| - 1]) * (1.0 + rs[|rs| - 1])
  }

  ghost function SumOfSquares(rs: seq<real>): real {
    if rs == [] then 0.0 else SumOfSquares(rs[..|rs| - 1]) + rs[|rs| - 1] * rs[|rs| - 1]
  }

  ghost function Gains(rs: seq<real>): nat {
    if rs == [] then 0 else Gains(rs[..|rs| - 1]) + if rs[|rs| - 1] > 0.0 then 1 else 0
  }

  ghost function Winners(rs: seq<real>): set<int> { set i | 0 <= i < |rs| && rs[i] > 0.0 }

  /** The wins are the returns above zero. */
  lemma {:induction false} GainsCount(rs: seq<real>)
    ensures Gains(rs) == |Winners(rs)|
  {
    if rs != [] {
      var prefix, last := rs[..|rs| - 1], |rs| - 1;
      GainsCount(prefix);
      assert Winners(rs) == if rs[last] > 0.0 then Winners(prefix) + {last} else Winners(prefix);
    }
  }

  // ---------------------------------------------------------------------------------------
  // Drawdown of a series of net asset values
  // ---------------------------------------------------------------------------------------

  /** The running peak, which starts at the initial value 1. */
  ghost function Peak(navs: seq<real>): real {
    if navs == [] then 1.0
    else
      var p, v := Peak(navs[..|navs| - 1]), navs[|navs| - 1];
      if v > p then v else p
  }

  lemma {:induction false} PeakIsMaximum(navs: seq<real>)
    ensures Peak(navs) >= 1.0
    ensures forall i | 0 <= i < |navs| :: navs[i] <= Peak(navs)
    ensures Peak(navs) == 1.0 || Peak(navs) in navs
  {
    if navs != [] {
      PeakIsMaximum(navs[..|navs| - 1]);
      assert forall i | 0 <= i < |navs| - 1 :: navs[i] == navs[..|navs| - 1][i];
    }
  }

  /** The fall of the last value from the running peak, as a fraction of the peak. */
  ghost function Drawdown(navs: seq<real>): real
    requires navs != []
  {
    PeakIsMaximum(navs);
    (Peak(navs) - navs[|navs| - 1]) / Peak(navs)
  }

  /** The largest drawdown so far, and 0 if there never was one. */
  ghost function MaxDrawdown(navs: seq<real>): real {
    if navs == [] then 0.0
    else
      var d, last := MaxDrawdown(navs[..|navs| - 1]), Drawdown(navs);
      if last > d then last else d
  }

  lemma {:induction false} MaxDrawdownIsMaximum(navs: seq<real>)
    ensures MaxDrawdown(navs) >= 0.0
    ensures forall i | 0 < i <= |navs| :: Drawdown(navs[..i]) <= MaxDrawdown(navs)
    ensures MaxDrawdown(navs) == 0.0 || exists i :: 0 < i <= |navs| && Drawdown(navs[..i]) == MaxDrawdown(navs)
  {
    if navs != [] {
      var prefix := navs[..|navs| - 1];
      MaxDrawdownIsMaximum(prefix);
      assert navs[..|navs|] == navs;
      assert forall i | 0 < i <= |prefix| :: prefix[..i] == navs[..i];
      if MaxDrawdown(navs) == MaxDrawdown(prefix) != 0.0 {
        var i :| 0 < i <= |prefix| && Drawdown(prefix[..i]) == MaxDrawdown(prefix);
        assert navs[..i] == prefix[..i];
      }
    }
  }

  /** A fall from the peak is more than the whole exactly if the value is negative. */
  lemma DrawdownAboveOne(navs: seq<real>)
    requires navs != []
    ensures Drawdown(navs) > 1.0 <==> navs[|navs| - 1] < 0.0
  {
    PeakIsMaximum(navs);
    QuotientAboveOne(Peak(navs), navs[|navs| - 1]);
  }

  lemma QuotientAboveOne(peak: real, v: real)
    requires peak > 0.0
    ensures (peak - v) / peak > 1.0 <==> v < 0.0
  {
    var q := (peak - v) / peak;
    assert q * peak == peak - v;
    assert (q - 1.0) * peak == -v;
    FactorSign(q - 1.0, peak, -v);
  }

  lemma FactorSign(a: real, d: real, p: real)
    requires d > 0.0 && p == a * d
    ensures a > 0.0 <==> p > 0.0
  {
    if a > 0.0 { ProductPositive(a, d, p); }
    if a < 0.0 { ProductPositive(-a, d, -p); }
  }

  ghost predicate NoneNegative(vs: seq<real>) {
    forall i | 0 <= i < |vs| :: vs[i] >= 0.0
  }

  lemma {:induction false} MaxDrawdownAboveOne(navs: seq<real>)
    ensures MaxDrawdown(navs) <= 1.0 <==> NoneNegative(navs)
  {
    if navs != [] {
      var prefix := navs[..|navs| - 1];
      MaxDrawdownAboveOne(prefix);
      DrawdownAboveOne(navs);
      assert forall i | 0 <= i < |prefix| :: navs[i] == prefix[i];
      if NoneNegative(prefix) && navs[|navs| - 1] >= 0.0 { assert NoneNegative(navs); }
    }
  }

  // ---------------------------------------------------------------------------------------
  // The variance handed to the square root
  // ---------------------------------------------------------------------------------------

  ghost function Spread(rs: seq<real>, m: real): real {
    if rs == [] then 0.0 else Spread(rs[..|rs| - 1], m) + (rs[|rs| - 1] - m) * (rs[|rs| - 1] - m)
  }

  lemma SquareNonNegative(x: real, s: real)
    requires s == x * x
    ensures s >= 0.0
  {}

  lemma {:induction false} SpreadNonNegative(rs: seq<real>, m: real)
    ensures Spread(rs, m) >= 0.0
  {
    if rs != [] {
      var x := rs[|rs| - 1] - m;
      SpreadNonNegative(rs[..|rs| - 1], m);
      SquareNonNegative(x, x * x);
    }
  }

  /** The sum of m times each return. */
  ghost function Weighted(rs: seq<real>, m: real): real {
    if rs == [] then 0.0 else Weighted(rs[..|rs| - 1], m) + m * rs[|rs| - 1]
  }

  /** The sum of as many c's as there are returns. */
  ghost function Repeated(rs: seq<real>, c: real): real {
    if rs == [] then 0.0 else Repeated(rs[..|rs| - 1], c) + c
  }

  lemma SquareOfDifference(r: real, m: real)
    ensures (r - m) * (r - m) == r * r - 2.0 * (m * r) + m * m
  {}

  lemma {:induction false} SpreadExpands(rs: seq<real>, m: real)
    ensures Spread(rs, m) == SumOfSquares(rs) - 2.0 * Weighted(rs, m) + Repeated(rs, m * m)
  {
    if rs != [] {
      SpreadExpands(rs[..|rs| - 1], m);
      SquareOfDifference(rs[|rs| - 1], m);
    }
  }

  lemma Distributes(a: real, b: real, c: real)
    ensures a * (b + c) == a * b + a * c
  {}

  lemma {:induction false} WeightedIsProduct(rs: seq<real>, m: real)
    ensures Weighted(rs, m) == m * SumOf(rs)
  {
    if rs != [] {
      WeightedIsProduct(rs[..|rs| - 1], m);
      Distributes(m, SumOf(rs[..|rs| - 1]), rs[|rs| - 1]);
    }
  }

  lemma {:induction false} RepeatedIsProduct(rs: seq<real>, c: real)
    ensures Repeated(rs, c) == c * |rs| as real
  {
    if rs != [] {
      RepeatedIsProduct(rs[..|rs| - 1], c);
      Distributes(c, (|rs| - 1) as real, 1.0);
    }
  }

  /** The spread of n returns with square sum q and sum s. */
  ghost function Centred(q: real, s: real, n: real, m: real): real { q - 2.0 * (m * s) + m * m * n }

  lemma SpreadIsCentred(rs: seq<real>, m: real, n: real)
    requires n == |rs| as real
    ensures Spread(rs, m) == Centred(SumOfSquares(rs), SumOf(rs), n, m)
  {
    SpreadExpands(rs, m);
    WeightedIsProduct(rs, m);
    RepeatedIsProduct(rs, m * m);
  }

  lemma CentredAtMean(q: real, s: real, n: real, mean: real)
    requires n > 0.0 && mean == s / n
    ensures Centred(q, s, n, mean) == q - n * mean * mean
  {
    var square := mean * mean;
    assert s == n * mean;
    assert mean * s == square * n == n * mean * mean;
  }

  /** The one-pass formula is the sample variance, so its square root is always defined. */
  lemma OnePassVariance(rs: seq<real>, n: real, mean: real, q: real)
    requires n == |rs| as real > 1.0 && mean == SumOf(rs) / n && q == SumOfSquares(rs)
    ensures q - n * mean * mean == Spread(rs, mean) >= 0.0
  {
    SpreadIsCentred(rs, mean, n);
    SpreadNonNegative(rs, mean);
    CentredAtMean(q, SumOf(rs), n, mean);
  }

  // ---------------------------------------------------------------------------------------
  // The loop
  // ---------------------------------------------------------------------------------------

  /** The loop's running figures; `position` is 1 long, -1 short, 0 before the first entry. */
  datatype Book = Book(trades: nat, wins: nat, losses: nat, position: int, entryPrice: real, nav: real,
                       totalReturn: real, retSum: real, retSq: real, retN: nat)

  const FRESH := Book(0, 0, 0, 0, 0.0, 1.0, 0.0, 0.0, 0.0, 0)

  function Close(b: Book, pnl: real): Book {
    b.(totalReturn := b.totalReturn + pnl, nav := b.nav * (1.0 + pnl), retSum := b.retSum + pnl,
       retSq := b.retSq + pnl * pnl, retN := b.retN + 1,
       wins := if pnl > 0.0 then b.wins + 1 else b.wins, losses := if pnl > 0.0 then b.losses else b.losses + 1)
  }

  /** Entering a position, after closing the opposite one if there is one. */
  function Enter(b: Book, side: Side, price: real): Book
    requires b.position != 0 ==> b.entryPrice > 0.0
  {
    var c := if b.position == 1 then Close(b, (price - b.entryPrice) / b.entryPrice)
             else if b.position == -1 then Close(b, (b.entryPrice - price) / b.entryPrice)
             else b;
    c.(position := if side == Long then 1 else -1, entryPrice := price, trades := c.trades + 1)
  }

  /** One iteration's trading: reverse the position on a cross against it. */
  function OnSignal(b: Book, signal: Signal, price: real): Book
    requires b.position != 0 ==> b.entryPrice > 0.0
  {
    if signal == Golden && b.position <= 0 then Enter(b, Long, price)
    else if signal == Dead && b.position >= 0 then Enter(b, Short, price)
    else b
  }

  /** The figures are those of the closed trades. */
  ghost predicate Sums(b: Book, rs: seq<real>) {
    && b.nav == Growth(rs) && b.totalReturn == b.retSum == SumOf(rs) && b.retSq == SumOfSquares(rs)
    && b.retN == |rs| && b.wins == Gains(rs) && b.wins + b.losses == |rs|
  }

  /** The book reflects the entries made so far. */
  ghost predicate Tracks(b: Book, prices: seq<real>, es: seq<Entry>) {
    && Priced(prices, es) && b.trades == |es| && Sums(b, Returns(prices, es))
    && (if es == [] then b.position == 0
        else b.position == (if es[|es| - 1].side == Long then 1 else -1) && b.entryPrice == prices[es[|es| - 1].tick])
  }

  lemma CloseSums(b: Book, rs: seq<real>, pnl: real)
    requires Sums(b, rs)
    ensures Sums(Close(b, pnl), rs + [pnl])
  {
    assert (rs + [pnl])[..|rs|] == rs;
  }

  /** A new entry after others closes the previous position at its price. */
  lemma ReturnsExtend(prices: seq<real>, es: seq<Entry>, e: Entry)
    requires Priced(prices, es) && e.tick < |prices| && prices[e.tick] > 0.0
    ensures Priced(prices, es + [e])
    ensures Returns(prices, es + [e]) ==
            if es == [] then []
            else Returns(prices, es) + [Return(es[|es| - 1].side, prices[es[|es| - 1].tick], prices[e.tick])]
  {
    if es != [] { ReturnsOf(prices, es, es[|es| - 1], e, es + [e]); }
  }

  lemma ReturnsOf(prices: seq<real>, es: seq<Entry>, prev: Entry, last: Entry, fs: seq<Entry>)
    requires es != [] && prev == es[|es| - 1] && fs == es + [last] && Priced(prices, es) && Priced(prices, fs)
    requires prev.tick < |prices| && prices[prev.tick] > 0.0 && last.tick < |prices|
    ensures Returns(prices, fs) == Returns(prices, es) + [Return(prev.side, prices[prev.tick], prices[last.tick])]
  {
    assert fs[..|fs| - 1] == es && fs[|fs| - 2] == prev && fs[|fs| - 1] == last;
  }

  lemma EnterTracks(b: Book, prices: seq<real>, es: seq<Entry>, e: Entry)
    requires Tracks(b, prices, es) && e.tick < |prices| && prices[e.tick] > 0.0
    ensures Tracks(Enter(b, e.side, prices[e.tick]), prices, es + [e])
  {
    ReturnsExtend(prices, es, e);
    if es != [] {
      var last := es[|es| - 1];
      var pnl := Return(last.side, prices[last.tick], prices[e.tick]);
      CloseSums(b, Returns(prices, es), pnl);
      EnterCloses(b, last.side, e.side, prices[e.tick], pnl);
    }
  }

  lemma EnterCloses(b: Book, held: Side, side: Side, price: real, pnl: real)
    requires b.position == (if held == Long then 1 else -1) && b.entryPrice > 0.0
    requires pnl == Return(held, b.entryPrice, price)
    ensures Enter(b, side, price) ==
            Close(b, pnl).(position := if side == Long then 1 else -1, entryPrice := price, trades := b.trades + 1)
  {}

  lemma OnSignalTracks(b: Book, prices: seq<real>, es: seq<Entry>, signal: Signal, tick: nat, c: Book, fs: seq<Entry>)
    requires Tracks(b, prices, es) && tick < |prices| && prices[tick] > 0.0
    requires c == OnSignal(b, signal, prices[tick]) && fs == React(es, signal, tick)
    ensures Tracks(c, prices, fs)
  {
    if signal == Golden && b.position <= 0 { EnterTracks(b, prices, es, Entry(Long, tick)); }
    else if signal == Dead && b.position >= 0 { EnterTracks(b, prices, es, Entry(Short, tick)); }
  }

  method WindowAverage(prices: seq<real>, from: nat, to: nat) returns (avg: real)
    requires from < to <= |prices|
    ensures avg == Average(prices, from, to)
  {
    var sum := 0.0;
    for j := from to to
      invariant sum == SumOf(prices[from..j])
    {
      assert prices[from..j + 1][..j - from] == prices[from..j];
      sum := sum + prices[j];
    }
    avg := sum / (to - from) as real;
  }

  datatype Result = Result(trades: nat, wins: nat, losses: nat, winRate: real, totalReturn: real, maxDd: real,
                           retMean: real, retVar: real, retVol: real, sharpe: real)

  /** The net asset value once these signals have been acted on. */
  ghost function NavAfter(prices: seq<real>, slow: nat, signals: seq<Signal>): real {
    var es := Entries(signals, slow);
    if Priced(prices, es) then Growth(Returns(prices, es)) else 1.0
  }

  /** The net asset value after each signal. */
  ghost function Navs(prices: seq<real>, slow: nat, signals: seq<Signal>): seq<real> {
    if signals == [] then [] else Navs(prices, slow, signals[..|signals| - 1]) + [NavAfter(prices, slow, signals)]
  }

  lemma PeakSnoc(navs: seq<real>, v: real)
    ensures Peak(navs + [v]) == (if v > Peak(navs) then v else Peak(navs)) > 0.0
    ensures Drawdown(navs + [v]) == (Peak(navs + [v]) - v) / Peak(navs + [v])
    ensures var d, last := MaxDrawdown(navs), Drawdown(navs + [v]);
            MaxDrawdown(navs + [v]) == if last > d then last else d
  {
    assert (navs + [v])[..|navs|] == navs;
    PeakIsMaximum(navs);
  }

  /** The number of ticks traded. */
  function Traded(prices: seq<real>, slow: nat): nat { if slow < |prices| then |prices| - slow else 0 }

  /** The loop's variables after n iterations. */
  datatype Loop = Loop(book: Book, peak: real, maxDd: real)

  ghost predicate Tradable(prices: seq<real>, fast: nat, slow: nat) {
    0 < fast <= slow && forall i | 0 <= i < |prices| :: prices[i] > 0.0
  }

  /** The drawdown half of an iteration. */
  function Track(b: Book, peak: real, maxDd: real): Loop
    requires peak > 0.0
  {
    var p := if b.nav > peak then b.nav else peak;
    var dd := (p - b.nav) / p;
    Loop(b, p, if dd > maxDd then dd else maxDd)
  }

  /** The loop body, given the signal and the price of the tick. */
  function Iterate(l: Loop, signal: Signal, price: real): (next: Loop)
    requires l.peak > 0.0 && (l.book.position != 0 ==> l.book.entryPrice > 0.0) && price > 0.0
    ensures next.peak > 0.0 && (next.book.position != 0 ==> next.book.entryPrice > 0.0)
  {
    Track(OnSignal(l.book, signal, price), l.peak, l.maxDd)
  }

  /** Positive prices, enough of them for the signals. */
  ghost predicate Covers(prices: seq<real>, slow: nat, signals: seq<Signal>) {
    (forall i | 0 <= i < |prices| :: prices[i] > 0.0) && (signals == [] || slow + |signals| <= |prices|)
  }

  /** The loop's variables after acting on some signals in turn. */
  ghost function After(prices: seq<real>, slow: nat, signals: seq<Signal>): (l: Loop)
    requires Covers(prices, slow, signals)
    ensures l.peak > 0.0 && (l.book.position != 0 ==> l.book.entryPrice > 0.0)
  {
    if signals == [] then Loop(FRESH, 1.0, 0.0)
    else
      var prefix := signals[..|signals| - 1];
      Iterate(After(prices, slow, prefix), signals[|signals| - 1], prices[slow + |prefix|])
  }

  lemma AfterSnoc(prices: seq<real>, slow: nat, prefix: seq<Signal>, signal: Signal, signals: seq<Signal>)
    requires Covers(prices, slow, signals) && signals == prefix + [signal]
    ensures After(prices, slow, signals) == Iterate(After(prices, slow, prefix), signal, prices[slow + |prefix|])
  {
    assert signals[..|prefix|] == prefix;
  }

  /** The loop over the ticks. */
  method Trade(prices: seq<real>, fast: nat, slow: nat) returns (l: Loop)
    requires Tradable(prices, fast, slow)
    ensures l == After(prices, slow, Signals(prices, fast, slow, Traded(prices, slow)))
  {
    l := Loop(FRESH, 1.0, 0.0);
    for n := 0 to Traded(prices, slow)
      invariant l == After(prices, slow, Signals(prices, fast, slow, n))
    {
      l := Tick(prices, fast, slow, n, l);
    }
  }

  /** One iteration of the loop. */
  method Tick(prices: seq<real>, fast: nat, slow: nat, n: nat, l: Loop) returns (next: Loop)
    requires Tradable(prices, fast, slow) && n < Traded(prices, slow)
    requires l == After(prices, slow, Signals(prices, fast, slow, n))
    ensures next == After(prices, slow, Signals(prices, fast, slow, n + 1))
  {
    var signal := CurrentSignal(prices, fast, slow, slow + n);
    ghost var prefix, signals := Signals(prices, fast, slow, n), Signals(prices, fast, slow, n + 1);
    SignalsSnoc(prices, fast, slow, n, prefix, signal);
    AfterSnoc(prices, slow, prefix, signal, signals);
    next := Iterate(l, signal, prices[slow + n]);
  }

  lemma SignalsSnoc(prices: seq<real>, fast: nat, slow: nat, n: nat, prefix: seq<Signal>, signal: Signal)
    requires 0 < fast <= slow && slow + n < |prices|
    requires prefix == Signals(prices, fast, slow, n) && signal == SignalAt(prices, fast, slow, slow + n)
    ensures Signals(prices, fast, slow, n + 1) == prefix + [signal]
  {}

  /** The two averages of a tick, compared. */
  method CurrentSignal(prices: seq<real>, fast: nat, slow: nat, i: nat) returns (signal: Signal)
    requires 0 < fast <= slow <= i <= |prices|
    ensures signal == SignalAt(prices, fast, slow, i)
    ensures signal == Golden <==> Average(prices, i - fast, i) > Average(prices, i - slow, i)
    ensures signal == Dead <==> Average(prices, i - fast, i) < Average(prices, i - slow, i)
  {
    var fastMa := WindowAverage(prices, i - fast, i);
    var slowMa := WindowAverage(prices, i - slow, i);
    signal := Compare(fastMa, slowMa);
  }

  /** The figures are those of the entries the signals cause. */
  lemma {:induction false} LoopTracks(prices: seq<real>, slow: nat, signals: seq<Signal>)
    requires Covers(prices, slow, signals)
    ensures Tracks(After(prices, slow, signals).book, prices, Entries(signals, slow))
  {
    if signals != [] {
      var prefix, signal := signals[..|signals| - 1], signals[|signals| - 1];
      LoopTracks(prices, slow, prefix);
      OnSignalTracks(After(prices, slow, prefix).book, prices, Entries(prefix, slow), signal, slow + |prefix|,
                     After(prices, slow, signals).book, Entries(signals, slow));
    }
  }

  lemma NavIsTracked(prices: seq<real>, slow: nat, signals: seq<Signal>)
    requires Covers(prices, slow, signals)
    ensures After(prices, slow, signals).book.nav == NavAfter(prices, slow, signals)
  {
    LoopTracks(prices, slow, signals);
  }

  /** The peak and the maximum drawdown are those of the series of net asset values. */
  lemma {:induction false} LoopDrawdown(prices: seq<real>, slow: nat, signals: seq<Signal>)
    requires Covers(prices, slow, signals)
    ensures var l, navs := After(prices, slow, signals), Navs(prices, slow, signals);
            l.peak == Peak(navs) && l.maxDd == MaxDrawdown(navs)
  {
    if signals != [] {
      var prefix := signals[..|signals| - 1];
      LoopDrawdown(prices, slow, prefix);
      NavIsTracked(prices, slow, signals);
      var prev, next := After(prices, slow, prefix), After(prices, slow, signals);
      assert next == Track(next.book, prev.peak, prev.maxDd);
      TrackFollows(next.book, prev.peak, prev.maxDd, Navs(prices, slow, prefix));
    }
  }

  lemma TrackFollows(b: Book, peak: real, maxDd: real, navs: seq<real>)
    requires peak == Peak(navs) > 0.0 && maxDd == MaxDrawdown(navs)
    ensures Track(b, peak, maxDd).peak == Peak(navs + [b.nav])
    ensures Track(b, peak, maxDd).maxDd == MaxDrawdown(navs + [b.nav])
  {
    PeakSnoc(navs, b.nav);
  }

  // When the maximum drawdown exceeds the whole

  /** Every trade that loses more than the whole comes after one that lost exactly the whole. */
  ghost predicate NeverOverdrawn(rs: seq<real>) {
    forall i | 0 <= i < |rs| && rs[i] < -1.0 :: -1.0 in rs[..i]
  }

  /** The growth after each number of trades is never negative. */
  ghost predicate GrowthStays(rs: seq<real>) {
    rs == [] || (GrowthStays(rs[..|rs| - 1]) && Growth(rs) >= 0.0)
  }

  lemma GrowthSnoc(rs: seq<real>, r: real)
    ensures Growth(rs + [r]) == Growth(rs) * (1.0 + r)
    ensures GrowthStays(rs + [r]) <==> GrowthStays(rs) && Growth(rs + [r]) >= 0.0
  {
    assert (rs + [r])[..|rs|] == rs;
  }

  lemma OverdrawnSnoc(rs: seq<real>, r: real)
    ensures NeverOverdrawn(rs + [r]) <==> NeverOverdrawn(rs) && (r < -1.0 ==> -1.0 in rs)
  {
    var ts := rs + [r];
    assert forall i | 0 <= i <= |rs| :: ts[..i] == rs[..i];
    assert rs[..|rs|] == rs && ts[|rs|] == r;
    if NeverOverdrawn(ts) {
      forall i | 0 <= i < |rs| && rs[i] < -1.0 ensures -1.0 in rs[..i] { assert ts[i] == rs[i]; }
    }
    if NeverOverdrawn(rs) && (r < -1.0 ==> -1.0 in rs) {
      forall i | 0 <= i < |ts| && ts[i] < -1.0 ensures -1.0 in ts[..i] {
        if i < |rs| { assert rs[i] == ts[i]; }
      }
    }
  }

  lemma ProductSign(g: real, r: real, p: real)
    requires p == g * (1.0 + r) && g >= 0.0
    ensures p >= 0.0 <==> g == 0.0 || r >= -1.0
    ensures p == 0.0 <==> g == 0.0 || r == -1.0
  {
    if g > 0.0 && r > -1.0 { ProductPositive(g, 1.0 + r, p); }
    if g > 0.0 && r < -1.0 { ProductPositive(g, -(1.0 + r), -p); }
  }

  /** Growth stays non-negative exactly if no trade loses more than the whole, or the whole is lost before. */
  lemma {:induction false} GrowthStaysIff(rs: seq<real>)
    ensures GrowthStays(rs) <==> NeverOverdrawn(rs)
    ensures GrowthStays(rs) ==> (Growth(rs) == 0.0 <==> -1.0 in rs)
  {
    if rs != [] {
      var prefix, r := rs[..|rs| - 1], rs[|rs| - 1];
      assert rs == prefix + [r];
      GrowthStaysIff(prefix);
      GrowthSnoc(prefix, r);
      OverdrawnSnoc(prefix, r);
      if GrowthStays(prefix) { ProductSign(Growth(prefix), r, Growth(rs)); }
    }
  }

  /** A signal closes at most one trade. */
  lemma ReturnsAfterSignal(prices: seq<real>, es: seq<Entry>, signal: Signal, tick: nat, fs: seq<Entry>)
    requires Priced(prices, es) && tick < |prices| && prices[tick] > 0.0 && fs == React(es, signal, tick)
    ensures Priced(prices, fs) && OneMore(Returns(prices, es), Returns(prices, fs))
  {
    if fs != es {
      var e := fs[|fs| - 1];
      assert fs == es + [e];
      ReturnsExtend(prices, es, e);
    }
  }

  /** ts is rs, or has one more return. */
  ghost predicate OneMore(rs: seq<real>, ts: seq<real>) {
    rs <= ts && |ts| <= |rs| + 1
  }

  /** The growth of the returns that f gives after each signal. */
  ghost function GrowthsOf(f: seq<Signal> -> seq<real>, signals: seq<Signal>): seq<real> {
    if signals == [] then [] else GrowthsOf(f, signals[..|signals| - 1]) + [Growth(f(signals))]
  }

  /** f starts without returns, and each signal adds at most one. */
  ghost predicate StepByStep(f: seq<Signal> -> seq<real>, signals: seq<Signal>) {
    if signals == [] then f(signals) == []
    else StepByStep(f, signals[..|signals| - 1]) && OneMore(f(signals[..|signals| - 1]), f(signals))
  }

  lemma GrowthStep(rs: seq<real>, ts: seq<real>)
    requires OneMore(rs, ts)
    ensures GrowthStays(ts) <==> GrowthStays(rs) && Growth(ts) >= 0.0
  {
    if |ts| == |rs| {
      assert ts == rs;
      if rs == [] { assert Growth(rs) == 1.0; }
    } else {
      assert ts[..|ts| - 1] == rs;
    }
  }

  lemma NoneNegativeSnoc(vs: seq<real>, v: real)
    ensures NoneNegative(vs + [v]) <==> NoneNegative(vs) && v >= 0.0
  {
    assert forall i | 0 <= i < |vs| :: (vs + [v])[i] == vs[i];
    assert (vs + [v])[|vs|] == v;
  }

  lemma {:induction false} GrowthsStayIff(f: seq<Signal> -> seq<real>, signals: seq<Signal>)
    requires StepByStep(f, signals)
    ensures NoneNegative(GrowthsOf(f, signals)) <==> GrowthStays(f(signals))
  {
    if signals != [] {
      var prefix := signals[..|signals| - 1];
      GrowthsStayIff(f, prefix);
      GrowthStep(f(prefix), f(signals));
      NoneNegativeSnoc(GrowthsOf(f, prefix), Growth(f(signals)));
    }
  }

  /** The returns of the trades closed once these signals have been acted on. */
  ghost function ClosedAfter(prices: seq<real>, slow: nat): seq<Signal> -> seq<real> {
    signals =>
      var es := Entries(signals, slow);
      if Priced(prices, es) then Returns(prices, es) else []
  }

  lemma {:induction false} ClosedStepByStep(prices: seq<real>, slow: nat, signals: seq<Signal>)
    requires Covers(prices, slow, signals)
    ensures Priced(prices, Entries(signals, slow)) && StepByStep(ClosedAfter(prices, slow), signals)
  {
    if signals != [] {
      ClosedStepByStep(prices, slow, signals[..|signals| - 1]);
      ClosedStep(prices, slow, signals, signals[..|signals| - 1]);
    }
  }

  lemma ClosedStep(prices: seq<real>, slow: nat, signals: seq<Signal>, prefix: seq<Signal>)
    requires Covers(prices, slow, signals) && signals != [] && prefix == signals[..|signals| - 1]
    requires Priced(prices, Entries(prefix, slow))
    ensures Priced(prices, Entries(signals, slow))
    ensures OneMore(ClosedAfter(prices, slow)(prefix), ClosedAfter(prices, slow)(signals))
  {
    var es, fs, last := Entries(prefix, slow), Entries(signals, slow), signals[|signals| - 1];
    EntriesStep(slow, signals, prefix, last);
    ReturnsAfterSignal(prices, es, last, slow + |prefix|, fs);
    ClosedAreReturns(prices, slow, prefix, es);
    ClosedAreReturns(prices, slow, signals, fs);
  }

  lemma {:induction false} EntriesStep(slow: nat, signals: seq<Signal>, prefix: seq<Signal>, last: Signal)
    requires signals != [] && prefix == signals[..|signals| - 1] && last == signals[|signals| - 1]
    ensures Entries(signals, slow) == React(Entries(prefix, slow), last, slow + |prefix|)
  {
    assert slow + |signals| - 1 == slow + |prefix|;
  }

  lemma ClosedAreReturns(prices: seq<real>, slow: nat, signals: seq<Signal>, es: seq<Entry>)
    requires es == Entries(signals, slow) && Priced(prices, es)
    ensures ClosedAfter(prices, slow)(signals) == Returns(prices, es)
  {}

  lemma {:induction false} NavsAreGrowths(prices: seq<real>, slow: nat, signals: seq<Signal>)
    ensures Navs(prices, slow, signals) == GrowthsOf(ClosedAfter(prices, slow), signals)
  {
    if signals != [] {
      NavsAreGrowths(prices, slow, signals[..|signals| - 1]);
      NavIsGrowth(prices, slow, signals);
    }
  }

  lemma NavIsGrowth(prices: seq<real>, slow: nat, signals: seq<Signal>)
    ensures NavAfter(prices, slow, signals) == Growth(ClosedAfter(prices, slow)(signals))
  {}

  /** The reported maximum drawdown is at most 1 exactly if no trade ever loses more than there is. */
  lemma DrawdownAtMostOneIff(prices: seq<real>, slow: nat, signals: seq<Signal>)
    requires Covers(prices, slow, signals)
    ensures Priced(prices, Entries(signals, slow))
    ensures MaxDrawdown(Navs(prices, slow, signals)) <= 1.0 <==>
            NeverOverdrawn(Returns(prices, Entries(signals, slow)))
  {
    var f := ClosedAfter(prices, slow);
    ClosedStepByStep(prices, slow, signals);
    NavsAreGrowths(prices, slow, signals);
    GrowthsStayIff(f, signals);
    MaxDrawdownAboveOne(Navs(prices, slow, signals));
    GrowthStaysIff(f(signals));
  }

  /** Only a short position can lose more than the whole, and does when its price more than doubles. */
  lemma LosesMoreThanAll(side: Side, open: real, close: real)
    requires open > 0.0 && close > 0.0
    ensures Return(side, open, close) < -1.0 <==> side == Short && close > 2.0 * open
  {
    var gain := if side == Long then close - open else open - close;
    var q := gain / open;
    assert q * open == gain;
    assert (-1.0 - q) * open == -open - gain;
    FactorSign(-1.0 - q, open, -open - gain);
  }

  /** A fall, then a jump: the backtester is short while the price goes from 1 to 10. */
  const SQUEEZE := [3.0, 2.0, 1.0, 1.0, 10.0, 10.0]

  lemma SumOfTwo(a: real, b: real)
    ensures SumOf([a, b]) == a + b
  {
    assert [a, b][..1] == [a] && [a][..0] == [];
    assert SumOf([a]) == a;
  }

  lemma SumOfThree(a: real, b: real, c: real)
    ensures SumOf([a, b, c]) == a + b + c
  {
    assert [a, b, c][..2] == [a, b];
    SumOfTwo(a, b);
  }

  /** The signal of periods 2 and 3, from the last three prices. */
  lemma SignalOfThree(prices: seq<real>, t: nat, a: real, b: real, c: real)
    requires 3 <= t <= |prices| && prices[t - 3..t] == [a, b, c]
    ensures SignalAt(prices, 2, 3, t) == Compare((b + c) / 2.0, (a + b + c) / 3.0)
  {
    assert prices[t - 2..t] == prices[t - 3..t][1..] == [b, c];
    SumOfTwo(b, c);
    SumOfThree(a, b, c);
  }

  lemma {:induction false} SignalsPrefix(prices: seq<real>, fast: nat, slow: nat, n: nat, k: nat)
    requires 0 < fast <= slow && slow + n <= |prices| && k <= n
    ensures Signals(prices, fast, slow, n)[..k] == Signals(prices, fast, slow, k)
  {
    if k < n {
      SignalsPrefix(prices, fast, slow, n - 1, k);
      assert Signals(prices, fast, slow, n)[..k] == Signals(prices, fast, slow, n - 1)[..k];
    }
  }

  lemma {:induction false} NavAt(prices: seq<real>, slow: nat, signals: seq<Signal>, i: nat)
    requires i < |signals|
    ensures |Navs(prices, slow, signals)| == |signals|
    ensures Navs(prices, slow, signals)[i] == NavAfter(prices, slow, signals[..i + 1])
  {
    var prefix := signals[..|signals| - 1];
    if i < |prefix| {
      NavAt(prices, slow, prefix, i);
      assert prefix[..i + 1] == signals[..i + 1];
    } else {
      assert signals[..i + 1] == signals;
      if prefix != [] { NavAt(prices, slow, prefix, 0); }
    }
  }

  lemma SqueezeSignals(prices: seq<real>)
    requires SQUEEZE <= prices
    ensures Signals(prices, 2, 3, 3) == [Dead, Dead, Golden]
  {
    assert prices[0..3] == [3.0, 2.0, 1.0] && prices[1..4] == [2.0, 1.0, 1.0] && prices[2..5] == [1.0, 1.0, 10.0];
    SignalOfThree(prices, 3, 3.0, 2.0, 1.0);
    SignalOfThree(prices, 4, 2.0, 1.0, 1.0);
    SignalOfThree(prices, 5, 1.0, 1.0, 10.0);
    SignalsSnoc(prices, 2, 3, 0, [], Dead);
    SignalsSnoc(prices, 2, 3, 1, [Dead], Dead);
    SignalsSnoc(prices, 2, 3, 2, [Dead, Dead], Golden);
  }

  lemma SqueezeEntries()
    ensures Entries([Dead, Dead, Golden], 3) == [Entry(Short, 3), Entry(Long, 5)]
  {
    assert [Dead, Dead, Golden][..2] == [Dead, Dead] && [Dead, Dead][..1] == [Dead] && [Dead][..0] == [];
  }

  lemma SqueezeNav(prices: seq<real>)
    requires SQUEEZE <= prices
    ensures NavAfter(prices, 3, [Dead, Dead, Golden]) == -8.0
  {
    SqueezeEntries();
    var short, long := Entry(Short, 3), Entry(Long, 5);
    assert Priced(prices, [short, long]);
    ReturnsExtend(prices, [short], long);
    assert [short] + [long] == [short, long];
    assert Return(Short, 1.0, 10.0) == -9.0;
    var rs := [-9.0];
    assert Returns(prices, [short, long]) == rs && rs[..0] == [] && Growth(rs) == Growth([]) * (1.0 + rs[0]);
  }

  /** With periods 2 and 3, every positive series that starts so ends with a maximum drawdown above 1. */
  lemma DrawdownExceedsOne(prices: seq<real>)
    requires SQUEEZE <= prices && forall i | 0 <= i < |prices| :: prices[i] > 0.0
    ensures MaxDrawdown(Navs(prices, 3, Signals(prices, 2, 3, Traded(prices, 3)))) > 1.0
  {
    var n := Traded(prices, 3);
    var signals := Signals(prices, 2, 3, n);
    SignalsPrefix(prices, 2, 3, n, 3);
    SqueezeSignals(prices);
    SqueezeNav(prices);
    NavAt(prices, 3, signals, 2);
    MaxDrawdownAboveOne(Navs(prices, 3, signals));
  }

  /** The result reports the closed trades: counts, sum, mean and sample variance of their returns. */
  ghost predicate Reports(r: Result, entries: nat, rs: seq<real>) {
    && r.trades == entries && r.wins == Gains(rs)
    && r.wins + r.losses == |rs| == (if r.trades == 0 then 0 else r.trades - 1)
    && r.totalReturn == SumOf(rs)
    && r.winRate == (if r.trades > 0 then r.wins as real / r.trades as real else 0.0)
    && r.retMean == (if |rs| > 0 then SumOf(rs) / |rs| as real else 0.0)
    && r.retVar == (if |rs| > 1 then Spread(rs, r.retMean) / (|rs| as real - 1.0) else 1.0)
  }

  /**
    The volatility is the root of the variance, and zero exactly when several trades all returned the
    same; otherwise the Sharpe ratio is the mean in units of the volatility, annualised.
  */
  ghost predicate RiskAdjusted(r: Result, rs: seq<real>, annual: real) {
    && r.retVol >= 0.0 && r.retVol * r.retVol == r.retVar
    && (r.retVol == 0.0 <==> |rs| > 1 && forall i | 0 <= i < |rs| :: rs[i] == r.retMean)
    && (if r.retVol == 0.0 then r.sharpe == 0.0 else r.sharpe * r.retVol == r.retMean * annual)
  }

  /** The ratios computed after the loop. */
  method Statistics(b: Book, ghost rs: seq<real>) returns (winRate: real, retMean: real, retVar: real)
    requires Sums(b, rs) && |rs| == if b.trades == 0 then 0 else b.trades - 1
    ensures winRate == (if b.trades > 0 then b.wins as real / b.trades as real else 0.0) && 0.0 <= winRate < 1.0
    ensures retMean == if |rs| > 0 then SumOf(rs) / |rs| as real else 0.0
    ensures retVar == (if |rs| > 1 then Spread(rs, retMean) / (|rs| as real - 1.0) else 1.0) && retVar >= 0.0
  {
    winRate := if b.trades > 0 then b.wins as real / b.trades as real else 0.0;
    if b.trades > 0 { Fraction(b.wins as real, b.trades as real); }
    var n := b.retN as real;
    retMean := if b.retN > 0 then b.retSum / n else 0.0;
    retVar := Variance(n, retMean, b.retSq, rs);
  }

  method Variance(n: real, mean: real, sq: real, ghost rs: seq<real>) returns (v: real)
    requires n == |rs| as real && sq == SumOfSquares(rs) && (n > 1.0 ==> mean == SumOf(rs) / n)
    ensures v == (if n > 1.0 then Spread(rs, mean) / (n - 1.0) else 1.0) && v >= 0.0
  {
    if n <= 1.0 { return 1.0; }
    OnePassVariance(rs, n, mean, sq);
    var total := sq - n * mean * mean;
    NonNegativeQuotient(total, n - 1.0);
    v := total / (n - 1.0);
  }

  lemma NonNegativeQuotient(a: real, b: real)
    requires a >= 0.0 && b > 0.0
    ensures a / b >= 0.0
  {}

  /** The volatility and the annualised Sharpe ratio. */
  method Risk(retMean: real, retVar: real, sqrt: real -> real, ghost rs: seq<real>) returns (retVol: real, sharpe: real)
    requires IsSqrt(sqrt) && sqrt(0.0) == 0.0 && retVar >= 0.0
    requires retVar == if |rs| > 1 then Spread(rs, retMean) / (|rs| as real - 1.0) else 1.0
    ensures retVol >= 0.0 && retVol * retVol == retVar
    ensures retVol == 0.0 <==> |rs| > 1 && forall i | 0 <= i < |rs| :: rs[i] == retMean
    ensures retVol == 0.0 ==> sharpe == 0.0
    ensures retVol != 0.0 ==> sharpe * retVol == retMean * sqrt(252.0)
  {
    retVol := sqrt(retVar);
    VolatilityZero(rs, retMean, retVar, retVol);
    sharpe := 0.0;
    if retVol > 0.0 {
      sharpe := retMean / retVol * sqrt(252.0);
      Annualised(retMean, retVol, sqrt(252.0));
    }
  }

  /** The figures reported after the loop. */
  method Summarise(b: Book, maxDd: real, sqrt: real -> real, ghost rs: seq<real>) returns (r: Result)
    requires IsSqrt(sqrt) && sqrt(0.0) == 0.0
    requires Sums(b, rs) && |rs| == if b.trades == 0 then 0 else b.trades - 1
    ensures Reports(r, b.trades, rs) && r.maxDd == maxDd && RiskAdjusted(r, rs, sqrt(252.0))
    ensures r.retVar >= 0.0 && 0.0 <= r.winRate < 1.0
  {
    var winRate, retMean, retVar := Statistics(b, rs);
    var retVol, sharpe := Risk(retMean, retVar, sqrt, rs);
    r := Result(b.trades, b.wins, b.losses, winRate, b.totalReturn, maxDd, retMean, retVar, retVol, sharpe);
  }

  lemma Annualised(mean: real, vol: real, annual: real)
    requires vol > 0.0
    ensures (mean / vol * annual) * vol == mean * annual
  {
    var q := mean / vol;
    assert q * vol == mean;
    assert (q * annual) * vol == (q * vol) * annual;
  }

  lemma VolatilityZero(rs: seq<real>, mean: real, v: real, vol: real)
    requires v == (if |rs| > 1 then Spread(rs, mean) / (|rs| as real - 1.0) else 1.0) && vol * vol == v
    ensures vol == 0.0 <==> |rs| > 1 && forall i | 0 <= i < |rs| :: rs[i] == mean
  {
    SpreadZero(rs, mean);
    if |rs| > 1 { QuotientZero(Spread(rs, mean), |rs| as real - 1.0); }
    RootZero(vol, v);
  }

  lemma QuotientZero(a: real, b: real)
    requires b > 0.0
    ensures a / b == 0.0 <==> a == 0.0
  {}

  lemma RootZero(x: real, s: real)
    requires s == x * x
    ensures x == 0.0 <==> s == 0.0
  {
    SquareSign(x);
  }

  /** Nothing spreads exactly when everything is at the centre. */
  lemma {:induction false} SpreadZero(rs: seq<real>, m: real)
    ensures Spread(rs, m) == 0.0 <==> forall i | 0 <= i < |rs| :: rs[i] == m
  {
    if rs != [] {
      var prefix, x := rs[..|rs| - 1], rs[|rs| - 1] - m;
      SpreadZero(prefix, m);
      SpreadNonNegative(prefix, m);
      SquareNonNegative(x, x * x);
      RootZero(x, x * x);
      assert Spread(rs, m) == Spread(prefix, m) + x * x;
    }
  }

  lemma Fraction(a: real, b: real)
    requires 0.0 <= a < b
    ensures 0.0 <= a / b < 1.0
  {}

  /** What the loop has established for all its signals. */
  lemma LoopResults(prices: seq<real>, slow: nat, signals: seq<Signal>, l: Loop)
    requires Covers(prices, slow, signals) && l == After(prices, slow, signals)
    ensures Alternating(Entries(signals, slow), slow, slow + |signals|)
    ensures Tracks(l.book, prices, Entries(signals, slow))
    ensures l.maxDd == MaxDrawdown(Navs(prices, slow, signals)) >= 0.0
    ensures l.maxDd <= 1.0 <==> NeverOverdrawn(Returns(prices, Entries(signals, slow)))
  {
    EntriesAlternate(signals, slow);
    LoopTracks(prices, slow, signals);
    LoopDrawdown(prices, slow, signals);
    MaxDrawdownIsMaximum(Navs(prices, slow, signals));
    DrawdownAtMostOneIff(prices, slow, signals);
  }

  /**
    What a backtest reports. With es the entries the signals cause and rs the returns between
    successive entries: the counts, the sum, the growth and the Sharpe ratio are those of rs, all trades
    but the open one are closed, the maximum drawdown is that of the net asset values, and at most 1
    exactly if no trade loses more than there is; the variance handed to the square root is the sample
    variance of rs, never negative.
  */
  ghost predicate Outcome(r: Result, nav: real, prices: seq<real>, slow: nat, signals: seq<Signal>, annual: real) {
    var es := Entries(signals, slow);
    && Alternating(es, slow, slow + |signals|) && Priced(prices, es)
    && Reports(r, |es|, Returns(prices, es)) && nav == Growth(Returns(prices, es))
    && RiskAdjusted(r, Returns(prices, es), annual)
    && r.maxDd == MaxDrawdown(Navs(prices, slow, signals)) && r.maxDd >= 0.0
    && (r.maxDd <= 1.0 <==> NeverOverdrawn(Returns(prices, es)))
    && r.retVar >= 0.0 && 0.0 <= r.winRate < 1.0
  }

  /** From the loop's variables to the report. */
  method Conclude(prices: seq<real>, slow: nat, l: Loop, sqrt: real -> real, ghost signals: seq<Signal>)
    returns (r: Result)
    requires Covers(prices, slow, signals) && l == After(prices, slow, signals)
    requires IsSqrt(sqrt) && sqrt(0.0) == 0.0
    ensures Outcome(r, l.book.nav, prices, slow, signals, sqrt(252.0))
  {
    ghost var es := Entries(signals, slow);
    LoopResults(prices, slow, signals, l);
    ghost var rs := Returns(prices, es);
    r := Summarise(l.book, l.maxDd, sqrt, rs);
  }

  /** backtest_ma, on the signals of its own prices. */
  method BacktestMa(prices: seq<real>, fast: nat, slow: nat, sqrt: real -> real) returns (r: Result, nav: real)
    requires Tradable(prices, fast, slow) && IsSqrt(sqrt) && sqrt(0.0) == 0.0
    ensures Outcome(r, nav, prices, slow, Signals(prices, fast, slow, Traded(prices, slow)), sqrt(252.0))
  {
    var l := Trade(prices, fast, slow);
    nav := l.book.nav;
    r := Conclude(prices, slow, l, sqrt, Signals(prices, fast, slow, Traded(prices, slow)));
  }

  // ---------------------------------------------------------------------------------------
  // The request's clamps
  // ---------------------------------------------------------------------------------------

  function SafeTicks(ticks: int): int { if ticks > 1000000 then 1000000 else if ticks < 100 then 100 else ticks }

  function SafeFast(fast: int): int { if fast < 2 then 2 else if fast > 100 then 100 else fast }

  function SafeSlow(slow: int, safeFast: int): int {
    if slow <= safeFast then safeFast + 1 else if slow > 200 then 200 else slow
  }

  function Distance(x: int, v: int): int { if x < v then v - x else x - v }

  /** r is the integer between lo and hi that is nearest to v. */
  ghost predicate Nearest(v: int, r: int, lo: int, hi: int) {
    lo <= r <= hi && forall x | lo <= x <= hi :: Distance(r, v) <= Distance(x, v)
  }

  /** The clamps change nothing that is within range, and take the nearest end otherwise. */
  lemma ClampsAreNearest(ticks: int, fast: int, slow: int)
    ensures Nearest(ticks, SafeTicks(ticks), 100, 1000000) && Nearest(fast, SafeFast(fast), 2, 100)
    ensures Nearest(slow, SafeSlow(slow, SafeFast(fast)), SafeFast(fast) + 1, 200)
    ensures 100 <= ticks <= 1000000 ==> SafeTicks(ticks) == ticks
    ensures 2 <= fast <= 100 ==> SafeFast(fast) == fast
    ensures SafeFast(fast) < slow <= 200 ==> SafeSlow(slow, SafeFast(fast)) == slow
  {}

  /** Whatever the query asks for, the backtester runs with periods it can index. */
  lemma ClampsAreSafe(ticks: int, fast: int, slow: int)
    ensures 100 <= SafeTicks(ticks) <= 1000000
    ensures var f := SafeFast(fast); 2 <= f < SafeSlow(slow, f) <= 200
    ensures forall prices: seq<real> | (forall i | 0 <= i < |prices| :: prices[i] > 0.0) ::
              Tradable(prices, SafeFast(fast), SafeSlow(slow, SafeFast(fast)))
  {}
}
