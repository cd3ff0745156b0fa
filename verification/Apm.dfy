/**
  The metrics path: the drop-on-full queue and batch drainer of server-go/main.go, the collector of
  loom-java/ApmCollector.java, and the bounded buffer of apm-server/server.js.
*/
module Apm {
  import opened Common

  /** One request's data point. */
  datatype Metric = Metric(correlationId: string, service: string, responseMs: int)

  const QUEUE_CAPACITY := 8192
  const GO_BATCH := 100
  const JAVA_QUEUE := 10_000
  const JAVA_BATCH := 200
  const MAX_BUFFER := 100_000

  /** What was accepted is, in order, what was flushed, then the current batch, then the queue. */
  ghost predicate Conserved(accepted: seq<Metric>, flushed: seq<seq<Metric>>, batch: seq<Metric>, queue: seq<Metric>) {
    accepted == Flatten(flushed) + batch + queue
  }

  lemma ConservedByEnqueue(accepted: seq<Metric>, flushed: seq<seq<Metric>>, batch: seq<Metric>, queue: seq<Metric>,
                           m: Metric)
    requires Conserved(accepted, flushed, batch, queue)
    ensures Conserved(accepted + [m], flushed, batch, queue + [m])
  {
    assert Flatten(flushed) + batch + (queue + [m]) == Flatten(flushed) + batch + queue + [m];
  }

  lemma ConservedByTake(accepted: seq<Metric>, flushed: seq<seq<Metric>>, batch: seq<Metric>, queue: seq<Metric>)
    requires Conserved(accepted, flushed, batch, queue) && queue != []
    ensures Conserved(accepted, flushed, batch + [queue[0]], queue[1..])
  {
    assert [queue[0]] + queue[1..] == queue;
    assert Flatten(flushed) + (batch + [queue[0]]) + queue[1..] == Flatten(flushed) + batch + ([queue[0]] + queue[1..]);
  }

  lemma ConservedByFlush(accepted: seq<Metric>, flushed: seq<seq<Metric>>, batch: seq<Metric>, queue: seq<Metric>)
    requires Conserved(accepted, flushed, batch, queue)
    ensures Conserved(accepted, flushed + [batch], [], queue)
  {
    FlattenAppend(flushed, batch);
    assert Flatten(flushed) + batch + [] == Flatten(flushed) + batch;
  }

  // ---------------------------------------------------------------------------------------
  // The gateway's queue and drainer
  // ---------------------------------------------------------------------------------------

  /** The channel, the drainer's current batch, the batches sent, and what became of each offer. */
  datatype Gateway = Gateway(queue: seq<Metric>, batch: seq<Metric>, flushed: seq<seq<Metric>>,
                             accepted: seq<Metric>, dropped: seq<Metric>)

  /** A request offers its metric; the drainer takes one from the channel or is woken by its ticker. */
  datatype GatewayEvent = Offer(m: Metric) | Take | Tick

  const IDLE_GATEWAY := Gateway([], [], [], [], [])

  function Flush(g: Gateway): Gateway { g.(flushed := g.flushed + [g.batch], batch := []) }

  function GatewayStep(g: Gateway, e: GatewayEvent): Gateway {
    match e
    case Offer(m) =>
      if |g.queue| < QUEUE_CAPACITY then g.(queue := g.queue + [m], accepted := g.accepted + [m])
      else g.(dropped := g.dropped + [m])
    case Take =>
      if g.queue == [] then g
      else
        var h := g.(queue := g.queue[1..], batch := g.batch + [g.queue[0]]);
        if |h.batch| >= GO_BATCH then Flush(h) else h
    case Tick => if |g.batch| > 0 then Flush(g) else g
  }

  function GatewayRun(es: seq<GatewayEvent>): Gateway {
    if es == [] then IDLE_GATEWAY else GatewayStep(GatewayRun(es[..|es| - 1]), es[|es| - 1])
  }

  ghost predicate GatewayInv(g: Gateway) {
    && |g.queue| <= QUEUE_CAPACITY && |g.batch| < GO_BATCH
    && (forall i | 0 <= i < |g.flushed| :: 1 <= |g.flushed[i]| <= GO_BATCH)
    && Conserved(g.accepted, g.flushed, g.batch, g.queue)
  }

  lemma GatewayStepKeepsInv(g: Gateway, e: GatewayEvent)
    requires GatewayInv(g)
    ensures GatewayInv(GatewayStep(g, e))
  {
    match e
    case Offer(m) => ConservedByEnqueue(g.accepted, g.flushed, g.batch, g.queue, m);
    case Take =>
      if g.queue != [] {
        ConservedByTake(g.accepted, g.flushed, g.batch, g.queue);
        ConservedByFlush(g.accepted, g.flushed, g.batch + [g.queue[0]], g.queue[1..]);
      }
    case Tick => ConservedByFlush(g.accepted, g.flushed, g.batch, g.queue);
  }

  /** The metrics offered in a run, in order. */
  ghost function Offered(es: seq<GatewayEvent>): seq<Metric> {
    if es == [] then []
    else Offered(es[..|es| - 1]) + if es[|es| - 1].Offer? then [es[|es| - 1].m] else []
  }

  /** For each offer, whether the channel had room for it. */
  ghost function HadRoom(es: seq<GatewayEvent>): (r: seq<bool>)
    ensures |r| == |Offered(es)|
  {
    if es == [] then []
    else
      var prefix := es[..|es| - 1];
      HadRoom(prefix) + if es[|es| - 1].Offer? then [|GatewayRun(prefix).queue| < QUEUE_CAPACITY] else []
  }

  /** The elements marked as wanted, in order. */
  ghost function Select(s: seq<Metric>, marks: seq<bool>, wanted: bool): seq<Metric>
    requires |s| == |marks|
  {
    if s == [] then []
    else Select(s[..|s| - 1], marks[..|s| - 1], wanted) + if marks[|s| - 1] == wanted then [s[|s| - 1]] else []
  }

  lemma SelectAppend(s: seq<Metric>, marks: seq<bool>, wanted: bool, m: Metric, mark: bool)
    requires |s| == |marks|
    ensures Select(s + [m], marks + [mark], wanted) == Select(s, marks, wanted) + if mark == wanted then [m] else []
  {
    assert (s + [m])[..|s|] == s && (marks + [mark])[..|s|] == marks;
  }

  /**
    In every run the metrics accepted are, in order, the offers that found room in the channel, and
    those dropped are, in order, the others; the accepted ones are those flushed, then the current
    batch, then the queue, and no batch exceeds 100.
  */
  lemma {:induction false} GatewayConserves(es: seq<GatewayEvent>)
    ensures GatewayInv(GatewayRun(es))
    ensures GatewayRun(es).accepted == Select(Offered(es), HadRoom(es), true)
    ensures GatewayRun(es).dropped == Select(Offered(es), HadRoom(es), false)
  {
    if es != [] {
      var prefix, e := es[..|es| - 1], es[|es| - 1];
      var g := GatewayRun(prefix);
      GatewayConserves(prefix);
      GatewayStepKeepsInv(g, e);
      if e.Offer? {
        SelectAppend(Offered(prefix), HadRoom(prefix), true, e.m, |g.queue| < QUEUE_CAPACITY);
        SelectAppend(Offered(prefix), HadRoom(prefix), false, e.m, |g.queue| < QUEUE_CAPACITY);
      } else {
        assert Offered(es) == Offered(prefix) && HadRoom(es) == HadRoom(prefix);
      }
    }
  }

  /** A metric is dropped only while the channel holds its full capacity. */
  lemma DropsOnlyWhenFull(g: Gateway, m: Metric)
    requires GatewayInv(g)
    ensures GatewayStep(g, Offer(m)).dropped != g.dropped <==> |g.queue| == 8192
  {}

  ghost function Ticks(es: seq<GatewayEvent>): nat {
    if es == [] then 0 else Ticks(es[..|es| - 1]) + if es[|es| - 1] == Tick then 1 else 0
  }

  /** The batches of fewer than 100 metrics. */
  ghost function SmallBatches(bs: seq<seq<Metric>>): nat {
    if bs == [] then 0 else SmallBatches(bs[..|bs| - 1]) + if |bs[|bs| - 1]| < 100 then 1 else 0
  }

  lemma SmallSnoc(bs: seq<seq<Metric>>, b: seq<Metric>)
    ensures SmallBatches(bs + [b]) == SmallBatches(bs) + if |b| < 100 then 1 else 0
  {
    assert (bs + [b])[..|bs|] == bs;
  }

  /** Batches go out full, but for at most one at each tick of the drainer's clock. */
  lemma {:induction false} OnlyTicksSendSmallBatches(es: seq<GatewayEvent>)
    ensures SmallBatches(GatewayRun(es).flushed) <= Ticks(es)
    ensures forall b | b in GatewayRun(es).flushed :: 1 <= |b| <= 100
    ensures |GatewayRun(es).batch| < 100 && |GatewayRun(es).queue| <= 8192
  {
    GatewayConserves(es);
    if es != [] {
      var g, e := GatewayRun(es[..|es| - 1]), es[|es| - 1];
      OnlyTicksSendSmallBatches(es[..|es| - 1]);
      SmallSnoc(g.flushed, g.batch);
      if e.Take? && g.queue != [] { SmallSnoc(g.flushed, g.batch + [g.queue[0]]); }
    }
  }

  /** The channel and its drainer as the gateway holds them. */
  class GatewayQueue {
    var queue: seq<Metric>
    var batch: seq<Metric>
    var flushed: seq<seq<Metric>>
    ghost var accepted: seq<Metric>
    ghost var dropped: seq<Metric>

    constructor ()
      ensures View() == IDLE_GATEWAY
    {
      queue, batch, flushed, accepted, dropped := [], [], [], [], [];
    }

    ghost function View(): Gateway
      reads this
    {
      Gateway(queue, batch, flushed, accepted, dropped)
    }

    /** The non-blocking send at the end of a request. */
    method OfferMetric(m: Metric)
      modifies this
      ensures View() == GatewayStep(old(View()), Offer(m))
      ensures queue == if |old(queue)| < 8192 then old(queue) + [m] else old(queue)
    {
      if |queue| < QUEUE_CAPACITY {
        queue, accepted := queue + [m], accepted + [m];
      } else {
        dropped := dropped + [m];
      }
    }

    /** The drainer's receive case. */
    method TakeMetric()
      modifies this
      ensures View() == GatewayStep(old(View()), Take)
      ensures flushed == if old(queue) != [] && |old(batch)| >= 99 then old(flushed) + [old(batch) + [old(queue)[0]]]
                         else old(flushed)
    {
      if queue == [] { return; }
      batch, queue := batch + [queue[0]], queue[1..];
      if |batch| >= GO_BATCH { SendBatch(); }
    }

    /** The drainer's ticker case. */
    method OnTick()
      modifies this
      ensures View() == GatewayStep(old(View()), Tick)
      ensures flushed == if old(batch) == [] then old(flushed) else old(flushed) + [old(batch)]
    {
      if |batch| > 0 { SendBatch(); }
    }

    method SendBatch()
      modifies `flushed, `batch
      ensures View() == Flush(old(View()))
    {
      flushed := flushed + [batch];
      batch := [];
    }
  }

  // ---------------------------------------------------------------------------------------
  // The Java collector: the size check and the offer are two operations
  // ---------------------------------------------------------------------------------------

  /** `pending` holds the metric of each producer that has passed the size check and not yet offered. */
  datatype Collector = Collector(queue: seq<Metric>, pending: map<nat, Metric>, batch: seq<Metric>,
                                 flushed: seq<seq<Metric>>, accepted: seq<Metric>)

  datatype CollectorEvent = Check(producer: nat, m: Metric) | Enqueue(producer: nat) | Poll | Send

  const IDLE_COLLECTOR := Collector([], map[], [], [], [])

  function CollectorStep(cap: nat, c: Collector, e: CollectorEvent): Collector {
    match e
    case Check(p, m) => if p in c.pending || |c.queue| >= cap then c else c.(pending := c.pending[p := m])
    case Enqueue(p) =>
      if p !in c.pending then c
      else c.(queue := c.queue + [c.pending[p]], accepted := c.accepted + [c.pending[p]], pending := c.pending - {p})
    case Poll =>
      if c.queue != [] && |c.batch| < JAVA_BATCH then c.(queue := c.queue[1..], batch := c.batch + [c.queue[0]]) else c
    case Send => if c.batch == [] then c else c.(flushed := c.flushed + [c.batch], batch := [])
  }

  function CollectorRun(cap: nat, es: seq<CollectorEvent>): Collector {
    if es == [] then IDLE_COLLECTOR else CollectorStep(cap, CollectorRun(cap, es[..|es| - 1]), es[|es| - 1])
  }

  /** The queue may exceed its cap by the producers caught between check and offer, less one. */
  ghost predicate CollectorInv(cap: nat, producers: set<nat>, c: Collector) {
    && c.pending.Keys <= producers
    && (|c.queue| + |c.pending| == 0 || |c.queue| + |c.pending| <= cap - 1 + |producers|)
    && |c.batch| <= JAVA_BATCH
    && (forall i | 0 <= i < |c.flushed| :: 1 <= |c.flushed[i]| <= JAVA_BATCH)
    && Conserved(c.accepted, c.flushed, c.batch, c.queue)
  }

  ghost predicate ByProducers(producers: set<nat>, es: seq<CollectorEvent>) {
    forall i | 0 <= i < |es| && es[i].Check? :: es[i].producer in producers
  }

  lemma SubsetSize(a: set<nat>, b: set<nat>)
    requires a <= b
    ensures |a| <= |b|
  {
    assert b == a + (b - a);
  }

  lemma PendingAdded(pending: map<nat, Metric>, p: nat, m: Metric, producers: set<nat>)
    requires pending.Keys <= producers && p in producers
    ensures pending[p := m].Keys <= producers && |pending[p := m]| <= |producers|
  {
    assert pending[p := m].Keys == pending.Keys + {p};
    SubsetSize(pending[p := m].Keys, producers);
  }

  lemma PendingRemoved(pending: map<nat, Metric>, p: nat)
    requires p in pending
    ensures (pending - {p}).Keys <= pending.Keys && |pending - {p}| == |pending| - 1
  {
    assert (pending - {p}).Keys == pending.Keys - {p};
    assert |(pending - {p}).Keys| == |pending.Keys| - 1;
  }

  lemma CollectorStepKeepsInv(cap: nat, producers: set<nat>, c: Collector, e: CollectorEvent)
    requires CollectorInv(cap, producers, c) && (e.Check? ==> e.producer in producers)
    ensures CollectorInv(cap, producers, CollectorStep(cap, c, e))
  {
    match e
    case Check(p, m) =>
      PendingAdded(c.pending, p, m, producers);
    case Enqueue(p) =>
      if p in c.pending {
        PendingRemoved(c.pending, p);
        ConservedByEnqueue(c.accepted, c.flushed, c.batch, c.queue, c.pending[p]);
      }
    case Poll => if c.queue != [] { ConservedByTake(c.accepted, c.flushed, c.batch, c.queue); }
    case Send => ConservedByFlush(c.accepted, c.flushed, c.batch, c.queue);
  }

  /**
    In every interleaving of producers with the drain loop, accepted metrics are flushed in order in
    batches of at most 200, and the queue exceeds its cap by less than the number of producers.
  */
  lemma {:induction false} CollectorConserves(cap: nat, producers: set<nat>, es: seq<CollectorEvent>)
    requires ByProducers(producers, es)
    ensures CollectorInv(cap, producers, CollectorRun(cap, es))
    ensures forall b | b in CollectorRun(cap, es).flushed :: 1 <= |b| <= 200
  {
    if es != [] {
      CollectorConserves(cap, producers, es[..|es| - 1]);
      CollectorStepKeepsInv(cap, producers, CollectorRun(cap, es[..|es| - 1]), es[|es| - 1]);
    }
  }

  /** n polls in a row. */
  function Polls(cap: nat, c: Collector, n: nat): Collector {
    if n == 0 then c else CollectorStep(cap, Polls(cap, c, n - 1), Poll)
  }

  lemma {:induction false} PollsTakeTheFront(cap: nat, c: Collector, n: nat)
    requires c.batch == [] && n <= |c.queue| && n <= JAVA_BATCH
    ensures Polls(cap, c, n) == c.(queue := c.queue[n..], batch := c.queue[..n])
  {
    if n > 0 { PollsTakeTheFront(cap, c, n - 1); }
  }

  /** The drain thread's flush: polls up to 200 metrics off the front, then posts them if any. */
  class DrainThread {
    var queue: seq<Metric>
    var flushed: seq<seq<Metric>>

    constructor ()
      ensures queue == [] && flushed == []
    {
      queue, flushed := [], [];
    }

    method FlushQueue()
      modifies this
      ensures var n := if |old(queue)| < 200 then |old(queue)| else 200;
              && queue == old(queue)[n..]
              && flushed == old(flushed) + if n == 0 then [] else [old(queue)[..n]]
    {
      if queue == [] { return; }
      var batch := [];
      while |batch| < JAVA_BATCH && queue != []
        invariant |batch| <= JAVA_BATCH && |batch| <= |old(queue)| && flushed == old(flushed)
        invariant batch == old(queue)[..|batch|] && queue == old(queue)[|batch|..]
        decreases |queue|
      {
        batch, queue := batch + [queue[0]], queue[1..];
      }
      if batch == [] { return; }
      flushed := flushed + [batch];
    }
  }

  const SAMPLE := Metric("", "java-loom", 0)

  lemma CollectorNext(cap: nat, es: seq<CollectorEvent>, e: CollectorEvent)
    ensures CollectorRun(cap, es + [e]) == CollectorStep(cap, CollectorRun(cap, es), e)
  {
    assert (es + [e])[..|es|] == es;
  }

  /** The producers of `checking` pass the size check one after the other, on the same free slot. */
  lemma {:induction false} AllCheck(cap: nat, producers: set<nat>, checking: set<nat>, es: seq<CollectorEvent>)
    returns (fs: seq<CollectorEvent>)
    requires ByProducers(producers, es) && checking <= producers
    requires |CollectorRun(cap, es).queue| < cap && CollectorRun(cap, es).pending.Keys !! checking
    ensures ByProducers(producers, fs) && CollectorRun(cap, fs).queue == CollectorRun(cap, es).queue
    ensures CollectorRun(cap, fs).pending.Keys == CollectorRun(cap, es).pending.Keys + checking
    decreases checking
  {
    if checking == {} {
      fs := es;
    } else {
      var p :| p in checking;
      CollectorNext(cap, es, Check(p, SAMPLE));
      fs := AllCheck(cap, producers, checking - {p}, es + [Check(p, SAMPLE)]);
      assert checking == {p} + (checking - {p});
    }
  }

  /** Then they all enqueue. */
  lemma {:induction false} AllEnqueue(cap: nat, producers: set<nat>, es: seq<CollectorEvent>)
    returns (fs: seq<CollectorEvent>)
    requires ByProducers(producers, es)
    ensures ByProducers(producers, fs) && CollectorRun(cap, fs).pending == map[]
    ensures |CollectorRun(cap, fs).queue| == |CollectorRun(cap, es).queue| + |CollectorRun(cap, es).pending|
    decreases |CollectorRun(cap, es).pending|
  {
    var c := CollectorRun(cap, es);
    if c.pending == map[] {
      fs := es;
    } else {
      var p :| p in c.pending;
      CollectorNext(cap, es, Enqueue(p));
      PendingRemoved(c.pending, p);
      fs := AllEnqueue(cap, producers, es + [Enqueue(p)]);
    }
  }

  /** Together, the producers of `checking` add as many metrics. */
  lemma AllRecord(cap: nat, producers: set<nat>, checking: set<nat>, es: seq<CollectorEvent>)
    returns (fs: seq<CollectorEvent>)
    requires ByProducers(producers, es) && checking <= producers
    requires |CollectorRun(cap, es).queue| < cap && CollectorRun(cap, es).pending == map[]
    ensures ByProducers(producers, fs) && CollectorRun(cap, fs).pending == map[]
    ensures |CollectorRun(cap, fs).queue| == |CollectorRun(cap, es).queue| + |checking|
  {
    fs := AllCheck(cap, producers, checking, es);
    assert CollectorRun(cap, fs).pending.Keys == checking;
    fs := AllEnqueue(cap, producers, fs);
  }

  /** One producer fills the queue to n. */
  lemma {:induction false} Fills(cap: nat, producers: set<nat>, p: nat, n: nat) returns (es: seq<CollectorEvent>)
    requires n <= cap && p in producers
    ensures ByProducers(producers, es)
    ensures |CollectorRun(cap, es).queue| == n && CollectorRun(cap, es).pending == map[]
  {
    if n == 0 {
      es := [];
    } else {
      es := Fills(cap, producers, p, n - 1);
      es := AllRecord(cap, producers, {p}, es);
    }
  }

  /** The bound on the excess is reached: all producers may pass the check on the last free slot. */
  lemma CapIsExceeded(cap: nat, producers: set<nat>) returns (es: seq<CollectorEvent>)
    requires cap > 0 && producers != {}
    ensures ByProducers(producers, es) && |CollectorRun(cap, es).queue| == cap - 1 + |producers|
  {
    var p :| p in producers;
    es := Fills(cap, producers, p, cap - 1);
    es := AllRecord(cap, producers, producers, es);
  }

  /** So the documented cap is one exactly for a single producer. */
  lemma CapHoldsIff(cap: nat, producers: set<nat>)
    requires cap > 0
    ensures (forall es | ByProducers(producers, es) :: |CollectorRun(cap, es).queue| <= cap) <==> |producers| <= 1
  {
    if |producers| <= 1 {
      forall es | ByProducers(producers, es) ensures |CollectorRun(cap, es).queue| <= cap {
        CollectorConserves(cap, producers, es);
      }
    } else {
      var es := CapIsExceeded(cap, producers);
    }
  }

  // ---------------------------------------------------------------------------------------
  // The APM server's buffer
  // ---------------------------------------------------------------------------------------

  /** The last n elements of a sequence, or all of it. */
  function LastN(s: seq<Metric>, n: nat): seq<Metric> {
    if |s| <= n then s else s[|s| - n..]
  }

  function Ingested(buffer: seq<Metric>, events: seq<Metric>): seq<Metric> {
    if |events| <= MAX_BUFFER then LastN(buffer + events, MAX_BUFFER) else events
  }

  class Server {
    var buffer: seq<Metric>

    constructor ()
      ensures buffer == []
    {
      buffer := [];
    }

    /** Splice off the overflow, then push one by one. */
    method Ingest(events: seq<Metric>)
      modifies this
      ensures buffer == Ingested(old(buffer), events)
    {
      var overflow := |buffer| + |events| - MAX_BUFFER;
      if overflow > 0 {
        buffer := buffer[if overflow <= |buffer| then overflow else |buffer|..];
      }
      ghost var kept := buffer;
      for i := 0 to |events|
        invariant buffer == kept + events[..i]
      {
        buffer := buffer + [events[i]];
      }
      assert events[..|events|] == events;
    }
  }

  function IngestedAll(bs: seq<seq<Metric>>): seq<Metric> {
    if bs == [] then [] else Ingested(IngestedAll(bs[..|bs| - 1]), bs[|bs| - 1])
  }

  /** t is the last |t| elements of s, at least MAX_BUFFER of them unless s is shorter. */
  ghost predicate RecentEnough(t: seq<Metric>, s: seq<Metric>) {
    |t| <= |s| && t == s[|s| - |t|..] && (|t| >= MAX_BUFFER || t == s)
  }

  lemma RecentAppend(t: seq<Metric>, s: seq<Metric>, events: seq<Metric>)
    requires RecentEnough(t, s)
    ensures LastN(t + events, MAX_BUFFER) == LastN(s + events, MAX_BUFFER)
    ensures RecentEnough(Ingested(t, events), s + events)
  {}

  lemma {:induction false} BufferIsRecent(bs: seq<seq<Metric>>)
    ensures RecentEnough(IngestedAll(bs), Flatten(bs))
  {
    if bs != [] {
      BufferIsRecent(bs[..|bs| - 1]);
      RecentAppend(IngestedAll(bs[..|bs| - 1]), Flatten(bs[..|bs| - 1]), bs[|bs| - 1]);
    }
  }

  /**
    After any batches the buffer holds exactly the last 100,000 metrics if and only if the latest
    batch is itself no larger than the buffer: an oversized batch overfills it until the next one.
  */
  lemma BufferIsTheLastMetrics(bs: seq<seq<Metric>>)
    ensures IngestedAll(bs) == LastN(Flatten(bs), 100_000) <==> bs == [] || |bs[|bs| - 1]| <= 100_000
  {
    if bs != [] {
      var prefix := bs[..|bs| - 1];
      BufferIsRecent(prefix);
      RecentAppend(IngestedAll(prefix), Flatten(prefix), bs[|bs| - 1]);
    }
  }

  /** The bound on the buffer holds after a batch exactly when the batch itself is within it. */
  lemma BufferBounded(buffer: seq<Metric>, events: seq<Metric>)
    ensures |Ingested(buffer, events)| <= 100_000 <==> |events| <= 100_000
  {}

  /** One batch that is too large, and the buffer is over its maximum. */
  lemma OversizedBatchOverfills(m: Metric) returns (batch: seq<Metric>)
    ensures |IngestedAll([batch])| == 100_001
    ensures IngestedAll([batch]) != LastN(Flatten([batch]), 100_000)
  {
    batch := seq(MAX_BUFFER + 1, _ => m);
    assert IngestedAll([batch]) == batch by { assert [batch][..0] == []; }
    BufferIsTheLastMetrics([batch]);
  }

  /**
    End to end: whatever batches of the gateway and of the collector arrive, in any order and with
    any losses, the buffer is exactly the last min(N, 100000) metrics that arrived.
  */
  lemma BufferOfTheTwoSenders(gateway: seq<GatewayEvent>, producers: set<nat>, collector: seq<CollectorEvent>,
                              arrived: seq<seq<Metric>>)
    requires ByProducers(producers, collector)
    requires forall i | 0 <= i < |arrived| ::
               arrived[i] in GatewayRun(gateway).flushed || arrived[i] in CollectorRun(JAVA_QUEUE, collector).flushed
    ensures IngestedAll(arrived) == LastN(Flatten(arrived), 100_000)
  {
    GatewayConserves(gateway);
    CollectorConserves(JAVA_QUEUE, producers, collector);
    BufferIsTheLastMetrics(arrived);
  }
}
