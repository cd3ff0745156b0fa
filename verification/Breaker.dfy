/**
  The circuit breaker of server-go/main.go, first with each method as one step, then at the
  granularity of its single atomic operations.
*/
module CircuitBreaker {

  datatype BreakerState = Closed | Open | HalfOpen

  /** 32-bit wrap-around, as atomic.AddInt32 does it. */
  function Wrap32(x: int): (r: int)
    ensures -0x8000_0000 <= r < 0x8000_0000 && (x - r) % 0x1_0000_0000 == 0
  {
    (x + 0x8000_0000) % 0x1_0000_0000 - 0x8000_0000
  }

  // ---------------------------------------------------------------------------------------
  // One method, one step
  // ---------------------------------------------------------------------------------------

  /** The calls a breaker sees, with the time they read. */
  datatype Call = Allow(now: int) | RecordSuccess | RecordFailure(now: int)

  datatype Breaker = Breaker(state: BreakerState, failures: int, lastFailure: int)

  datatype Config = Config(threshold: int, resetAfter: int)

  const INIT := Breaker(Closed, 0, 0)

  predicate WindowPassed(c: Config, b: Breaker, now: int) { now - b.lastFailure > c.resetAfter }

  /** What Allow answers. */
  predicate Allows(c: Config, b: Breaker, now: int) {
    match b.state
    case Closed => true
    case Open => WindowPassed(c, b, now)
    case HalfOpen => true
  }

  function Step(c: Config, b: Breaker, call: Call): Breaker {
    match call
    case Allow(now) => if b.state == Open && WindowPassed(c, b, now) then b.(state := HalfOpen) else b
    case RecordSuccess => b.(failures := 0, state := Closed)
    case RecordFailure(now) =>
      var f := Wrap32(b.failures + 1);
      Breaker(if f >= c.threshold then Open else b.state, f, now)
  }

  function Run(c: Config, cs: seq<Call>): Breaker {
    if cs == [] then INIT else Step(c, Run(c, cs[..|cs| - 1]), cs[|cs| - 1])
  }

  /** The length of the trailing failure run: failures recorded since the last success. */
  function FailureRun(cs: seq<Call>): nat {
    if cs == [] then 0
    else match cs[|cs| - 1]
         case RecordSuccess => 0
         case RecordFailure(_) => FailureRun(cs[..|cs| - 1]) + 1
         case Allow(_) => FailureRun(cs[..|cs| - 1])
  }

  function LastFailure(cs: seq<Call>): int {
    if cs == [] then 0
    else if cs[|cs| - 1].RecordFailure? then cs[|cs| - 1].now
    else LastFailure(cs[..|cs| - 1])
  }

  lemma WrapStep(n: nat)
    ensures Wrap32(Wrap32(n) + 1) == Wrap32(n + 1)
  {}

  lemma {:induction false} CountsTheFailureRun(c: Config, cs: seq<Call>)
    ensures Run(c, cs).failures == Wrap32(FailureRun(cs))
    ensures Run(c, cs).lastFailure == LastFailure(cs)
  {
    if cs != [] {
      CountsTheFailureRun(c, cs[..|cs| - 1]);
      WrapStep(FailureRun(cs[..|cs| - 1]));
    }
  }

  /** After any history the breaker is closed exactly while the failure run is below the threshold. */
  lemma {:induction false} ClosedBelowThreshold(c: Config, cs: seq<Call>)
    requires 0 < c.threshold <= 0x7fff_ffff
    ensures Run(c, cs).state == Closed <==> FailureRun(cs) < c.threshold
  {
    if cs != [] {
      ClosedBelowThreshold(c, cs[..|cs| - 1]);
      CountsTheFailureRun(c, cs[..|cs| - 1]);
      WrapStep(FailureRun(cs[..|cs| - 1]));
    }
  }

  /** The i-th call records a failure at which the counter stands at or above the threshold. */
  ghost predicate OpensAt(c: Config, cs: seq<Call>, i: int) {
    0 <= i < |cs| && cs[i].RecordFailure? && Wrap32(FailureRun(cs[..i + 1])) >= c.threshold
  }

  /** The j-th call closes the breaker, or probes it after the reset window. */
  ghost predicate Releases(c: Config, cs: seq<Call>, j: int)
    requires 0 <= j < |cs|
  {
    cs[j].RecordSuccess? || (cs[j].Allow? && cs[j].now - LastFailure(cs[..j]) > c.resetAfter)
  }

  /** Some failure opened the breaker and nothing has released it since. */
  ghost predicate OpenedForGood(c: Config, cs: seq<Call>, i: int) {
    OpensAt(c, cs, i) && forall j | i < j < |cs| :: !Releases(c, cs, j)
  }

  /** After any history the breaker is open exactly when a failure opened it and nothing undid that. */
  lemma {:induction false} OpenCharacterised(c: Config, cs: seq<Call>)
    requires c.threshold > 0
    ensures Run(c, cs).state == Open <==> exists i :: OpenedForGood(c, cs, i)
  {
    if cs != [] {
      var prefix, last := cs[..|cs| - 1], |cs| - 1;
      OpenCharacterised(c, prefix);
      CountsTheFailureRun(c, cs);
      CountsTheFailureRun(c, prefix);
      assert cs[..last + 1] == cs;
      assert forall i | 0 <= i <= last :: prefix[..i] == cs[..i];
      forall i | 0 <= i < last
        ensures OpenedForGood(c, cs, i) <==> OpenedForGood(c, prefix, i) && !Releases(c, cs, last)
      {
        assert forall j | i < j < last :: Releases(c, prefix, j) <==> Releases(c, cs, j);
      }
      if OpensAt(c, cs, last) { assert OpenedForGood(c, cs, last); }
    }
  }

  /** Allow refuses a call exactly when the breaker is open and its reset window has not passed. */
  lemma RefusalCharacterised(c: Config, cs: seq<Call>, now: int)
    requires c.threshold > 0
    ensures !Allows(c, Run(c, cs), now) <==>
              (exists i :: OpenedForGood(c, cs, i)) && now - LastFailure(cs) <= c.resetAfter
  {
    OpenCharacterised(c, cs);
    CountsTheFailureRun(c, cs);
  }

  /**
    While the counter has not wrapped, that is the plain reading: with k the last recorded failure,
    the failure run has reached the threshold, nothing has probed the breaker since k, and the reset
    window has not passed.
  */
  lemma RefusalWithoutWrap(c: Config, cs: seq<Call>, k: nat, now: int)
    requires 0 < c.threshold <= 0x7fff_ffff && FailureRun(cs) <= 0x7fff_ffff
    requires k < |cs| && cs[k].RecordFailure? && forall j | k < j < |cs| :: !cs[j].RecordFailure?
    ensures !Allows(c, Run(c, cs), now) <==>
              && FailureRun(cs) >= c.threshold
              && (forall j | k < j < |cs| :: !Releases(c, cs, j))
              && now - LastFailure(cs) <= c.resetAfter
  {
    RefusalCharacterised(c, cs, now);
    RunAfterLastFailure(cs, k);
    if FailureRun(cs) >= c.threshold && forall j | k < j < |cs| :: !Releases(c, cs, j) {
      assert OpenedForGood(c, cs, k);
    }
    OpenCharacterised(c, cs);
    ClosedBelowThreshold(c, cs);
  }

  /** Since the last failure the run has stood still, or a success has ended it. */
  lemma {:induction false} RunAfterLastFailure(cs: seq<Call>, k: nat)
    requires k < |cs| && cs[k].RecordFailure? && forall j | k < j < |cs| :: !cs[j].RecordFailure?
    ensures FailureRun(cs) == 0 || FailureRun(cs) == FailureRun(cs[..k + 1])
    ensures (forall j | k < j < |cs| :: !cs[j].RecordSuccess?) ==> FailureRun(cs) == FailureRun(cs[..k + 1])
  {
    if k == |cs| - 1 {
      assert cs[..k + 1] == cs;
    } else {
      var prefix := cs[..|cs| - 1];
      RunAfterLastFailure(prefix, k);
      assert prefix[..k + 1] == cs[..k + 1];
    }
  }

  /** The half-open state admits every caller until an outcome is recorded, not one probe. */
  lemma {:induction false} HalfOpenAdmitsAll(c: Config, b: Breaker, times: seq<int>)
    requires b.state == HalfOpen
    ensures AfterAllows(c, b, times) == b
    ensures forall i | 0 <= i < |times| :: Allows(c, AfterAllows(c, b, times[..i]), times[i])
  {
    if times != [] {
      HalfOpenAdmitsAll(c, b, times[..|times| - 1]);
      forall i | 0 <= i < |times| ensures Allows(c, AfterAllows(c, b, times[..i]), times[i]) {
        if i < |times| - 1 { assert times[..|times| - 1][..i] == times[..i]; }
      }
    }
  }

  function AfterAllows(c: Config, b: Breaker, times: seq<int>): Breaker {
    if times == [] then b else Step(c, AfterAllows(c, b, times[..|times| - 1]), Allow(times[|times| - 1]))
  }

  class Cell {
    const config: Config
    var state: BreakerState
    var failures: int
    var successes: int
    var lastFailure: int

    constructor (config: Config)
      ensures View() == INIT && this.config == config
    {
      this.config := config;
      state, failures, successes, lastFailure := Closed, 0, 0, 0;
    }

    function View(): Breaker
      reads this
    {
      Breaker(state, failures, lastFailure)
    }

    method Allow(now: int) returns (ok: bool)
      modifies `state
      ensures ok == Allows(config, old(View()), now)
      ensures View() == Step(config, old(View()), Call.Allow(now))
    {
      match state {
        case Closed => return true;
        case Open =>
          if now - lastFailure > config.resetAfter {
            state := HalfOpen;
            return true;
          }
          return false;
        case HalfOpen => return true;
      }
    }

    method RecordSuccess()
      modifies this
      ensures View() == Step(config, old(View()), Call.RecordSuccess)
      ensures successes == Wrap32(old(successes) + 1)
    {
      failures := 0;
      successes := Wrap32(successes + 1);
      state := Closed;
    }

    method RecordFailure(now: int)
      modifies `failures, `lastFailure, `state
      ensures View() == Step(config, old(View()), Call.RecordFailure(now))
    {
      failures := Wrap32(failures + 1);
      var f := failures;
      lastFailure := now;
      if f >= config.threshold { state := Open; }
    }
  }

  // ---------------------------------------------------------------------------------------
  // Single atomic operations, interleaved
  // ---------------------------------------------------------------------------------------

  /** Where a goroutine stands inside a breaker method. */
  datatype Pc = Idle
              | Counted(f: int)  // RecordFailure: has incremented, holds f
              | Stamped(f: int)  // RecordFailure: has set lastFailure
              | Zeroed           // RecordSuccess: has reset the counter
              | Tallied          // RecordSuccess: has counted the success
              | SawOpen          // Allow: has loaded the open state
              | Expired          // Allow: has found the window passed

  /** One atomic operation of goroutine `g`. */
  datatype Op = Increment(g: nat) | Stamp(g: nat) | StoreOpen(g: nat) | Skip(g: nat)
              | Zero(g: nat) | Tally(g: nat) | StoreClosed(g: nat)
              | LoadState(g: nat) | CheckWindow(g: nat, passed: bool) | StoreHalfOpen(g: nat)

  datatype Shared = Shared(state: BreakerState, failures: int, pc: map<nat, Pc>)

  function PcOf(s: Shared, g: nat): Pc { if g in s.pc then s.pc[g] else Idle }

  predicate Enabled(threshold: int, s: Shared, op: Op) {
    var pc := PcOf(s, op.g);
    match op
    case Increment(_) => pc == Idle
    case Stamp(_) => pc.Counted?
    case StoreOpen(_) => pc.Stamped? && pc.f >= threshold
    case Skip(_) => pc.Stamped? && pc.f < threshold
    case Zero(_) => pc == Idle
    case Tally(_) => pc == Zeroed
    case StoreClosed(_) => pc == Tallied
    case LoadState(_) => pc == Idle
    case CheckWindow(_, _) => pc == SawOpen
    case StoreHalfOpen(_) => pc == Expired
  }

  function Exec(s: Shared, op: Op): Shared {
    match op
    case Increment(g) => s.(failures := Wrap32(s.failures + 1), pc := s.pc[g := Counted(Wrap32(s.failures + 1))])
    case Stamp(g) => if PcOf(s, g).Counted? then s.(pc := s.pc[g := Stamped(PcOf(s, g).f)]) else s
    case StoreOpen(g) => s.(state := Open, pc := s.pc[g := Idle])
    case Skip(g) => s.(pc := s.pc[g := Idle])
    case Zero(g) => s.(failures := 0, pc := s.pc[g := Zeroed])
    case Tally(g) => s.(pc := s.pc[g := Tallied])
    case StoreClosed(g) => s.(state := Closed, pc := s.pc[g := Idle])
    case LoadState(g) => s.(pc := s.pc[g := if s.state == Open then SawOpen else Idle])
    case CheckWindow(g, passed) => s.(pc := s.pc[g := if passed then Expired else Idle])
    case StoreHalfOpen(g) => s.(state := HalfOpen, pc := s.pc[g := Idle])
  }

  const START := Shared(Closed, 0, map[])

  function Trace(ops: seq<Op>): Shared {
    if ops == [] then START else Exec(Trace(ops[..|ops| - 1]), ops[|ops| - 1])
  }

  /** A possible interleaving: each goroutine runs through its methods operation by operation. */
  ghost predicate Possible(threshold: int, ops: seq<Op>) {
    forall k | 0 <= k < |ops| :: Enabled(threshold, Trace(ops[..k]), ops[k])
  }

  /** Increments since the counter was last reset. */
  function IncrementsSinceReset(ops: seq<Op>): nat {
    if ops == [] then 0
    else match ops[|ops| - 1]
         case Zero(_) => 0
         case Increment(_) => IncrementsSinceReset(ops[..|ops| - 1]) + 1
         case _ => IncrementsSinceReset(ops[..|ops| - 1])
  }

  lemma {:induction false} FailuresCountIncrements(ops: seq<Op>)
    ensures Trace(ops).failures == Wrap32(IncrementsSinceReset(ops))
  {
    if ops != [] {
      FailuresCountIncrements(ops[..|ops| - 1]);
      WrapStep(IncrementsSinceReset(ops[..|ops| - 1]));
    }
  }

  lemma PossiblePrefix(threshold: int, ops: seq<Op>, q: nat)
    requires Possible(threshold, ops) && q <= |ops|
    ensures Possible(threshold, ops[..q])
  {
    forall k | 0 <= k < q ensures Enabled(threshold, Trace(ops[..q][..k]), ops[..q][k]) {
      assert ops[..q][..k] == ops[..k];
    }
  }

  /** Only goroutine g's own operations move its program counter. */
  lemma OnlyOwnOperations(s: Shared, op: Op, g: nat)
    requires op.g != g
    ensures PcOf(Exec(s, op), g) == PcOf(s, g)
  {}

  /** Goroutine g is inside RecordFailure and holds the count f. */
  ghost predicate Holding(s: Shared, g: nat, f: int) {
    PcOf(s, g) == Counted(f) || PcOf(s, g) == Stamped(f)
  }

  /** Operation p is g's increment, which brought the counter to f. */
  ghost predicate CountedAt(ops: seq<Op>, p: nat, g: nat, f: int) {
    p < |ops| && ops[p] == Increment(g) && f == Wrap32(IncrementsSinceReset(ops[..p + 1]))
  }

  /** A goroutine holding a count has just incremented, or held the same count before. */
  lemma HoldsOrIncrements(threshold: int, s: Shared, op: Op, g: nat, f: int)
    requires Enabled(threshold, s, op) && Holding(Exec(s, op), g, f) && op != Increment(g)
    ensures Holding(s, g, f)
  {
    if op.g != g { OnlyOwnOperations(s, op, g); }
  }

  lemma JustIncremented(ops: seq<Op>, prefix: seq<Op>, g: nat, f: int)
    requires ops == prefix + [Increment(g)] && Holding(Trace(ops), g, f)
    ensures CountedAt(ops, |prefix|, g, f)
  {
    assert ops[..|prefix|] == prefix && ops[..|prefix| + 1] == ops;
    assert f == Trace(ops).failures;
    FailuresCountIncrements(ops);
  }

  lemma CountedEarlier(ops: seq<Op>, prefix: seq<Op>, p: nat, g: nat, f: int)
    requires prefix <= ops && CountedAt(prefix, p, g, f)
    ensures CountedAt(ops, p, g, f)
  {
    assert prefix[..p + 1] == ops[..p + 1];
  }

  /** A goroutine that holds f got it from its own increment, when the counter stood at f. */
  lemma {:induction false} HeldCountWasSeen(threshold: int, ops: seq<Op>, g: nat, f: int) returns (p: nat)
    requires Possible(threshold, ops) && Holding(Trace(ops), g, f)
    ensures CountedAt(ops, p, g, f)
  {
    var prefix, last := ops[..|ops| - 1], ops[|ops| - 1];
    if last == Increment(g) {
      p := |prefix|;
      JustIncremented(ops, prefix, g, f);
    } else {
      PossiblePrefix(threshold, ops, |ops| - 1);
      HoldsOrIncrements(threshold, Trace(prefix), last, g, f);
      p := HeldCountWasSeen(threshold, prefix, g, f);
      CountedEarlier(ops, prefix, p, g, f);
    }
  }

  lemma WrapBelow(n: nat)
    ensures Wrap32(n) <= n
  {}

  lemma {:induction false} NoResetNoLoss(ops: seq<Op>, p: nat, q: nat)
    requires p <= q <= |ops| && forall k | p <= k < q :: !ops[k].Zero?
    ensures IncrementsSinceReset(ops[..q]) >= IncrementsSinceReset(ops[..p])
    decreases q - p
  {
    if p < q {
      NoResetNoLoss(ops, p, q - 1);
      assert ops[..q][..q - 1] == ops[..q - 1];
    }
  }

  /** All increments of a stretch of operations, resets or not. */
  function IncrementsIn(ops: seq<Op>): nat {
    if ops == [] then 0
    else IncrementsIn(ops[..|ops| - 1]) + if ops[|ops| - 1].Increment? then 1 else 0
  }

  /** The latest reset before operation q is operation z. */
  ghost predicate LastResetAt(ops: seq<Op>, q: nat, z: int) {
    q <= |ops| && 0 <= z < q && ops[z].Zero? && forall k | z < k < q :: !ops[k].Zero?
  }

  lemma {:induction false} CountsFromLastReset(ops: seq<Op>, q: nat, z: nat)
    requires LastResetAt(ops, q, z)
    ensures IncrementsSinceReset(ops[..q]) == IncrementsIn(ops[z + 1..q])
    decreases q - z
  {
    assert ops[..q][..q - 1] == ops[..q - 1];
    if z < q - 1 {
      CountsFromLastReset(ops, q - 1, z);
      assert ops[z + 1..q][..q - z - 2] == ops[z + 1..q - 1];
    }
  }

  lemma {:induction false} FindLastReset(ops: seq<Op>, p: nat, q: nat) returns (z: nat)
    requires q <= |ops| && exists k :: p < k < q && ops[k].Zero?
    ensures p < z && LastResetAt(ops, q, z)
  {
    if ops[q - 1].Zero? { z := q - 1; } else { z := FindLastReset(ops, p, q - 1); }
  }

  /** Fewer than `threshold` increments stand before operation q, for a reset after operation p. */
  ghost predicate ResetSince(threshold: int, ops: seq<Op>, p: nat, q: nat) {
    exists z :: p < z && LastResetAt(ops, q, z) && IncrementsIn(ops[z + 1..q]) < threshold
  }

  lemma StandsUnlessReset(threshold: int, ops: seq<Op>, p: nat, q: nat)
    requires p < q <= |ops| && IncrementsSinceReset(ops[..p + 1]) >= threshold
    ensures IncrementsSinceReset(ops[..q]) < threshold <==> ResetSince(threshold, ops, p, q)
  {
    if exists k :: p < k < q && ops[k].Zero? {
      var z := FindLastReset(ops, p, q);
      CountsFromLastReset(ops, q, z);
    } else {
      NoResetNoLoss(ops, p + 1, q);
    }
  }

  /**
    Every store of the open state was decided by an increment of the same goroutine at which at
    least `threshold` increments had happened since the counter's last reset. At the store itself
    fewer than that stand if and only if the counter was reset after that increment, and fewer than
    `threshold` goroutines have incremented it since.
  */
  lemma OpenFollowsThresholdIncrements(threshold: int, ops: seq<Op>, q: nat) returns (p: nat)
    requires Possible(threshold, ops) && q < |ops| && ops[q].StoreOpen?
    ensures p < q && ops[p] == Increment(ops[q].g)
    ensures IncrementsSinceReset(ops[..p + 1]) >= threshold
    ensures IncrementsSinceReset(ops[..q]) < threshold <==> ResetSince(threshold, ops, p, q)
  {
    var before := ops[..q];
    PossiblePrefix(threshold, ops, q);
    assert Enabled(threshold, Trace(before), ops[q]);
    p := HeldCountWasSeen(threshold, before, ops[q].g, PcOf(Trace(before), ops[q].g).f);
    assert before[..p + 1] == ops[..p + 1];
    WrapBelow(IncrementsSinceReset(ops[..p + 1]));
    StandsUnlessReset(threshold, ops, p, q);
  }

  predicate Stores(op: Op) { op.StoreOpen? || op.StoreClosed? || op.StoreHalfOpen? }

  /** The state is what the last store put there, and closed before the first. */
  lemma {:induction false} StateIsLastStored(ops: seq<Op>, k: int)
    requires -1 <= k < |ops| && (k >= 0 ==> Stores(ops[k])) && forall j | k < j < |ops| :: !Stores(ops[j])
    ensures Trace(ops).state == if k < 0 || ops[k].StoreClosed? then Closed
                                else if ops[k].StoreOpen? then Open else HalfOpen
  {
    if ops != [] && k < |ops| - 1 { StateIsLastStored(ops[..|ops| - 1], k); }
  }

  /** Goroutine g is inside Allow, and has found the breaker open. */
  ghost predicate Probing(s: Shared, g: nat) {
    PcOf(s, g) == SawOpen || PcOf(s, g) == Expired
  }

  /** A goroutine that probes has just loaded the state, or probed before. */
  lemma ProbesBefore(threshold: int, s: Shared, op: Op, g: nat)
    requires Enabled(threshold, s, op) && Probing(Exec(s, op), g) && op != LoadState(g)
    ensures Probing(s, g)
  {
    if op.g != g { OnlyOwnOperations(s, op, g); }
  }

  /** Operation p is g's load of the state, which was open. */
  ghost predicate LoadedOpenAt(ops: seq<Op>, p: nat, g: nat) {
    p < |ops| && ops[p] == LoadState(g) && Trace(ops[..p]).state == Open
  }

  lemma JustLoaded(ops: seq<Op>, prefix: seq<Op>, g: nat)
    requires ops == prefix + [LoadState(g)] && Probing(Trace(ops), g)
    ensures LoadedOpenAt(ops, |prefix|, g)
  {
    assert ops[..|prefix|] == prefix;
  }

  lemma LoadedEarlier(ops: seq<Op>, prefix: seq<Op>, p: nat, g: nat)
    requires prefix <= ops && LoadedOpenAt(prefix, p, g)
    ensures LoadedOpenAt(ops, p, g)
  {
    assert prefix[..p] == ops[..p];
  }

  lemma {:induction false} ProbeSawOpen(threshold: int, ops: seq<Op>, g: nat) returns (p: nat)
    requires Possible(threshold, ops) && Probing(Trace(ops), g)
    ensures LoadedOpenAt(ops, p, g)
  {
    var prefix, last := ops[..|ops| - 1], ops[|ops| - 1];
    if last == LoadState(g) {
      p := |prefix|;
      JustLoaded(ops, prefix, g);
    } else {
      PossiblePrefix(threshold, ops, |ops| - 1);
      ProbesBefore(threshold, Trace(prefix), last, g);
      p := ProbeSawOpen(threshold, prefix, g);
      LoadedEarlier(ops, prefix, p, g);
    }
  }

  /** The breaker is put in the half-open state only by a goroutine that has found it open. */
  lemma HalfOpenFollowsOpen(threshold: int, ops: seq<Op>, q: nat) returns (p: nat)
    requires Possible(threshold, ops) && q < |ops| && ops[q].StoreHalfOpen?
    ensures p < q && ops[p] == LoadState(ops[q].g) && Trace(ops[..p]).state == Open
  {
    PossiblePrefix(threshold, ops, q);
    assert Enabled(threshold, Trace(ops[..q]), ops[q]);
    p := ProbeSawOpen(threshold, ops[..q], ops[q].g);
    LoadedEarlier(ops, ops[..q], p, ops[q].g);
  }

  /** n goroutines count one failure each. */
  function Increments(n: nat): seq<Op> {
    if n == 0 then [] else Increments(n - 1) + [Increment(n - 1)]
  }

  lemma TraceNext(threshold: int, ops: seq<Op>, op: Op, s: Shared)
    requires Possible(threshold, ops) && Trace(ops) == s && Enabled(threshold, s, op)
    ensures Possible(threshold, ops + [op]) && Trace(ops + [op]) == Exec(s, op)
  {
    assert (ops + [op])[..|ops|] == ops;
    forall k | 0 <= k < |ops| + 1 ensures Enabled(threshold, Trace((ops + [op])[..k]), (ops + [op])[k]) {
      assert (ops + [op])[..k] == ops[..k];
    }
  }

  lemma NextIncrement(threshold: int, s: Shared, n: nat, t: Shared)
    requires n < 0x7fff_ffff && s.failures == n && t == Exec(s, Increment(n))
    requires forall g | g in s.pc :: g < n
    ensures Enabled(threshold, s, Increment(n)) && t.failures == n + 1
    ensures (forall g | g in t.pc :: g < n + 1) && PcOf(t, n) == Counted(n + 1)
  {}

  lemma {:induction false} IncrementsCount(threshold: int, n: nat)
    requires n <= 0x7fff_ffff
    ensures Possible(threshold, Increments(n)) && Trace(Increments(n)).failures == n
    ensures forall g | g in Trace(Increments(n)).pc :: g < n
    ensures n > 0 ==> PcOf(Trace(Increments(n)), n - 1) == Counted(n)
  {
    if n > 0 {
      IncrementsCount(threshold, n - 1);
      var s := Trace(Increments(n - 1));
      NextIncrement(threshold, s, n - 1, Exec(s, Increment(n - 1)));
      TraceNext(threshold, Increments(n - 1), Increment(n - 1), s);
    }
  }

  /**
    With a reset in between the claim fails: for every threshold, a breaker whose counter has just
    been set to zero can be stored open.
  */
  lemma OpenWithZeroFailures(threshold: int) returns (ops: seq<Op>)
    requires 0 < threshold <= 0x7fff_ffff
    ensures Possible(threshold, ops) && ops != [] && ops[|ops| - 1].StoreOpen?
    ensures Trace(ops).state == Open && Trace(ops).failures == 0 && IncrementsSinceReset(ops[..|ops| - 1]) == 0
  {
    var g := threshold - 1;
    IncrementsCount(threshold, threshold);
    var o1 := Increments(threshold);
    var s1 := Trace(o1);
    TraceNext(threshold, o1, Stamp(g), s1);
    var s2 := Exec(s1, Stamp(g));
    TraceNext(threshold, o1 + [Stamp(g)], Zero(threshold), s2);
    var s3 := Exec(s2, Zero(threshold));
    ops := o1 + [Stamp(g)] + [Zero(threshold)] + [StoreOpen(g)];
    TraceNext(threshold, o1 + [Stamp(g)] + [Zero(threshold)], StoreOpen(g), s3);
    assert ops[..|ops| - 1] == o1 + [Stamp(g)] + [Zero(threshold)];
  }
}
