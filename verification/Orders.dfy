/**
  The order state machine, its database operations and the saga of loom-java/VirtualServer.java,
  composed with the gateway (server-go/main.go) and the ledger (ledger-clojure/server.clj).

  Every database statement, every ledger transaction and every breaker call is one atomic step; a run
  interleaves the steps of any number of orders with events, transfers and gateway traffic of others.
*/
module Orders {
  import Ledger
  import CircuitBreaker
  import opened Common

  datatype Status = Pending | Ordered | Paid | Processing | Shipped | Delivered | Completed | Canceled | Refunded

  datatype OrderEvent = Pay | Process | Ship | Deliver | Cancel | Refund | Complete

  predicate CanTransitionTo(s: Status, next: Status) {
    match s
    case Pending => next == Completed || next == Canceled
    case Ordered => next == Paid || next == Canceled
    case Paid => next == Processing || next == Canceled
    case Processing => next == Shipped
    case Shipped => next == Delivered
    case Canceled => next == Refunded
    case _ => false
  }

  function TargetStatus(e: OrderEvent): Status {
    match e
    case Pay => Paid
    case Process => Processing
    case Ship => Shipped
    case Deliver => Delivered
    case Cancel => Canceled
    case Refund => Refunded
    case Complete => Completed
  }

  /** The transitions of VirtualServer.java, event by event. */
  lemma TransitionTable(s: Status, e: OrderEvent)
    ensures CanTransitionTo(s, TargetStatus(e)) <==>
              || (s == Pending && (e == Complete || e == Cancel))
              || (s == Ordered && (e == Pay || e == Cancel))
              || (s == Paid && (e == Process || e == Cancel))
              || (s == Processing && e == Ship) || (s == Shipped && e == Deliver) || (s == Canceled && e == Refund)
  {}

  // ---------------------------------------------------------------------------------------
  // The database
  // ---------------------------------------------------------------------------------------

  datatype Row = Row(orderType: string, status: Status, createdAt: int, updatedAt: int)

  datatype TransitionResult = Applied(from: Status, to: Status) | NotFound | Invalid(from: Status, to: Status)

  class DbStore {
    var rows: map<string, Row>

    constructor ()
      ensures rows == map[]
    {
      rows := map[];
    }

    /** INSERT ... ON CONFLICT DO NOTHING: the first insertion of an id wins. */
    method InsertOrderPending(id: string, orderType: string, now: int) returns (row: Option<Row>)
      modifies this
      ensures row == if id in old(rows) then None else Some(Row(orderType, Pending, now, now))
      ensures rows == if id in old(rows) then old(rows) else old(rows)[id := Row(orderType, Pending, now, now)]
    {
      if id in rows { return None; }
      var inserted := Row(orderType, Pending, now, now);
      rows := rows[id := inserted];
      return Some(inserted);
    }

    /** The saga's write: no state-machine check. */
    method UpdateOrderStatus(id: string, status: Status, now: int)
      modifies this
      ensures rows == if id !in old(rows) then old(rows)
                      else old(rows)[id := old(rows)[id].(status := status, updatedAt := now)]
    {
      if id in rows { rows := rows[id := rows[id].(status := status, updatedAt := now)]; }
    }

    /** SELECT FOR UPDATE, check, UPDATE, in one transaction. */
    method ApplyTransition(id: string, event: OrderEvent, now: int) returns (r: TransitionResult)
      modifies this
      ensures r.NotFound? <==> id !in old(rows)
      ensures id in old(rows) ==> r.from == old(rows)[id].status && r.to == TargetStatus(event)
      ensures id in old(rows) ==> (r.Applied? <==> CanTransitionTo(r.from, r.to))
      ensures rows == if !r.Applied? then old(rows)
                      else old(rows)[id := old(rows)[id].(status := r.to, updatedAt := now)]
    {
      if id !in rows { return NotFound; }
      var current, next := rows[id].status, TargetStatus(event);
      if !CanTransitionTo(current, next) { return Invalid(current, next); }
      rows := rows[id := rows[id].(status := next, updatedAt := now)];
      return Applied(current, next);
    }
  }

  // ---------------------------------------------------------------------------------------
  // One order, its saga and its request
  // ---------------------------------------------------------------------------------------

  /** How the gateway's call to the ledger ended: an answer, or a transport error or timeout. */
  datatype Outcome = Replied(code: int) | Unreachable

  /** The saga's request: not yet at the gateway, refused there, forwarded, or settled. */
  datatype Request = Unsent | Refused | InFlight | Settled(outcome: Outcome)

  /** Whether the ledger has executed the transfer, and what it decided. */
  datatype Execution = NotYet | Done(accepted: bool)

  /** The saga thread: waiting for its call, about to write, done, or stopped by a database error. */
  datatype Saga = Calling | Resolved(success: bool) | Wrote(success: bool) | Failed(success: bool)

  /** An order: every status its row has had, its saga, and where in the history the saga wrote. */
  datatype Order = Order(history: seq<Status>, saga: Saga, writtenAt: nat, transfer: Ledger.Transfer,
                         request: Request, execution: Execution)

  predicate Is2xx(code: int) { 200 <= code < 300 }

  /** What the gateway answers: the ledger's status, or 200 with a degraded body. */
  function Answer(o: Outcome): int {
    match o
    case Replied(code) => code
    case Unreachable => 200
  }

  /** What the gateway's breaker records. */
  function Recorded(o: Outcome, now: int): CircuitBreaker.Call {
    if o.Unreachable? || o.code >= 500 then CircuitBreaker.RecordFailure(now) else CircuitBreaker.RecordSuccess
  }

  /** The saga gets a status, unless it has given up before. */
  function Receive(o: Order, code: int): Order {
    if o.saga.Calling? then o.(saga := Resolved(Is2xx(code))) else o
  }

  function FinalStatus(success: bool): Status { if success then Completed else Canceled }

  function Current(o: Order): Status
    requires o.history != []
  {
    o.history[|o.history| - 1]
  }

  function Put(o: Order, e: OrderEvent): Order {
    if o.history != [] && CanTransitionTo(Current(o), TargetStatus(e))
    then o.(history := o.history + [TargetStatus(e)])
    else o
  }

  function Write(o: Order, stored: bool): Order {
    if !o.saga.Resolved? then o
    else if stored then
      o.(history := o.history + [FinalStatus(o.saga.success)], saga := Wrote(o.saga.success), writtenAt := |o.history|)
    else o.(saga := Failed(o.saga.success))
  }

  /** How many more status changes events can cause. */
  function Rank(s: Status): nat {
    match s case Pending => 2 case Canceled => 1 case _ => 0
  }

  ghost predicate SagaStatus(s: Status) { s == Pending || s == Completed || s == Canceled || s == Refunded }

  /** Every status change is an edge of the state machine, but for the saga's one write. */
  ghost predicate EdgesOrOneWrite(o: Order) {
    forall i | 0 < i < |o.history| ::
      CanTransitionTo(o.history[i - 1], o.history[i]) || (o.saga.Wrote? && i == o.writtenAt)
  }

  /** From the saga's write on, the order is completed, or canceled and possibly refunded. */
  ghost predicate SettledByWrite(o: Order) {
    o.saga.Wrote? ==>
      && 0 < o.writtenAt < |o.history|
      && forall i | o.writtenAt <= i < |o.history| ::
           if o.saga.success then o.history[i] == Completed else o.history[i] == Canceled || o.history[i] == Refunded
  }

  /** The saga and its request fit together: the ledger executes only what was forwarded, and answers only then. */
  ghost predicate RequestInv(o: Order) {
    && (o.request.Unsent? || o.request.Refused? ==> o.execution.NotYet?)
    && (o.request.Settled? && o.request.outcome.Replied? ==> o.execution.Done?)
    && (o.saga.Calling? ==> o.request.Unsent? || o.request.InFlight?)
    && (!o.saga.Calling? && o.saga.success ==>
          o.request.Refused? || (o.request.Settled? && Is2xx(Answer(o.request.outcome))))
  }

  ghost predicate OrderInv(o: Order) {
    && o.history != [] && o.history[0] == Pending
    && (forall i | 0 <= i < |o.history| :: SagaStatus(o.history[i]))
    && EdgesOrOneWrite(o)
    && SettledByWrite(o)
    && |o.history| - 1 + Rank(Current(o)) <= (if o.saga.Wrote? then 4 else 2)
    && RequestInv(o)
  }

  lemma PutKeepsInv(o: Order, e: OrderEvent)
    requires OrderInv(o)
    ensures OrderInv(Put(o, e))
  {
    var p := Put(o, e);
    assert forall i | 0 <= i < |o.history| :: p.history[i] == o.history[i];
    assert SagaStatus(Current(o));
  }

  lemma WriteKeepsInv(o: Order, stored: bool)
    requires OrderInv(o)
    ensures OrderInv(Write(o, stored))
  {
    var p := Write(o, stored);
    assert forall i | 0 <= i < |o.history| :: p.history[i] == o.history[i];
  }

  /** The unconditional write follows the state machine exactly when no event came before it. */
  lemma WriteIsAnEdge(o: Order)
    requires OrderInv(o) && o.saga.Resolved?
    ensures CanTransitionTo(Current(o), FinalStatus(o.saga.success)) <==> |o.history| == 1
  {
    assert SagaStatus(Current(o));
    if |o.history| > 1 {
      assert CanTransitionTo(o.history[|o.history| - 2], Current(o));
    }
  }

  /** Steps of the request leave the history alone. */
  lemma RequestKeepsInv(o: Order, p: Order)
    requires OrderInv(o) && p.history == o.history && RequestInv(p)
    requires p.saga == o.saga || (o.saga.Calling? && p.saga.Resolved?)
    requires p.writtenAt == o.writtenAt
    ensures OrderInv(p)
  {}

  // ---------------------------------------------------------------------------------------
  // The whole system
  // ---------------------------------------------------------------------------------------

  /** The gateway's breaker for the ledger: three failures open it for 30 seconds, in nanoseconds. */
  const BREAKER := CircuitBreaker.Config(3, 30_000_000_000)

  /** `requests` lists the order ids in the order in which the ledger executed their transfers. */
  datatype System = System(orders: map<string, Order>, breaker: CircuitBreaker.Breaker, book: Ledger.Book,
                           requests: seq<string>)

  /**
    What can happen. A saga's request is admitted by the gateway, executed by the ledger and settled,
    each on its own and however late; the saga may give up on it at any time. `LedgerEvent` and
    `Traffic` are what others do to the ledger and to its breaker.
  */
  datatype Event =
    | PostOrder(id: string, orderType: string, transfer: Ledger.Transfer)
    | PutEvent(id: string, event: OrderEvent)
    | Admit(id: string, now: int)
    | Execute(id: string)
    | Settle(id: string, outcome: Outcome, now: int)
    | GiveUp(id: string)
    | SagaWrite(id: string, stored: bool)
    | LedgerEvent(step: Ledger.Event)
    | Traffic(call: CircuitBreaker.Call)

  /** What the POST handler checks before it inserts. */
  predicate ValidPost(e: Event)
    requires e.PostOrder?
  {
    e.id != "" && (e.orderType == "BUY" || e.orderType == "SELL") && e.transfer.amount > 0.0
  }

  function NewOrder(t: Ledger.Transfer): Order { Order([Pending], Calling, 0, t, Unsent, NotYet) }

  predicate Allowed(s: System, now: int) { CircuitBreaker.Allows(BREAKER, s.breaker, now) }

  /** The gateway forwards the request, or answers it itself. */
  function Admitted(o: Order, allowed: bool): Order {
    if allowed then o.(request := InFlight) else Receive(o.(request := Refused), 200)
  }

  predicate CanExecute(o: Order) { (o.request.InFlight? || o.request.Settled?) && o.execution.NotYet? }

  /** The ledger's own answer comes after it has executed the transfer. */
  predicate CanSettle(o: Order, outcome: Outcome) { o.request.InFlight? && (outcome.Replied? ==> o.execution.Done?) }

  function SettledOrder(o: Order, outcome: Outcome): Order {
    Receive(o.(request := Settled(outcome)), Answer(outcome))
  }

  function GivenUp(o: Order): Order { if o.saga.Calling? then o.(saga := Resolved(false)) else o }

  function Executed(s: System, o: Order): Order {
    o.(execution := Done(Ledger.Accepted(s.book.balances, o.transfer)))
  }

  /** The events that concern one order, after its POST. */
  predicate OfOrder(e: Event) { !e.LedgerEvent? && !e.Traffic? && !e.PostOrder? }

  /** The order after a step of its own. */
  function NextOrder(s: System, o: Order, e: Event): Order
    requires OfOrder(e)
  {
    match e
    case PutEvent(_, event) => Put(o, event)
    case Admit(_, now) => if o.request.Unsent? then Admitted(o, Allowed(s, now)) else o
    case Execute(_) => if CanExecute(o) then Executed(s, o) else o
    case Settle(_, outcome, _) => if CanSettle(o, outcome) then SettledOrder(o, outcome) else o
    case GiveUp(_) => GivenUp(o)
    case SagaWrite(_, stored) => Write(o, stored)
  }

  function NextOrders(s: System, e: Event): map<string, Order> {
    if e.PostOrder? && ValidPost(e) && e.id !in s.orders then s.orders[e.id := NewOrder(e.transfer)]
    else if OfOrder(e) && e.id in s.orders then s.orders[e.id := NextOrder(s, s.orders[e.id], e)]
    else s.orders
  }

  /** What an event makes the ledger do. */
  function LedgerCall(s: System, e: Event): Option<Ledger.Event> {
    match e
    case LedgerEvent(event) => Some(event)
    case Execute(id) =>
      if id in s.orders && CanExecute(s.orders[id]) then Some(Ledger.Attempt(s.orders[id].transfer)) else None
    case _ => None
  }

  /** What an event makes the gateway's breaker do. */
  function BreakerCall(s: System, e: Event): Option<CircuitBreaker.Call> {
    match e
    case Traffic(call) => Some(call)
    case Admit(id, now) =>
      if id in s.orders && s.orders[id].request.Unsent? then Some(CircuitBreaker.Allow(now)) else None
    case Settle(id, outcome, now) =>
      if id in s.orders && CanSettle(s.orders[id], outcome) then Some(Recorded(outcome, now)) else None
    case _ => None
  }

  function Step(s: System, e: Event): System {
    var ledger, breaker := LedgerCall(s, e), BreakerCall(s, e);
    System(NextOrders(s, e),
           if breaker.None? then s.breaker else CircuitBreaker.Step(BREAKER, s.breaker, breaker.value),
           if ledger.None? then s.book else Ledger.Step(Ledger.INITIAL_BALANCES, s.book, ledger.value),
           if e.Execute? && ledger.Some? then s.requests + [e.id] else s.requests)
  }

  const INIT := System(map[], CircuitBreaker.INIT, Ledger.Open(Ledger.INITIAL_BALANCES), [])

  ghost predicate Distinct(ids: seq<string>) {
    forall i, j | 0 <= i < j < |ids| :: ids[i] != ids[j]
  }

  lemma NextKeepsInv(s: System, o: Order, e: Event)
    requires OrderInv(o) && OfOrder(e)
    ensures OrderInv(NextOrder(s, o, e))
  {
    if e.PutEvent? {
      PutKeepsInv(o, e.event);
    } else if e.SagaWrite? {
      WriteKeepsInv(o, e.stored);
    } else {
      RequestKeepsInv(o, NextOrder(s, o, e));
    }
  }

  ghost predicate EachSound(orders: map<string, Order>) {
    forall id | id in orders :: OrderInv(orders[id])
  }

  /** What every step keeps: the order invariants, and one execution at most per order. */
  ghost predicate SystemInv(s: System) {
    && EachSound(s.orders)
    && ExecutedOnce(s.orders, s.requests)
  }

  lemma OrdersKeepInv(s: System, e: Event)
    requires EachSound(s.orders)
    ensures EachSound(NextOrders(s, e))
  {
    if e.PostOrder? {
      assert OrderInv(NewOrder(e.transfer));
    } else if OfOrder(e) && e.id in s.orders {
      NextKeepsInv(s, s.orders[e.id], e);
    }
  }

  /** What the ledger has executed, it has executed once. */
  ghost predicate ExecutedOnce(orders: map<string, Order>, requests: seq<string>) {
    Distinct(requests) && forall id | id in requests :: id in orders && orders[id].execution.Done?
  }

  lemma RequestsStayDistinct(s: System, e: Event)
    requires ExecutedOnce(s.orders, s.requests)
    ensures ExecutedOnce(NextOrders(s, e), Step(s, e).requests)
  {
    if OfOrder(e) && e.id in s.orders { StaysExecuted(s, s.orders[e.id], e); }
  }

  lemma StepKeepsInv(s: System, e: Event)
    requires SystemInv(s)
    ensures SystemInv(Step(s, e))
  {
    OrdersKeepInv(s, e);
    RequestsStayDistinct(s, e);
  }

  lemma StaysExecuted(s: System, o: Order, e: Event)
    requires OfOrder(e)
    ensures o.execution.Done? ==> NextOrder(s, o, e).execution == o.execution
    ensures e.Execute? && CanExecute(o) ==> o.execution.NotYet? && NextOrder(s, o, e).execution.Done?
    ensures NextOrder(s, o, e).transfer == o.transfer
  {}

  /** An order changes by the events that concern it alone. */
  lemma OrderAfter(s: System, e: Event, id: string)
    requires id in s.orders
    ensures id in Step(s, e).orders
    ensures Step(s, e).orders[id] ==
            if OfOrder(e) && e.id == id then NextOrder(s, s.orders[id], e) else s.orders[id]
  {}

  function Run(es: seq<Event>): System {
    if es == [] then INIT else Step(Run(es[..|es| - 1]), es[|es| - 1])
  }

  lemma {:induction false} RunKeepsInv(es: seq<Event>)
    ensures SystemInv(Run(es))
  {
    if es != [] {
      RunKeepsInv(es[..|es| - 1]);
      StepKeepsInv(Run(es[..|es| - 1]), es[|es| - 1]);
    }
  }

  /**
    Under every interleaving, each posted order has only been pending, completed, canceled or
    refunded; its history follows the state machine but for at most one saga write, after which it
    is settled; and it changes status at most four times.
  */
  lemma EveryOrderSettles(es: seq<Event>, id: string)
    requires id in Run(es).orders
    ensures var o := Run(es).orders[id];
            && (forall i | 0 <= i < |o.history| :: SagaStatus(o.history[i]))
            && EdgesOrOneWrite(o) && SettledByWrite(o)
            && 1 <= |o.history| <= 5
  {
    RunKeepsInv(es);
    assert OrderInv(Run(es).orders[id]);
  }

  /** However often an id is posted, the ledger executes at most one transfer for it. */
  lemma AtMostOneLedgerRequest(es: seq<Event>)
    ensures Distinct(Run(es).requests)
    ensures forall id | id in Run(es).requests :: id in Run(es).orders
  {
    RunKeepsInv(es);
  }

  // ---------------------------------------------------------------------------------------
  // The parts of a run: the ledger's and the breaker's
  // ---------------------------------------------------------------------------------------

  ghost function Listed<T>(o: Option<T>): seq<T> { if o.None? then [] else [o.value] }

  ghost function LedgerEvents(es: seq<Event>): seq<Ledger.Event> {
    if es == [] then []
    else
      var init := es[..|es| - 1];
      LedgerEvents(init) + Listed(LedgerCall(Run(init), es[|es| - 1]))
  }

  ghost function BreakerCalls(es: seq<Event>): seq<CircuitBreaker.Call> {
    if es == [] then []
    else
      var init := es[..|es| - 1];
      BreakerCalls(init) + Listed(BreakerCall(Run(init), es[|es| - 1]))
  }

  lemma {:induction false} BookOfRun(es: seq<Event>)
    ensures Run(es).book == Ledger.Run(Ledger.INITIAL_BALANCES, LedgerEvents(es))
  {
    if es != [] {
      var init := es[..|es| - 1];
      BookOfRun(init);
      var ls, call := LedgerEvents(init), LedgerCall(Run(init), es[|es| - 1]);
      if call.Some? { assert (ls + [call.value])[..|ls|] == ls; } else { assert ls + [] == ls; }
    }
  }

  /** The breaker that decides about an order is the one that all traffic together has made. */
  lemma {:induction false} BreakerOfRun(es: seq<Event>)
    ensures Run(es).breaker == CircuitBreaker.Run(BREAKER, BreakerCalls(es))
  {
    if es != [] {
      var init := es[..|es| - 1];
      BreakerOfRun(init);
      var cs, call := BreakerCalls(init), BreakerCall(Run(init), es[|es| - 1]);
      if call.Some? { assert (cs + [call.value])[..|cs|] == cs; } else { assert cs + [] == cs; }
    }
  }

  /** Whatever the orders and their sagas do, the accounts together keep 36,500.0. */
  lemma MoneyIsConserved(es: seq<Event>)
    ensures Ledger.Enumerates(Ledger.ACCOUNTS, Run(es).book.balances)
    ensures Ledger.Total(Ledger.ACCOUNTS, Run(es).book.balances) == 36500.0
  {
    BookOfRun(es);
    Ledger.TotalIsAlways36500(LedgerEvents(es));
  }

  // ---------------------------------------------------------------------------------------
  // What single events of a run do to the accounts, the breaker and the orders
  // ---------------------------------------------------------------------------------------

  lemma RunNextAt(es: seq<Event>, j: nat)
    requires j < |es|
    ensures Run(es[..j + 1]) == Step(Run(es[..j]), es[j])
  {
    RunNext(es[..j], Run(es[..j]), es[j], es[..j + 1]);
  }

  /** An order's transfer is the one it was posted with, when its id was new; its amount is positive. */
  lemma {:induction false} PostedTransfer(es: seq<Event>, id: string) returns (i: nat)
    requires id in Run(es).orders
    ensures i < |es| && es[i].PostOrder? && es[i].id == id && id !in Run(es[..i]).orders
    ensures Run(es).orders[id].transfer == es[i].transfer && es[i].transfer.amount > 0.0
  {
    var init, last := es[..|es| - 1], es[|es| - 1];
    if id in Run(init).orders {
      i := PostedTransfer(init, id);
      assert init[..i] == es[..i];
      OrderAfter(Run(init), last, id);
    } else {
      i := |init|;
    }
  }

  /**
    The ledger executes an order's transfer if it knows both accounts and the payer holds the amount:
    then the amount moves from payer to payee, no other account changes, and the log ends with the
    transfer. Otherwise nothing changes.
  */
  lemma ExecutionMovesTheMoney(es: seq<Event>, id: string, j: nat)
    requires ExecutedAt(es, id, j)
    ensures var t, k, l := Run(es[..j]).orders[id].transfer, Run(es[..j]).book, Run(es[..j + 1]).book;
            && (CoveredAt(es, id, j) <==>
                  t.from in k.balances && t.to in k.balances && k.balances[t.from] >= t.amount)
            && l.balances.Keys == k.balances.Keys
            && (CoveredAt(es, id, j) ==> l.log == k.log + [t] && l.transfers == k.transfers + 1)
            && (CoveredAt(es, id, j) && t.from != t.to ==>
                  && l.balances[t.from] == k.balances[t.from] - t.amount
                  && l.balances[t.to] == k.balances[t.to] + t.amount)
            && (CoveredAt(es, id, j) && t.from == t.to ==> l.balances == k.balances)
            && (forall a | a in k.balances && a != t.from && a != t.to :: l.balances[a] == k.balances[a])
            && (!CoveredAt(es, id, j) ==> l == k)
  {
    var s := Run(es[..j]);
    RunNextAt(es, j);
    if CoveredAt(es, id, j) { Ledger.TransferMovesTheAmount(s.book.balances, s.orders[id].transfer); }
  }

  /** No other event of an order touches the accounts; what others ask of the ledger, it does. */
  lemma OtherEventsLeaveTheBook(es: seq<Event>, j: nat)
    requires j < |es|
    ensures es[j].LedgerEvent? ==>
              Run(es[..j + 1]).book == Ledger.Step(Ledger.INITIAL_BALANCES, Run(es[..j]).book, es[j].step)
    ensures !es[j].LedgerEvent? && !(es[j].Execute? && ExecutedAt(es, es[j].id, j) && CoveredAt(es, es[j].id, j)) ==>
              Run(es[..j + 1]).book == Run(es[..j]).book
  {
    RunNextAt(es, j);
  }

  /**
    What a settled request tells the breaker: an answer below 500 closes it and resets its count; one
    from 500 on, like no answer at all, counts one failure more, and opens it at the third.
  */
  lemma SettlingIsRecorded(es: seq<Event>, id: string, outcome: Outcome, now: int)
    requires id in Run(es).orders && CanSettle(Run(es).orders[id], outcome)
    ensures var b, c := Run(es).breaker, Run(es + [Settle(id, outcome, now)]).breaker;
            if outcome.Replied? && outcome.code < 500 then
              c.failures == 0 && c.state == CircuitBreaker.Closed && c.lastFailure == b.lastFailure
            else
              && c.failures == CircuitBreaker.Wrap32(b.failures + 1) && c.lastFailure == now
              && c.state == if c.failures >= 3 then CircuitBreaker.Open else b.state
  {
    RunSnoc(es, Settle(id, outcome, now));
    BreakerAfterSettling(Run(es), id, outcome, now);
  }

  lemma BreakerAfterSettling(s: System, id: string, outcome: Outcome, now: int)
    requires id in s.orders && CanSettle(s.orders[id], outcome)
    ensures Step(s, Settle(id, outcome, now)).breaker ==
            if outcome.Replied? && outcome.code < 500 then s.breaker.(failures := 0, state := CircuitBreaker.Closed)
            else
              var count := CircuitBreaker.Wrap32(s.breaker.failures + 1);
              CircuitBreaker.Breaker(if count >= 3 then CircuitBreaker.Open else s.breaker.state, count, now)
  {}

  /**
    What the gateway does with a request: it turns it away if its breaker is open and the last failure
    at most 30 seconds old, and forwards it otherwise; an open breaker is then half-open.
  */
  lemma AdmissionProbes(es: seq<Event>, id: string, now: int)
    requires id in Run(es).orders && Run(es).orders[id].request.Unsent?
    ensures var b, t := Run(es).breaker, Run(es + [Admit(id, now)]);
            var refused := b.state == CircuitBreaker.Open && now - b.lastFailure <= 30_000_000_000;
            && id in t.orders && t.orders[id].request == (if refused then Refused else InFlight)
            && t.breaker == if b.state == CircuitBreaker.Open && !refused then b.(state := CircuitBreaker.HalfOpen)
                            else b
  {
    RunSnoc(es, Admit(id, now));
  }

  /** Nothing else but other traffic reaches the breaker. */
  lemma OtherEventsLeaveTheBreaker(es: seq<Event>, e: Event)
    requires !e.Traffic?
    requires e.Admit? ==> e.id !in Run(es).orders || !Run(es).orders[e.id].request.Unsent?
    requires e.Settle? ==> e.id !in Run(es).orders || !CanSettle(Run(es).orders[e.id], e.outcome)
    ensures Run(es + [e]).breaker == Run(es).breaker
  {
    RunSnoc(es, e);
  }

  /** The events a posted order accepts: while pending it completes or cancels, once canceled it can be refunded. */
  lemma EventsOfAPostedOrder(es: seq<Event>, id: string, e: OrderEvent)
    requires id in Run(es).orders
    ensures id in Run(es + [PutEvent(id, e)]).orders
    ensures var o, p := Run(es).orders[id], Run(es + [PutEvent(id, e)]).orders[id];
            && o.history != []
            && p == o.(history := o.history + match (Current(o), e)
                                              case (Pending, Complete) => [Completed]
                                              case (Pending, Cancel) => [Canceled]
                                              case (Canceled, Refund) => [Refunded]
                                              case _ => [])
  {
    RunSnoc(es, PutEvent(id, e));
    RunKeepsInv(es);
    var o := Run(es).orders[id];
    assert OrderInv(o) && SagaStatus(Current(o));
    assert o.history + [] == o.history;
  }

  // ---------------------------------------------------------------------------------------
  // Verdict and payment, in terms of the events of the run
  // ---------------------------------------------------------------------------------------

  /** Event k ends the wait of id's saga. */
  ghost predicate DecidedAt(es: seq<Event>, id: string, k: nat) {
    && k < |es| && OfOrder(es[k]) && es[k].id == id
    && id in Run(es[..k]).orders && Run(es[..k]).orders[id].saga.Calling?
  }

  /** Event k is the gateway turning id's request away, while the saga still waits. */
  ghost predicate RefusedAt(es: seq<Event>, id: string, k: nat) {
    DecidedAt(es, id, k) && es[k].Admit? && Run(es[..k]).orders[id].request.Unsent? && !Allowed(Run(es[..k]), es[k].now)
  }

  /** Event k settles id's request, while the saga still waits. */
  ghost predicate AnsweredAt(es: seq<Event>, id: string, k: nat) {
    DecidedAt(es, id, k) && es[k].Settle? && CanSettle(Run(es[..k]).orders[id], es[k].outcome)
  }

  ghost predicate GaveUpAt(es: seq<Event>, id: string, k: nat) {
    DecidedAt(es, id, k) && es[k].GiveUp?
  }

  /** Event j is the ledger executing id's transfer. */
  ghost predicate ExecutedAt(es: seq<Event>, id: string, j: nat) {
    j < |es| && es[j] == Execute(id) && id in Run(es[..j]).orders && CanExecute(Run(es[..j]).orders[id])
  }

  /** The ledger finds both accounts, and enough in the first. */
  ghost predicate CoveredAt(es: seq<Event>, id: string, j: nat)
    requires ExecutedAt(es, id, j)
  {
    Ledger.Accepted(Run(es[..j]).book.balances, Run(es[..j]).orders[id].transfer)
  }

  /** The order's money has moved. */
  ghost predicate MoneyMoved(es: seq<Event>, id: string) {
    exists j :: ExecutedAt(es, id, j) && CoveredAt(es, id, j)
  }

  ghost predicate Decided(es: seq<Event>, id: string) {
    id in Run(es).orders && !Run(es).orders[id].saga.Calling?
  }

  /** How a single step ends the wait. */
  lemma Decides(s: System, o: Order, e: Event)
    requires o.saga.Calling? && OfOrder(e)
    ensures var p := NextOrder(s, o, e);
            p.saga.Calling? ||
            match e
            case Admit(_, now) => o.request.Unsent? && !Allowed(s, now) && p.saga == Resolved(true)
            case Settle(_, outcome, _) => CanSettle(o, outcome) && p.saga == Resolved(Is2xx(Answer(outcome)))
            case GiveUp(_) => p.saga == Resolved(false)
            case _ => false
  {}

  /** Once reached, a verdict stands. */
  lemma VerdictStands(s: System, o: Order, e: Event)
    requires !o.saga.Calling? && OfOrder(e)
    ensures !NextOrder(s, o, e).saga.Calling? && NextOrder(s, o, e).saga.success == o.saga.success
  {}

  /**
    Each verdict is reached in one step k: the gateway refuses the request and the saga succeeds, or
    the request settles and it succeeds exactly on a 2xx answer, or it gives up and fails.
  */
  ghost predicate VerdictOf(es: seq<Event>, id: string, k: nat, success: bool) {
    || (RefusedAt(es, id, k) && success)
    || (AnsweredAt(es, id, k) && success == Is2xx(Answer(es[k].outcome)))
    || (GaveUpAt(es, id, k) && !success)
  }

  /**
    The verdict in plain terms: a request that is turned away, or answered for a ledger that could not
    be reached, makes the saga succeed; a reply does if its status is 200 to 299; giving up never does.
  */
  lemma VerdictOfEach(es: seq<Event>, id: string, k: nat)
    requires RefusedAt(es, id, k) || AnsweredAt(es, id, k) || GaveUpAt(es, id, k)
    ensures id in Run(es[..k + 1]).orders
    ensures RefusedAt(es, id, k) ==> Run(es[..k + 1]).orders[id].saga == Resolved(true)
    ensures AnsweredAt(es, id, k) && es[k].outcome.Unreachable? ==> Run(es[..k + 1]).orders[id].saga == Resolved(true)
    ensures AnsweredAt(es, id, k) && es[k].outcome.Replied? ==>
              Run(es[..k + 1]).orders[id].saga == Resolved(200 <= es[k].outcome.code < 300)
    ensures GaveUpAt(es, id, k) ==> Run(es[..k + 1]).orders[id].saga == Resolved(false)
  {
    RunNextAt(es, k);
  }

  lemma VerdictPrefix(es: seq<Event>, n: nat, id: string, k: nat, success: bool)
    requires n <= |es| && VerdictOf(es[..n], id, k, success)
    ensures VerdictOf(es, id, k, success)
  {
    assert es[..n][..k] == es[..k];
  }

  lemma {:induction false} VerdictComesFromTheCall(es: seq<Event>, id: string) returns (k: nat)
    requires Decided(es, id)
    ensures VerdictOf(es, id, k, Run(es).orders[id].saga.success)
  {
    var init, last := es[..|es| - 1], es[|es| - 1];
    var s := Run(init);
    if id in s.orders && OfOrder(last) && last.id == id && s.orders[id].saga.Calling? {
      Decides(s, s.orders[id], last);
      k := |init|;
    } else {
      if OfOrder(last) && last.id == id { VerdictStands(s, s.orders[id], last); }
      k := VerdictComesFromTheCall(init, id);
      VerdictPrefix(es, |init|, id, k, Run(es).orders[id].saga.success);
    }
  }

  lemma {:induction false} ExecutedMeansDone(es: seq<Event>, id: string, j: nat)
    requires ExecutedAt(es, id, j)
    ensures id in Run(es).orders && Run(es).orders[id].execution == Done(CoveredAt(es, id, j))
  {
    var init, last := es[..|es| - 1], es[|es| - 1];
    if j < |init| {
      assert init[..j] == es[..j];
      ExecutedMeansDone(init, id, j);
      OrderAfter(Run(init), last, id);
      if OfOrder(last) { StaysExecuted(Run(init), Run(init).orders[id], last); }
    }
  }

  lemma {:induction false} DoneMeansExecuted(es: seq<Event>, id: string) returns (j: nat)
    requires id in Run(es).orders && Run(es).orders[id].execution.Done?
    ensures ExecutedAt(es, id, j)
  {
    var init, last := es[..|es| - 1], es[|es| - 1];
    if id in Run(init).orders && Run(init).orders[id].execution.Done? {
      j := DoneMeansExecuted(init, id);
      assert init[..j] == es[..j];
    } else {
      j := |init|;
    }
  }

  /** The order knows whether its money has moved. */
  lemma MoneyMovedIff(es: seq<Event>, id: string)
    requires id in Run(es).orders
    ensures MoneyMoved(es, id) <==> Run(es).orders[id].execution == Done(true)
  {
    if MoneyMoved(es, id) {
      var j :| ExecutedAt(es, id, j) && CoveredAt(es, id, j);
      ExecutedMeansDone(es, id, j);
    } else if Run(es).orders[id].execution.Done? {
      var j := DoneMeansExecuted(es, id);
      ExecutedMeansDone(es, id, j);
    }
  }

  /** A refused request never reaches the ledger. */
  lemma {:induction false} RefusedStays(es: seq<Event>, id: string, k: nat)
    requires RefusedAt(es, id, k)
    ensures id in Run(es).orders && Run(es).orders[id].request.Refused?
  {
    var init := es[..|es| - 1];
    if k < |init| {
      assert init[..k] == es[..k];
      RefusedStays(init, id, k);
      OrderAfter(Run(init), es[|es| - 1], id);
    }
  }

  lemma RefusedIsUnpaid(es: seq<Event>, id: string, k: nat)
    requires RefusedAt(es, id, k)
    ensures !MoneyMoved(es, id)
  {
    RefusedStays(es, id, k);
    RunKeepsInv(es);
    assert OrderInv(Run(es).orders[id]);
    MoneyMovedIff(es, id);
  }

  // What is decided about the payment, and what is still open

  /** The ledger may still execute the order's transfer. */
  predicate PaymentOpen(o: Order) { o.execution.NotYet? && !o.request.Refused? }

  predicate KnownAccounts(t: Ledger.Transfer) {
    t.from in Ledger.INITIAL_BALANCES && t.to in Ledger.INITIAL_BALANCES
  }

  lemma StaysClosed(s: System, e: Event, id: string)
    requires id in s.orders && !PaymentOpen(s.orders[id])
    ensures id in Step(s, e).orders && !PaymentOpen(Step(s, e).orders[id])
    ensures Step(s, e).orders[id].execution == s.orders[id].execution
  {
    OrderAfter(s, e, id);
  }

  /** A longer continuation ends with its last step. */
  lemma RunExtends(es: seq<Event>, fs: seq<Event>)
    ensures fs == [] ==> es + fs == es
    ensures fs != [] ==> Run(es + fs) == Step(Run(es + fs[..|fs| - 1]), fs[|fs| - 1])
  {
    if fs == [] {
      assert es + fs == es;
    } else {
      AppendLast(es, fs);
      RunSnoc(es + fs[..|fs| - 1], fs[|fs| - 1]);
    }
  }

  /** Once closed, the payment stays as it is in every continuation. */
  lemma {:induction false} PaymentIsFinal(es: seq<Event>, fs: seq<Event>, id: string)
    requires id in Run(es).orders && !PaymentOpen(Run(es).orders[id])
    ensures id in Run(es + fs).orders && !PaymentOpen(Run(es + fs).orders[id])
    ensures Run(es + fs).orders[id].execution == Run(es).orders[id].execution
    ensures MoneyMoved(es + fs, id) <==> MoneyMoved(es, id)
  {
    RunExtends(es, fs);
    if fs != [] {
      PaymentIsFinal(es, fs[..|fs| - 1], id);
      StaysClosed(Run(es + fs[..|fs| - 1]), fs[|fs| - 1], id);
    }
    MoneyMovedIff(es, id);
    MoneyMovedIff(es + fs, id);
  }

  /** An order's transfer never changes, and the ledger turns it down if it does not know an account. */
  lemma {:induction false} UnknownIsNeverPaid(es: seq<Event>, fs: seq<Event>, id: string)
    requires id in Run(es).orders && !KnownAccounts(Run(es).orders[id].transfer)
    ensures id in Run(es + fs).orders && Run(es + fs).orders[id].transfer == Run(es).orders[id].transfer
    ensures Run(es).orders[id].execution != Done(true) ==> Run(es + fs).orders[id].execution != Done(true)
  {
    RunExtends(es, fs);
    if fs != [] {
      var init := es + fs[..|fs| - 1];
      UnknownIsNeverPaid(es, fs[..|fs| - 1], id);
      KnownToTheLedger(init);
      StaysUnpaid(Run(init), fs[|fs| - 1], id);
    }
  }

  lemma StaysUnpaid(s: System, e: Event, id: string)
    requires s.book.balances.Keys == Ledger.INITIAL_BALANCES.Keys
    requires id in s.orders && !KnownAccounts(s.orders[id].transfer)
    ensures id in Step(s, e).orders && Step(s, e).orders[id].transfer == s.orders[id].transfer
    ensures s.orders[id].execution != Done(true) ==> Step(s, e).orders[id].execution != Done(true)
  {
    OrderAfter(s, e, id);
    if OfOrder(e) { StaysExecuted(s, s.orders[id], e); }
  }

  lemma KnownToTheLedger(es: seq<Event>)
    ensures Run(es).book.balances.Keys == Ledger.INITIAL_BALANCES.Keys
  {
    MoneyIsConserved(es);
    Ledger.InitialAccounts();
  }

  /** An open payment has not happened; if the request was forwarded, it happens next if the ledger covers it. */
  lemma PaysNextIff(es: seq<Event>, id: string)
    requires id in Run(es).orders && PaymentOpen(Run(es).orders[id])
    ensures !MoneyMoved(es, id)
    ensures var o := Run(es).orders[id];
            MoneyMoved(es + [Execute(id)], id) <==>
            !o.request.Unsent? && Ledger.Accepted(Run(es).book.balances, o.transfer)
  {
    RunSnoc(es, Execute(id));
    MoneyMovedIff(es, id);
    MoneyMovedIff(es + [Execute(id)], id);
  }

  /** Enough on the paying account, after a reset and a transfer of others. */
  lemma CanBeFunded(t: Ledger.Transfer, k: Ledger.Book) returns (fund: Ledger.Event)
    requires KnownAccounts(t)
    ensures var l := Ledger.Step(Ledger.INITIAL_BALANCES, k, Ledger.Reset);
            Ledger.Accepted(Ledger.Step(Ledger.INITIAL_BALANCES, l, fund).balances, t)
  {
    var b := Ledger.INITIAL_BALANCES;
    Ledger.InitialAccounts();
    var other := if t.from == Ledger.ACCOUNTS[0] then Ledger.ACCOUNTS[1] else Ledger.ACCOUNTS[0];
    var missing := if t.amount > b[t.from] then t.amount - b[t.from] else 0.0;
    fund := Ledger.Attempt(Ledger.Transfer(t.from, other, -missing));
    assert Ledger.Accepted(b, fund.transfer);
    Ledger.TransferMovesTheAmount(b, fund.transfer);
  }

  /** Late enough, the breaker lets the request through. */
  lemma CanBeForwarded(s: System, id: string) returns (e: Event)
    requires id in s.orders && PaymentOpen(s.orders[id])
    ensures OfOrder(e) && e.id == id && id in Step(s, e).orders && CanExecute(Step(s, e).orders[id])
    ensures Step(s, e).orders[id].transfer == s.orders[id].transfer
  {
    e := Admit(id, s.breaker.lastFailure + BREAKER.resetAfter + 1);
    assert Allowed(s, e.now);
  }

  /** An open payment between known accounts can still happen. */
  lemma CanStillBePaid(es: seq<Event>, id: string) returns (fs: seq<Event>)
    requires id in Run(es).orders && PaymentOpen(Run(es).orders[id])
    requires KnownAccounts(Run(es).orders[id].transfer)
    ensures MoneyMoved(es + fs, id)
  {
    var s0 := Run(es);
    var admit := CanBeForwarded(s0, id);
    var s1 := Step(s0, admit);
    var fund := CanBeFunded(s0.orders[id].transfer, s1.book);
    var reset, funded := LedgerEvent(Ledger.Reset), LedgerEvent(fund);
    fs := [admit, reset, funded, Execute(id)];
    RunSnoc(es, admit);
    RunSnoc(es + [admit], reset);
    RunSnoc(es + [admit] + [reset], funded);
    RunSnoc(es + [admit] + [reset] + [funded], Execute(id));
    assert es + [admit] + [reset] + [funded] + [Execute(id)] == es + fs;
    PaidByExecution(Step(Step(s1, reset), funded), id);
    MoneyMovedIff(es + fs, id);
  }

  lemma PaidByExecution(s: System, id: string)
    requires id in s.orders && CanExecute(s.orders[id]) && Ledger.Accepted(s.book.balances, s.orders[id].transfer)
    ensures id in Step(s, Execute(id)).orders && Step(s, Execute(id)).orders[id].execution == Done(true)
  {}

  /** Whether an order is paid is decided, whatever happens next, if and only if it is closed or names no account. */
  lemma PaymentDecidedIff(es: seq<Event>, id: string)
    requires id in Run(es).orders
    ensures (forall fs :: MoneyMoved(es + fs, id) <==> MoneyMoved(es, id)) <==>
              !PaymentOpen(Run(es).orders[id]) || !KnownAccounts(Run(es).orders[id].transfer)
  {
    var o := Run(es).orders[id];
    if !PaymentOpen(o) {
      forall fs ensures MoneyMoved(es + fs, id) <==> MoneyMoved(es, id) { PaymentIsFinal(es, fs, id); }
    } else if !KnownAccounts(o.transfer) {
      forall fs ensures MoneyMoved(es + fs, id) <==> MoneyMoved(es, id) {
        UnknownIsNeverPaid(es, fs, id);
        MoneyMovedIff(es, id);
        MoneyMovedIff(es + fs, id);
      }
    } else {
      var fs := CanStillBePaid(es, id);
      PaysNextIff(es, id);
    }
  }

  /** Before event k the ledger executed the transfer, and did or did not cover it. */
  ghost predicate ExecutedBefore(es: seq<Event>, id: string, k: nat, covered: bool) {
    exists j: nat :: j < k && ExecutedAt(es, id, j) && CoveredAt(es, id, j) == covered
  }

  /** After event k the ledger may still pay: it has not executed the transfer, nor was the request refused. */
  ghost predicate OpenAfter(es: seq<Event>, id: string, k: nat) {
    !RefusedAt(es, id, k) && forall j: nat | j < k :: !ExecutedAt(es, id, j)
  }

  /** The first execution decides. */
  lemma ExecutionDecides(es: seq<Event>, id: string, k: nat, j: nat)
    requires j < k && ExecutedAt(es, id, j)
    ensures MoneyMoved(es, id) <==> CoveredAt(es, id, j)
    ensures forall covered :: ExecutedBefore(es, id, k, covered) <==> CoveredAt(es, id, j) == covered
  {
    ExecutedMeansDone(es, id, j);
    MoneyMovedIff(es, id);
    forall i: nat | ExecutedAt(es, id, i) ensures CoveredAt(es, id, i) == CoveredAt(es, id, j) {
      ExecutedMeansDone(es, id, i);
    }
  }

  /** A saga that still waits has a request that was not refused; giving up or settling does not refuse it. */
  lemma OpenAfterVerdict(s: System, e: Event, id: string)
    requires id in s.orders && OrderInv(s.orders[id]) && s.orders[id].saga.Calling?
    requires s.orders[id].execution.NotYet? && OfOrder(e) && e.id == id
    requires e.GiveUp? || (e.Settle? && CanSettle(s.orders[id], e.outcome))
    ensures e.GiveUp? || e.outcome.Unreachable?
    ensures id in Step(s, e).orders && PaymentOpen(Step(s, e).orders[id])
  {
    OrderAfter(s, e, id);
  }

  lemma DoneMeansExecutedBefore(es: seq<Event>, id: string, k: nat)
    requires k <= |es| && id in Run(es[..k]).orders && Run(es[..k]).orders[id].execution.Done?
    ensures exists j: nat :: j < k && ExecutedAt(es, id, j)
  {
    var j := DoneMeansExecuted(es[..k], id);
    assert es[..k][..j] == es[..j];
    assert ExecutedAt(es, id, j);
  }

  lemma StillOpen(es: seq<Event>, id: string, k: nat)
    requires OpenAfter(es, id, k) && (AnsweredAt(es, id, k) || GaveUpAt(es, id, k))
    ensures GaveUpAt(es, id, k) || es[k].outcome.Unreachable?
    ensures id in Run(es[..k + 1]).orders && PaymentOpen(Run(es[..k + 1]).orders[id]) && !MoneyMoved(es[..k + 1], id)
  {
    var before := es[..k];
    assert es[..k + 1] == before + [es[k]];
    RunSnoc(before, es[k]);
    RunKeepsInv(before);
    if Run(before).orders[id].execution.Done? { DoneMeansExecutedBefore(es, id, k); }
    OpenAfterVerdict(Run(before), es[k], id);
    PaysNextIff(es[..k + 1], id);
  }

  /**
    When verdict and payment part, in every run. With k the step that decides the verdict, the saga
    succeeds exactly if the breaker refused the request or the gateway answered 2xx. If the payment
    is closed after step k, they part exactly when the request was refused, when a 2xx answered a
    transfer that the ledger had turned down, or when the saga failed on one that it had covered. The
    payment is open after step k only if the saga gave up or the gateway answered for a ledger it could
    not reach; then nothing is paid yet, and VerdictCannotTell applies.
  */
  lemma VerdictAgreesWithLedger(es: seq<Event>, id: string) returns (k: nat)
    requires Decided(es, id)
    ensures DecidedAt(es, id, k)
    ensures Run(es).orders[id].saga.success <==>
              RefusedAt(es, id, k) || (AnsweredAt(es, id, k) && Is2xx(Answer(es[k].outcome)))
    ensures !OpenAfter(es, id, k) ==>
              (Run(es).orders[id].saga.success && !MoneyMoved(es, id) <==>
               || RefusedAt(es, id, k)
               || (AnsweredAt(es, id, k) && Is2xx(Answer(es[k].outcome)) && ExecutedBefore(es, id, k, false)))
    ensures !OpenAfter(es, id, k) ==>
              (!Run(es).orders[id].saga.success && MoneyMoved(es, id) <==>
               && (GaveUpAt(es, id, k) || (AnsweredAt(es, id, k) && !Is2xx(Answer(es[k].outcome))))
               && ExecutedBefore(es, id, k, true))
    ensures OpenAfter(es, id, k) ==>
              && (GaveUpAt(es, id, k) || (AnsweredAt(es, id, k) && es[k].outcome.Unreachable?))
              && id in Run(es[..k + 1]).orders && PaymentOpen(Run(es[..k + 1]).orders[id])
              && !MoneyMoved(es[..k + 1], id)
  {
    k := VerdictComesFromTheCall(es, id);
    if RefusedAt(es, id, k) {
      RefusedIsUnpaid(es, id, k);
    } else if OpenAfter(es, id, k) {
      StillOpen(es, id, k);
    } else {
      var j: nat :| j < k && ExecutedAt(es, id, j);
      ExecutionDecides(es, id, k, j);
    }
  }

  lemma {:induction false} VerdictIsFinal(es: seq<Event>, fs: seq<Event>, id: string)
    requires Decided(es, id)
    ensures Decided(es + fs, id) && Run(es + fs).orders[id].saga.success == Run(es).orders[id].saga.success
  {
    RunExtends(es, fs);
    if fs != [] {
      var s, last := Run(es + fs[..|fs| - 1]), fs[|fs| - 1];
      VerdictIsFinal(es, fs[..|fs| - 1], id);
      OrderAfter(s, last, id);
      if OfOrder(last) { VerdictStands(s, s.orders[id], last); }
    }
  }

  /**
    While the payment is open no verdict can be right: it is final, the order is not paid now, and
    (between known accounts) there is a continuation in which it is.
  */
  lemma VerdictCannotTell(es: seq<Event>, id: string) returns (fs: seq<Event>)
    requires Decided(es, id) && PaymentOpen(Run(es).orders[id]) && KnownAccounts(Run(es).orders[id].transfer)
    ensures !MoneyMoved(es, id) && MoneyMoved(es + fs, id)
    ensures Decided(es + fs, id) && Run(es + fs).orders[id].saga.success == Run(es).orders[id].saga.success
  {
    PaysNextIff(es, id);
    fs := CanStillBePaid(es, id);
    VerdictIsFinal(es, fs, id);
  }

  /**
    And when the breaker refuses an order's request: some failure among all calls before it opened
    the breaker, nothing has closed or probed it since, and the 30 seconds have not passed.
  */
  lemma RefusalExplained(es: seq<Event>, id: string, k: nat)
    ensures RefusedAt(es, id, k) <==>
              && DecidedAt(es, id, k) && es[k].Admit? && Run(es[..k]).orders[id].request.Unsent?
              && (exists i :: CircuitBreaker.OpenedForGood(CircuitBreaker.Config(3, 30_000_000_000),
                                                           BreakerCalls(es[..k]), i))
              && es[k].now - CircuitBreaker.LastFailure(BreakerCalls(es[..k])) <= 30_000_000_000
  {
    if DecidedAt(es, id, k) && es[k].Admit? {
      BreakerOfRun(es[..k]);
      CircuitBreaker.RefusalCharacterised(BREAKER, BreakerCalls(es[..k]), es[k].now);
    }
  }

  // ---------------------------------------------------------------------------------------
  // Runs in which they part
  // ---------------------------------------------------------------------------------------

  lemma RunNext(es: seq<Event>, s: System, e: Event, es': seq<Event>)
    requires Run(es) == s && es' == es + [e]
    ensures Run(es') == Step(s, e)
  {
    assert es'[..|es|] == es;
  }

  const SAMPLE_TRANSFER := Ledger.Transfer("ACC-001", "ACC-002", 100.0)

  const POSTED := PostOrder("o", "BUY", SAMPLE_TRANSFER)

  /** Three failures of others have opened the breaker. */
  const OUTAGE := [Traffic(CircuitBreaker.RecordFailure(0)), Traffic(CircuitBreaker.RecordFailure(0)),
                   Traffic(CircuitBreaker.RecordFailure(0))]

  lemma OutageOpens()
    ensures Run(OUTAGE) == INIT.(breaker := CircuitBreaker.Breaker(CircuitBreaker.Open, 3, 0))
  {
    var e := OUTAGE[0];
    var s1 := FailureCounted(INIT, 0);
    var s2 := FailureCounted(s1, 1);
    var s3 := FailureCounted(s2, 2);
    RunNext([], INIT, e, OUTAGE[..1]);
    RunNext(OUTAGE[..1], s1, e, OUTAGE[..2]);
    RunNext(OUTAGE[..2], s2, e, OUTAGE);
  }

  lemma FailureCounted(s: System, n: nat) returns (t: System)
    requires n <= 2 && s.breaker == CircuitBreaker.Breaker(CircuitBreaker.Closed, n, 0)
    ensures t == Step(s, Traffic(CircuitBreaker.RecordFailure(0)))
    ensures var state := if n == 2 then CircuitBreaker.Open else CircuitBreaker.Closed;
            t == s.(breaker := CircuitBreaker.Breaker(state, n + 1, 0))
  {
    t := Step(s, Traffic(CircuitBreaker.RecordFailure(0)));
  }

  /** An open breaker completes an order although no money has moved. */
  lemma CompletedWithoutTransfer() returns (es: seq<Event>, id: string)
    ensures id in Run(es).orders && Run(es).orders[id].history == [Pending, Completed] && Run(es).book == INIT.book
  {
    OutageOpens();
    var s := Run(OUTAGE);
    var admit, write := Admit("o", 1), SagaWrite("o", true);
    es, id := OUTAGE + [POSTED] + [admit] + [write], "o";
    var s1 := Step(s, POSTED);
    var s2 := Step(s1, admit);
    RunNext(OUTAGE, s, POSTED, OUTAGE + [POSTED]);
    RunNext(OUTAGE + [POSTED], s1, admit, OUTAGE + [POSTED] + [admit]);
    RunNext(OUTAGE + [POSTED] + [admit], s2, write, es);
    assert s1.orders["o"] == NewOrder(SAMPLE_TRANSFER) && !Allowed(s1, 1);
    assert s2.orders["o"] == NewOrder(SAMPLE_TRANSFER).(saga := Resolved(true), request := Refused);
  }

  /** An order is posted, forwarded and paid. */
  lemma PaidOrder() returns (es: seq<Event>)
    ensures es == [POSTED, Admit("o", 1), Execute("o")]
    ensures Run(es).book.balances ==
            map["ACC-001" := 9900.0, "ACC-002" := 8600.0, "ACC-003" := 12000.0, "ACC-004" := 6000.0]
  {
    es := [POSTED, Admit("o", 1), Execute("o")];
    var s1 := Step(INIT, POSTED);
    var s2 := Step(s1, es[1]);
    RunNext([], INIT, POSTED, es[..1]);
    RunNext(es[..1], s1, es[1], es[..2]);
    RunNext(es[..2], s2, es[2], es);
    assert s1.orders["o"] == NewOrder(SAMPLE_TRANSFER) && Allowed(s1, 1);
    assert s2.orders["o"] == NewOrder(SAMPLE_TRANSFER).(request := InFlight);
    SampleMoves();
  }

  lemma SampleMoves()
    ensures Ledger.Accepted(Ledger.INITIAL_BALANCES, SAMPLE_TRANSFER)
    ensures Ledger.Moved(Ledger.INITIAL_BALANCES, SAMPLE_TRANSFER) ==
            map["ACC-001" := 9900.0, "ACC-002" := 8600.0, "ACC-003" := 12000.0, "ACC-004" := 6000.0]
  {
    Ledger.InitialAccounts();
  }

  /** An order is canceled, and afterwards its money moves. */
  lemma CanceledAfterTransfer() returns (es: seq<Event>, id: string)
    ensures id in Run(es).orders && Run(es).orders[id].history == [Pending, Canceled] && |Run(es).book.log| == 1
  {
    var fs := CanceledUnpaid();
    es, id := fs + [Execute("o")], "o";
    RunSnoc(fs, Execute("o"));
    PaysLate(Run(fs), Run(es));
  }

  lemma CanceledUnpaid() returns (es: seq<Event>)
    ensures "o" in Run(es).orders && Run(es).book == INIT.book
    ensures Run(es).orders["o"] == Order([Pending, Canceled], Wrote(false), 1, SAMPLE_TRANSFER, InFlight, NotYet)
  {
    var e1 := [POSTED];
    var e2 := e1 + [Admit("o", 1)];
    var e3 := e2 + [GiveUp("o")];
    es := e3 + [SagaWrite("o", true)];
    RunNext([], INIT, POSTED, e1);
    RunSnoc(e1, Admit("o", 1));
    RunSnoc(e2, GiveUp("o"));
    RunSnoc(e3, SagaWrite("o", true));
    CanceledFirst(Run(e1), Run(e2), Run(e3), Run(es));
  }

  lemma PaysLate(s: System, t: System)
    requires "o" in s.orders && s.book == INIT.book && t == Step(s, Execute("o"))
    requires s.orders["o"] == Order([Pending, Canceled], Wrote(false), 1, SAMPLE_TRANSFER, InFlight, NotYet)
    ensures "o" in t.orders && t.orders["o"].history == [Pending, Canceled] && |t.book.log| == 1
  {
    assert Ledger.Accepted(Ledger.INITIAL_BALANCES, SAMPLE_TRANSFER);
  }

  lemma CanceledFirst(s1: System, s2: System, s3: System, s4: System)
    requires s1 == Step(INIT, POSTED) && s2 == Step(s1, Admit("o", 1))
    requires s3 == Step(s2, GiveUp("o")) && s4 == Step(s3, SagaWrite("o", true))
    ensures "o" in s4.orders && s4.book == INIT.book
    ensures s4.orders["o"] == Order([Pending, Canceled], Wrote(false), 1, SAMPLE_TRANSFER, InFlight, NotYet)
  {
    assert s1.orders["o"] == NewOrder(SAMPLE_TRANSFER) && Allowed(s1, 1);
    assert s2.orders["o"] == NewOrder(SAMPLE_TRANSFER).(request := InFlight);
    assert s3.orders["o"] == NewOrder(SAMPLE_TRANSFER).(request := InFlight, saga := Resolved(false));
  }

  const EARLY_REFUND := [POSTED, PutEvent("o", Cancel), PutEvent("o", Refund)]

  lemma RefundedBeforeTheSaga()
    ensures "o" in Run(EARLY_REFUND).orders
    ensures Run(EARLY_REFUND).orders["o"] == NewOrder(SAMPLE_TRANSFER).(history := [Pending, Canceled, Refunded])
  {
    var s1 := Step(INIT, EARLY_REFUND[0]);
    var s2 := Step(s1, EARLY_REFUND[1]);
    RunNext([], INIT, EARLY_REFUND[0], EARLY_REFUND[..1]);
    RunNext(EARLY_REFUND[..1], s1, EARLY_REFUND[1], EARLY_REFUND[..2]);
    RunNext(EARLY_REFUND[..2], s2, EARLY_REFUND[2], EARLY_REFUND);
    assert s1.orders["o"] == NewOrder(SAMPLE_TRANSFER);
    assert s2.orders["o"] == NewOrder(SAMPLE_TRANSFER).(history := [Pending, Canceled]);
  }

  /** The late write cancels a refunded order again. */
  lemma RevivedByTheWrite(s: System)
    requires "o" in s.orders
    requires s.orders["o"] == NewOrder(SAMPLE_TRANSFER).(history := [Pending, Canceled, Refunded])
    ensures var t := Step(Step(Step(s, GiveUp("o")), SagaWrite("o", true)), PutEvent("o", Refund));
            "o" in t.orders && t.orders["o"].history == [Pending, Canceled, Refunded, Canceled, Refunded]
  {
    var s1 := Step(s, GiveUp("o"));
    assert s1.orders["o"] == s.orders["o"].(saga := Resolved(false));
    var s2 := Step(s1, SagaWrite("o", true));
    assert s2.orders["o"].history == [Pending, Canceled, Refunded, Canceled];
  }

  /** The bound of four status changes is reached: a late saga write revives a refunded order. */
  lemma FourChangesHappen() returns (es: seq<Event>, id: string)
    ensures id in Run(es).orders && Run(es).orders[id].history == [Pending, Canceled, Refunded, Canceled, Refunded]
  {
    RefundedBeforeTheSaga();
    var s := Run(EARLY_REFUND);
    var giveUp, write, refund := GiveUp("o"), SagaWrite("o", true), PutEvent("o", Refund);
    es, id := EARLY_REFUND + [giveUp] + [write] + [refund], "o";
    RunNext(EARLY_REFUND, s, giveUp, EARLY_REFUND + [giveUp]);
    RunNext(EARLY_REFUND + [giveUp], Step(s, giveUp), write, EARLY_REFUND + [giveUp] + [write]);
    RunNext(EARLY_REFUND + [giveUp] + [write], Step(Step(s, giveUp), write), refund, es);
    RevivedByTheWrite(s);
  }

  // ---------------------------------------------------------------------------------------
  // The gateway's proxy to the ledger
  // ---------------------------------------------------------------------------------------

  class Proxy {
    const breaker: CircuitBreaker.Cell

    constructor ()
      ensures fresh(breaker) && breaker.config == BREAKER && breaker.View() == CircuitBreaker.INIT
    {
      breaker := new CircuitBreaker.Cell(BREAKER);
    }

    /** A request arrives: it is forwarded, or answered 200 with the degraded body. */
    method Serve(now: int) returns (fallback: Option<int>)
      requires breaker.config == BREAKER
      modifies breaker
      ensures breaker.View() == CircuitBreaker.Step(BREAKER, old(breaker.View()), CircuitBreaker.Call.Allow(now))
      ensures fallback == if old(breaker.state) == CircuitBreaker.Open &&
                             now - old(breaker.lastFailure) <= 30_000_000_000 then Some(200) else None
      ensures breaker.state == if old(breaker.state) == CircuitBreaker.Open && fallback.None?
                               then CircuitBreaker.HalfOpen else old(breaker.state)
      ensures breaker.failures == old(breaker.failures) && breaker.lastFailure == old(breaker.lastFailure)
    {
      var allowed := breaker.Allow(now);
      if !allowed { return Some(200); }
      return None;
    }

    /** The call to the ledger ended: ModifyResponse on an answer, ErrorHandler on a transport error. */
    method Finish(outcome: Outcome, now: int) returns (code: int)
      requires breaker.config == BREAKER
      modifies breaker
      ensures breaker.View() == CircuitBreaker.Step(BREAKER, old(breaker.View()), Recorded(outcome, now))
      ensures code == if outcome.Unreachable? then 200 else outcome.code
      ensures outcome.Replied? && outcome.code < 500 ==>
                && breaker.failures == 0 && breaker.state == CircuitBreaker.Closed
                && breaker.lastFailure == old(breaker.lastFailure)
      ensures outcome.Unreachable? || outcome.code >= 500 ==>
                && breaker.failures == CircuitBreaker.Wrap32(old(breaker.failures) + 1) && breaker.lastFailure == now
                && breaker.state == if breaker.failures >= 3 then CircuitBreaker.Open else old(breaker.state)
    {
      match outcome {
        case Replied(status) =>
          if status >= 500 { breaker.RecordFailure(now); } else { breaker.RecordSuccess(); }
          return status;
        case Unreachable =>
          breaker.RecordFailure(now);
          return 200;
      }
    }
  }

  // ---------------------------------------------------------------------------------------
  // The handlers, over the database
  // ---------------------------------------------------------------------------------------

  /** Each row holds the current status of its order. */
  ghost predicate Agrees(rows: map<string, Row>, orders: map<string, Order>) {
    && rows.Keys == orders.Keys
    && forall id | id in rows :: orders[id].history != [] && rows[id].status == Current(orders[id])
  }

  lemma AgreesAfterUpdate(rows: map<string, Row>, orders: map<string, Order>, id: string, row: Row, o: Order)
    requires Agrees(rows, orders) && o.history != [] && row.status == Current(o)
    ensures Agrees(rows[id := row], orders[id := o])
  {}

  /** A step that leaves an order's history alone leaves its row right. */
  lemma AgreesStill(rows: map<string, Row>, orders: map<string, Order>, id: string, o: Order)
    requires Agrees(rows, orders) && id in orders && o.history == orders[id].history
    ensures Agrees(rows, orders[id := o])
  {
    AgreesAfterUpdate(rows, orders, id, rows[id], o);
    assert rows[id := rows[id]] == rows;
  }

  /** What applyTransition makes of the rows. */
  ghost function RowsAfter(rows: map<string, Row>, id: string, e: OrderEvent, now: int): map<string, Row> {
    if id in rows && CanTransitionTo(rows[id].status, TargetStatus(e))
    then rows[id := rows[id].(status := TargetStatus(e), updatedAt := now)]
    else rows
  }

  lemma PutAgrees(s: System, rows: map<string, Row>, id: string, e: OrderEvent, now: int)
    requires Agrees(rows, s.orders)
    ensures Agrees(RowsAfter(rows, id, e, now), Step(s, PutEvent(id, e)).orders)
  {
    if id in rows && CanTransitionTo(rows[id].status, TargetStatus(e)) {
      var row := rows[id].(status := TargetStatus(e), updatedAt := now);
      AgreesAfterUpdate(rows, s.orders, id, row, Put(s.orders[id], e));
    } else if id in rows {
      AgreesStill(rows, s.orders, id, Put(s.orders[id], e));
    }
  }

  lemma WriteAgrees(s: System, rows: map<string, Row>, id: string, success: bool, stored: bool, row: Row)
    requires Agrees(rows, s.orders) && id in s.orders && s.orders[id].saga == Resolved(success)
    requires row.status == if stored then FinalStatus(success) else rows[id].status
    ensures Agrees(rows[id := row], Step(s, SagaWrite(id, stored)).orders)
  {
    var o := Write(s.orders[id], stored);
    assert o.history != [] && row.status == Current(o);
    AgreesAfterUpdate(rows, s.orders, id, row, o);
  }

  /** Event e brings the waiting saga of order id this response; None is an exception or a timeout. */
  ghost predicate Brings(s: System, e: Event, id: string, response: Option<int>) {
    && id in s.orders && s.orders[id].saga.Calling? && OfOrder(e) && e.id == id
    && match response
       case None => e.GiveUp?
       case Some(code) =>
         || (e.Admit? && s.orders[id].request.Unsent? && !Allowed(s, e.now) && code == 200)
         || (e.Settle? && CanSettle(s.orders[id], e.outcome) && code == Answer(e.outcome))
  }

  /** What happens outside the database leaves the rows right. */
  lemma AgreesElsewhere(s: System, rows: map<string, Row>, e: Event)
    requires Agrees(rows, s.orders) && !e.PostOrder? && !e.PutEvent? && !e.SagaWrite?
    ensures Agrees(rows, Step(s, e).orders)
  {
    if OfOrder(e) && e.id in s.orders { AgreesStill(rows, s.orders, e.id, NextOrder(s, s.orders[e.id], e)); }
  }

  lemma Resolves(s: System, e: Event, id: string, response: Option<int>)
    requires Brings(s, e, id, response)
    ensures id in Step(s, e).orders
    ensures Step(s, e).orders[id].saga == Resolved(response.Some? && Is2xx(response.value))
  {}

  lemma RunSnoc(es: seq<Event>, e: Event)
    ensures Run(es + [e]) == Step(Run(es), e)
  {
    RunNext(es, Run(es), e, es + [e]);
  }

  /** The order endpoints and the saga thread. `events` is the run so far, as the results above see it. */
  class OrderService {
    const db: DbStore
    ghost var events: seq<Event>

    constructor ()
      ensures Valid() && fresh(db) && events == []
    {
      db := new DbStore();
      events := [];
    }

    ghost predicate Valid()
      reads this, db
    {
      Agrees(db.rows, Run(events).orders)
    }

    /** POST: an absent id or an amount that does not parse is None. */
    method Post(id: Option<string>, orderType: string, from: string, to: string, amount: Option<real>, now: int)
      returns (code: int)
      requires Valid()
      modifies this, db
      ensures Valid() && code in {400, 409, 202}
      ensures code == 400 <==> || id.None? || id.value == "" || (orderType != "BUY" && orderType != "SELL")
                               || amount.None? || amount.value <= 0.0
      ensures code == 409 ==> id.value in old(db.rows)
      ensures code == 202 ==> && id.value !in old(db.rows) && id.value in Run(events).orders
                              && Run(events).orders[id.value] ==
                                 Order([Pending], Calling, 0, Ledger.Transfer(from, to, amount.value), Unsent, NotYet)
                              && db.rows == old(db.rows)[id.value := Row(orderType, Pending, now, now)]
      ensures code != 202 ==> db.rows == old(db.rows) && Run(events).orders == Run(old(events)).orders
      ensures events == if code == 400 then old(events)
                        else old(events) + [PostOrder(id.value, orderType, Ledger.Transfer(from, to, amount.value))]
    {
      if id.None? || id.value == "" { return 400; }
      if orderType != "BUY" && orderType != "SELL" { return 400; }
      if amount.None? || amount.value <= 0.0 { return 400; }
      var row := Insert(id.value, orderType, Ledger.Transfer(from, to, amount.value), now);
      if row.None? { return 409; }
      return 202;
    }

    /** A valid POST reaches the database. */
    method Insert(id: string, orderType: string, ghost transfer: Ledger.Transfer, now: int) returns (row: Option<Row>)
      requires Valid() && ValidPost(PostOrder(id, orderType, transfer))
      modifies this, db
      ensures Valid() && events == old(events) + [PostOrder(id, orderType, transfer)]
      ensures row.Some? <==> id !in old(db.rows)
      ensures row.Some? ==>
                && db.rows == old(db.rows)[id := Row(orderType, Pending, now, now)]
                && Run(events).orders ==
                   Run(old(events)).orders[id := Order([Pending], Calling, 0, transfer, Unsent, NotYet)]
      ensures row.None? ==> db.rows == old(db.rows) && Run(events).orders == Run(old(events)).orders
    {
      ghost var e, rows := PostOrder(id, orderType, transfer), db.rows;
      row := db.InsertOrderPending(id, orderType, now);
      RunSnoc(events, e);
      if row.Some? { AgreesAfterUpdate(rows, Run(events).orders, id, row.value, NewOrder(transfer)); }
      events := events + [e];
    }

    /** PUT: an absent parameter or an unknown event is None. */
    method Put(id: Option<string>, event: Option<OrderEvent>, now: int) returns (code: int)
      requires Valid()
      modifies this, db
      ensures Valid() && code in {200, 400, 404}
      ensures code == 404 <==> id.Some? && event.Some? && id.value !in old(db.rows)
      ensures code == 200 <==> id.Some? && event.Some? && id.value in old(db.rows) &&
                               CanTransitionTo(old(db.rows)[id.value].status, TargetStatus(event.value))
      ensures code == 200 ==>
                db.rows == old(db.rows)[id.value := old(db.rows)[id.value].(status := TargetStatus(event.value),
                                                                            updatedAt := now)]
      ensures code != 200 ==> db.rows == old(db.rows)
      ensures events == if id.None? || event.None? then old(events)
                        else old(events) + [PutEvent(id.value, event.value)]
    {
      if id.None? || event.None? { return 400; }
      ghost var rows := db.rows;
      var r := db.ApplyTransition(id.value, event.value, now);
      PutAgrees(Run(events), rows, id.value, event.value, now);
      RunSnoc(events, PutEvent(id.value, event.value));
      events := events + [PutEvent(id.value, event.value)];
      match r {
        case Applied(_, _) => return 200;
        case NotFound => return 404;
        case Invalid(_, _) => return 400;
      }
    }

    /** The gateway, the ledger or other clients take a step: the rows stay right. */
    ghost method Elsewhere(e: Event)
      requires Valid() && !e.PostOrder? && !e.PutEvent? && !e.SagaWrite?
      modifies `events
      ensures Valid() && events == old(events) + [e]
    {
      AgreesElsewhere(Run(events), db.rows, e);
      RunSnoc(events, e);
      events := events + [e];
    }

    /** runSaga, first half: the status decides, and an exception counts as failure. */
    method AwaitCall(id: string, response: Option<int>, ghost e: Event) returns (success: bool)
      requires Valid() && Brings(Run(events), e, id, response)
      modifies `events
      ensures Valid() && events == old(events) + [e]
      ensures success == (response.Some? && 200 <= response.value < 300)
      ensures id in Run(events).orders && Run(events).orders[id].saga == Resolved(success)
    {
      success := false;
      if response.Some? && response.value >= 200 && response.value < 300 { success := true; }
      Resolves(Run(events), e, id, response);
      RunSnoc(events, e);
      Elsewhere(e);
    }

    /** runSaga, second half: the unconditional write, whatever events came meanwhile. */
    method WriteOutcome(id: string, success: bool, stored: bool, now: int)
      requires Valid() && id in Run(events).orders && Run(events).orders[id].saga == Resolved(success)
      modifies this, db
      ensures Valid() && events == old(events) + [SagaWrite(id, stored)]
      ensures stored ==> id in db.rows && db.rows[id].status == if success then Completed else Canceled
      ensures !stored ==> db.rows == old(db.rows)
    {
      ghost var rows := db.rows;
      if stored {
        var finalStatus := if success then Completed else Canceled;
        db.UpdateOrderStatus(id, finalStatus, now);
      }
      WriteAgrees(Run(events), rows, id, success, stored, db.rows[id]);
      assert db.rows == rows[id := db.rows[id]];
      RunSnoc(events, SagaWrite(id, stored));
      events := events + [SagaWrite(id, stored)];
    }
  }
}
