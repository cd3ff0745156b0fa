/**
  The account ledger of ledger-clojure/server.clj. Each dosync block is one atomic step, so every
  interleaving of transfers and resets is a sequence of the steps below. Balances are exact reals.
*/
module Ledger {

  datatype Transfer = Transfer(from: string, to: string, amount: real)

  type Balances = map<string, real>

  const ACCOUNTS := ["ACC-001", "ACC-002", "ACC-003", "ACC-004"]

  const INITIAL_BALANCES: Balances :=
    map["ACC-001" := 10000.0, "ACC-002" := 8500.0, "ACC-003" := 12000.0, "ACC-004" := 6000.0]

  /** `ids` lists the accounts, each once. */
  ghost predicate Enumerates(ids: seq<string>, b: Balances) {
    && (forall i, j | 0 <= i < j < |ids| :: ids[i] != ids[j])
    && (forall id :: id in ids <==> id in b)
  }

  /** The sum of the balances of the listed accounts. */
  function Total(ids: seq<string>, b: Balances): real
    requires forall id | id in ids :: id in b
  {
    if ids == [] then 0.0 else Total(ids[..|ids| - 1], b) + b[ids[|ids| - 1]]
  }

  /** The guard of transfer!: both accounts exist and the balance covers the amount. */
  predicate Accepted(b: Balances, t: Transfer) {
    t.from in b && t.to in b && b[t.from] >= t.amount
  }

  /** Debit, then credit: on a self-transfer the credit sees the debited balance. */
  function Moved(b: Balances, t: Transfer): Balances
    requires Accepted(b, t)
  {
    var debited := b[t.from := b[t.from] - t.amount];
    debited[t.to := debited[t.to] + t.amount]
  }

  datatype Book = Book(balances: Balances, log: seq<Transfer>, transfers: nat)

  datatype Event = Attempt(transfer: Transfer) | Reset

  function Open(initial: Balances): Book { Book(initial, [], 0) }

  function Step(initial: Balances, k: Book, e: Event): Book {
    match e
    case Attempt(t) =>
      if Accepted(k.balances, t) then Book(Moved(k.balances, t), k.log + [t], k.transfers + 1) else k
    case Reset => Open(initial)
  }

  function Run(initial: Balances, es: seq<Event>): Book {
    if es == [] then Open(initial) else Step(initial, Run(initial, es[..|es| - 1]), es[|es| - 1])
  }

  /** Applying the logged transfers again, from the initial balances. */
  function Replay(initial: Balances, log: seq<Transfer>): Balances {
    if log == [] then initial
    else
      var b := Replay(initial, log[..|log| - 1]);
      if Accepted(b, log[|log| - 1]) then Moved(b, log[|log| - 1]) else b
  }

  /** Every logged transfer is accepted when its turn comes. */
  ghost predicate Replayable(initial: Balances, log: seq<Transfer>) {
    forall i | 0 <= i < |log| :: Accepted(Replay(initial, log[..i]), log[i])
  }

  /** Changing the balance of one listed account changes the total by that much. */
  lemma {:induction false} TotalUpdate(ids: seq<string>, b: Balances, id: string, v: real)
    requires forall i, j | 0 <= i < j < |ids| :: ids[i] != ids[j]
    requires (forall x | x in ids :: x in b) && id in b
    ensures Total(ids, b[id := v]) == Total(ids, b) + if id in ids then v - b[id] else 0.0
  {
    if ids != [] {
      var rest, last := ids[..|ids| - 1], ids[|ids| - 1];
      TotalUpdate(rest, b, id, v);
      assert ids == rest + [last];
      assert last !in rest;
    }
  }

  lemma SameAccounts(ids: seq<string>, b: Balances, b': Balances)
    requires Enumerates(ids, b) && b'.Keys == b.Keys
    ensures Enumerates(ids, b')
  {}

  /** What a transfer does to the total of some of the accounts. */
  lemma MovedTotal(ids: seq<string>, b: Balances, t: Transfer)
    requires forall i, j | 0 <= i < j < |ids| :: ids[i] != ids[j]
    requires (forall id | id in ids :: id in b) && Accepted(b, t)
    ensures Total(ids, Moved(b, t)) ==
            Total(ids, b) - (if t.from in ids then t.amount else 0.0) + if t.to in ids then t.amount else 0.0
  {
    var debited := b[t.from := b[t.from] - t.amount];
    TotalUpdate(ids, b, t.from, b[t.from] - t.amount);
    TotalUpdate(ids, debited, t.to, debited[t.to] + t.amount);
  }

  /** A transfer of any amount, between any two accounts, conserves the total. */
  lemma TransferConserves(ids: seq<string>, b: Balances, t: Transfer)
    requires Enumerates(ids, b) && Accepted(b, t)
    ensures Enumerates(ids, Moved(b, t))
    ensures Total(ids, Moved(b, t)) == Total(ids, b)
  {
    SameAccounts(ids, b, Moved(b, t));
    MovedTotal(ids, b, t);
  }

  /** A transfer touches no account but its own two, and a self-transfer touches none. */
  lemma TransferMovesTheAmount(b: Balances, t: Transfer)
    requires Accepted(b, t)
    ensures t.from == t.to ==> Moved(b, t) == b
    ensures t.from != t.to ==>
              Moved(b, t)[t.from] == b[t.from] - t.amount && Moved(b, t)[t.to] == b[t.to] + t.amount
    ensures Moved(b, t).Keys == b.Keys && forall id | id in b && id != t.from && id != t.to :: Moved(b, t)[id] == b[id]
  {
    if t.from == t.to { assert Moved(b, t) == b; }
  }

  /** An account can be emptied, but not overdrawn by its own transfers. */
  lemma WholeBalanceMoves(b: Balances, from: string, to: string)
    requires from in b && to in b && from != to
    ensures forall amount :: Accepted(b, Transfer(from, to, amount)) <==> amount <= b[from]
    ensures forall amount :: amount <= b[from] ==> Moved(b, Transfer(from, to, amount))[from] >= 0.0
    ensures Moved(b, Transfer(from, to, b[from])) == b[from := 0.0][to := b[to] + b[from]]
  {
    TransferMovesTheAmount(b, Transfer(from, to, b[from]));
  }

  ghost predicate NonNegative(b: Balances) {
    forall id | id in b :: b[id] >= 0.0
  }

  /** An accepted transfer keeps every balance non-negative exactly when the receiver can bear it. */
  lemma TransferNonNegative(b: Balances, t: Transfer)
    requires Accepted(b, t) && NonNegative(b)
    ensures NonNegative(Moved(b, t)) <==> t.from == t.to || b[t.to] + t.amount >= 0.0
  {
    TransferMovesTheAmount(b, t);
    if t.from != t.to { assert t.to in Moved(b, t); }
  }

  /** A negative amount takes from the receiver, whatever it holds. */
  lemma NegativeTransferOverdraws()
    ensures var k := Run(INITIAL_BALANCES, [Attempt(Transfer("ACC-001", "ACC-002", -20000.0))]);
            "ACC-002" in k.balances && k.balances["ACC-002"] == -11500.0 && !NonNegative(k.balances)
  {
    var t := Transfer("ACC-001", "ACC-002", -20000.0);
    InitialAccounts();
    assert Accepted(INITIAL_BALANCES, t);
    TransferMovesTheAmount(INITIAL_BALANCES, t);
    assert [Attempt(t)][..0] == [];
    assert Run(INITIAL_BALANCES, [Attempt(t)]).balances == Moved(INITIAL_BALANCES, t);
  }

  lemma LogExtends(initial: Balances, log: seq<Transfer>, b: Balances, t: Transfer)
    requires Replayable(initial, log) && Replay(initial, log) == b && Accepted(b, t)
    ensures Replayable(initial, log + [t]) && Replay(initial, log + [t]) == Moved(b, t)
  {
    var log' := log + [t];
    assert log'[..|log|] == log;
    forall i | 0 <= i < |log'| ensures Accepted(Replay(initial, log'[..i]), log'[i]) {
      if i < |log| { assert log'[..i] == log[..i]; }
    }
  }

  /**
    Over every interleaving: the total is conserved, the log replays to the current balances, and
    the transfer counter is the length of the log.
  */
  lemma {:induction false} RunConserves(ids: seq<string>, initial: Balances, es: seq<Event>)
    requires Enumerates(ids, initial)
    ensures var k := Run(initial, es);
            && Enumerates(ids, k.balances)
            && Total(ids, k.balances) == Total(ids, initial)
            && Replayable(initial, k.log) && Replay(initial, k.log) == k.balances
            && k.transfers == |k.log|
  {
    if es != [] {
      var k, e := Run(initial, es[..|es| - 1]), es[|es| - 1];
      RunConserves(ids, initial, es[..|es| - 1]);
      if e.Attempt? && Accepted(k.balances, e.transfer) {
        TransferConserves(ids, k.balances, e.transfer);
        LogExtends(initial, k.log, k.balances, e.transfer);
      }
    }
  }

  lemma {:induction false} RunNonNegative(initial: Balances, es: seq<Event>)
    requires NonNegative(initial)
    requires forall i | 0 <= i < |es| && es[i].Attempt? :: es[i].transfer.amount >= 0.0
    ensures NonNegative(Run(initial, es).balances)
  {
    if es != [] {
      var k, e := Run(initial, es[..|es| - 1]), es[|es| - 1];
      RunNonNegative(initial, es[..|es| - 1]);
      if e.Attempt? && Accepted(k.balances, e.transfer) { TransferNonNegative(k.balances, e.transfer); }
    }
  }

  lemma InitialAccounts()
    ensures Enumerates(ACCOUNTS, INITIAL_BALANCES)
  {
    assert "ACC-001"[6] == '1' && "ACC-002"[6] == '2' && "ACC-003"[6] == '3' && "ACC-004"[6] == '4';
  }

  lemma InitialTotal()
    ensures forall id | id in ACCOUNTS :: id in INITIAL_BALANCES
    ensures Total(ACCOUNTS, INITIAL_BALANCES) == 36500.0
  {
    InitialAccounts();
    var one, two, three := ["ACC-001"], ["ACC-001", "ACC-002"], ["ACC-001", "ACC-002", "ACC-003"];
    assert one[..0] == [] && Total(one, INITIAL_BALANCES) == 10000.0;
    assert two[..1] == one && Total(two, INITIAL_BALANCES) == 18500.0;
    assert three[..2] == two && Total(three, INITIAL_BALANCES) == 30500.0;
    assert ACCOUNTS[..3] == three;
  }

  /** The documented invariant: the accounts always hold 36,500.0 together. */
  lemma TotalIsAlways36500(es: seq<Event>)
    ensures Enumerates(ACCOUNTS, Run(INITIAL_BALANCES, es).balances)
    ensures Total(ACCOUNTS, Run(INITIAL_BALANCES, es).balances) == 36500.0
  {
    InitialAccounts();
    InitialTotal();
    RunConserves(ACCOUNTS, INITIAL_BALANCES, es);
  }

  // ---------------------------------------------------------------------------------------
  // total-balance, read while transfers commit
  // ---------------------------------------------------------------------------------------

  /** total-balance looks at the accounts one by one, outside any transaction. */
  datatype ReadStep = Look | Commit(transfer: Transfer)

  /** The balances now, how many accounts have been looked at, and the sum so far. */
  datatype Reading = Reading(balances: Balances, seen: nat, sum: real)

  function Observe(ids: seq<string>, r: Reading, e: ReadStep): Reading {
    match e
    case Look =>
      if r.seen < |ids| && ids[r.seen] in r.balances
      then Reading(r.balances, r.seen + 1, r.sum + r.balances[ids[r.seen]])
      else r
    case Commit(t) => if Accepted(r.balances, t) then r.(balances := Moved(r.balances, t)) else r
  }

  function Observed(ids: seq<string>, b: Balances, es: seq<ReadStep>): (r: Reading)
    ensures r.seen <= |ids|
  {
    if es == [] then Reading(b, 0, 0.0) else Observe(ids, Observed(ids, b, es[..|es| - 1]), es[|es| - 1])
  }

  /** The amount counted twice (positive) or missed (negative) because one of its accounts was read before it moved. */
  function Crossing(ids: seq<string>, r: Reading, e: ReadStep): real
    requires r.seen <= |ids|
  {
    if e.Commit? && Accepted(r.balances, e.transfer) then
      (if e.transfer.from in ids[..r.seen] then e.transfer.amount else 0.0) -
      (if e.transfer.to in ids[..r.seen] then e.transfer.amount else 0.0)
    else 0.0
  }

  function Crossings(ids: seq<string>, b: Balances, es: seq<ReadStep>): real {
    if es == [] then 0.0
    else
      var prefix := es[..|es| - 1];
      Crossings(ids, b, prefix) + Crossing(ids, Observed(ids, b, prefix), es[|es| - 1])
  }

  /** A transfer changes the total of the accounts not yet read by the amount that crosses the reader. */
  lemma CommitCrosses(ids: seq<string>, r: Reading, t: Transfer)
    requires Enumerates(ids, r.balances) && r.seen <= |ids| && Accepted(r.balances, t)
    ensures Enumerates(ids, Moved(r.balances, t))
    ensures Total(ids[r.seen..], Moved(r.balances, t)) == Total(ids[r.seen..], r.balances) + Crossing(ids, r, Commit(t))
  {
    SameAccounts(ids, r.balances, Moved(r.balances, t));
    MovedTotal(ids[r.seen..], r.balances, t);
    ReadOrNot(ids, r.seen, t.from);
    ReadOrNot(ids, r.seen, t.to);
  }

  lemma ReadOrNot(ids: seq<string>, seen: nat, id: string)
    requires seen <= |ids| && id in ids && forall i, j | 0 <= i < j < |ids| :: ids[i] != ids[j]
    ensures id in ids[seen..] <==> id !in ids[..seen]
  {
    assert ids == ids[..seen] + ids[seen..];
  }

  lemma LookMoves(ids: seq<string>, r: Reading)
    requires Enumerates(ids, r.balances) && r.seen < |ids|
    ensures r.sum + Total(ids[r.seen..], r.balances) == Observe(ids, r, Look).sum + Total(ids[r.seen + 1..], r.balances)
  {
    TotalHead(ids[r.seen..], r.balances);
    assert ids[r.seen..][1..] == ids[r.seen + 1..];
  }

  lemma {:induction false} TotalHead(ids: seq<string>, b: Balances)
    requires ids != [] && forall id | id in ids :: id in b
    ensures Total(ids, b) == b[ids[0]] + Total(ids[1..], b)
  {
    if |ids| > 1 {
      TotalHead(ids[..|ids| - 1], b);
      assert ids[1..][..|ids| - 2] == ids[..|ids| - 1][1..];
    }
  }

  /** What has been read and what is still to read, together, are the total plus what crossed the reader. */
  lemma {:induction false} ReadingDrifts(ids: seq<string>, b: Balances, es: seq<ReadStep>)
    requires Enumerates(ids, b)
    ensures var r := Observed(ids, b, es);
            && Enumerates(ids, r.balances)
            && r.sum + Total(ids[r.seen..], r.balances) == Total(ids, b) + Crossings(ids, b, es)
  {
    if es == [] {
      assert ids[0..] == ids;
    } else {
      var r, e := Observed(ids, b, es[..|es| - 1]), es[|es| - 1];
      ReadingDrifts(ids, b, es[..|es| - 1]);
      if e.Commit? && Accepted(r.balances, e.transfer) {
        CommitCrosses(ids, r, e.transfer);
      } else if e.Look? && r.seen < |ids| {
        LookMoves(ids, r);
      }
    }
  }

  /**
    Under every interleaving of a complete reading with transfers, the figure reported is the true
    total plus the net amount that crossed the reader; it is right exactly when that is zero.
  */
  lemma TotalAsRead(ids: seq<string>, b: Balances, es: seq<ReadStep>)
    requires Enumerates(ids, b) && Observed(ids, b, es).seen == |ids|
    ensures Observed(ids, b, es).sum == Total(ids, b) + Crossings(ids, b, es)
    ensures Observed(ids, b, es).sum == Total(ids, b) <==> Crossings(ids, b, es) == 0.0
  {
    ReadingDrifts(ids, b, es);
  }

  /** So the reported total can be off although no money is created or destroyed. */
  lemma TotalCanBeTorn() returns (es: seq<ReadStep>)
    ensures Observed(ACCOUNTS, INITIAL_BALANCES, es).seen == |ACCOUNTS|
    ensures Observed(ACCOUNTS, INITIAL_BALANCES, es).sum == 36600.0
  {
    InitialAccounts();
    var t := Transfer("ACC-001", "ACC-002", 100.0);
    es := [Look, Commit(t)] + [Look, Look, Look];
    var r1 := Reading(INITIAL_BALANCES, 1, 10000.0);
    var r2 := r1.(balances := Moved(INITIAL_BALANCES, t));
    ObserveNext(ACCOUNTS, INITIAL_BALANCES, [], Look, es[..1]);
    ObserveNext(ACCOUNTS, INITIAL_BALANCES, es[..1], Commit(t), es[..2]);
    assert Observed(ACCOUNTS, INITIAL_BALANCES, es[..1]) == r1 && Observed(ACCOUNTS, INITIAL_BALANCES, es[..2]) == r2;
    ObserveNext(ACCOUNTS, INITIAL_BALANCES, es[..2], Look, es[..3]);
    ObserveNext(ACCOUNTS, INITIAL_BALANCES, es[..3], Look, es[..4]);
    ObserveNext(ACCOUNTS, INITIAL_BALANCES, es[..4], Look, es);
    assert Observed(ACCOUNTS, INITIAL_BALANCES, es[..3]) == r2.(seen := 2, sum := 18600.0);
    assert Observed(ACCOUNTS, INITIAL_BALANCES, es[..4]) == r2.(seen := 3, sum := 30600.0);
  }

  lemma ObserveNext(ids: seq<string>, b: Balances, es: seq<ReadStep>, e: ReadStep, es': seq<ReadStep>)
    requires es' == es + [e]
    ensures Observed(ids, b, es') == Observe(ids, Observed(ids, b, es), e)
  {
    assert es'[..|es|] == es;
  }

  class Accounts {
    var balances: Balances
    var log: seq<Transfer>
    var transfers: nat

    constructor ()
      ensures View() == Open(INITIAL_BALANCES)
    {
      balances, log, transfers := INITIAL_BALANCES, [], 0;
    }

    function View(): Book
      reads this
    {
      Book(balances, log, transfers)
    }

    /** transfer!: the alters of one transaction, in order. */
    method TransferFunds(from: string, to: string, amount: real) returns (ok: bool)
      modifies this
      ensures ok <==> from in old(balances) && to in old(balances) && old(balances)[from] >= amount
      ensures !ok ==> View() == old(View())
      ensures ok ==> log == old(log) + [Transfer(from, to, amount)] && transfers == old(transfers) + 1
      ensures ok && from == to ==> balances == old(balances)
      ensures ok && from != to ==>
                balances == old(balances)[from := old(balances)[from] - amount][to := old(balances)[to] + amount]
      ensures View() == Step(INITIAL_BALANCES, old(View()), Attempt(Transfer(from, to, amount)))
    {
      if from in balances && to in balances && balances[from] >= amount {
        balances := balances[from := balances[from] - amount];
        balances := balances[to := balances[to] + amount];
        transfers := transfers + 1;
        log := log + [Transfer(from, to, amount)];
        return true;
      }
      return false;
    }

    method TotalBalance(ids: seq<string>) returns (total: real)
      requires Enumerates(ids, balances)
      ensures total == Total(ids, balances)
    {
      total := 0.0;
      for i := 0 to |ids|
        invariant total == Total(ids[..i], balances)
      {
        assert ids[..i + 1][..i] == ids[..i];
        total := total + balances[ids[i]];
      }
      assert ids[..|ids|] == ids;
    }

    method ResetAccounts()
      modifies this
      ensures balances == INITIAL_BALANCES && log == [] && transfers == 0
      ensures View() == Step(INITIAL_BALANCES, old(View()), Reset)
    {
      balances, log, transfers := INITIAL_BALANCES, [], 0;
    }
  }
}
