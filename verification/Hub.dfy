/**
  The WebSocket hub of server-go/main.go: one event loop owns the client set, and each client has a
  bounded send channel. Sending on a closed channel and closing it twice panic in Go; both are
  preconditions here, so verification shows that neither happens in any run.
*/
module WebSocketHub {

  type Message = string

  const SEND_BUFFER := 256

  class Client {
    /** The buffered send channel. */
    var queue: seq<Message>
    var closed: bool

    /** All messages ever put into the channel, and those its write pump has taken out. */
    ghost var enqueued: seq<Message>
    ghost var delivered: seq<Message>
    /** How many messages had been broadcast when it registered, and when the hub dropped it. */
    ghost var start: nat
    ghost var end: nat

    constructor (ghost start: nat)
      ensures queue == [] && !closed && enqueued == [] && delivered == [] && this.start == start == end
    {
      queue, closed, enqueued, delivered, this.start, end := [], false, [], [], start, start;
    }

    /** First in, first out, and never over capacity. */
    ghost predicate Fifo()
      reads this
    {
      delivered + queue == enqueued && |queue| <= SEND_BUFFER
    }

    /** Non-blocking send: refused when the buffer is full. */
    method TrySend(msg: Message) returns (ok: bool)
      requires !closed && Fifo()
      modifies `queue, `enqueued
      ensures Fifo() && ok == (|old(queue)| < 256)
      ensures enqueued == if ok then old(enqueued) + [msg] else old(enqueued)
      ensures queue == if ok then old(queue) + [msg] else old(queue)
    {
      if |queue| < SEND_BUFFER {
        queue, enqueued := queue + [msg], enqueued + [msg];
        return true;
      }
      return false;
    }

    method Close()
      requires !closed
      modifies `closed
      ensures closed
    {
      closed := true;
    }

    /** The write pump takes the next message, if there is one. */
    method Receive() returns (msg: seq<Message>)
      requires Fifo()
      modifies `queue, `delivered
      ensures Fifo() && delivered == old(delivered) + msg
      ensures msg == old(queue)[..if old(queue) == [] then 0 else 1] && queue == old(queue)[|msg|..]
    {
      if queue == [] { return []; }
      msg := queue[..1];
      queue, delivered := queue[1..], delivered + msg;
    }
  }

  class Hub {
    var clients: set<Client>
    /** Every message broadcast so far, and every client that ever registered. */
    ghost var broadcasts: seq<Message>
    var registered: seq<Client>

    constructor ()
      ensures Valid() && registered == [] && broadcasts == [] && clients == {}
    {
      clients, broadcasts, registered := {}, [], [];
    }

    /** What a client has been sent: a contiguous block of the broadcasts from its registration on. */
    ghost predicate Served(c: Client)
      reads this, c
    {
      && c.Fifo()
      && c.closed == (c !in clients)
      && c.start <= c.end <= |broadcasts|
      && (c in clients ==> c.end == |broadcasts|)
      && c.enqueued == broadcasts[c.start..c.end]
    }

    ghost predicate Valid()
      reads this, registered, clients
    {
      && (forall c | c in clients :: c in registered)
      && (forall c | c in registered :: Served(c))
    }

    /** wsHandler: a fresh client is handed to the hub. */
    method Register() returns (c: Client)
      requires Valid()
      modifies this
      ensures Valid() && fresh(c) && registered == old(registered) + [c] && clients == old(clients) + {c}
      ensures broadcasts == old(broadcasts) && c.start == |broadcasts|
    {
      c := new Client(|broadcasts|);
      registered := registered + [c];
      clients := clients + {c};
    }

    /** A read pump ends. The client may have been evicted before: then nothing happens. */
    method Unregister(c: Client)
      requires Valid() && c in registered
      modifies `clients, c
      ensures Valid() && clients == old(clients) - {c}
      ensures c.closed && c.enqueued == old(c.enqueued) && c.queue == old(c.queue) && c.end == old(c.end)
    {
      if c in clients {
        clients := clients - {c};
        c.Close();
      }
    }

    /**
      One broadcast, over the clients in any order: a client gets the message or, if its buffer is
      full, is evicted without it.
    */
    method Broadcast(msg: Message)
      requires Valid()
      modifies this, registered
      ensures Valid() && registered == old(registered) && broadcasts == old(broadcasts) + [msg]
      ensures clients == set c | c in old(clients) && |old(c.queue)| < 256
      ensures forall c | c in registered && c !in old(clients) :: unchanged(c)
    {
      ghost var before := broadcasts;
      broadcasts := broadcasts + [msg];
      var todo := clients;
      while todo != {}
        invariant registered == old(registered) && broadcasts == before + [msg]
        invariant todo <= old(clients) && todo <= clients <= old(clients)
        invariant forall c | c in old(clients) && c !in todo :: c in clients <==> |old(c.queue)| < SEND_BUFFER
        invariant forall c | c in registered && c !in todo :: Served(c)
        invariant forall c | c in registered && (c in todo || c !in old(clients)) :: unchanged(c)
        decreases todo
      {
        var c :| c in todo;
        assert c in registered && old(Served(c));
        Offer(c, msg, before);
        todo := todo - {c};
      }
    }

    /** The body of the broadcast loop for one client. */
    method Offer(c: Client, msg: Message, ghost before: seq<Message>)
      requires c in clients && !c.closed && c.Fifo() && broadcasts == before + [msg]
      requires c.start <= c.end == |before| && c.enqueued == before[c.start..]
      modifies `clients, c
      ensures Served(c)
      ensures clients == if |old(c.queue)| < SEND_BUFFER then old(clients) else old(clients) - {c}
    {
      var ok := c.TrySend(msg);
      if ok {
        c.end := |broadcasts|;
        assert broadcasts[c.start..c.end] == before[c.start..] + [msg];
      } else {
        c.Close();
        clients := clients - {c};
        assert broadcasts[c.start..c.end] == before[c.start..];
      }
    }

    /** A client's write pump takes one message. */
    method Drain(c: Client)
      requires Valid() && c in registered
      modifies c
      ensures Valid() && c.queue == old(c.queue)[if old(c.queue) == [] then 0 else 1..]
      ensures c.enqueued == old(c.enqueued) && c.closed == old(c.closed)
    {
      var _ := c.Receive();
    }

    method Perform(e: Event)
      requires Valid()
      modifies this, registered
      ensures Valid() && broadcasts == old(broadcasts) + (if e.Publish? then [e.msg] else [])
      ensures |registered| >= |old(registered)| && registered[..|old(registered)|] == old(registered)
      ensures forall k | |old(registered)| <= k < |registered| :: fresh(registered[k])
    {
      match e {
        case Connect => var _ := Register();
        case Disconnect(k) => if k < |registered| { Unregister(registered[k]); }
        case Publish(msg) => Broadcast(msg);
        case Pump(k) => if k < |registered| { Drain(registered[k]); }
      }
    }

    /**
      In every run: no panic, and what each client received is a prefix of a contiguous block of the
      broadcasts that starts at its registration.
    */
    method Run(es: seq<Event>)
      requires Valid()
      modifies this, registered
      ensures Valid()
      ensures forall c | c in registered ::
                && c.start <= c.end <= |broadcasts| && c.delivered + c.queue == broadcasts[c.start..c.end]
                && (if c in clients then c.end == |broadcasts| else c.closed)
    {
      for i := 0 to |es|
        invariant Valid()
        invariant |registered| >= |old(registered)| && registered[..|old(registered)|] == old(registered)
        invariant forall k | |old(registered)| <= k < |registered| :: fresh(registered[k])
      {
        Perform(es[i]);
      }
      forall c | c in registered
        ensures c.start <= c.end <= |broadcasts| && c.delivered + c.queue == broadcasts[c.start..c.end]
        ensures if c in clients then c.end == |broadcasts| else c.closed
      {
        assert Served(c);
      }
    }
  }

  /** Clients are named by the order in which they connected. */
  datatype Event = Connect | Disconnect(client: nat) | Publish(msg: Message) | Pump(client: nat)
}
