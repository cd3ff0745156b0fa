/**
  The batching queue of the Phoenix long-poll transport: send, batchSend, the batch timer and the
  response callbacks of hub-elixir/deps/phoenix/assets/js/phoenix/longpoll.js, up to a close.
*/
module PhoenixLongPoll {
  import opened Common

  /**
    The transport's fields, the POSTs issued so far, how many of them still await a response, every
    body handed to send, and the bodies a close has discarded. While the transport is open,
    `currentBatch` and its timer are set and cleared together.
  */
  datatype Transport = Transport(currentBatch: Option<seq<string>>, batchBuffer: seq<string>, awaitingBatchAck: bool,
                                 closed: bool, posts: seq<seq<string>>, inFlight: nat,
                                 sent: seq<string>, dropped: seq<string>)

  /**
    `Acked` is a response with status 200, `Rejected` any other or none that parses. `TimedOut` is a
    request whose timeout handler alone runs, which is how fetch (ajax.js:39-41) reports a timeout;
    XMLHttpRequest (ajax.js:72-77) also completes with an empty response, which is `Rejected`.
    `Closed` is a close for any other reason.
  */
  datatype Event = Send(body: string) | BatchTimer | Acked | Rejected | TimedOut | Closed

  const INIT := Transport(None, [], false, false, [], 0, [], [])

  /** Until a close: the batch timer fires only while a batch is open, responses come for POSTs in flight. */
  predicate Enabled(t: Transport, e: Event) {
    !t.closed &&
    match e
    case Send(_) => true
    case BatchTimer => t.currentBatch.Some?
    case Acked => t.inFlight > 0
    case Rejected => t.inFlight > 0
    case TimedOut => t.inFlight > 0
    case Closed => true
  }

  function Post(t: Transport, messages: seq<string>): Transport {
    t.(awaitingBatchAck := true, posts := t.posts + [messages], inFlight := t.inFlight + 1)
  }

  /** close(): the requests are aborted, the buffer emptied and the batch timer cleared. */
  function Close(t: Transport): Transport {
    t.(closed := true, inFlight := 0, dropped := Waiting(t), batchBuffer := [])
  }

  function Step(t: Transport, e: Event): Transport
    requires Enabled(t, e)
  {
    match e
    case Send(body) =>
      var u := t.(sent := t.sent + [body]);
      if t.currentBatch.Some? then u.(currentBatch := Some(t.currentBatch.value + [body]))
      else if t.awaitingBatchAck then u.(batchBuffer := t.batchBuffer + [body])
      else u.(currentBatch := Some([body]))
    case BatchTimer => Post(t, t.currentBatch.value).(currentBatch := None)
    case Acked =>
      var u := t.(awaitingBatchAck := false, inFlight := t.inFlight - 1);
      if |t.batchBuffer| > 0 then Post(u, t.batchBuffer).(batchBuffer := []) else u
    case Rejected => Close(t.(awaitingBatchAck := false))
    case TimedOut => t.(inFlight := t.inFlight - 1)
    case Closed => Close(t)
  }

  /** A possible run: each event was enabled when it happened. */
  ghost predicate Possible(es: seq<Event>)
    decreases |es|, 0
  {
    es == [] || (Possible(es[..|es| - 1]) && Enabled(Run(es[..|es| - 1]), es[|es| - 1]))
  }

  ghost function Run(es: seq<Event>): Transport
    requires Possible(es)
    decreases |es|, 1
  {
    if es == [] then INIT else Step(Run(es[..|es| - 1]), es[|es| - 1])
  }

  /** What an open transport has still to post: the open batch, then the buffer. */
  function Waiting(t: Transport): seq<string> {
    if t.closed then [] else (if t.currentBatch.Some? then t.currentBatch.value else []) + t.batchBuffer
  }

  /** What every step keeps. */
  ghost predicate Inv(t: Transport) {
    && t.inFlight <= 1
    && (t.inFlight == 1 ==> t.awaitingBatchAck)
    && (t.currentBatch.Some? ==> !t.awaitingBatchAck && t.currentBatch.value != [])
    && (t.batchBuffer != [] ==> t.awaitingBatchAck && !t.closed)
    && (!t.closed ==> t.dropped == [])
    && (forall i | 0 <= i < |t.posts| :: t.posts[i] != [])
    && Accounted(t)
  }

  /** The bodies posted, those waiting and those discarded are the bodies sent, in order. */
  ghost predicate Accounted(t: Transport) {
    Flatten(t.posts) + Waiting(t) + t.dropped == t.sent
  }

  lemma SendAccounts(t: Transport, body: string)
    requires Inv(t) && !t.closed
    ensures Accounted(Step(t, Send(body)))
  {
    assert Waiting(Step(t, Send(body))) == Waiting(t) + [body];
    assert Flatten(t.posts) + (Waiting(t) + [body]) + [] == t.sent + [body];
  }

  /** Posting everything that waits. */
  lemma PostAccounts(t: Transport, u: Transport)
    requires Accounted(t) && u.posts == t.posts + [Waiting(t)] && Waiting(u) == []
    requires t.dropped == u.dropped == [] && u.sent == t.sent
    ensures Accounted(u)
  {
    FlattenAppend(t.posts, Waiting(t));
    assert Flatten(u.posts) + [] + [] == Flatten(t.posts) + Waiting(t) + [];
  }

  lemma CloseAccounts(t: Transport)
    requires Accounted(t) && t.dropped == []
    ensures Accounted(Close(t))
  {
    Regroup(Flatten(t.posts), Waiting(t), t.sent);
  }

  lemma Regroup(posted: seq<string>, waiting: seq<string>, sent: seq<string>)
    requires posted + waiting + [] == sent
    ensures posted + [] + waiting == sent
  {
    assert posted + waiting + [] == posted + waiting == posted + [] + waiting;
  }

  lemma StepKeepsInv(t: Transport, e: Event)
    requires Inv(t) && Enabled(t, e)
    ensures Inv(Step(t, e))
  {
    match e
    case Send(body) => SendAccounts(t, body);
    case BatchTimer =>
      assert Waiting(t) == t.currentBatch.value + [] == t.currentBatch.value;
      PostAccounts(t, Step(t, e));
    case Acked =>
      assert Waiting(t) == [] + t.batchBuffer == t.batchBuffer;
      if t.batchBuffer != [] { PostAccounts(t, Step(t, e)); }
    case Rejected => CloseAccounts(t.(awaitingBatchAck := false));
    case TimedOut =>
    case Closed => CloseAccounts(t);
  }

  /**
    In every run at most one POST is un-acked, and the bodies of the issued POSTs followed by the
    open batch and the buffer, or by what a close discarded, are exactly the bodies sent, in order.
  */
  lemma {:induction false} NothingLostOrReordered(es: seq<Event>)
    requires Possible(es)
    ensures var t := Run(es);
            && t.inFlight <= 1
            && Accounted(t) && (!t.closed ==> t.dropped == [])
            && t.sent == SentBy(es)
    ensures Inv(Run(es))
  {
    if es != [] {
      NothingLostOrReordered(es[..|es| - 1]);
      StepKeepsInv(Run(es[..|es| - 1]), es[|es| - 1]);
    }
  }

  /** The bodies passed to send in a run. */
  ghost function SentBy(es: seq<Event>): seq<string> {
    if es == [] then []
    else SentBy(es[..|es| - 1]) + if es[|es| - 1].Send? then [es[|es| - 1].body] else []
  }

  /** Once every POST is acknowledged and no batch is open, everything sent has been posted. */
  lemma QuiescentMeansDelivered(es: seq<Event>)
    requires Possible(es)
    ensures var t := Run(es);
            !t.closed && !t.awaitingBatchAck && t.currentBatch.None? ==> Flatten(t.posts) == SentBy(es)
  {
    NothingLostOrReordered(es);
  }

  /** The transport is closed exactly after a POST that failed, or after a close for another reason. */
  lemma ClosedIff(es: seq<Event>)
    requires Possible(es)
    ensures Run(es).closed <==> es != [] && (es[|es| - 1] == Rejected || es[|es| - 1] == Closed)
    ensures Run(es).closed ==> Run(es).posts == Run(es[..|es| - 1]).posts && Run(es).inFlight == 0
  {}

  /** A close loses exactly what was waiting: every body sent was posted if and only if nothing was. */
  lemma CloseLosesWhatWaited(es: seq<Event>)
    requires Possible(es) && Run(es).closed
    ensures es != [] && Flatten(Run(es).posts) + Waiting(Run(es[..|es| - 1])) == SentBy(es)
    ensures Flatten(Run(es).posts) == SentBy(es) <==> Waiting(Run(es[..|es| - 1])) == []
  {
    NothingLostOrReordered(es);
    ClosingStep(Run(es[..|es| - 1]), es[|es| - 1]);
    AppendsNothing(Flatten(Run(es).posts), Run(es).dropped, SentBy(es));
  }

  lemma ClosingStep(t: Transport, e: Event)
    requires Enabled(t, e) && Step(t, e).closed
    ensures Step(t, e).dropped == Waiting(t)
  {}

  lemma AppendsNothing(a: seq<string>, b: seq<string>, s: seq<string>)
    requires a + [] + b == s
    ensures a + b == s && (a == s <==> b == [])
  {
    assert a + [] + b == a + b && |s| == |a| + |b|;
  }

  /** Nothing but a timeout stalls an open transport: it awaits an ack that no POST can bring. */
  lemma {:induction false} StalledIff(es: seq<Event>)
    requires Possible(es) && !Run(es).closed
    ensures Run(es).awaitingBatchAck && Run(es).inFlight == 0 <==> TimedOut in es
  {
    if es != [] {
      var init, last := es[..|es| - 1], es[|es| - 1];
      StalledIff(init);
      NothingLostOrReordered(init);
      assert es == init + [last];
    }
  }

  lemma RunSnoc(es: seq<Event>, e: Event)
    requires Possible(es) && Enabled(Run(es), e)
    ensures Possible(es + [e]) && Run(es + [e]) == Step(Run(es), e)
  {
    assert (es + [e])[..|es|] == es;
  }

  /** Bodies handed to send one after the other. */
  function Sends(bodies: seq<string>): seq<Event> {
    if bodies == [] then [] else Sends(bodies[..|bodies| - 1]) + [Send(bodies[|bodies| - 1])]
  }

  /** They gather in the open batch, or in the buffer while an ack is awaited. */
  function Gathered(t: Transport, bodies: seq<string>): Transport {
    if bodies == [] then t
    else if t.awaitingBatchAck then t.(sent := t.sent + bodies, batchBuffer := t.batchBuffer + bodies)
    else t.(sent := t.sent + bodies, currentBatch := Some(bodies))
  }

  lemma GatherOne(t: Transport, bodies: seq<string>, last: string)
    requires !t.closed && t.currentBatch.None?
    ensures Enabled(Gathered(t, bodies), Send(last))
    ensures Step(Gathered(t, bodies), Send(last)) == Gathered(t, bodies + [last])
  {
    if bodies == [] {
      assert bodies + [last] == [last];
    } else {
      assert t.sent + (bodies + [last]) == t.sent + bodies + [last];
      assert t.batchBuffer + (bodies + [last]) == t.batchBuffer + bodies + [last];
    }
  }

  ghost predicate Reaches(es: seq<Event>, t: Transport) { Possible(es) && Run(es) == t }

  lemma {:induction false} SendsGather(es: seq<Event>, bodies: seq<string>, t: Transport)
    requires Reaches(es, t) && !t.closed && t.currentBatch.None?
    ensures Reaches(es + Sends(bodies), Gathered(t, bodies))
  {
    if bodies == [] {
      assert es + Sends(bodies) == es;
    } else {
      var init, last := bodies[..|bodies| - 1], bodies[|bodies| - 1];
      SendsGather(es, init, t);
      GatherMore(es, init, last, t, Sends(init), Sends(bodies));
      assert init + [last] == bodies;
    }
  }

  lemma GatherMore(es: seq<Event>, init: seq<string>, last: string, t: Transport, fs: seq<Event>, gs: seq<Event>)
    requires !t.closed && t.currentBatch.None? && gs == fs + [Send(last)]
    requires Reaches(es + fs, Gathered(t, init))
    ensures Reaches(es + gs, Gathered(t, init + [last]))
  {
    GatherOne(t, init, last);
    RunNext(es + fs, Gathered(t, init), Send(last), es + gs);
  }

  lemma RunNext(es: seq<Event>, t: Transport, e: Event, fs: seq<Event>)
    requires Possible(es) && Run(es) == t && Enabled(t, e) && fs == es + [e]
    ensures Possible(fs) && Run(fs) == Step(t, e)
  {
    RunSnoc(es, e);
  }

  /**
    What batching is for: whatever is sent before the batch timer fires goes out in one POST, and
    whatever is sent while a POST is un-acked goes out in one POST when its ack arrives.
  */
  lemma SentTogetherPostedTogether(es: seq<Event>, bodies: seq<string>)
    requires Possible(es) && !Run(es).closed && Run(es).currentBatch.None? && bodies != []
    ensures !Run(es).awaitingBatchAck ==>
              && Possible(es + Sends(bodies) + [BatchTimer])
              && Run(es + Sends(bodies)).posts == Run(es).posts
              && Run(es + Sends(bodies) + [BatchTimer]).posts == Run(es).posts + [bodies]
    ensures Run(es).inFlight > 0 ==>
              && Possible(es + Sends(bodies) + [Acked])
              && Run(es + Sends(bodies)).posts == Run(es).posts
              && Run(es + Sends(bodies) + [Acked]).posts == Run(es).posts + [Run(es).batchBuffer + bodies]
  {
    NothingLostOrReordered(es);
    SendsGather(es, bodies, Run(es));
    if !Run(es).awaitingBatchAck { RunSnoc(es + Sends(bodies), BatchTimer); }
    if Run(es).inFlight > 0 { RunSnoc(es + Sends(bodies), Acked); }
  }

  /** The shortest run that stalls. */
  lemma StallHappens()
    ensures Possible([Send("a"), BatchTimer, TimedOut]) && Stalled(Run([Send("a"), BatchTimer, TimedOut]))
  {
    var t := Step(INIT, Send("a"));
    RunSnoc([], Send("a"));
    assert [] + [Send("a")] == [Send("a")];
    RunSnoc([Send("a")], BatchTimer);
    var u := Step(t, BatchTimer);
    assert [Send("a")] + [BatchTimer] == [Send("a"), BatchTimer];
    assert u.inFlight == 1 && u.awaitingBatchAck && u.currentBatch.None?;
    RunSnoc([Send("a"), BatchTimer], TimedOut);
    assert [Send("a"), BatchTimer] + [TimedOut] == [Send("a"), BatchTimer, TimedOut];
  }

  /**
    A POST that times out is never recovered: the acknowledgement flag stays set, so whatever is
    sent afterwards is buffered and no further POST is ever issued before a close.
  */
  lemma {:induction false} TimeoutStallsTheQueue(es: seq<Event>, fs: seq<Event>)
    requires Possible(es + [TimedOut] + fs)
    ensures Possible(es) && Possible(es + [TimedOut])
    ensures Run(es + [TimedOut] + fs).posts == Run(es).posts
    ensures Stalled(Run(es + [TimedOut] + fs))
  {
    var run := es + [TimedOut] + fs;
    if fs == [] {
      assert run[..|run| - 1] == es && run == es + [TimedOut];
      NothingLostOrReordered(es);
    } else {
      assert run[..|run| - 1] == es + [TimedOut] + fs[..|fs| - 1];
      TimeoutStallsTheQueue(es, fs[..|fs| - 1]);
    }
  }

  ghost predicate Stalled(t: Transport) {
    t.awaitingBatchAck && t.inFlight == 0 && t.currentBatch.None?
  }

  // ---------------------------------------------------------------------------------------
  // The request body: messages joined by newlines
  // ---------------------------------------------------------------------------------------

  function Join(ms: seq<string>): string {
    if ms == [] then "" else if |ms| == 1 then ms[0] else ms[0] + "\n" + Join(ms[1..])
  }

  /** The lines of a body, as an ndjson reader sees them. */
  function Split(s: string): (r: seq<string>)
    ensures r != []
  {
    if s == "" then [""]
    else
      var r := Split(s[1..]);
      if s[0] == '\n' then [""] + r else [[s[0]] + r[0]] + r[1..]
  }

  function Newlines(s: string): nat {
    if s == "" then 0 else (if s[0] == '\n' then 1 else 0) + Newlines(s[1..])
  }

  lemma {:induction false} SplitLine(b: string, rest: string)
    requires Newlines(b) == 0
    ensures Split(b) == [b]
    ensures Split(b + "\n" + rest) == [b] + Split(rest)
  {
    if b == "" {
      assert b + "\n" + rest == "\n" + rest && ("\n" + rest)[1..] == rest;
    } else {
      SplitLine(b[1..], rest);
      assert [b[0]] + b[1..] == b;
      assert (b + "\n" + rest)[1..] == b[1..] + "\n" + rest;
    }
  }

  lemma {:induction false} NewlinesConcat(s: string, t: string)
    ensures Newlines(s + t) == Newlines(s) + Newlines(t)
  {
    if s == "" { assert s + t == t; } else { NewlinesConcat(s[1..], t); assert (s + t)[1..] == s[1..] + t; }
  }

  lemma {:induction false} SplitCount(s: string)
    ensures |Split(s)| == Newlines(s) + 1
  {
    if s != "" { SplitCount(s[1..]); }
  }

  lemma {:induction false} JoinCount(ms: seq<string>)
    requires ms != []
    ensures Newlines(Join(ms)) >= |ms| - 1
    ensures Newlines(Join(ms)) == |ms| - 1 ==> SingleLines(ms)
  {
    if |ms| > 1 {
      JoinCount(ms[1..]);
      NewlinesConcat(ms[0] + "\n", Join(ms[1..]));
      NewlinesConcat(ms[0], "\n");
      assert Newlines("\n") == 1;
    }
  }

  ghost predicate SingleLines(ms: seq<string>) {
    forall i | 0 <= i < |ms| :: Newlines(ms[i]) == 0
  }

  lemma {:induction false} SplitUndoesJoin(ms: seq<string>)
    requires ms != [] && SingleLines(ms)
    ensures Split(Join(ms)) == ms
  {
    if |ms| == 1 {
      SplitLine(ms[0], "");
      assert ms == [ms[0]];
    } else {
      SplitUndoesJoin(ms[1..]);
      SplitLine(ms[0], Join(ms[1..]));
      assert ms == [ms[0]] + ms[1..];
    }
  }

  /** The server reads back exactly the messages of a POST if and only if none contains a newline. */
  lemma BodyRoundTrip(ms: seq<string>)
    requires ms != []
    ensures Split(Join(ms)) == ms <==> SingleLines(ms)
  {
    if SingleLines(ms) {
      SplitUndoesJoin(ms);
    } else {
      SplitCount(Join(ms));
      JoinCount(ms);
    }
  }

  // ---------------------------------------------------------------------------------------
  // The object
  // ---------------------------------------------------------------------------------------

  class LongPoll {
    var currentBatch: Option<seq<string>>
    var batchBuffer: seq<string>
    var awaitingBatchAck: bool
    var posts: seq<seq<string>>
    var inFlight: nat
    var closed: bool
    ghost var sent: seq<string>
    ghost var dropped: seq<string>

    constructor ()
      ensures View() == INIT
    {
      currentBatch, batchBuffer, awaitingBatchAck, closed := None, [], false, false;
      posts, inFlight, sent, dropped := [], 0, [], [];
    }

    ghost function View(): Transport
      reads this
    {
      Transport(currentBatch, batchBuffer, awaitingBatchAck, closed, posts, inFlight, sent, dropped)
    }

    method Send(body: string)
      modifies this
      ensures !old(closed) ==> View() == Step(old(View()), Event.Send(body))
    {
      if currentBatch.Some? {
        currentBatch := Some(currentBatch.value + [body]);
      } else if awaitingBatchAck {
        batchBuffer := batchBuffer + [body];
      } else {
        currentBatch := Some([body]);
      }
      sent := sent + [body];
    }

    method BatchTimerFires()
      requires Enabled(View(), BatchTimer)
      modifies this
      ensures View() == Step(old(View()), BatchTimer)
    {
      BatchSend(currentBatch.value);
      currentBatch := None;
    }

    method BatchSend(messages: seq<string>)
      modifies `awaitingBatchAck, `posts, `inFlight
      ensures View() == Post(old(View()), messages)
    {
      awaitingBatchAck := true;
      posts, inFlight := posts + [messages], inFlight + 1;
    }

    /** The response callback of a POST: None is a response that is missing or does not parse. */
    method OnResponse(status: Option<int>)
      requires Enabled(View(), Acked)
      modifies this
      ensures View() == Step(old(View()), if status == Some(200) then Acked else Rejected)
    {
      inFlight := inFlight - 1;
      awaitingBatchAck := false;
      if status != Some(200) {
        CloseAndRetry();
      } else if |batchBuffer| > 0 {
        BatchSend(batchBuffer);
        batchBuffer := [];
      }
    }

    /** close(), with the requests in flight aborted. */
    method CloseAndRetry()
      requires !closed
      modifies `closed, `inFlight, `batchBuffer, `dropped
      ensures View() == Close(old(View()))
    {
      dropped := Waiting(View());
      closed, inFlight := true, 0;
      batchBuffer := [];
    }

    /** A POST times out: only the error handler runs. */
    method OnTimeout()
      requires Enabled(View(), TimedOut)
      modifies this
      ensures View() == Step(old(View()), TimedOut)
    {
      inFlight := inFlight - 1;
    }
  }
}
