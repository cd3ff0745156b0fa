/**
  Channel membership in the Phoenix JavaScript client: the join, rejoin, leave, error and timeout
  machinery of channel.js, its join push (push.js), its rejoin timer (timer.js) and the socket that
  dispatches to the channels (socket.js), all under hub-elixir/deps/phoenix/assets/js/phoenix/.
*/
module PhoenixChannel {
  import opened Common

  datatype ChannelState = Closed | Errored | Joined | Joining | Leaving

  /** The status of a reply; hooks exist for the first three. */
  datatype Status = Ok | Error | Timeout | Other

  /** A frame from the server, after decoding. */
  datatype Frame = Reply(ref: Option<nat>, status: Status) | ErrorFrame | CloseFrame | UserFrame

  /** What the run's results say about a channel: its fields, and whether the socket dispatches to it. */
  datatype View = View(topic: string, state: ChannelState, joinedOnce: bool, joinRef: Option<nat>,
                       bindings: set<nat>, joinTimer: bool, rejoinTimer: bool, listed: bool)

  /** A socket at one moment, with its latest reference and every channel created so far, in creation order. */
  datatype Snapshot = Snapshot(connected: bool, ref: nat, views: seq<View>)

  class Channel {
    const topic: string
    var state: ChannelState
    var joinedOnce: bool

    /** The reference of the latest join attempt, null after a reset. */
    var joinRef: Option<nat>
    /** The references whose reply event the join push listens to. */
    var bindings: set<nat>
    /** The reply the current join attempt has received. */
    var received: Option<Status>
    /** The join push's timeout timer is running. */
    var joinTimer: bool
    /** The rejoin timer is running, and how often it has fired since its last reset. */
    var rejoinTimer: bool
    var tries: nat

    constructor (topic: string)
      ensures this.topic == topic && state == Closed && !joinedOnce && joinRef == None
      ensures bindings == {} && received == None && !joinTimer && !rejoinTimer && tries == 0
    {
      this.topic := topic;
      state, joinedOnce, joinRef, bindings, received := Closed, false, None, {}, None;
      joinTimer, rejoinTimer, tries := false, false, 0;
    }

    predicate IsOpen()
      reads this
    {
      state == Joined || state == Joining
    }

    predicate IsMember(topic: string, joinRef: Option<nat>)
      reads this
    {
      this.topic == topic && (joinRef.None? || joinRef == this.joinRef)
    }

    /** The join push listens to its latest attempt at most, and references were issued by the socket. */
    ghost predicate Consistent(lastRef: nat)
      reads this
    {
      && state != Leaving
      && (joinRef.Some? ==> joinRef.value <= lastRef)
      && forall r | r in bindings :: joinRef == Some(r)
    }

    /** Push.cancelRefEvent and Push.reset on the join push. */
    method ResetJoinPush()
      modifies `bindings, `joinRef, `received
      ensures bindings == (if old(joinRef).Some? then old(bindings) - {old(joinRef).value} else old(bindings))
      ensures joinRef == None && received == None
    {
      CancelRefEvent();
      joinRef, received := None, None;
    }

    method CancelRefEvent()
      modifies `bindings
      ensures bindings == if joinRef.Some? then old(bindings) - {joinRef.value} else old(bindings)
    {
      if joinRef.Some? { bindings := bindings - {joinRef.value}; }
    }

    /** The join push receives a reply on its listening reference; its hooks update the channel. */
    method ReceiveJoinReply(status: Status, connected: bool)
      requires joinRef.Some? && bindings <= {joinRef.value}
      modifies this
      ensures joinedOnce == old(joinedOnce) && bindings == {} && !joinTimer
      ensures joinRef == if status == Timeout then None else old(joinRef)
      ensures received == if status == Timeout then None else Some(status)
      ensures state == match status case Ok => Joined case Other => old(state) case _ => Errored
      ensures rejoinTimer == match status
                             case Ok => false
                             case Other => old(rejoinTimer)
                             case _ => connected || old(rejoinTimer)
    {
      CancelRefEvent();
      joinTimer, received := false, Some(status);
      match status {
        case Ok =>
          state := Joined;
          ResetRejoinTimer();
        case Error =>
          state := Errored;
          ScheduleRejoin(connected);
        case Timeout =>
          state := Errored;
          ResetJoinPush();
          ScheduleRejoin(connected);
        case Other =>
      }
    }

    method ResetRejoinTimer()
      modifies `rejoinTimer, `tries
      ensures !rejoinTimer && tries == 0
    {
      tries, rejoinTimer := 0, false;
    }

    /** After an error: the rejoin timer is started if the socket is connected. */
    method ScheduleRejoin(connected: bool)
      modifies `rejoinTimer
      ensures rejoinTimer == (connected || old(rejoinTimer))
    {
      if connected { rejoinTimer := true; }
    }
  }

  class Socket {
    /** The channels the socket dispatches to, in creation order. */
    var channels: seq<Channel>
    /** Every channel created so far, removed ones included. */
    var created: seq<Channel>
    var ref: nat
    var connected: bool

    constructor ()
      ensures Valid() && created == [] && !connected
    {
      channels, created, ref, connected := [], [], 0, false;
    }

    /** At most one channel per topic in socket.channels is joined or joining. */
    ghost predicate OneOpenPerTopic()
      reads this, channels
    {
      forall c, d | c in channels && d in channels && c != d && c.topic == d.topic :: !(c.IsOpen() && d.IsOpen())
    }

    /** A dispatched channel still listening for its join reply is joining. */
    ghost predicate ListeningIsJoining()
      reads this, channels
    {
      forall c | c in channels && c.bindings != {} :: c.state == Joining
    }

    static ghost predicate Distinct(cs: seq<Channel>) {
      forall i, j | 0 <= i < j < |cs| :: cs[i] != cs[j]
    }

    /** What every event keeps. */
    ghost predicate Valid()
      reads this, created, channels
    {
      && Distinct(created) && Distinct(channels)
      && (forall c | c in channels :: c in created)
      && (forall c | c in created :: c.Consistent(ref))
      && OneOpenPerTopic()
      && ListeningIsJoining()
    }

    /**
      A change of one channel is safe unless it opens the channel beside another open one of its
      topic, or leaves it listening without being in the joining state.
    */
    twostate lemma KeepsValid(c: Channel)
      requires old(Valid()) && created == old(created) && c in created && ref >= old(ref)
      requires Distinct(channels) && forall d | d in channels :: d in old(channels)
      requires forall d | d in created && d != c :: unchanged(d)
      requires c.Consistent(ref)
      requires c in channels && c.IsOpen() ==>
                 old(c.IsOpen()) || forall d | d in channels && d != c && d.topic == c.topic :: !d.IsOpen()
      requires c in channels && c.bindings != {} ==> c.state == Joining
      ensures Valid()
    {
      forall d | d in created ensures d.Consistent(ref) { assert old(d.Consistent(ref)); }
    }

    /** A channel closed for good: no longer dispatched to, and with nothing left to wake it. */
    ghost predicate Retired(c: Channel)
      reads this, c
    {
      && c !in channels && c.state == Closed && c.joinedOnce && !c.rejoinTimer
      && (c.joinTimer ==> c.bindings == {})
    }

    /** Another channel rejoins the topic: an open one of it leaves, and nothing else happens. */
    twostate predicate Yields(c: Channel, topic: string)
      reads this, c
    {
      Displaced(old(ViewOf(c)), Some(topic), ViewOf(c)) && (c.state == old(c.state) ==> unchanged(c))
    }

    /** What a channel's rejoin does to the others. */
    twostate predicate Displaces(c: Channel)
      reads this, created
    {
      forall d | d in created && d in old(created) && d != c :: Yields(d, c.topic)
    }

    /** Everything a frame does to a channel it is for. */
    twostate predicate Answered(c: Channel, frame: Frame)
      reads this, c
    {
      && AnsweredView(connected, old(ViewOf(c)), frame, ViewOf(c))
      && (old(Ignores(c, frame)) ==> unchanged(c))
    }

    /** A frame of the user's, or a reply that no join attempt waits for. */
    predicate Ignores(c: Channel, frame: Frame)
      reads c
    {
      frame.UserFrame? || (frame.Reply? && (frame.ref.None? || frame.ref.value !in c.bindings))
    }

    method MakeRef() returns (r: nat)
      modifies `ref
      ensures r == ref == old(ref) + 1
    {
      ref := ref + 1;
      r := ref;
    }

    method Remove(c: Channel)
      modifies `channels
      ensures forall d :: d in channels <==> d in old(channels) && d != c
      ensures |channels| <= |old(channels)| && (old(Distinct(channels)) ==> Distinct(channels))
      ensures channels == Except(old(channels), c)
    {
      channels := Except(channels, c);
    }

    static function Except(s: seq<Channel>, c: Channel): (r: seq<Channel>)
      ensures forall d | d in r :: d in s && d != c
      ensures forall d | d in s && d != c :: d in r
      ensures |r| <= |s| && (Distinct(s) ==> Distinct(r))
    {
      if s == [] then []
      else
        var rest := Except(s[1..], c);
        assert Distinct(s) ==> s[0] !in s[1..];
        if s[0] == c then rest else [s[0]] + rest
    }

    static lemma {:induction false} ExceptAt(s: seq<Channel>, i: nat)
      requires i < |s| && Distinct(s)
      ensures Except(s, s[i]) == s[..i] + s[i + 1..]
    {
      if i == 0 {
        ExceptAbsent(s[1..], s[0]);
      } else {
        assert s[1..][i - 1] == s[i];
        ExceptAt(s[1..], i - 1);
        WithoutOne(s, i);
      }
    }

    static lemma WithoutOne(s: seq<Channel>, i: nat)
      requires 0 < i < |s|
      ensures [s[0]] + (s[1..][..i - 1] + s[1..][i..]) == s[..i] + s[i + 1..]
    {
      assert [s[0]] + s[1..][..i - 1] == s[..i];
    }

    static lemma {:induction false} ExceptAbsent(s: seq<Channel>, c: Channel)
      requires c !in s
      ensures Except(s, c) == s
    {
      if s != [] { ExceptAbsent(s[1..], c); }
    }

    /**
      What a close frame for some members leaves of a list: each member reached is removed, and then
      the one behind it is passed over, since it has moved to the place just visited.
    */
    static function Survivors(s: seq<Channel>, members: set<Channel>): (r: seq<Channel>)
      ensures forall c | c in r :: c in s
      ensures forall c | c in s && c !in members :: c in r
    {
      if s == [] then []
      else if s[0] !in members then [s[0]] + Survivors(s[1..], members)
      else if |s| == 1 then []
      else [s[1]] + Survivors(s[2..], members)
    }

    /** A member survives exactly if the member before it in the list was removed. */
    static lemma {:induction false} SurvivesIff(s: seq<Channel>, i: nat, members: set<Channel>)
      requires i < |s| && Distinct(s)
      ensures s[i] in Survivors(s, members) <==>
              s[i] !in members || (i > 0 && s[i - 1] !in Survivors(s, members))
    {
      assert s[i] in s && (i > 0 ==> s[i - 1] in s);
      if s[0] !in members {
        if i > 0 { SurvivesIff(s[1..], i - 1, members); }
      } else if |s| > 1 && i > 1 {
        SurvivesIff(s[2..], i - 2, members);
      }
    }

    /** One index of that loop. */
    static lemma SurvivorsStep(s: seq<Channel>, i: nat, members: set<Channel>)
      requires i < |s| && Distinct(s)
      ensures Remaining(s, i, members) ==
              if s[i] in members then Remaining(Except(s, s[i]), i + 1, members) else Remaining(s, i + 1, members)
    {
      if s[i] !in members {
        StepOver(s, i, members, s[..i], s[i], s[i + 1..]);
      } else {
        ExceptAt(s, i);
        if i + 1 < |s| {
          StepClosed(s, i, members, s[..i], s[i + 1], s[i + 2..]);
        } else {
          assert s[i..] == [s[i]] && s[..i] + [] == s[..i];
        }
      }
    }

    static lemma StepOver(s: seq<Channel>, i: nat, members: set<Channel>, before: seq<Channel>, c: Channel,
                          after: seq<Channel>)
      requires i < |s| && before == s[..i] && c == s[i] && after == s[i + 1..] && c !in members
      ensures Remaining(s, i, members) == Remaining(s, i + 1, members)
    {
      assert s[i..][0] == c && s[i..][1..] == after && s[..i + 1] == before + [c];
      assert before + ([c] + Survivors(after, members)) == (before + [c]) + Survivors(after, members);
    }

    static lemma StepClosed(s: seq<Channel>, i: nat, members: set<Channel>, before: seq<Channel>, next: Channel,
                            after: seq<Channel>)
      requires i + 1 < |s| && before == s[..i] && next == s[i + 1] && after == s[i + 2..] && s[i] in members
      ensures Remaining(s, i, members) == Remaining(s[..i] + s[i + 1..], i + 1, members)
    {
      var t := s[..i] + s[i + 1..];
      assert s[i..][0] == s[i] && s[i..][1] == next && s[i..][2..] == after;
      assert t[..i + 1] == before + [next] && t[i + 1..] == after;
      assert before + ([next] + Survivors(after, members)) == (before + [next]) + Survivors(after, members);
    }

    /** What the loop leaves of a list, seen from index i. */
    static function Remaining(s: seq<Channel>, i: nat, members: set<Channel>): seq<Channel> {
      if i <= |s| then s[..i] + Survivors(s[i..], members) else s
    }

    /** The loop from index i on. */
    static function Visited(s: seq<Channel>, i: nat, members: set<Channel>): seq<Channel>
      decreases |s| - i
    {
      if i >= |s| then s
      else if s[i] in members then Visited(Except(s, s[i]), i + 1, members)
      else Visited(s, i + 1, members)
    }

    static lemma {:induction false} VisitedLeaves(s: seq<Channel>, i: nat, members: set<Channel>)
      requires Distinct(s) && i <= |s|
      ensures Visited(s, i, members) == Remaining(s, i, members)
      decreases |s| - i
    {
      if i == |s| {
        assert s[i..] == [] && s[..i] + [] == s;
      } else {
        SurvivorsStep(s, i, members);
        if s[i] in members {
          ExceptAt(s, i);
          if i + 1 < |s| {
            VisitedLeaves(Except(s, s[i]), i + 1, members);
          }
        } else {
          VisitedLeaves(s, i + 1, members);
        }
      }
    }

    /** socket.channel(topic): a new channel, not yet joined. */
    method NewChannel(topic: string) returns (c: Channel)
      requires Valid()
      modifies this
      ensures Valid() && fresh(c) && ViewOf(c) == NewView(topic)
      ensures created == old(created) + [c] && channels == old(channels) + [c]
      ensures connected == old(connected) && ref == old(ref)
    {
      c := new Channel(topic);
      channels, created := channels + [c], created + [c];
    }

    /** The channel's close hook. */
    method OnClose(c: Channel)
      requires c in created
      modifies `channels, c`state, c`rejoinTimer, c`tries
      ensures c.state == Closed && !c.rejoinTimer
      ensures forall d :: d in channels <==> d in old(channels) && d != c
      ensures |channels| <= |old(channels)| && (old(Distinct(channels)) ==> Distinct(channels))
      ensures channels == Except(old(channels), c)
    {
      c.ResetRejoinTimer();
      c.state := Closed;
      Remove(c);
    }

    /**
      channel.leave(). The state is set to leaving before canPush() is asked, so the answer is
      always no and the close hook runs at once, without waiting for the server.
    */
    method Leave(c: Channel)
      requires Valid() && c in created
      modifies this, c
      ensures Valid() && created == old(created) && connected == old(connected)
      ensures c.state == Closed && !c.joinTimer && !c.rejoinTimer && c.joinRef == old(c.joinRef)
      ensures c.joinedOnce == old(c.joinedOnce) && c.bindings == old(c.bindings) && ref >= old(ref)
      ensures c.joinedOnce ==> Retired(c)
      ensures LeftView(old(ViewOf(c)), ViewOf(c))
      ensures forall d :: d in channels <==> d in old(channels) && d != c
    {
      c.ResetRejoinTimer();
      c.joinTimer := false;
      c.state := Leaving;
      var leaveRef := MakeRef();
      var canPush := connected && c.state == Joined;
      if !canPush { OnClose(c); }
      KeepsValid(c);
    }

    /** Leaves the first joined or joining channel with this topic, if there is one. */
    method LeaveOpenTopic(topic: string)
      requires Valid()
      modifies this, created
      ensures Valid() && created == old(created) && connected == old(connected)
      ensures ref >= old(ref) && forall d | d in created :: Yields(d, topic)
      ensures forall d | d in channels && d.topic == topic :: !d.IsOpen()
    {
      var i := 0;
      while i < |channels| && !(channels[i].topic == topic && channels[i].IsOpen())
        invariant 0 <= i <= |channels|
        invariant forall k | 0 <= k < i :: !(channels[k].topic == topic && channels[k].IsOpen())
      {
        i := i + 1;
      }
      if i < |channels| {
        var dup := channels[i];
        assert dup in channels;
        Leave(dup);
      }
    }

    /** channel.rejoin(): any open channel of the topic leaves, then a fresh join attempt starts. */
    method Rejoin(c: Channel)
      requires Valid() && c in created
      modifies this, created
      ensures Valid() && created == old(created) && connected == old(connected)
      ensures c.state == Joining && c.joinRef == Some(ref) && ref > old(ref) && c.bindings == {ref} && c.joinTimer
      ensures RejoinedView(old(ViewOf(c)), ViewOf(c), old(ref), ref) && Displaces(c)
    {
      if c.state == Leaving { return; }
      LeaveOpenTopic(c.topic);
      assert c.Consistent(ref);
      label left:
      c.state := Joining;
      Resend(c);
      KeepsValid@left(c);
    }

    /** Push.resend on the join push. */
    method Resend(c: Channel)
      requires forall r | r in c.bindings :: c.joinRef == Some(r)
      modifies `ref, c`joinRef, c`bindings, c`joinTimer, c`received
      ensures ref == old(ref) + 1 && c.joinRef == Some(ref) && c.bindings == {ref} && c.joinTimer && c.received == None
    {
      c.ResetJoinPush();
      SendJoin(c);
    }

    /** Push.send and Push.startTimeout on the join push. */
    method SendJoin(c: Channel)
      modifies `ref, c`joinRef, c`bindings, c`joinTimer
      ensures c.received == Some(Timeout) ==>
                && ref == old(ref) && c.joinRef == old(c.joinRef)
                && c.bindings == old(c.bindings) && c.joinTimer == old(c.joinTimer)
      ensures c.received != Some(Timeout) ==>
                ref == old(ref) + 1 && c.joinRef == Some(ref) && c.bindings == old(c.bindings) + {ref} && c.joinTimer
    {
      if c.received == Some(Timeout) { return; }
      var r := MakeRef();
      c.joinRef := Some(r);
      c.bindings := c.bindings + {r};
      c.joinTimer := true;
    }

    /** channel.join(): allowed once per channel. */
    method Join(c: Channel) returns (threw: bool)
      requires Valid() && c in created
      modifies this, created
      ensures Valid() && created == old(created) && connected == old(connected)
      ensures threw == old(c.joinedOnce) && c.joinedOnce
      ensures threw ==> ref == old(ref) && channels == old(channels) && forall d | d in created :: unchanged(d)
      ensures !threw ==>
                c.state == Joining && c.joinRef == Some(ref) && ref > old(ref) && c.bindings == {ref} && c.joinTimer
      ensures !threw ==> RejoinedView(old(ViewOf(c)).(joinedOnce := true), ViewOf(c), old(ref), ref) && Displaces(c)
    {
      if c.joinedOnce { return true; }
      c.joinedOnce := true;
      Rejoin(c);
      return false;
    }

    /** The channel's error hook. */
    method OnError(c: Channel)
      requires Valid() && c in created
      modifies c
      ensures Valid()
      ensures ErredView(connected, old(ViewOf(c)), ViewOf(c))
    {
      assert c.Consistent(ref);
      if c.state == Joining { c.ResetJoinPush(); }
      c.state := Errored;
      c.ScheduleRejoin(connected);
      KeepsValid(c);
    }

    /** The reply event of reference r fires with a status: only a listening join push reacts. */
    method TriggerReply(c: Channel, r: nat, status: Status)
      requires Valid() && c in created
      modifies `ref, c
      ensures Valid() && ref >= old(ref) && Answered(c, Reply(Some(r), status))
      ensures r in old(c.bindings) ==> old(c.joinRef) == Some(r)
      ensures r !in old(c.bindings) ==> ref == old(ref)
    {
      if r !in c.bindings { return; }
      assert c.Consistent(ref);
      c.ReceiveJoinReply(status, connected);
      if status == Timeout { var leaveRef := MakeRef(); }
      KeepsValid(c);
    }

    /** What the close hook leaves: nothing of the join push is touched. */
    twostate predicate ClosedByServer(c: Channel)
      reads c
    {
      && c.state == Closed && !c.rejoinTimer && c.joinedOnce == old(c.joinedOnce) && c.joinRef == old(c.joinRef)
      && c.bindings == old(c.bindings) && c.joinTimer == old(c.joinTimer)
    }

    ghost function Members(topic: string, joinRef: Option<nat>): set<Channel>
      reads this, channels
    {
      set c | c in channels && c.IsMember(topic, joinRef)
    }

    /** What a frame does: the members react to it, but a close passes over the one behind each member reached. */
    twostate predicate Delivered(topic: string, frame: Frame, joinRef: Option<nat>)
      reads this, created
    {
      && (forall c | c in created && c in old(created) && c !in old(Members(topic, joinRef)) :: unchanged(c))
      && if frame.CloseFrame? then
           && channels == Survivors(old(channels), old(Members(topic, joinRef)))
           && (forall c | c in channels && c in created :: c in old(channels) && unchanged(c))
           && (forall c | c in old(channels) && c in created && c !in channels :: Answered(c, CloseFrame))
         else
           && channels == old(channels)
           && forall c | c in old(Members(topic, joinRef)) && c in created ::
                Answered(c, frame)
    }

    static lemma LoopLeaves(s: seq<Channel>, members: set<Channel>)
      requires Distinct(s)
      ensures Visited(s, 0, members) == Survivors(s, members)
    {
      VisitedLeaves(s, 0, members);
      assert s[0..] == s && s[..0] + Survivors(s, members) == Survivors(s, members);
    }

    /**
      onConnMessage: dispatch to every channel that is a member, reading the channel list afresh at
      each index. Only a close changes the list.
    */
    method OnMessage(topic: string, frame: Frame, joinRef: Option<nat>)
      requires Valid()
      modifies this, created
      ensures Valid() && created == old(created) && connected == old(connected) && ref >= old(ref)
      ensures Delivered(topic, frame, joinRef)
    {
      if frame.CloseFrame? { DispatchClose(topic, joinRef); } else { DispatchAll(topic, frame, joinRef); }
    }

    /** The loop, for a frame that leaves the list alone. */
    method DispatchAll(topic: string, frame: Frame, joinRef: Option<nat>)
      requires Valid() && !frame.CloseFrame?
      modifies this, created
      ensures Valid() && created == old(created) && connected == old(connected) && ref >= old(ref)
      ensures channels == old(channels)
      ensures forall c | c in created && c !in old(Members(topic, joinRef)) :: unchanged(c)
      ensures forall c | c in old(Members(topic, joinRef)) ::
                Answered(c, frame)
    {
      ghost var members := Members(topic, joinRef);
      for i := 0 to |channels|
        invariant Valid() && created == old(created) && connected == old(connected) && ref >= old(ref)
        invariant channels == old(channels)
        invariant forall c | c in created && c !in members :: unchanged(c)
        invariant forall k | i <= k < |channels| ::
                    unchanged(channels[k]) && (channels[k] in members <==> channels[k].IsMember(topic, joinRef))
        invariant forall k | 0 <= k < i && channels[k] in members ::
                    Answered(channels[k], frame)
      {
        var c := channels[i];
        assert c in channels;
        if c.IsMember(topic, joinRef) { React(c, frame); }
      }
    }

    method DispatchClose(topic: string, joinRef: Option<nat>)
      requires Valid()
      modifies this, created
      ensures Valid() && created == old(created) && connected == old(connected) && ref == old(ref)
      ensures Delivered(topic, CloseFrame, joinRef)
    {
      ghost var members := Members(topic, joinRef);
      LoopLeaves(channels, members);
      CloseMembers(topic, joinRef);
      forall c | c in old(channels) && c !in channels ensures Answered(c, CloseFrame) {
        assert c in members;
      }
    }

    /** The loop, for a close. */
    method CloseMembers(topic: string, joinRef: Option<nat>)
      requires Valid()
      modifies this, created
      ensures Valid() && created == old(created) && connected == old(connected) && ref == old(ref)
      ensures forall c | c in created && c !in old(Members(topic, joinRef)) :: unchanged(c)
      ensures channels == Visited(old(channels), 0, old(Members(topic, joinRef)))
      ensures forall c | c in channels :: unchanged(c)
      ensures forall c | c in old(Members(topic, joinRef)) && c !in channels :: ClosedByServer(c)
    {
      ghost var members := Members(topic, joinRef);
      ghost var survivors := Visited(channels, 0, members);
      var i := 0;
      while i < |channels|
        invariant Valid() && created == old(created) && connected == old(connected) && ref == old(ref)
        invariant survivors == Visited(channels, i, members)
        invariant forall c | c in created :: if c in members && c !in channels then ClosedByServer(c) else unchanged(c)
        invariant forall c | c in channels :: c in members <==> c.IsMember(topic, joinRef)
        decreases |channels| - i
      {
        assert channels[i] in channels && channels[i] in created;
        CloseAt(i, topic, joinRef, members);
        i := i + 1;
      }
    }

    /** One index of it. */
    method CloseAt(i: nat, topic: string, joinRef: Option<nat>, ghost members: set<Channel>)
      requires Valid() && i < |channels| && (channels[i] in members <==> channels[i].IsMember(topic, joinRef))
      modifies `channels, channels[i]
      ensures Valid() && Visited(channels, i + 1, members) == old(Visited(channels, i, members))
      ensures if old(channels[i]) in members then old(channels[i]) !in channels && ClosedByServer(old(channels[i]))
              else unchanged(old(channels[i]))
      ensures |channels| <= |old(channels)| && forall d | d in channels :: d in old(channels)
      ensures forall d | d in old(channels) && (d != old(channels[i]) || d !in members) :: d in channels
    {
      if channels[i].IsMember(topic, joinRef) { CloseMember(channels[i]); }
    }

    /** The channel's bindings for one frame. */
    method Dispatch(c: Channel, frame: Frame)
      requires Valid() && c in channels
      modifies `ref, `channels, c
      ensures Valid() && ref >= old(ref) && (frame.CloseFrame? ==> ref == old(ref))
      ensures channels == if frame.CloseFrame? then Except(old(channels), c) else old(channels)
      ensures Answered(c, frame)
      ensures frame.CloseFrame? ==> (Retired(c) <==> old(c.joinedOnce) && !(old(c.joinTimer) && old(c.bindings) != {}))
    {
      if frame.CloseFrame? { CloseMember(c); } else { React(c, frame); }
    }

    method CloseMember(c: Channel)
      requires Valid() && c in channels
      modifies `channels, c
      ensures Valid() && channels == Except(old(channels), c) && ClosedByServer(c)
    {
      assert c.Consistent(ref);
      OnClose(c);
      KeepsValid(c);
    }

    method React(c: Channel, frame: Frame)
      requires Valid() && c in channels && !frame.CloseFrame?
      modifies `ref, c
      ensures Valid() && ref >= old(ref) && Answered(c, frame)
    {
      match frame {
        case Reply(r, status) =>
          if r.Some? { TriggerReply(c, r.value, status); }
        case ErrorFrame => OnError(c);
        case UserFrame =>
      }
    }

    /** The join push's timer fires: it triggers the reply event of the current reference, if any. */
    method JoinTimerFires(c: Channel)
      requires Valid() && c in created && c.joinTimer
      modifies `ref, c
      ensures Valid() && ref >= old(ref) && TimedOutView(connected, old(ViewOf(c)), ViewOf(c))
    {
      c.joinTimer := false;
      assert c.Consistent(ref);
      KeepsValid(c);
      if c.joinRef.Some? { TriggerReply(c, c.joinRef.value, Timeout); }
    }

    /** The rejoin timer fires: while connected the channel rejoins. */
    method RejoinTimerFires(c: Channel)
      requires Valid() && c in created && c.rejoinTimer
      modifies this, created
      ensures Valid() && created == old(created) && connected == old(connected)
      ensures ref >= old(ref)
      ensures connected ==>
                RejoinedView(old(ViewOf(c)).(rejoinTimer := false), ViewOf(c), old(ref), ref) && Displaces(c)
      ensures !connected ==>
                && ViewOf(c) == old(ViewOf(c)).(rejoinTimer := false)
                && forall d | d in created && d != c :: unchanged(d) && ViewOf(d) == old(ViewOf(d))
    {
      c.rejoinTimer, c.tries := false, c.tries + 1;
      assert c.Consistent(ref);
      KeepsValid(c);
      if connected { Rejoin(c); }
    }

    /** triggerChanError: every channel that is joined or joining errors. */
    method TriggerChanError()
      requires Valid()
      modifies created
      ensures Valid()
      ensures forall d | d in created && d !in channels :: unchanged(d)
      ensures forall c | c in channels ::
                if old(c.IsOpen()) then ErredView(connected, old(ViewOf(c)), ViewOf(c)) else unchanged(c)
    {
      for i := 0 to |channels|
        invariant Valid()
        invariant forall d | d in created && d !in channels :: unchanged(d)
        invariant forall k | i <= k < |channels| :: unchanged(channels[k])
        invariant forall k | 0 <= k < i ::
                    var c := channels[k];
                    if old(c.IsOpen()) then ErredView(connected, old(ViewOf(c)), ViewOf(c)) else unchanged(c)
      {
        var c := channels[i];
        assert c in channels;
        if !(c.state == Errored || c.state == Leaving || c.state == Closed) { OnError(c); }
      }
    }

    /**
      onConnError: the rejoin timers are reset, then the channels error unless a fallback took over.
      Channels that had errored before are skipped, so while the socket stays connected exactly those
      are left without a rejoin timer.
    */
    method OnConnError(fallback: bool)
      requires Valid()
      modifies created
      ensures Valid()
      ensures connected && !fallback ==>
                forall c | c in channels :: c.state == Errored && !c.rejoinTimer <==> old(c.state) == Errored
      ensures forall d | d in created && d !in channels :: unchanged(d)
      ensures forall c | c in channels ::
                var v := old(ViewOf(c)).(rejoinTimer := false);
                if !fallback && old(c.IsOpen()) then ErredView(connected, v, ViewOf(c)) else ViewOf(c) == v
    {
      ResetTimers();
      if !fallback { TriggerChanError(); }
    }

    method ResetTimers()
      requires Valid()
      modifies created
      ensures Valid()
      ensures forall d | d in created && d !in channels :: unchanged(d)
      ensures forall c | c in channels :: ViewOf(c) == old(ViewOf(c)).(rejoinTimer := false)
    {
      for i := 0 to |channels|
        invariant Valid()
        invariant forall d | d in created && d !in channels :: unchanged(d)
        invariant forall k | i <= k < |channels| :: unchanged(channels[k])
        invariant forall k | 0 <= k < i :: ViewOf(channels[k]) == old(ViewOf(channels[k])).(rejoinTimer := false)
      {
        var c := channels[i];
        assert c in channels && c.Consistent(ref);
        label before:
        c.ResetRejoinTimer();
        KeepsValid@before(c);
      }
    }

    /** The channels, by creation order, that are in a list. */
    ghost function Positions(cs: seq<Channel>): set<nat>
      reads this
    {
      set k | 0 <= k < |created| && created[k] in cs
    }

    /** What its own callback does to a channel: an errored one starts a fresh join attempt. */
    twostate predicate CalledBack(c: Channel)
      reads this, c
    {
      CalledBackView(old(ViewOf(c)), ViewOf(c), old(ref), ref)
    }

    /**
      onConnOpen: the open callbacks, one per channel registered when the socket opened, even if an
      earlier callback has removed the channel: reset the rejoin timer and rejoin if errored.

      An errored channel that is still dispatched to afterwards is joining on a fresh reference, and
      every topic with an errored channel has such a one. The other topics only lose their timers.
    */
    method OnConnOpen()
      requires Valid()
      modifies this, created
      ensures Valid() && created == old(created) && connected && ref >= old(ref)
      ensures forall c | c in created && c !in old(channels) :: unchanged(c) && c !in channels
      ensures forall k | 0 <= k < |created| && created[k] in old(channels) ::
                && ReopenedView(old(ViewOf(created[k])), ViewOf(created[k]), old(ref), ref)
                && TopicReopens(old(Shot()), old(ViewOf(created[k])), Shot(), k)
    {
      ghost var start := ViewsOf(created);
      connected := true;
      RunCallbacks(channels, start);
    }

    method RunCallbacks(callbacks: seq<Channel>, ghost start: seq<View>)
      requires Valid() && connected && callbacks == channels
      requires |start| == |created| && forall k | 0 <= k < |created| :: start[k] == ViewOf(created[k])
      modifies this, created
      ensures Valid() && created == old(created) && connected
      ensures forall d | d in created && d !in callbacks :: unchanged(d) && d !in channels
      ensures CallbacksRun(start, ViewsOf(created), Positions(callbacks), old(ref), ref)
    {
      ghost var before := ref;
      for i := 0 to |callbacks|
        invariant Valid() && created == old(created) && connected
        invariant forall d | d in created && d !in callbacks :: unchanged(d) && d !in channels
        invariant CallbacksRun(start, ViewsOf(created), Positions(callbacks[..i]), before, ref)
      {
        NextCallback(callbacks, i, start, before);
      }
      assert callbacks[..|callbacks|] == callbacks;
    }

    method NextCallback(callbacks: seq<Channel>, i: nat, ghost start: seq<View>, ghost before: nat)
      requires Valid() && connected && i < |callbacks| && Distinct(callbacks)
      requires CallbacksRun(start, ViewsOf(created), Positions(callbacks[..i]), before, ref)
      requires forall d | d in created && d !in callbacks :: d !in channels
      requires callbacks[i] in created && forall k | 0 <= k < |created| && created[k] == callbacks[i] :: start[k].listed
      modifies this, created
      ensures Valid() && created == old(created) && connected
      ensures CallbacksRun(start, ViewsOf(created), Positions(callbacks[..i + 1]), before, ref)
      ensures forall d | d in created && d !in callbacks :: unchanged(d) && d !in channels
    {
      var c := callbacks[i];
      ghost var j :| 0 <= j < |created| && created[j] == c;
      OneMorePosition(callbacks, i, j);
      OpenCallback(c);
      CallbackShown(j);
      ghost var views, done := old(ViewsOf(created)), old(Positions(callbacks[..i]));
      CallbackRuns(start, views, ViewsOf(created), done, j, before, old(ref), ref);
    }

    lemma OneMorePosition(cs: seq<Channel>, i: nat, j: nat)
      requires Distinct(cs) && Distinct(created) && i < |cs| && j < |created| && created[j] == cs[i]
      ensures Positions(cs[..i + 1]) == Positions(cs[..i]) + {j} && j !in Positions(cs[..i])
    {
      assert cs[..i + 1] == cs[..i] + [cs[i]];
    }

    twostate lemma CallbackShown(j: nat)
      requires created == old(created) && Distinct(created) && j < |created| && CalledBack(created[j])
      requires forall d | d in created && d != created[j] :: SparedView(old(ViewOf(d)), ViewOf(d))
      requires forall d | d in created && d != created[j] ::
                 d.topic != created[j].topic || old(created[j].state) != Errored ==> ViewOf(d) == old(ViewOf(d))
      ensures forall k | 0 <= k < |created| :: CallbackRan(old(ViewsOf(created)), ViewsOf(created), j, k, old(ref), ref)
    {
      forall k | 0 <= k < |created| ensures CallbackRan(old(ViewsOf(created)), ViewsOf(created), j, k, old(ref), ref) {
        assert created[k] in created;
      }
    }

    /** A channel's own open callback. */
    method OpenCallback(c: Channel)
      requires Valid() && c in created
      modifies this, created
      ensures Valid() && created == old(created) && connected == old(connected) && ref >= old(ref)
      ensures old(c.state) == Errored ==>
                && c.state == Joining && c.joinRef == Some(ref) && ref > old(ref) && c.joinTimer && c.bindings == {ref}
                && !c.rejoinTimer && c.joinedOnce == old(c.joinedOnce) && (c in channels <==> c in old(channels))
      ensures old(c.state) != Errored ==> ViewOf(c) == old(ViewOf(c)).(rejoinTimer := false) && ref == old(ref)
      ensures CalledBack(c) && forall d | d in created && d != c :: SparedView(old(ViewOf(d)), ViewOf(d))
      ensures forall d | d in created && (d.topic != c.topic || (d != c && old(c.state) != Errored)) ::
                ViewOf(d) == old(ViewOf(d))
      ensures forall d | d in created && d !in old(channels) && d != c :: unchanged(d) && d !in channels
    {
      assert c.Consistent(ref);
      c.ResetRejoinTimer();
      KeepsValid(c);
      if c.state == Errored { Rejoin(c); }
    }

    ghost function ViewOf(c: Channel): View
      reads this, c
    {
      View(c.topic, c.state, c.joinedOnce, c.joinRef, c.bindings, c.joinTimer, c.rejoinTimer, c in channels)
    }

    ghost function ViewsOf(cs: seq<Channel>): (r: seq<View>)
      reads this, cs
      ensures |r| == |cs| && forall i | 0 <= i < |cs| :: r[i] == ViewOf(cs[i])
    {
      if cs == [] then [] else ViewsOf(cs[..|cs| - 1]) + [ViewOf(cs[|cs| - 1])]
    }

    ghost function Shot(): Snapshot
      reads this, created
    {
      Snapshot(connected, ref, ViewsOf(created))
    }

    twostate predicate Affected(e: Event, k: nat, c: Channel)
      reads this, c
    {
      Effect(old(Shot()), old(ViewOf(c)), e, k, ViewOf(c), ref)
    }

    /** Everything one event does, to each channel there was and to the channels together. */
    twostate predicate Effects(e: Event)
      reads this, created
    {
      && old(created) <= created
      && (forall k | 0 <= k < |old(created)| :: created[k] == old(created)[k] && Affected(e, k, created[k]))
      && Together(old(Shot()), e, Shot())
    }

    method Receive(e: Event)
      requires Valid() && e.Message?
      modifies this, created
      ensures Valid() && created == old(created) && Effects(e)
    {
      OnMessage(e.topic, e.frame, e.joinRef);
      MessageAffects(e);
    }

    /** The only member of a close is not passed over. */
    twostate lemma CloseShown(e: Event)
      requires old(Valid()) && created == old(created)
      requires e.Message? && e.frame.CloseFrame? && Delivered(e.topic, e.frame, e.joinRef)
      ensures forall k | 0 <= k < |created| && OnlyMember(old(ViewsOf(created)), k, e.topic, e.joinRef) ::
                created[k] !in channels
    {
      ghost var members := old(Members(e.topic, e.joinRef));
      forall k | 0 <= k < |created| && OnlyMember(old(ViewsOf(created)), k, e.topic, e.joinRef)
        ensures created[k] !in channels
      {
        ghost var i :| 0 <= i < |old(channels)| && old(channels)[i] == created[k];
        SurvivesIff(old(channels), i, members);
        if i > 0 {
          ghost var d := old(channels)[i - 1];
          ghost var m :| 0 <= m < |created| && created[m] == d;
          assert !Member(old(ViewsOf(created))[m], e.topic, e.joinRef);
          assert d !in members;
        }
      }
    }

    twostate lemma MessageAffects(e: Event)
      requires old(Valid()) && Valid() && created == old(created) && connected == old(connected) && ref >= old(ref)
      requires e.Message? && Delivered(e.topic, e.frame, e.joinRef)
      ensures Effects(e)
    {
      if e.frame.CloseFrame? { CloseShown(e); }
      forall k | 0 <= k < |created| ensures Affected(e, k, created[k]) {
        var c := created[k];
        assert c in created;
        assert c in old(Members(e.topic, e.joinRef)) <==> c in old(channels) && old(c.IsMember(e.topic, e.joinRef));
      }
    }

    /** A call or timer of the k-th channel, which displaces the others it disturbs. */
    twostate lemma CallAffects(e: Event)
      requires e.JoinCall? || e.LeaveCall? || e.JoinTimer? || e.RejoinTimer?
      requires created == old(created) && connected == old(connected) && ref >= old(ref)
      requires Distinct(created) && e.channel < |created|
      requires Affected(e, e.channel, created[e.channel])
      requires forall d | d in created && d != created[e.channel] ::
                 Displaced(old(ViewOf(d)), RejoinTopic(old(Shot()), e), ViewOf(d))
      ensures Effects(e)
    {
      forall i | 0 <= i < |created| ensures Affected(e, i, created[i]) {
        assert created[i] in created;
      }
    }

    /** The user's calls and the channels' own timers. */
    method Act(e: Event)
      requires Valid() && (e.JoinCall? || e.LeaveCall? || e.JoinTimer? || e.RejoinTimer?)
      modifies this, created
      ensures Valid() && created == old(created) && Effects(e)
    {
      if e.channel < |created| {
        var c := created[e.channel];
        match e {
          case JoinCall(_) => CallJoin(e, c);
          case LeaveCall(_) => CallLeave(e, c);
          case JoinTimer(_) => JoinTimerEvent(e, c);
          case RejoinTimer(_) => RejoinTimerEvent(e, c);
        }
      }
    }

    method CallJoin(e: Event, c: Channel)
      requires Valid() && e.JoinCall? && e.channel < |created| && c == created[e.channel]
      modifies this, created
      ensures Valid() && created == old(created) && Effects(e)
    {
      var _ := Join(c);
      CallAffects(e);
    }

    method CallLeave(e: Event, c: Channel)
      requires Valid() && e.LeaveCall? && e.channel < |created| && c == created[e.channel]
      modifies this, created
      ensures Valid() && created == old(created) && Effects(e)
    {
      Leave(c);
      CallAffects(e);
    }

    /** A timer fires only while running. */
    method JoinTimerEvent(e: Event, c: Channel)
      requires Valid() && e.JoinTimer? && e.channel < |created| && c == created[e.channel]
      modifies this, created
      ensures Valid() && created == old(created) && Effects(e)
    {
      if c.joinTimer { JoinTimerFires(c); }
      CallAffects(e);
    }

    method RejoinTimerEvent(e: Event, c: Channel)
      requires Valid() && e.RejoinTimer? && e.channel < |created| && c == created[e.channel]
      modifies this, created
      ensures Valid() && created == old(created) && Effects(e)
    {
      if c.rejoinTimer { RejoinTimerFires(c); }
      CallAffects(e);
    }

    /** The connection opens, fails or is lost. */
    twostate lemma ConnectionAffects(e: Event)
      requires created == old(created) && (e.Opened? || e.TransportError? || e.ChannelsError?)
      requires ref >= old(ref) && connected == (e.Opened? || old(connected))
      requires forall d | d in created :: Effect(old(Shot()), old(ViewOf(d)), e, 0, ViewOf(d), ref)
      requires e.Opened? ==> forall k | 0 <= k < |created| && created[k] in old(channels) ::
                 TopicReopens(old(Shot()), old(ViewOf(created[k])), Shot(), k)
      ensures Effects(e)
    {
      forall k | 0 <= k < |created| ensures Affected(e, k, created[k]) {
        assert created[k] in created;
      }
    }

    method Connection(e: Event)
      requires Valid() && (e.Opened? || e.TransportError? || e.ChannelsError?)
      modifies this, created
      ensures Valid() && created == old(created) && Effects(e)
    {
      match e {
        case Opened => Opens(e);
        case TransportError(fallback) => Fails(e);
        case ChannelsError => Closes(e);
      }
    }

    method Opens(e: Event)
      requires Valid() && e.Opened?
      modifies this, created
      ensures Valid() && created == old(created) && Effects(e)
    {
      OnConnOpen();
      ConnectionAffects(e);
    }

    method Fails(e: Event)
      requires Valid() && e.TransportError?
      modifies this, created
      ensures Valid() && created == old(created) && Effects(e)
    {
      OnConnError(e.fallback);
      ConnectionAffects(e);
    }

    method Closes(e: Event)
      requires Valid() && e.ChannelsError?
      modifies this, created
      ensures Valid() && created == old(created) && Effects(e)
    {
      TriggerChanError();
      ConnectionAffects(e);
    }

    /** Something happens that no channel there was notices. */
    twostate predicate Unnoticed(e: Event)
      reads this, created
    {
      && (e.Create? || e.SetConnected? || e.OtherRef?) && old(created) <= created
      && connected == (if e.SetConnected? then e.now else old(connected))
      && forall c | c in created && c in old(created) :: ViewOf(c) == old(ViewOf(c))
    }

    twostate lemma UnnoticedAffects(e: Event)
      requires Unnoticed(e) && Together(old(Shot()), e, Shot())
      ensures Effects(e)
    {
      forall k | 0 <= k < |old(created)| ensures created[k] == old(created)[k] && Affected(e, k, created[k]) {
        assert created[k] in created && ViewOf(created[k]) == old(ViewOf(created[k]));
      }
    }

    method Creates(e: Event)
      requires Valid() && e.Create?
      modifies this
      ensures Valid() && Effects(e)
      ensures forall k | |old(created)| <= k < |created| :: fresh(created[k])
    {
      var c := NewChannel(e.topic);
      assert ViewsOf(created)[|old(created)|] == ViewOf(c);
      UnnoticedAffects(e);
    }

    method Background(e: Event)
      requires Valid() && (e.SetConnected? || e.OtherRef?)
      modifies this
      ensures Valid() && created == old(created) && Effects(e)
    {
      if e.OtherRef? {
        var _ := MakeRef();
      } else {
        connected := e.now;
      }
      UnnoticedAffects(e);
    }

    /** One event of a run; channels are named by creation order. */
    method Perform(e: Event)
      requires Valid()
      modifies this, created
      ensures Valid() && Effects(e)
      ensures forall k | |old(created)| <= k < |created| :: fresh(created[k])
    {
      if e.Message? {
        Receive(e);
      } else if e.Opened? || e.TransportError? || e.ChannelsError? {
        Connection(e);
      } else if e.Create? {
        Creates(e);
      } else if e.SetConnected? || e.OtherRef? {
        Background(e);
      } else {
        Act(e);
      }
    }

    /** What an event does to each channel, on the views of it before and after. */
    twostate lemma StepShown(e: Event)
      requires old(Valid()) && old(created) <= created && Effects(e)
      ensures StepOf(old(Shot()), e, Shot())
    {
      var t, u := old(Shot()), Shot();
      forall k | 0 <= k < |t.views| ensures ViewStep(t, t.views[k], e, k, u.views[k], u.ref) {
        assert created[k] == old(created)[k] && Affected(e, k, created[k]);
        assert created[k] in old(created) && old(created[k].Consistent(ref));
        EffectTells(t, t.views[k], e, k, u.views[k], u.ref);
      }
    }

    lemma OneOpenShown()
      requires Valid()
      ensures OneOpen(Shot())
    {
      forall i, j | 0 <= i < j < |created|
        ensures var v, w := ViewOf(created[i]), ViewOf(created[j]);
                !(v.topic == w.topic && v.listed && w.listed && OpenView(v) && OpenView(w))
      {
        assert created[i] != created[j];
      }
    }

    /** The last event of a run, which extends the trace by the socket as it is afterwards. */
    method Extend(es: seq<Event>, ghost trace: seq<Snapshot>) returns (ghost next: seq<Snapshot>)
      requires Valid() && es != [] && Tells(trace, es[..|es| - 1]) && trace[|es| - 1] == Shot()
      modifies this, created
      ensures Valid() && old(created) <= created
      ensures forall k | |old(created)| <= k < |created| :: fresh(created[k])
      ensures Tells(next, es) && next[0] == trace[0] && next[|es|] == Shot()
    {
      var init, last := es[..|es| - 1], es[|es| - 1];
      Perform(last);
      StepShown(last);
      OneOpenShown();
      TellsNext(trace, init, last, Shot());
      next := trace + [Shot()];
      assert es == init + [last];
    }

    /**
      Every run, told by the socket as it was before each event and at the end. Each event changes each
      channel as Effect says, field by field; in particular, when the socket opens, every topic with an
      errored channel rejoins on a fresh reference. At every moment at most one channel per topic in
      socket.channels is joined or joining; a channel becomes joined only on the ok reply to its latest
      join attempt; a channel closed for good never comes back; and a rejoin timer runs at the end
      exactly if some error hit its channel while connected, and no event since then has stopped it.
    */
    method Run(es: seq<Event>) returns (ghost trace: seq<Snapshot>)
      requires Valid()
      modifies this, created
      ensures Valid() && OneOpenPerTopic()
      ensures Tells(trace, es) && trace[0] == old(Shot()) && trace[|es|] == Shot()
      ensures forall k | 0 <= k < |old(created)| && old(Retired(created[k])) :: k < |created| && Retired(created[k])
      ensures forall k | 0 <= k < |created| :: created[k].rejoinTimer <==> TimerOn(trace, es, k)
    {
      trace := Record(es);
      TimersOn(trace, es);
      ghost var now := Shot();
      forall k | 0 <= k < |old(created)| && old(Retired(created[k])) ensures k < |created| && Retired(created[k]) {
        RetiredStays(trace, es, k);
        assert now.views[k] == ViewOf(created[k]);
      }
    }

    method Record(es: seq<Event>) returns (ghost trace: seq<Snapshot>)
      requires Valid()
      modifies this, created
      ensures Valid() && old(created) <= created
      ensures forall k | |old(created)| <= k < |created| :: fresh(created[k])
      ensures Tells(trace, es) && trace[0] == old(Shot()) && trace[|es|] == Shot()
    {
      if es == [] {
        OneOpenShown();
        trace := [Shot()];
      } else {
        trace := Record(es[..|es| - 1]);
        trace := Extend(es, trace);
      }
    }
  }

  // ---------------------------------------------------------------------------------------
  // What starts and stops a rejoin timer, told from the events of a run
  // ---------------------------------------------------------------------------------------

  predicate OpenView(v: View) { v.state == Joined || v.state == Joining }

  predicate Member(v: View, topic: string, joinRef: Option<nat>) {
    v.listed && v.topic == topic && (joinRef.None? || joinRef == v.joinRef)
  }

  /** The event is an error for the k-th channel: a frame, a failed or timed-out join, a lost connection. */
  predicate ErrorHits(e: Event, k: nat, v: View) {
    match e
    case Message(topic, ErrorFrame, joinRef) => Member(v, topic, joinRef)
    case Message(topic, Reply(Some(r), status), joinRef) =>
      Member(v, topic, joinRef) && r in v.bindings && (status == Error || status == Timeout)
    case JoinTimer(j) => j == k && v.joinTimer && v.bindings != {}
    case TransportError(fallback) => !fallback && v.listed && OpenView(v)
    case ChannelsError => v.listed && OpenView(v)
    case _ => false
  }

  /**
    The event stops the k-th channel's rejoin timer, w being the channel afterwards: it left, was
    removed or joined, the timer ran out, or the socket reset the timers of the channels it knows.
  */
  predicate Stopped(e: Event, k: nat, v: View, w: View) {
    || e == LeaveCall(k) || e == RejoinTimer(k)
    || (v.listed && !w.listed)
    || (w.state == Joined && v.state != Joined)
    || (v.listed && (e.Opened? || e.TransportError?))
  }

  /** At most one channel per topic is dispatched to while joined or joining. */
  ghost predicate OneOpen(t: Snapshot) {
    forall i, j | 0 <= i < j < |t.views| ::
      var v, w := t.views[i], t.views[j];
      !(v.topic == w.topic && v.listed && w.listed && OpenView(v) && OpenView(w))
  }

  /** A join attempt is under way, on a reference issued after `before`, to which alone the channel listens. */
  predicate StartedView(w: View, before: nat, now: nat) {
    && w.state == Joining && w.joinTimer && w.joinRef.Some? && w.bindings == {w.joinRef.value}
    && before < w.joinRef.value <= now
  }

  predicate JoiningView(w: View, topic: string, before: nat, now: nat) {
    w.topic == topic && w.listed && StartedView(w, before, now)
  }

  /** channel.leave(): closed and removed, with its timers off; the join push keeps its reference. */
  predicate LeftView(v: View, w: View) {
    w == v.(state := Closed, listed := false, joinTimer := false, rejoinTimer := false)
  }

  /** Nothing happens to a channel, or it was open and leaves for another one of its topic. */
  predicate SparedView(v: View, w: View) {
    w == v || (v.listed && OpenView(v) && LeftView(v, w))
  }

  /** The error hook resets a pending join attempt, and starts the rejoin timer while connected. */
  predicate ErredView(connected: bool, v: View, w: View) {
    var u := if v.state == Joining then v.(joinRef := None, bindings := {}) else v;
    w == u.(state := Errored, rejoinTimer := connected || v.rejoinTimer)
  }

  /** Everything a frame does to a channel it is for. */
  predicate AnsweredView(connected: bool, v: View, frame: Frame, w: View) {
    match frame
    case UserFrame => w == v
    case ErrorFrame => ErredView(connected, v, w)
    case CloseFrame => w == v.(state := Closed, listed := false, rejoinTimer := false)
    case Reply(r, status) =>
      if r.None? || r.value !in v.bindings then w == v
      else
        var u := v.(bindings := {}, joinTimer := false);
        match status
        case Ok => w == u.(state := Joined, rejoinTimer := false)
        case Error => w == u.(state := Errored, rejoinTimer := connected || v.rejoinTimer)
        case Timeout => w == u.(state := Errored, rejoinTimer := connected || v.rejoinTimer, joinRef := None)
        case Other => w == u
  }

  /** The join push's timer has fired: an attempt that still waits for its reply has failed. */
  predicate TimedOutView(connected: bool, v: View, w: View) {
    if v.bindings == {} then w == v.(joinTimer := false)
    else w == v.(state := Errored, joinRef := None, bindings := {}, joinTimer := false,
                 rejoinTimer := connected || v.rejoinTimer)
  }

  /** channel.rejoin(): the channel has left if it was open, and a fresh join attempt has started. */
  predicate RejoinedView(v: View, w: View, before: nat, now: nat) {
    var stays := v.listed && !OpenView(v);
    && StartedView(w, before, now)
    && w == v.(state := Joining, joinRef := w.joinRef, bindings := w.bindings, joinTimer := true, listed := stays,
               rejoinTimer := v.rejoinTimer && (v.listed ==> stays))
  }

  predicate CalledBackView(v: View, w: View, before: nat, now: nat) {
    if v.state == Errored then
      && w.topic == v.topic && w.listed == v.listed && w.joinedOnce == v.joinedOnce && !w.rejoinTimer
      && StartedView(w, before, now)
    else
      w == v.(rejoinTimer := false)
  }

  /**
    A dispatched channel after the socket opened: an errored one has started a fresh join attempt, or
    left for a channel of its topic that did so later; any other is as it was, or left for such a one.
  */
  predicate ReopenedView(v: View, w: View, before: nat, now: nat) {
    && w.topic == v.topic && w.joinedOnce == v.joinedOnce && !w.rejoinTimer
    && if v.state != Errored then SparedView(v.(rejoinTimer := false), w)
       else if w.listed then StartedView(w, before, now)
       else w.state == Closed && !w.joinTimer
  }

  /** Some channel of the topic to which the socket dispatches is errored. */
  predicate TopicErrored(views: seq<View>, topic: string) {
    exists m :: 0 <= m < |views| && views[m].listed && views[m].state == Errored && views[m].topic == topic
  }

  /** Some channel of the topic to which the socket dispatches joins on a reference above `before`. */
  predicate TopicRejoins(views: seq<View>, topic: string, before: nat, now: nat) {
    exists m :: 0 <= m < |views| && JoiningView(views[m], topic, before, now)
  }

  /** A channel in the course of these callbacks, its own `done` or not. */
  predicate Called(v: View, w: View, done: bool, topicErrored: bool, before: nat, now: nat) {
    && (if done then ReopenedView(v, w, before, now) else SparedView(v, w))
    && (!topicErrored ==> w == if done then v.(rejoinTimer := false) else v)
  }

  /** After the callbacks of these channels: they have reopened, and the others were spared. */
  ghost predicate CallbacksRun(start: seq<View>, views: seq<View>, done: set<nat>, before: nat, now: nat) {
    && |start| == |views| && before <= now
    && (forall k | 0 <= k < |start| ::
          Called(start[k], views[k], k in done, TopicErrored(start, start[k].topic), before, now))
    && forall k | 0 <= k < |start| && k in done && start[k].state == Errored ::
         TopicRejoins(views, start[k].topic, before, now)
  }

  /** What the callback of the j-th channel does to the k-th. */
  predicate CallbackRan(vs: seq<View>, ws: seq<View>, j: nat, k: nat, mid: nat, now: nat)
    requires j < |vs| == |ws| && k < |vs|
  {
    && (if k == j then CalledBackView(vs[k], ws[k], mid, now) else SparedView(vs[k], ws[k]))
    && (vs[k].topic != vs[j].topic || (k != j && vs[j].state != Errored) ==> ws[k] == vs[k])
  }

  lemma CallbackRuns(start: seq<View>, vs: seq<View>, ws: seq<View>, done: set<nat>, j: nat, before: nat, mid: nat,
                     now: nat)
    requires CallbacksRun(start, vs, done, before, mid) && |ws| == |vs| && mid <= now
    requires j < |vs| && j !in done && start[j].listed
    requires forall k | 0 <= k < |vs| :: CallbackRan(vs, ws, j, k, mid, now)
    ensures CallbacksRun(start, ws, done + {j}, before, now)
  {
    assert Called(start[j], vs[j], false, TopicErrored(start, start[j].topic), before, mid);
    forall k | 0 <= k < |start|
      ensures Called(start[k], ws[k], k in done + {j}, TopicErrored(start, start[k].topic), before, now)
    {
      assert CallbackRan(vs, ws, j, k, mid, now);
      assert start[k].topic == start[j].topic && start[j].state == Errored ==> TopicErrored(start, start[k].topic);
      CalledNext(start[k], vs[k], ws[k], k in done, TopicErrored(start, start[k].topic), k == j, before, mid, now);
    }
    forall k | 0 <= k < |start| && k in done + {j} && start[k].state == Errored
      ensures TopicRejoins(ws, start[k].topic, before, now)
    {
      assert CallbackRan(vs, ws, j, j, mid, now);
      TopicStillRejoins(vs, ws, start[k].topic, j, k in done, before, mid, now);
    }
  }

  /** A callback that displaces the channel through which its topic rejoins starts such an attempt itself. */
  lemma TopicStillRejoins(vs: seq<View>, ws: seq<View>, topic: string, j: nat, rejoined: bool, before: nat, mid: nat,
                          now: nat)
    requires before <= mid <= now && j < |vs| == |ws| && (vs[j].state == Errored ==> vs[j].listed)
    requires forall k | 0 <= k < |vs| :: CallbackRan(vs, ws, j, k, mid, now)
    requires if rejoined then TopicRejoins(vs, topic, before, mid) else vs[j].state == Errored && vs[j].topic == topic
    ensures TopicRejoins(ws, topic, before, now)
  {
    assert CallbackRan(vs, ws, j, j, mid, now);
    if vs[j].state == Errored && vs[j].topic == topic {
      assert JoiningView(ws[j], topic, before, now);
    } else {
      var m :| 0 <= m < |vs| && JoiningView(vs[m], topic, before, mid);
      assert CallbackRan(vs, ws, j, m, mid, now);
      assert JoiningView(ws[m], topic, before, now);
    }
  }

  /** One more callback, for this channel or another one. */
  lemma CalledNext(v0: View, v: View, w: View, done: bool, topicErrored: bool, own: bool, before: nat, mid: nat,
                   now: nat)
    requires before <= mid <= now && (own ==> !done && v0.listed) && (!topicErrored ==> own || w == v)
    requires Called(v0, v, done, topicErrored, before, mid) && (own && v0.state == Errored ==> topicErrored)
    requires if own then CalledBackView(v, w, mid, now) else SparedView(v, w)
    ensures Called(v0, w, done || own, topicErrored, before, now)
  {}

  /** A channel becomes joined only on the ok reply to its latest join attempt, from the joining state. */
  predicate JoinsOnReply(v: View, e: Event, w: View) {
    w.state == Joined && v.state != Joined ==>
      v.state == Joining && v.joinRef.Some? && e.Message? && e.frame == Reply(v.joinRef, Ok) && e.topic == v.topic
  }

  ghost predicate Running(t: Snapshot, k: nat) { k < |t.views| && t.views[k].rejoinTimer }

  /** While connected, an error hits the k-th channel. */
  ghost predicate Starts(t: Snapshot, e: Event, k: nat) {
    k < |t.views| && t.connected && ErrorHits(e, k, t.views[k])
  }

  ghost predicate Stops(t: Snapshot, e: Event, u: Snapshot, k: nat) {
    k < |t.views| <= |u.views| && Stopped(e, k, t.views[k], u.views[k])
  }

  /** Closed for good: not dispatched to, with nothing left to wake it. */
  predicate RetiredView(v: View) {
    !v.listed && v.state == Closed && v.joinedOnce && !v.rejoinTimer && (v.joinTimer ==> v.bindings == {})
  }

  /** Another channel rejoins its topic: if open and dispatched to, the channel leaves for it. */
  predicate Displaced(v: View, topic: Option<string>, w: View) {
    if topic == Some(v.topic) && v.listed && OpenView(v) then LeftView(v, w) else w == v
  }

  /** The topic for which a call or a timer starts a join attempt. */
  function RejoinTopic(t: Snapshot, e: Event): Option<string> {
    match e
    case JoinCall(j) => if j < |t.views| && !t.views[j].joinedOnce then Some(t.views[j].topic) else None
    case RejoinTimer(j) =>
      if j < |t.views| && t.connected && t.views[j].rejoinTimer then Some(t.views[j].topic) else None
    case _ => None
  }

  /** Everything one event does to the k-th channel. */
  predicate Effect(t: Snapshot, v: View, e: Event, k: nat, w: View, now: nat) {
    match e
    case JoinCall(j) =>
      if j != k then Displaced(v, RejoinTopic(t, e), w)
      else if v.joinedOnce then w == v
      else RejoinedView(v.(joinedOnce := true), w, t.ref, now)
    case LeaveCall(j) => if j == k then LeftView(v, w) else w == v
    case Message(topic, frame, joinRef) =>
      if Member(v, topic, joinRef) then AnsweredView(t.connected, v, frame, w) || (frame.CloseFrame? && w == v)
      else w == v
    case JoinTimer(j) =>
      if j == k && v.joinTimer then TimedOutView(t.connected, v, w) else w == v
    case RejoinTimer(j) =>
      if j != k then Displaced(v, RejoinTopic(t, e), w)
      else if t.connected && v.rejoinTimer then RejoinedView(v.(rejoinTimer := false), w, t.ref, now)
      else w == v.(rejoinTimer := false)
    case Opened => if v.listed then ReopenedView(v, w, t.ref, now) else w == v
    case TransportError(fallback) =>
      if !v.listed then w == v
      else if !fallback && OpenView(v) then ErredView(t.connected, v.(rejoinTimer := false), w)
      else w == v.(rejoinTimer := false)
    case ChannelsError => if v.listed && OpenView(v) then ErredView(t.connected, v, w) else w == v
    case _ => w == v
  }

  /** What an event does to the channels together. */
  ghost predicate Together(t: Snapshot, e: Event, u: Snapshot) {
    && t.ref <= u.ref
    && u.connected == (if e.Opened? then true else if e.SetConnected? then e.now else t.connected)
    && (if e.Create? then |u.views| == |t.views| + 1 && u.views[|t.views|] == NewView(e.topic)
        else |u.views| == |t.views|)
    && (e.Opened? ==> forall k | 0 <= k < |t.views| && t.views[k].listed :: TopicReopens(t, t.views[k], u, k))
    && (e.Message? && e.frame.CloseFrame? ==>
          forall k | 0 <= k < |u.views| && OnlyMember(t.views, k, e.topic, e.joinRef) :: !u.views[k].listed)
  }

  /** A frame for this topic and join reference is for this channel alone. */
  predicate OnlyMember(views: seq<View>, k: nat, topic: string, joinRef: Option<nat>) {
    && k < |views| && Member(views[k], topic, joinRef)
    && forall m | 0 <= m < |views| && m != k :: !Member(views[m], topic, joinRef)
  }

  function NewView(topic: string): View { View(topic, Closed, false, None, {}, false, false, true) }

  /** When the socket opens, a topic rejoins if a channel of it had errored, and only loses its timers if not. */
  predicate TopicReopens(t: Snapshot, v: View, u: Snapshot, k: nat) {
    && (v.state == Errored ==> TopicRejoins(u.views, v.topic, t.ref, u.ref))
    && (!TopicErrored(t.views, v.topic) ==> k < |u.views| && u.views[k] == v.(rejoinTimer := false))
  }

  /** One event, on one channel. */
  predicate ViewStep(t: Snapshot, v: View, e: Event, k: nat, w: View, now: nat) {
    && v.topic == w.topic && JoinsOnReply(v, e, w) && (RetiredView(v) ==> RetiredView(w))
    && (w.rejoinTimer <==> (t.connected && ErrorHits(e, k, v)) || (v.rejoinTimer && !Stopped(e, k, v, w)))
    && Effect(t, v, e, k, w, now)
  }

  /** A join push listens to its latest attempt at most, and a dispatched channel that listens is joining. */
  predicate SoundView(v: View) {
    (forall r | r in v.bindings :: v.joinRef == Some(r)) && (v.listed && v.bindings != {} ==> v.state == Joining)
  }

  /** What that means for becoming joined, for a channel closed for good, and for the rejoin timer. */
  lemma EffectTells(t: Snapshot, v: View, e: Event, k: nat, w: View, now: nat)
    requires SoundView(v) && Effect(t, v, e, k, w, now)
    ensures ViewStep(t, v, e, k, w, now)
  {
    EffectJoins(t, v, e, k, w, now);
    EffectOnTimer(t, v, e, k, w, now);
  }

  lemma EffectJoins(t: Snapshot, v: View, e: Event, k: nat, w: View, now: nat)
    requires SoundView(v) && Effect(t, v, e, k, w, now)
    ensures v.topic == w.topic && JoinsOnReply(v, e, w)
  {}

  lemma EffectOnTimer(t: Snapshot, v: View, e: Event, k: nat, w: View, now: nat)
    requires SoundView(v) && Effect(t, v, e, k, w, now)
    ensures w.rejoinTimer <==> (t.connected && ErrorHits(e, k, v)) || (v.rejoinTimer && !Stopped(e, k, v, w))
  {}

  ghost predicate StepOf(t: Snapshot, e: Event, u: Snapshot) {
    && |t.views| <= |u.views|
    && (forall k | 0 <= k < |t.views| :: ViewStep(t, t.views[k], e, k, u.views[k], u.ref))
    && Together(t, e, u)
  }

  /** A trace of a run: the socket before each event, and at the end. */
  ghost predicate Tells(trace: seq<Snapshot>, es: seq<Event>) {
    && |trace| == |es| + 1
    && (forall i | 0 <= i < |trace| :: OneOpen(trace[i]))
    && forall i | 0 <= i < |es| :: StepOf(trace[i], es[i], trace[i + 1])
  }

  lemma TellsNext(trace: seq<Snapshot>, es: seq<Event>, e: Event, u: Snapshot)
    requires Tells(trace, es) && StepOf(trace[|es|], e, u) && OneOpen(u)
    ensures Tells(trace + [u], es + [e])
  {
    var trace', es' := trace + [u], es + [e];
    forall i | 0 <= i < |es'| ensures StepOf(trace'[i], es'[i], trace'[i + 1]) {
      if i < |es| { assert StepOf(trace[i], es[i], trace[i + 1]); }
    }
  }

  /** Event i started the k-th channel's rejoin timer, and no later one stopped it. */
  ghost predicate StartedAt(trace: seq<Snapshot>, es: seq<Event>, k: nat, i: int)
    requires |trace| == |es| + 1
  {
    && 0 <= i < |es| && Starts(trace[i], es[i], k)
    && forall j | i < j < |es| :: !Stops(trace[j], es[j], trace[j + 1], k)
  }

  /** The rejoin timer was started in the run, or ran before it, and was not stopped since. */
  ghost predicate TimerOn(trace: seq<Snapshot>, es: seq<Event>, k: nat)
    requires |trace| == |es| + 1
  {
    || (exists i :: StartedAt(trace, es, k, i))
    || (Running(trace[0], k) && forall j | 0 <= j < |es| :: !Stops(trace[j], es[j], trace[j + 1], k))
  }

  lemma {:induction false} TimerOnIff(trace: seq<Snapshot>, es: seq<Event>, k: nat)
    requires Tells(trace, es)
    ensures Running(trace[|es|], k) <==> TimerOn(trace, es, k)
  {
    if es != [] {
      var n := |es| - 1;
      TellsBefore(trace, es);
      TimerOnIff(trace[..n + 1], es[..n], k);
      TimerOnStep(trace, es, k);
      assert StepOf(trace[n], es[n], trace[n + 1]);
    }
  }

  lemma TellsBefore(trace: seq<Snapshot>, es: seq<Event>)
    requires Tells(trace, es) && es != []
    ensures Tells(trace[..|es|], es[..|es| - 1])
  {
    var n := |es| - 1;
    forall i | 0 <= i < n ensures StepOf(trace[..n + 1][i], es[..n][i], trace[..n + 1][i + 1]) {
      assert StepOf(trace[i], es[i], trace[i + 1]);
    }
  }

  lemma TimerOnStep(trace: seq<Snapshot>, es: seq<Event>, k: nat)
    requires |trace| == |es| + 1 && es != []
    ensures var n := |es| - 1;
            TimerOn(trace, es, k) <==>
              || Starts(trace[n], es[n], k)
              || (TimerOn(trace[..n + 1], es[..n], k) && !Stops(trace[n], es[n], trace[n + 1], k))
  {
    var n := |es| - 1;
    var trace', es' := trace[..n + 1], es[..n];
    forall i | 0 <= i < n
      ensures StartedAt(trace, es, k, i) <==>
                StartedAt(trace', es', k, i) && !Stops(trace[n], es[n], trace[n + 1], k)
    {
      assert forall j | i < j < n ::
          Stops(trace'[j], es'[j], trace'[j + 1], k) <==> Stops(trace[j], es[j], trace[j + 1], k);
    }
    assert forall j | 0 <= j < n ::
        Stops(trace'[j], es'[j], trace'[j + 1], k) <==> Stops(trace[j], es[j], trace[j + 1], k);
    if Starts(trace[n], es[n], k) { assert StartedAt(trace, es, k, n); }
  }

  lemma TimersOn(trace: seq<Snapshot>, es: seq<Event>)
    requires Tells(trace, es)
    ensures forall k | 0 <= k < |trace[|es|].views| :: trace[|es|].views[k].rejoinTimer <==> TimerOn(trace, es, k)
  {
    forall k | 0 <= k < |trace[|es|].views| ensures trace[|es|].views[k].rejoinTimer <==> TimerOn(trace, es, k) {
      TimerOnIff(trace, es, k);
    }
  }

  lemma {:induction false} RetiredStays(trace: seq<Snapshot>, es: seq<Event>, k: nat)
    requires Tells(trace, es) && k < |trace[0].views| && RetiredView(trace[0].views[k])
    ensures k < |trace[|es|].views| && RetiredView(trace[|es|].views[k])
  {
    if es != [] {
      TellsBefore(trace, es);
      RetiredStays(trace[..|es|], es[..|es| - 1], k);
      assert StepOf(trace[|es| - 1], es[|es| - 1], trace[|es|]);
    }
  }

  /**
    The close hook does not stop the join push's timer. So every channel the server closes while its
    join attempt is pending comes back: the timer errors it, and it rejoins although the socket no
    longer dispatches to it. Dispatch states that this is the only way a close is not for good.
  */
  method ServerClosedChannelReturns(s: Socket, c: Channel)
    requires s.Valid() && s.connected && c in s.channels && c.joinTimer && c.bindings != {}
    modifies s, s.created
    ensures s.Valid() && c !in s.channels && c.state == Joining
  {
    assert c.Consistent(s.ref);
    s.Dispatch(c, CloseFrame);
    assert c.state == Closed;
    s.JoinTimerFires(c);
    s.RejoinTimerFires(c);
  }

  /** A run from a new socket to a joined channel. */
  method JoinedLobby() returns (s: Socket, c: Channel)
    ensures fresh(s) && fresh(c) && fresh(s.created) && s.Valid() && s.connected
    ensures c in s.channels && c.topic == "room:lobby" && c.state == Joined
  {
    s := new Socket();
    s.OnConnOpen();
    c := s.NewChannel("room:lobby");
    var _ := s.Join(c);
    assert c in s.Members("room:lobby", c.joinRef);
    s.OnMessage("room:lobby", Reply(c.joinRef, Ok), c.joinRef);
  }

  /**
    A channel that errors while connected waits for its rejoin timer. A transport error that does not
    close the connection, such as a long-poll POST reported as timed out, puts it to sleep: it stays
    errored and dispatched, with no timer running, until the socket opens again.
  */
  method TransportErrorPutsToSleep() returns (s: Socket, c: Channel)
    ensures fresh(s) && fresh(c) && s.Valid() && s.connected
    ensures c in s.channels && c.state == Errored && !c.rejoinTimer
  {
    s, c := JoinedLobby();
    assert c in s.Members("room:lobby", c.joinRef);
    s.OnMessage("room:lobby", ErrorFrame, c.joinRef);
    assert c.state == Errored && c.rejoinTimer;
    s.OnConnError(false);
  }

  /**
    What can happen to a socket and its channels. `ChannelsError` is a connection close or a
    heartbeat timeout; `SetConnected` is the transport changing its ready state; `OtherRef` is a
    reference handed to some other push.
  */
  datatype Event =
    | Create(topic: string)
    | JoinCall(channel: nat)
    | LeaveCall(channel: nat)
    | Message(topic: string, frame: Frame, joinRef: Option<nat>)
    | JoinTimer(channel: nat)
    | RejoinTimer(channel: nat)
    | Opened
    | TransportError(fallback: bool)
    | ChannelsError
    | SetConnected(now: bool)
    | OtherRef
}
