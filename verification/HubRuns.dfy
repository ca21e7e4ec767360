/** Every run of one hub: broadcasts, subscriptions, unsubscriptions and channel reads in any order.

    Beside the hub the run keeps what no hub stores: the full log of frames, everything offered for
    broadcast, and for each subscriber what it has read and how much of the log it was offered.
 */
module HubRuns {
  import opened Basics
  import opened HubModel

  /** A subscriber's record: frames it read, the number its stream starts after, how many log frames
      had been broadcast when it joined, and how many it had been offered while registered. */
  datatype Member = Member(received: seq<Frame>, start: nat, joinedAt: nat, until: nat)

  datatype Message = Message(topics: set<Topic>, name: string, content: string)

  datatype World = World(hub: Hub, log: seq<Frame>, offered: seq<Message>, members: map<nat, Member>)

  datatype Action =
    | Join(topics: set<Topic>, after: Option<nat>)
    | Leave(id: nat)
    | Publish(message: Message)
    | Take(id: nat)

  function Start(clientBuffer: nat, replayCapacity: nat): World {
    World(NewHub(clientBuffer, replayCapacity), [], [], map[])
  }

  function DoJoin(w: World, topics: set<Topic>, after: Option<nat>): World {
    var (hub, sub) := Subscribe(w.hub, topics, after);
    var start := if after.Some? && !sub.replayGap then after.value else w.hub.nextMessage;
    w.(hub := hub, members := w.members[sub.id := Member([], start, |w.log|, |w.log|)])
  }

  function DoPublish(w: World, m: Message): World {
    var (hub, result) := Broadcast(w.hub, m.topics, m.name, m.content);
    if result.duplicate then w.(hub := hub, offered := w.offered + [m])
    else
      var log := w.log + [NextFrame(w.hub, m.topics, m.name, m.content)];
      World(hub, log, w.offered + [m], Reaching(w.members, hub.clients, |log|))
  }

  /** Registered subscribers have now been offered the whole log. */
  function Reaching(members: map<nat, Member>, clients: set<nat>, length: nat): map<nat, Member> {
    map id | id in members :: if id in clients then members[id].(until := length) else members[id]
  }

  function DoTake(w: World, id: nat): World {
    if id in w.hub.channels && id in w.members && |w.hub.channels[id].buffer| > 0
    then w.(hub := Receive(w.hub, id),
            members := w.members[id := w.members[id].(received := w.members[id].received + [w.hub.channels[id].buffer[0]])])
    else w
  }

  function Step(w: World, action: Action): World {
    match action
    case Join(topics, after) => DoJoin(w, topics, after)
    case Leave(id) => w.(hub := Unsubscribe(w.hub, id))
    case Publish(message) => DoPublish(w, message)
    case Take(id) => DoTake(w, id)
  }

  function Run(w: World, actions: seq<Action>): World {
    if actions == [] then w else Step(Run(w, actions[..|actions| - 1]), actions[|actions| - 1])
  }

  // ----- The invariant ------------------------------------------------------------------------

  function Oldest(w: World): nat {
    if |w.log| <= w.hub.replayCapacity then 0 else |w.log| - w.hub.replayCapacity
  }

  /** Numbering and the replay buffer: exactly the last `replayCapacity` frames, contiguously numbered. */
  predicate LogOk(w: World) {
    && Numbered(w.log)
    && w.hub.nextMessage == |w.log|
    && w.hub.history == w.log[Oldest(w)..]
  }

  /** The index knows a key exactly when a buffered frame has it, and then its newest such frame. */
  predicate Indexed(history: seq<Frame>, index: map<StateKey, Known>, key: StateKey) {
    if key != Unkeyed && Newest(history, key).Some? then key in index && index[key] == Newest(history, key).value
    else key !in index
  }

  ghost predicate IndexOk(h: Hub) {
    forall key :: Indexed(h.history, h.lastState, key)
  }

  /** Everything ever queued to a subscriber: what it read and what it still holds. */
  function Queued(w: World, id: nat): seq<Frame>
    requires id in w.members && id in w.hub.channels
  {
    w.members[id].received + w.hub.channels[id].buffer
  }

  predicate MemberOk(w: World, id: nat)
    requires id in w.members && id in w.hub.channels
  {
    var m, c := w.members[id], w.hub.channels[id];
    && 1 <= id <= w.hub.nextClient
    && |c.buffer| <= c.capacity
    && m.joinedAt <= m.until <= |w.log| && m.start <= m.joinedAt
    && (c.closed <==> id !in w.hub.clients)
    && (!c.closed ==> m.until == |w.log|)
    && Queued(w, id) == Matching(w.log[..m.until], c.topics, m.start)
  }

  predicate MembersOk(w: World) {
    && w.members.Keys == w.hub.channels.Keys
    && w.hub.clients <= w.hub.channels.Keys
    && forall id :: id in w.members ==> MemberOk(w, id)
  }

  ghost predicate Inv(w: World) {
    LogOk(w) && IndexOk(w.hub) && MembersOk(w)
  }

  // ----- One step keeps it --------------------------------------------------------------------

  /** Within the run the over-capacity branch of a subscription is never taken. */
  lemma ReplayFits(w: World, topics: set<Topic>, after: Option<nat>)
    requires LogOk(w)
    ensures |Replay(w.hub, topics, after)| <= w.hub.replayCapacity
    ensures Subscribe(w.hub, topics, after).1.replayGap <==> after.Some? && CursorLost(w.hub, after.value)
    ensures Subscribe(w.hub, topics, after).1.replay == Replay(w.hub, topics, after)
  {
    if after.Some? {
      MatchingSize(w.hub.history, topics, after.value);
    }
  }

  /** What is replayed is every matching frame of the full log after the cursor, not only of the buffer. */
  lemma ReplayIsComplete(w: World, topics: set<Topic>, after: nat)
    requires LogOk(w) && w.hub.replayCapacity > 0 && !CursorLost(w.hub, after)
    ensures Replay(w.hub, topics, Some(after)) == Matching(w.log, topics, after)
  {
    var oldest := Oldest(w);
    assert w.log == w.log[..oldest] + w.log[oldest..];
    MatchingConcat(w.log[..oldest], w.log[oldest..], topics, after);
    assert |w.log| > 0 ==> w.hub.history[0].id == oldest + 1;
    MatchingNone(w.log[..oldest], topics, after);
  }

  lemma JoinKeeps(w: World, topics: set<Topic>, after: Option<nat>)
    requires Inv(w) && w.hub.replayCapacity > 0
    ensures Inv(DoJoin(w, topics, after))
  {
    ReplayFits(w, topics, after);
    var next := DoJoin(w, topics, after);
    var id := w.hub.nextClient + 1;
    assert id !in w.members;
    assert next.log[..|next.log|] == next.log;
    var m := next.members[id];
    assert Queued(next, id) == Replay(w.hub, topics, after);
    if after.Some? && !CursorLost(w.hub, after.value) {
      ReplayIsComplete(w, topics, after.value);
    } else {
      MatchingNone(w.log, topics, m.start);
    }
    assert MemberOk(next, id);
    forall other | other in next.members
      ensures MemberOk(next, other)
    {
      if other != id {
        assert MemberOk(w, other);
        assert Queued(next, other) == Queued(w, other);
      }
    }
  }

  lemma LeaveKeeps(w: World, id: nat)
    requires Inv(w)
    ensures Inv(Step(w, Leave(id)))
  {
    var next := Step(w, Leave(id));
    forall other | other in next.members
      ensures MemberOk(next, other)
    {
      assert MemberOk(w, other);
      assert Queued(next, other) == Queued(w, other);
    }
  }

  lemma TakeKeeps(w: World, id: nat)
    requires Inv(w)
    ensures Inv(DoTake(w, id))
    ensures id in w.members && id in w.hub.channels ==> Queued(DoTake(w, id), id) == Queued(w, id)
  {
    var next := DoTake(w, id);
    forall other | other in next.members
      ensures MemberOk(next, other)
    {
      assert MemberOk(w, other);
      assert Queued(next, other) == Queued(w, other);
    }
  }

  lemma AppendKeepsLog(w: World, m: Message)
    requires LogOk(w) && !Repeats(w.hub, KeyOf(m.name, m.topics), m.content)
    ensures LogOk(DoPublish(w, m))
  {
    var next := DoPublish(w, m);
    var frame := next.log[|w.log|];
    assert next.log == w.log + [frame];
    if w.hub.replayCapacity == 0 {
    } else if |w.hub.history| == w.hub.replayCapacity {
      assert next.log[Oldest(next)..] == w.log[Oldest(w)..][1..] + [frame];
    } else {
      assert Oldest(w) == Oldest(next) == 0;
    }
  }

  /** One key of the index across an append that may evict the oldest frame. */
  lemma IndexAt(h: Hub, frame: Frame, key: StateKey)
    requires Indexed(h.history, h.lastState, key) && h.replayCapacity > 0 && |h.history| <= h.replayCapacity
    requires |h.history| > 0 ==> h.history[0].id < frame.id
    requires forall i, j :: 0 <= i < j < |h.history| ==> h.history[i].id < h.history[j].id
    ensures Indexed(Stored(h, frame).history, Stored(h, frame).lastState, key)
  {
    var next := Stored(h, frame);
    if |h.history| == h.replayCapacity {
      NewestDrop(h.history, key);
      NewestAppend(h.history[1..], frame, key);
      var evicted := h.history[0];
      if key != frame.key && key != evicted.key {
        assert Newest(h.history[1..], key) == Newest(h.history, key);
        assert key in next.lastState <==> key in h.lastState;
      }
    } else {
      NewestAppend(h.history, frame, key);
    }
  }

  lemma AppendKeepsIndex(w: World, m: Message)
    requires LogOk(w) && IndexOk(w.hub) && w.hub.replayCapacity > 0
    requires !Repeats(w.hub, KeyOf(m.name, m.topics), m.content)
    ensures IndexOk(DoPublish(w, m).hub)
  {
    var frame := NextFrame(w.hub, m.topics, m.name, m.content);
    var stored := Stored(w.hub, frame);
    assert DoPublish(w, m).hub.history == stored.history && DoPublish(w, m).hub.lastState == stored.lastState;
    forall key
      ensures Indexed(stored.history, stored.lastState, key)
    {
      assert Indexed(w.hub.history, w.hub.lastState, key);
      IndexAt(w.hub, frame, key);
    }
  }

  /** A frame queued to an open channel is the next frame of its expected stream. */
  lemma QueueGrows(log: seq<Frame>, m: Member, channel: Channel, frame: Frame)
    requires |log| < frame.id && m.start <= |log| && !Offer(channel, frame).closed
    requires m.received + channel.buffer == Matching(log, channel.topics, m.start)
    ensures m.received + Offer(channel, frame).buffer == Matching(log + [frame], channel.topics, m.start)
  {
    MatchingAppend(log, frame, channel.topics, m.start);
    var more := if Intersects(channel.topics, frame.topics) then [frame] else [];
    assert Offer(channel, frame).buffer == channel.buffer + more;
    assert m.received + (channel.buffer + more) == (m.received + channel.buffer) + more;
  }

  /** A broadcast seen from one subscriber: the log and its channel grow by the same frame, or it is closed. */
  lemma OfferKeepsMember(w: World, next: World, frame: Frame, id: nat)
    requires LogOk(w) && MembersOk(w) && id in w.members
    requires next.log == w.log + [frame] && frame.id == |w.log| + 1
    requires next.hub.nextClient == w.hub.nextClient
    requires next.hub.channels == Offered(w.hub, frame)
    requires next.hub.clients == StillOpen(w.hub.clients, next.hub.channels)
    requires next.members == Reaching(w.members, next.hub.clients, |next.log|)
    ensures id in next.members && id in next.hub.channels && MemberOk(next, id)
  {
    assert MemberOk(w, id);
    var before := w.members[id];
    if id in next.hub.clients {
      assert w.log[..before.until] == w.log;
      QueueGrows(w.log, before, w.hub.channels[id], frame);
      assert next.log[..|next.log|] == next.log;
    } else {
      assert next.log[..before.until] == w.log[..before.until];
      assert next.hub.channels[id].buffer == w.hub.channels[id].buffer;
    }
  }

  lemma PublishKeeps(w: World, m: Message)
    requires Inv(w) && w.hub.replayCapacity > 0
    ensures Inv(DoPublish(w, m))
  {
    var next := DoPublish(w, m);
    if Repeats(w.hub, KeyOf(m.name, m.topics), m.content) {
      forall id | id in next.members
        ensures MemberOk(next, id)
      {
        assert MemberOk(w, id);
        assert Queued(next, id) == Queued(w, id);
      }
    } else {
      AppendKeepsLog(w, m);
      AppendKeepsIndex(w, m);
      forall id | id in next.members
        ensures MemberOk(next, id)
      {
        OfferKeepsMember(w, next, NextFrame(w.hub, m.topics, m.name, m.content), id);
      }
    }
  }

  lemma StepKeeps(w: World, action: Action)
    requires Inv(w) && w.hub.replayCapacity > 0
    ensures Inv(Step(w, action))
    ensures Step(w, action).hub.replayCapacity == w.hub.replayCapacity
  {
    match action
    case Join(topics, after) => JoinKeeps(w, topics, after);
    case Leave(id) => LeaveKeeps(w, id);
    case Publish(m) => PublishKeeps(w, m);
    case Take(id) => TakeKeeps(w, id);
  }

  /** Every run of a hub with a replay buffer keeps the invariant. */
  lemma {:induction false} RunKeeps(clientBuffer: nat, replayCapacity: nat, actions: seq<Action>)
    requires replayCapacity > 0
    ensures Inv(Run(Start(clientBuffer, replayCapacity), actions))
    ensures Run(Start(clientBuffer, replayCapacity), actions).hub.replayCapacity == replayCapacity
  {
    if actions != [] {
      RunKeeps(clientBuffer, replayCapacity, actions[..|actions| - 1]);
      StepKeeps(Run(Start(clientBuffer, replayCapacity), actions[..|actions| - 1]), actions[|actions| - 1]);
    }
  }

  // ----- What the invariant says to a subscriber ----------------------------------------------

  /** The state index has exactly the buffered keys, so no more entries than there are buffered frames. */
  lemma IndexFits(h: Hub)
    requires IndexOk(h)
    ensures h.lastState.Keys == KeysOf(h.history)
    ensures |h.lastState| <= |h.history|
  {
    FewKeys(h.history);
    forall key
      ensures key in h.lastState <==> key in KeysOf(h.history)
    {
      assert Indexed(h.history, h.lastState, key);
      NewestIsThere(h.history, key);
      if key in KeysOf(h.history) {
        var i :| 0 <= i < |h.history| && h.history[i].key == key;
      }
    }
    assert h.lastState.Keys == KeysOf(h.history);
    assert |h.lastState| == |h.lastState.Keys|;
  }

  /** The buffer is the last min(n, capacity) frames of the log, contiguously numbered, and the state index
      holds no more keys than that. */
  predicate IsTail(w: World) {
    var n, size := |w.log|, |w.hub.history|;
    && size == (if n < w.hub.replayCapacity then n else w.hub.replayCapacity)
    && (forall i :: 0 <= i < size ==> w.hub.history[i].id == n - size + i + 1 && w.hub.history[i] == w.log[n - size + i])
    && |w.hub.lastState| <= size
  }

  lemma BufferIsTail(clientBuffer: nat, replayCapacity: nat, actions: seq<Action>)
    requires replayCapacity > 0
    ensures IsTail(Run(Start(clientBuffer, replayCapacity), actions))
    ensures Run(Start(clientBuffer, replayCapacity), actions).hub.replayCapacity == replayCapacity
  {
    RunKeeps(clientBuffer, replayCapacity, actions);
    TailOf(Run(Start(clientBuffer, replayCapacity), actions));
  }

  lemma TailOf(w: World)
    requires LogOk(w) && IndexOk(w.hub)
    ensures IsTail(w)
  {
    IndexFits(w.hub);
  }

  /** Whether a subscription's gap flag tells the truth about a cursor: raised exactly when the cursor is
      ahead of the hub or some later frame is no longer buffered. */
  ghost predicate GapHonest(w: World, topics: set<Topic>, after: nat) {
    Subscribe(w.hub, topics, Some(after)).1.replayGap <==>
      (after > |w.log| || exists i :: 0 <= i < |w.log| && w.log[i].id > after && w.log[i] !in w.hub.history)
  }

  lemma GapExact(w: World, topics: set<Topic>, after: nat)
    requires Inv(w) && w.hub.replayCapacity > 0
    ensures GapHonest(w, topics, after)
  {
    ReplayFits(w, topics, Some(after));
    var oldest := Oldest(w);
    if |w.log| > 0 {
      assert w.hub.history[0] == w.log[oldest];
      forall i | 0 <= i < |w.log|
        ensures w.log[i] in w.hub.history <==> i >= oldest
      {
        if i >= oldest {
          assert w.log[i] == w.hub.history[i - oldest];
        }
      }
      if after + 1 < w.hub.history[0].id {
        assert w.log[after].id > after && w.log[after] !in w.hub.history;
      }
    }
  }

  /** A hub that buffers nothing stays silent about a frame it lost. */
  lemma NoBufferHidesGap()
    ensures var actions := [Publish(Message({"jobs"}, "", "x"))];
            !GapHonest(Run(Start(CLIENT_BUFFER, 0), actions), {"jobs"}, 0)
  {
    var publish := Publish(Message({"jobs"}, "", "x"));
    var actions := [publish];
    assert actions[..0] == [] && Run(Start(CLIENT_BUFFER, 0), []) == Start(CLIENT_BUFFER, 0);
    var w := Run(Start(CLIENT_BUFFER, 0), actions);
    assert w == Step(Start(CLIENT_BUFFER, 0), publish);
    assert w.log[0] !in w.hub.history;
  }

  /** Gaps are reported truthfully in every run exactly for hubs with a replay buffer. */
  lemma GapsHonestIffBuffered(replayCapacity: nat)
    ensures (forall actions, topics, after :: GapHonest(Run(Start(CLIENT_BUFFER, replayCapacity), actions), topics, after))
            <==> replayCapacity > 0
  {
    if replayCapacity > 0 {
      forall actions, topics, after
        ensures GapHonest(Run(Start(CLIENT_BUFFER, replayCapacity), actions), topics, after)
      {
        RunKeeps(CLIENT_BUFFER, replayCapacity, actions);
        GapExact(Run(Start(CLIENT_BUFFER, replayCapacity), actions), topics, after);
      }
    } else {
      NoBufferHidesGap();
      var actions := [Publish(Message({"jobs"}, "", "x"))];
      assert !GapHonest(Run(Start(CLIENT_BUFFER, replayCapacity), actions), {"jobs"}, 0);
    }
  }

  predicate SameMember(w: World, next: World, id: nat)
    requires id in w.members && id in w.hub.channels
  {
    && id in next.members && id in next.hub.channels
    && next.hub.channels[id].topics == w.hub.channels[id].topics
    && next.members[id].start == w.members[id].start
    && next.members[id].joinedAt == w.members[id].joinedAt
    && w.members[id].until <= next.members[id].until
  }

  /** A step never rewrites the log, nor a subscriber's topics, starting point or join position. */
  predicate Extends(w: World, next: World) {
    && w.log <= next.log
    && w.hub.replayCapacity == next.hub.replayCapacity
    && forall id :: id in w.members && id in w.hub.channels ==> SameMember(w, next, id)
  }

  lemma OfferExtends(w: World, next: World, frame: Frame)
    requires LogOk(w) && MembersOk(w)
    requires next.log == w.log + [frame] && next.hub.replayCapacity == w.hub.replayCapacity
    requires next.hub.channels == Offered(w.hub, frame)
    requires next.members == Reaching(w.members, next.hub.clients, |next.log|)
    ensures Extends(w, next)
  {
    forall id | id in w.members && id in w.hub.channels
      ensures SameMember(w, next, id)
    {
      assert MemberOk(w, id);
    }
  }

  lemma PublishExtends(w: World, m: Message)
    requires Inv(w)
    ensures Extends(w, DoPublish(w, m))
  {
    if !Repeats(w.hub, KeyOf(m.name, m.topics), m.content) {
      OfferExtends(w, DoPublish(w, m), NextFrame(w.hub, m.topics, m.name, m.content));
    }
  }

  lemma StepExtends(w: World, action: Action)
    requires Inv(w)
    ensures Extends(w, Step(w, action))
  {
    match action
    case Join(topics, after) =>
      var next := DoJoin(w, topics, after);
      forall id | id in w.members && id in w.hub.channels
        ensures SameMember(w, next, id)
      {
        assert MemberOk(w, id);
      }
    case Leave(other) =>
    case Publish(m) => PublishExtends(w, m);
    case Take(other) =>
  }

  lemma {:induction false} RunExtends(w: World, actions: seq<Action>)
    requires Inv(w) && w.hub.replayCapacity > 0
    ensures Inv(Run(w, actions)) && Extends(w, Run(w, actions))
  {
    if actions != [] {
      var before := Run(w, actions[..|actions| - 1]);
      RunExtends(w, actions[..|actions| - 1]);
      StepKeeps(before, actions[|actions| - 1]);
      StepExtends(before, actions[|actions| - 1]);
    }
  }

  /** A subscriber's expected stream splits at any position of the log past its starting point. */
  lemma ExpectedSplits(log: seq<Frame>, at: nat, topics: set<Topic>, after: nat)
    requires Numbered(log) && after <= at <= |log|
    ensures Matching(log, topics, after) == Matching(log[..at], topics, after) + Matching(log[at..], topics, at)
  {
    assert log == log[..at] + log[at..];
    MatchingConcat(log[..at], log[at..], topics, after);
    SameBeyond(log, at, topics, after);
  }

  /** A new subscriber holds exactly its replay, which is all the log has for it so far. */
  lemma JoinedWithReplay(w: World, topics: set<Topic>, after: Option<nat>)
    requires Inv(w) && w.hub.replayCapacity > 0
    ensures var sub, joined := Subscribe(w.hub, topics, after).1, DoJoin(w, topics, after);
            && sub.id in joined.members && sub.id in joined.hub.channels
            && joined.members[sub.id].start <= |w.log| == joined.members[sub.id].joinedAt
            && joined.hub.channels[sub.id].topics == topics
            && sub.replay == Matching(w.log, topics, joined.members[sub.id].start)
  {
    JoinKeeps(w, topics, after);
    ReplayFits(w, topics, after);
    var joined := DoJoin(w, topics, after);
    var sub := Subscribe(w.hub, topics, after).1;
    assert MemberOk(joined, sub.id);
    assert Queued(joined, sub.id) == sub.replay;
    assert w.log[..|w.log|] == w.log;
  }

  /** Everything ever queued to a subscriber is the replay it was promised when it joined, followed by
      every later matching frame; once it has been dropped or has left, a prefix of that. */
  lemma QueuedExactly(w: World, topics: set<Topic>, after: Option<nat>, later: seq<Action>)
    requires Inv(w) && w.hub.replayCapacity > 0
    ensures var sub := Subscribe(w.hub, topics, after).1;
            var end := Run(DoJoin(w, topics, after), later);
            && sub.id in end.members && sub.id in end.hub.channels
            && w.log <= end.log
            && var promised := sub.replay + Matching(end.log[|w.log|..], topics, |w.log|);
            && Queued(end, sub.id) <= promised
            && (sub.id in end.hub.clients ==> Queued(end, sub.id) == promised)
  {
    JoinKeeps(w, topics, after);
    JoinedWithReplay(w, topics, after);
    var joined := DoJoin(w, topics, after);
    var id := Subscribe(w.hub, topics, after).1.id;
    RunExtends(joined, later);
    var end := Run(joined, later);
    PromiseKept(joined, end, id);
    assert end.log[..|w.log|] == w.log;
  }

  lemma PromiseKept(w: World, end: World, id: nat)
    requires Inv(w) && Inv(end) && Extends(w, end) && id in w.members && id in w.hub.channels
    ensures id in end.members && id in end.hub.channels
    ensures var m, topics := w.members[id], w.hub.channels[id].topics;
            var promised := Matching(end.log[..m.joinedAt], topics, m.start) + Matching(end.log[m.joinedAt..], topics, m.joinedAt);
            && Queued(end, id) <= promised
            && (id in end.hub.clients ==> Queued(end, id) == promised)
  {
    var m, topics := end.members[id], end.hub.channels[id].topics;
    assert MemberOk(end, id);
    ExpectedSplits(end.log, m.joinedAt, topics, m.start);
    MatchingGrows(end.log, m.until, |end.log|, topics, m.start);
    assert end.log[..|end.log|] == end.log;
  }

  /** Beyond a position of the log the cursor no longer matters. */
  lemma SameBeyond(log: seq<Frame>, from: nat, topics: set<Topic>, after: nat)
    requires Numbered(log) && after <= from <= |log|
    ensures Matching(log[from..], topics, after) == Matching(log[from..], topics, from)
  {
    SameMatches(log[from..], topics, after, from);
  }

  lemma {:induction false} SameMatches(frames: seq<Frame>, topics: set<Topic>, low: nat, high: nat)
    requires forall i :: 0 <= i < |frames| ==> frames[i].id > low && frames[i].id > high
    ensures Matching(frames, topics, low) == Matching(frames, topics, high)
  {
    if frames != [] {
      SameMatches(frames[..|frames| - 1], topics, low, high);
    }
  }

  // ----- Suppressing repeated state loses nothing ----------------------------------------------

  function LastOffered(offered: seq<Message>, key: StateKey): Option<string> {
    if offered == [] then None
    else
      var m := offered[|offered| - 1];
      if KeyOf(m.name, m.topics) == key then Some(m.content) else LastOffered(offered[..|offered| - 1], key)
  }

  function LastLogged(log: seq<Frame>, key: StateKey): Option<string> {
    if Newest(log, key).Some? then Some(Newest(log, key).value.content) else None
  }

  /** A message is suppressed only when a frame still in the buffer carries its very topics, key and content. */
  lemma SuppressedIsBuffered(w: World, m: Message)
    requires Inv(w) && Broadcast(w.hub, m.topics, m.name, m.content).1.duplicate
    ensures exists i :: 0 <= i < |w.hub.history| && w.hub.history[i].key == Keyed(m.name, m.topics)
                        && w.hub.history[i].content == m.content
                        && w.hub.history[i].id == Broadcast(w.hub, m.topics, m.name, m.content).1.id
                        && forall j :: i < j < |w.hub.history| ==> w.hub.history[j].key != Keyed(m.name, m.topics)
  {
    assert Indexed(w.hub.history, w.hub.lastState, KeyOf(m.name, m.topics));
    NewestIsThere(w.hub.history, KeyOf(m.name, m.topics));
  }

  /** A remembered content is the last one logged for its key. */
  lemma KnownIsLast(w: World, key: StateKey)
    requires LogOk(w) && IndexOk(w.hub) && key in w.hub.lastState
    ensures LastLogged(w.log, key) == Some(w.hub.lastState[key].content)
  {
    assert Indexed(w.hub.history, w.hub.lastState, key);
    NewestConcat(w.log[..Oldest(w)], w.hub.history, key);
    assert w.log == w.log[..Oldest(w)] + w.hub.history;
  }

  lemma PublishSameLast(w: World, m: Message, key: StateKey)
    requires Inv(w) && key != Unkeyed && LastOffered(w.offered, key) == LastLogged(w.log, key)
    ensures LastOffered(DoPublish(w, m).offered, key) == LastLogged(DoPublish(w, m).log, key)
  {
    var next := DoPublish(w, m);
    assert next.offered == w.offered + [m] && (w.offered + [m])[..|w.offered|] == w.offered;
    if Repeats(w.hub, KeyOf(m.name, m.topics), m.content) {
      KnownIsLast(w, KeyOf(m.name, m.topics));
    } else {
      NewestAppend(w.log, NextFrame(w.hub, m.topics, m.name, m.content), key);
    }
  }

  /** In every run the frames sent carry, for every state key, the same last content as everything that
      was offered for broadcast. */
  lemma {:induction false} SameLastContent(clientBuffer: nat, replayCapacity: nat, actions: seq<Action>, key: StateKey)
    requires replayCapacity > 0 && key != Unkeyed
    ensures var w := Run(Start(clientBuffer, replayCapacity), actions);
            LastOffered(w.offered, key) == LastLogged(w.log, key)
  {
    if actions != [] {
      var earlier := actions[..|actions| - 1];
      SameLastContent(clientBuffer, replayCapacity, earlier, key);
      RunKeeps(clientBuffer, replayCapacity, earlier);
      var w := Run(Start(clientBuffer, replayCapacity), earlier);
      match actions[|actions| - 1]
      case Publish(m) => PublishSameLast(w, m, key);
      case _ =>
    }
  }
}
