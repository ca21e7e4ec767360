/** When a subscriber is dropped, and what a broadcast does to one that is not: in terms of the sizes it was
    given when it joined and of what it has not read.
 */
module HubDrops {
  import opened Basics
  import opened HubModel
  import opened HubRuns

  /** The subscriber's topics and how many unread frames it may hold. */
  predicate Sized(w: World, id: nat, topics: set<Topic>, size: nat) {
    && id in w.members && id in w.hub.channels
    && w.hub.channels[id].topics == topics && w.hub.channels[id].capacity == size
  }

  lemma StepSized(w: World, action: Action, id: nat, topics: set<Topic>, size: nat)
    requires Inv(w) && Sized(w, id, topics, size)
    ensures Sized(Step(w, action), id, topics, size)
  {
    assert MemberOk(w, id);
  }

  lemma {:induction false} RunSized(w: World, actions: seq<Action>, id: nat, topics: set<Topic>, size: nat)
    requires Inv(w) && w.hub.replayCapacity > 0 && Sized(w, id, topics, size)
    ensures Sized(Run(w, actions), id, topics, size)
  {
    if actions != [] {
      var front := actions[..|actions| - 1];
      RunSized(w, front, id, topics, size);
      RunExtends(w, front);
      StepSized(Run(w, front), actions[|actions| - 1], id, topics, size);
    }
  }

  /** What a subscriber holds unread after an action: one frame less after a read, the new frame more after a
      broadcast on its topics, and otherwise what it held. */
  function UnreadAfter(unread: seq<Frame>, id: nat, topics: set<Topic>, action: Action, log: seq<Frame>, longer: seq<Frame>): seq<Frame> {
    if action == Take(id) then if unread == [] then [] else unread[1..]
    else if action.Publish? && |longer| > |log| && topics * action.message.topics != {} then unread + longer[|log|..]
    else unread
  }

  /** A broadcast that reaches a subscriber who can hold no more. */
  predicate Overflows(unread: seq<Frame>, size: nat, topics: set<Topic>, action: Action, log: seq<Frame>, longer: seq<Frame>) {
    action.Publish? && |longer| > |log| && topics * action.message.topics != {} && |unread| == size
  }

  lemma StepDrops(w: World, action: Action, id: nat, topics: set<Topic>, size: nat)
    requires Inv(w) && Sized(w, id, topics, size) && id in w.hub.clients
    ensures var next, unread := Step(w, action), w.hub.channels[id].buffer;
            && |unread| <= size && id in next.hub.channels
            && (id !in next.hub.clients <==> action == Leave(id) || Overflows(unread, size, topics, action, w.log, next.log))
            && (id in next.hub.clients ==> next.hub.channels[id].buffer == UnreadAfter(unread, id, topics, action, w.log, next.log))
  {
    assert MemberOk(w, id);
    if action.Publish? {
      PublishDrops(w, action.message, id, topics, size);
    }
  }

  lemma PublishDrops(w: World, m: Message, id: nat, topics: set<Topic>, size: nat)
    requires Inv(w) && Sized(w, id, topics, size) && id in w.hub.clients
    ensures var next, unread := DoPublish(w, m), w.hub.channels[id].buffer;
            && (id !in next.hub.clients <==> Overflows(unread, size, topics, Publish(m), w.log, next.log))
            && id in next.hub.channels
            && (id in next.hub.clients ==> next.hub.channels[id].buffer == UnreadAfter(unread, id, topics, Publish(m), w.log, next.log))
  {
    assert MemberOk(w, id);
    var next := DoPublish(w, m);
    if |next.log| > |w.log| {
      assert next.log[|w.log|..] == [NextFrame(w.hub, m.topics, m.name, m.content)];
    }
  }

  /** In every run a subscriber is removed by an action if and only if it leaves, or a broadcast on one of its topics
      finds as many frames unread as the client buffer and its own replay together; and until then it holds, in
      order, exactly what was sent to it and not read. */
  lemma DroppedIff(w: World, topics: set<Topic>, after: Option<nat>, later: seq<Action>, action: Action)
    requires Inv(w) && w.hub.replayCapacity > 0
    requires Subscribe(w.hub, topics, after).1.id in Run(DoJoin(w, topics, after), later).hub.clients
    ensures var sub, end := Subscribe(w.hub, topics, after).1, Run(DoJoin(w, topics, after), later);
            var size := w.hub.clientBuffer + |sub.replay|;
            && sub.id in end.hub.channels
            && var next, unread := Step(end, action), end.hub.channels[sub.id].buffer;
            && |unread| <= size && sub.id in next.hub.channels
            && (sub.id !in next.hub.clients <==> action == Leave(sub.id) || Overflows(unread, size, topics, action, end.log, next.log))
            && (sub.id in next.hub.clients ==> next.hub.channels[sub.id].buffer == UnreadAfter(unread, sub.id, topics, action, end.log, next.log))
  {
    var sub, joined := Subscribe(w.hub, topics, after).1, DoJoin(w, topics, after);
    var size := w.hub.clientBuffer + |sub.replay|;
    JoinKeeps(w, topics, after);
    JoinSize(w, topics, after);
    RunSized(joined, later, sub.id, topics, size);
    RunExtends(joined, later);
    StepDrops(Run(joined, later), action, sub.id, topics, size);
  }

  lemma JoinSize(w: World, topics: set<Topic>, after: Option<nat>)
    ensures var sub := Subscribe(w.hub, topics, after).1; Sized(DoJoin(w, topics, after), sub.id, topics, w.hub.clientBuffer + |sub.replay|)
    ensures DoJoin(w, topics, after).hub.channels[Subscribe(w.hub, topics, after).1.id].buffer == Subscribe(w.hub, topics, after).1.replay
  {
  }

  /** The frames that are buffered. */
  function Tail(log: seq<Frame>, capacity: nat): seq<Frame> {
    if |log| <= capacity then log else log[|log| - capacity..]
  }

  /** A named message is suppressed exactly if the newest buffered frame of its name and topics has its content. */
  predicate Suppressed(log: seq<Frame>, capacity: nat, m: Message) {
    var newest := Newest(Tail(log, capacity), Keyed(m.name, m.topics));
    m.name != "" && newest.Some? && newest.value.content == m.content
  }

  lemma RepeatsIff(w: World, m: Message)
    requires Inv(w)
    ensures Repeats(w.hub, KeyOf(m.name, m.topics), m.content) <==> Suppressed(w.log, w.hub.replayCapacity, m)
  {
    BufferedTail(w);
    assert Indexed(w.hub.history, w.hub.lastState, KeyOf(m.name, m.topics));
  }

  lemma BufferedTail(w: World)
    requires LogOk(w)
    ensures w.hub.history == Tail(w.log, w.hub.replayCapacity)
  {
  }

  /** A broadcast is suppressed, or logged under the next number with its name, topics and content. */
  lemma LoggedIff(w: World, m: Message)
    requires Inv(w)
    ensures DoPublish(w, m).log ==
            if Suppressed(w.log, w.hub.replayCapacity, m) then w.log
            else w.log + [Frame(|w.log| + 1, if m.name == "" then Unkeyed else Keyed(m.name, m.topics), m.topics, m.content)]
  {
    RepeatsIff(w, m);
  }

  /** The registered subscribers of some topics who are so afterwards as well. */
  function Given(before: Hub, after: Hub, topics: set<Topic>): set<nat> {
    set id | id in before.clients && id in after.clients && id in before.channels && before.channels[id].topics * topics != {}
  }

  /** What the publisher is told: the number of the frame that carries the message, how many registered subscribers
      of its topics were given it, and how many were dropped over it. */
  lemma ToldTruthfully(w: World, m: Message)
    requires Inv(w)
    ensures var (hub, told) := Broadcast(w.hub, m.topics, m.name, m.content);
            if Suppressed(w.log, w.hub.replayCapacity, m)
            then hub == w.hub && told == Result(told.id, 0, 0, true) && Carries(w.log, told.id, m)
            else told == Result(|w.log| + 1, |Given(w.hub, hub, m.topics)|, |w.hub.clients - hub.clients|, false)
  {
    RepeatsIff(w, m);
    if Suppressed(w.log, w.hub.replayCapacity, m) {
      SuppressedCarried(w, m);
    } else {
      DroppedWereReached(w, m);
      var hub := Broadcast(w.hub, m.topics, m.name, m.content).0;
      assert Reached(w.hub, m.topics) * hub.clients == Given(w.hub, hub, m.topics);
      assert Reached(w.hub, m.topics) - hub.clients == w.hub.clients - hub.clients;
    }
  }

  /** The frame of a number has the message's name, topics and content. */
  predicate Carries(log: seq<Frame>, id: nat, m: Message) {
    1 <= id <= |log| && log[id - 1].key == Keyed(m.name, m.topics) && log[id - 1].content == m.content
  }

  lemma SuppressedCarried(w: World, m: Message)
    requires Inv(w) && Suppressed(w.log, w.hub.replayCapacity, m)
    ensures KeyOf(m.name, m.topics) in w.hub.lastState && Carries(w.log, w.hub.lastState[KeyOf(m.name, m.topics)].id, m)
  {
    var key := KeyOf(m.name, m.topics);
    BufferedTail(w);
    assert Indexed(w.hub.history, w.hub.lastState, key);
    NewestIsThere(w.hub.history, key);
    var i :| 0 <= i < |w.hub.history| && w.hub.history[i].key == key && w.hub.history[i].content == m.content && w.hub.history[i].id == w.hub.lastState[key].id;
    assert w.hub.history[i] == w.log[Oldest(w) + i];
  }

  lemma DroppedWereReached(w: World, m: Message)
    requires Inv(w) && !Repeats(w.hub, KeyOf(m.name, m.topics), m.content)
    ensures forall id :: id in w.hub.clients && id !in Broadcast(w.hub, m.topics, m.name, m.content).0.clients ==> id in Reached(w.hub, m.topics)
  {
    forall id | id in w.hub.clients && id !in Broadcast(w.hub, m.topics, m.name, m.content).0.clients
      ensures id in Reached(w.hub, m.topics)
    {
      assert MemberOk(w, id);
    }
  }
}
