/** The hub as the mutable object the server shares: fields and channels changed in place under one
    mutex. Every method is proved to do what the value model says, and a send on a closed channel, a
    blocking send and a second close are ruled out by the channel's own preconditions.
 */
module HubObject {
  import opened Basics
  import opened HubModel

  /** One subscriber and its Go channel. */
  class RealtimeClient {
    ghost const id: nat
    const topics: set<Topic>
    const capacity: nat
    var buffer: seq<Frame>
    var closed: bool

    constructor (ghost id: nat, topics: set<Topic>, capacity: nat)
      ensures this.id == id && this.topics == topics && this.capacity == capacity && buffer == [] && !closed
    {
      this.id, this.topics, this.capacity, buffer, closed := id, topics, capacity, [], false;
    }

    function Value(): Channel
      reads this
    {
      Channel(topics, capacity, buffer, closed)
    }

    /** A send that is known neither to block nor to panic. */
    method Send(frame: Frame)
      requires !closed && |buffer| < capacity
      modifies this`buffer
      ensures buffer == old(buffer) + [frame]
    {
      buffer := buffer + [frame];
    }

    /** Closing an open channel; closing twice would panic. */
    method Close()
      requires !closed
      modifies this`closed
      ensures closed
    {
      closed := true;
    }

    /** The connection's writer: buffered frames stay readable after a close. */
    method Receive() returns (frame: Option<Frame>)
      modifies this`buffer
      ensures old(buffer) == [] ==> frame.None? && buffer == []
      ensures old(buffer) != [] ==> frame == Some(old(buffer)[0]) && buffer == old(buffer)[1..]
    {
      if buffer == [] {
        frame := None;
      } else {
        frame := Some(buffer[0]);
        buffer := buffer[1..];
      }
    }
  }

  /** Whether two topic sets meet, by walking one of them. */
  method TopicSetsIntersect(left: set<Topic>, right: set<Topic>) returns (meet: bool)
    ensures meet <==> Intersects(left, right)
  {
    var remaining := left;
    while remaining != {}
      invariant remaining <= left && left * right == remaining * right
      decreases remaining
    {
      var topic :| topic in remaining;
      if topic in right {
        assert topic in left * right;
        return true;
      }
      remaining := remaining - {topic};
    }
    return false;
  }

  /** A new client whose channel already holds its replay; the room reserved for it keeps every send from blocking. */
  method Prefilled(ghost id: nat, topics: set<Topic>, capacity: nat, replay: seq<Frame>) returns (client: RealtimeClient)
    requires |replay| <= capacity
    ensures fresh(client) && client.id == id && client.Value() == Channel(topics, capacity, replay, false)
  {
    client := new RealtimeClient(id, topics, capacity);
    for i := 0 to |replay|
      invariant client.buffer == replay[..i] && !client.closed
    {
      client.Send(replay[i]);
    }
  }

  /** The running counts: clients sent to and clients dropped, among those already asked. */
  ghost predicate Tallied(reached: set<nat>, clients: set<nat>, remaining: set<nat>, delivered: nat, disconnected: nat) {
    delivered == |reached * clients - remaining| && disconnected == |reached - clients|
  }

  lemma NothingTallied(reached: set<nat>, clients: set<nat>)
    requires reached <= clients
    ensures Tallied(reached, clients, clients, 0, 0)
  {
    assert reached * clients - clients == {} && reached - clients == {};
  }

  lemma TallyOne(reached: set<nat>, clients: set<nat>, remaining: set<nat>, delivered: nat, disconnected: nat, id: nat)
    requires Tallied(reached, clients, remaining, delivered, disconnected) && remaining <= clients && id in remaining
    ensures id !in reached ==> Tallied(reached, clients, remaining - {id}, delivered, disconnected)
    ensures id in reached ==> Tallied(reached, clients, remaining - {id}, delivered + 1, disconnected)
    ensures id in reached ==> Tallied(reached, clients - {id}, remaining - {id}, delivered, disconnected + 1)
  {
    if id in reached {
      assert reached * clients - (remaining - {id}) == reached * clients - remaining + {id};
      assert reached - (clients - {id}) == reached - clients + {id};
      assert reached * (clients - {id}) - (remaining - {id}) == reached * clients - remaining;
    } else {
      assert reached * clients - (remaining - {id}) == reached * clients - remaining;
    }
  }

  /** Storing a frame touches no channel, so offering it afterwards is offering it to the same channels. */
  lemma StoredKeepsChannels(h: Hub, frame: Frame)
    ensures Stored(h, frame).channels == h.channels && Stored(h, frame).clients == h.clients
    ensures Offered(Stored(h, frame), frame) == Offered(h, frame)
    ensures Reached(Stored(h, frame), frame.topics) == Reached(h, frame.topics)
  {
  }

  class RealtimeHub {
    const clientBuffer: nat
    const replayCapacity: nat
    var nextClientID: nat
    var nextMessageID: nat
    var clients: map<nat, RealtimeClient>
    var history: seq<Frame>
    var lastState: map<StateKey, Known>
    /** Every client ever issued, registered or not: connections keep reading after the hub forgets them. */
    ghost var issued: map<nat, RealtimeClient>

    ghost predicate Valid()
      reads this, issued.Values
    {
      && (forall id :: id in clients ==> id in issued && issued[id] == clients[id])
      && (forall id :: id in issued ==> issued[id].id == id <= nextClientID && (id in clients <==> !issued[id].closed))
    }

    ghost function Value(): Hub
      reads this, issued.Values
    {
      Hub(clientBuffer, replayCapacity, nextClientID, nextMessageID, clients.Keys,
          map id | id in issued :: issued[id].Value(), history, lastState)
    }

    constructor (clientBuffer: nat, replayCapacity: nat)
      ensures Valid() && Value() == NewHub(clientBuffer, replayCapacity) && issued == map[]
    {
      this.clientBuffer, this.replayCapacity := clientBuffer, replayCapacity;
      nextClientID, nextMessageID := 0, 0;
      clients, issued, history, lastState := map[], map[], [], map[];
    }

    /** The production sizes. */
    constructor Default()
      ensures Valid() && Value() == NewHub(CLIENT_BUFFER, REPLAY_CAPACITY) && issued == map[]
    {
      clientBuffer, replayCapacity := 64, 256;
      nextClientID, nextMessageID := 0, 0;
      clients, issued, history, lastState := map[], map[], [], map[];
    }

    method Cursor() returns (latest: nat)
      requires Valid()
      ensures latest == Value().nextMessage
    {
      latest := nextMessageID;
    }

    /** Collects the buffered frames a cursor has not seen. */
    method CollectReplay(topics: set<Topic>, after: nat) returns (replay: seq<Frame>)
      ensures replay == Matching(history, topics, after)
    {
      replay := [];
      for i := 0 to |history|
        invariant replay == Matching(history[..i], topics, after)
      {
        assert history[..i + 1][..i] == history[..i];
        var frame := history[i];
        var wanted := TopicSetsIntersect(topics, frame.topics);
        if frame.id > after && wanted {
          replay := replay + [frame];
        }
      }
      assert history[..|history|] == history;
    }

    /** Decides the gap flag and the replay of a subscription. */
    method PlanReplay(topics: set<Topic>, after: Option<nat>) returns (replayGap: bool, replay: seq<Frame>)
      requires Valid()
      ensures (replayGap, replay) == (HubModel.Subscribe(Value(), topics, after).1.replayGap,
                                      HubModel.Subscribe(Value(), topics, after).1.replay)
    {
      replayGap, replay := false, [];
      if after.Some? {
        replayGap := after.value > nextMessageID;
        if !replayGap && |history| > 0 && after.value + 1 < history[0].id {
          replayGap := true;
        }
      }
      if after.Some? && !replayGap {
        replay := CollectReplay(topics, after.value);
      }
      if |replay| > replayCapacity {
        replayGap, replay := true, [];
      }
    }

    method Subscribe(topics: set<Topic>, after: Option<nat>) returns (subscription: Subscription, client: RealtimeClient)
      requires Valid()
      modifies this
      ensures Valid() && fresh(client)
      ensures (Value(), subscription) == HubModel.Subscribe(old(Value()), topics, after)
      ensures issued == old(issued)[subscription.id := client]
    {
      var latestID := nextMessageID;
      var replayGap, replay := PlanReplay(topics, after);
      nextClientID := nextClientID + 1;
      client := Prefilled(nextClientID, topics, clientBuffer + |replay|, replay);
      clients := clients[nextClientID := client];
      issued := issued[nextClientID := client];
      subscription := Subscription(nextClientID, replayGap, replay, latestID);
      assert clients.Keys == old(clients.Keys) + {nextClientID};
      assert Value().channels == old(Value()).channels[nextClientID := client.Value()];
    }

    method Unsubscribe(id: nat)
      requires Valid()
      modifies this, issued.Values
      ensures Valid() && issued == old(issued)
      ensures Value() == HubModel.Unsubscribe(old(Value()), id)
    {
      if id in clients {
        var client := clients[id];
        clients := clients - {id};
        client.Close();
        assert Value().channels == old(Value()).channels[id := old(Value()).channels[id].(closed := true)];
      } else {
        assert Value() == old(Value());
      }
    }

    method AppendHistory(frame: Frame)
      requires Valid()
      modifies this`history, this`lastState
      ensures Valid() && Value() == Append(old(Value()), frame)
    {
      if replayCapacity == 0 {
        return;
      }
      if |history| == replayCapacity {
        var evicted := history[0];
        if evicted.key in lastState && evicted.key != Unkeyed && lastState[evicted.key].id == evicted.id {
          lastState := lastState - {evicted.key};
        }
        history := history[1..] + [frame];
        return;
      }
      history := history + [frame];
    }

    /** How far an offering round has come: the clients still to be asked are untouched, the others have
        been offered the frame. */
    ghost predicate Offering(before: Hub, remaining: set<nat>, frame: Frame)
      reads this, issued.Values
    {
      && Valid()
      && remaining <= clients.Keys <= before.clients
      && issued.Keys == before.channels.Keys
      && forall id :: id in issued ==>
           issued[id].Value() == if id in before.clients && id !in remaining
                                 then Offer(before.channels[id], frame) else before.channels[id]
    }

    /** One client's turn: skipped, sent to, or dropped because its channel is full. */
    method OfferOne(id: nat, frame: Frame, ghost before: Hub, ghost remaining: set<nat>) returns (wanted: bool, sent: bool)
      requires Offering(before, remaining, frame) && id in remaining
      modifies this`clients, clients[id]
      ensures Offering(before, remaining - {id}, frame)
      ensures wanted == (id in Reached(before, frame.topics))
      ensures sent ==> wanted
      ensures clients.Keys == if wanted && !sent then old(clients).Keys - {id} else old(clients).Keys
    {
      var client := clients[id];
      assert client.Value() == before.channels[id];
      wanted := TopicSetsIntersect(client.topics, frame.topics);
      sent := wanted && |client.buffer| < client.capacity;
      if sent {
        client.Send(frame);
      } else if wanted {
        clients := clients - {id};
        client.Close();
      }
      assert client.Value() == Offer(before.channels[id], frame);
    }

    /** Offers a frame to every registered client in any order, dropping those that are full. */
    method OfferAll(frame: Frame) returns (delivered: nat, disconnected: nat)
      requires Valid()
      modifies this`clients, issued.Values
      ensures Offering(old(Value()), {}, frame)
      ensures Tallied(Reached(old(Value()), frame.topics), clients.Keys, {}, delivered, disconnected)
    {
      ghost var before := Value();
      ghost var reached := Reached(before, frame.topics);
      var remaining := clients.Keys;
      delivered, disconnected := 0, 0;
      NothingTallied(reached, clients.Keys);
      while remaining != {}
        invariant Offering(before, remaining, frame)
        invariant Tallied(reached, clients.Keys, remaining, delivered, disconnected)
        decreases remaining
      {
        var id :| id in remaining;
        assert clients[id] in issued.Values;
        TallyOne(reached, clients.Keys, remaining, delivered, disconnected, id);
        var wanted, sent := OfferOne(id, frame, before, remaining);
        remaining := remaining - {id};
        if sent {
          delivered := delivered + 1;
        } else if wanted {
          disconnected := disconnected + 1;
        }
      }
    }

    /** When everyone has been asked, the channels and the registered clients are those of the model. */
    lemma OfferingDone(before: Hub, frame: Frame)
      requires Offering(before, {}, frame) && before.clients <= before.channels.Keys
      ensures Value().channels == Offered(before, frame)
      ensures clients.Keys == StillOpen(before.clients, Value().channels)
    {
      forall id | id in before.channels
        ensures Value().channels[id] == Offered(before, frame)[id]
        ensures id in before.clients ==> (id in clients <==> !Value().channels[id].closed)
      {
        assert issued[id].Value() == if id in before.clients then Offer(before.channels[id], frame) else before.channels[id];
      }
    }

    /** Numbers, indexes and buffers a frame. */
    method Store(frame: Frame)
      requires Valid()
      modifies this`nextMessageID, this`history, this`lastState
      ensures Valid() && Value() == Stored(old(Value()), frame)
    {
      nextMessageID := frame.id;
      if frame.key != Unkeyed && replayCapacity > 0 {
        lastState := lastState[frame.key := Known(frame.content, frame.id)];
      }
      assert Value().channels == old(Value()).channels;
      AppendHistory(frame);
    }

    /** An offering round, as the model describes it. */
    method Announce(frame: Frame) returns (delivered: nat, disconnected: nat)
      requires Valid()
      modifies this`clients, issued.Values
      ensures Valid()
      ensures Value() == old(Value()).(channels := Offered(old(Value()), frame),
                                       clients := StillOpen(old(Value()).clients, Offered(old(Value()), frame)))
      ensures Tallied(Reached(old(Value()), frame.topics), Value().clients, {}, delivered, disconnected)
    {
      ghost var before := Value();
      delivered, disconnected := OfferAll(frame);
      OfferingDone(before, frame);
    }

    /** Stores a frame and offers it to everyone registered. */
    method Publish(frame: Frame) returns (delivered: nat, disconnected: nat)
      requires Valid()
      modifies this, issued.Values
      ensures Valid() && issued == old(issued)
      ensures Value() == Published(old(Value()), frame)
      ensures Tallied(Reached(old(Value()), frame.topics), Value().clients, {}, delivered, disconnected)
    {
      StoredKeepsChannels(Value(), frame);
      Store(frame);
      delivered, disconnected := Announce(frame);
    }

    method Broadcast(topics: set<Topic>, name: string, content: string) returns (result: Result)
      requires Valid()
      modifies this, issued.Values
      ensures Valid() && issued == old(issued)
      ensures (Value(), result) == HubModel.Broadcast(old(Value()), topics, name, content)
    {
      var key := KeyOf(name, topics);
      if key != Unkeyed && key in lastState && lastState[key].content == content {
        result := Result(lastState[key].id, 0, 0, true);
      } else {
        var frame := Frame(nextMessageID + 1, key, topics, content);
        var delivered, disconnected := Publish(frame);
        result := Result(frame.id, delivered, disconnected, false);
      }
    }
  }
}
