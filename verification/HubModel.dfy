/** The realtime hub as a value: what one call under the hub's mutex does to its numbering, its
    replay buffer, its index of latest states and its subscribers' channels.

    A frame stands for its own encoded payload, so a channel carries frames. A state key is the pair
    the hub joins into one string: topic names never contain the separators, so the join loses nothing.
 */
module HubModel {
  import opened Basics

  type Topic = string

  datatype StateKey = Unkeyed | Keyed(name: string, topics: set<Topic>)

  datatype Frame = Frame(id: nat, key: StateKey, topics: set<Topic>, content: string)

  /** The remembered latest content of a state key and the frame that carried it. */
  datatype Known = Known(content: string, id: nat)

  /** A subscriber's bounded channel. Closing keeps what is buffered readable. */
  datatype Channel = Channel(topics: set<Topic>, capacity: nat, buffer: seq<Frame>, closed: bool)

  datatype Hub = Hub(
    clientBuffer: nat, replayCapacity: nat, nextClient: nat, nextMessage: nat,
    clients: set<nat>, channels: map<nat, Channel>,
    history: seq<Frame>, lastState: map<StateKey, Known>)

  datatype Subscription = Subscription(id: nat, replayGap: bool, replay: seq<Frame>, latest: nat)

  datatype Result = Result(id: nat, delivered: nat, disconnected: nat, duplicate: bool)

  const CLIENT_BUFFER: nat := 64
  const REPLAY_CAPACITY: nat := 256

  predicate Intersects(left: set<Topic>, right: set<Topic>) {
    left * right != {}
  }

  function KeyOf(name: string, topics: set<Topic>): StateKey {
    if name == "" then Unkeyed else Keyed(name, topics)
  }

  function NewHub(clientBuffer: nat, replayCapacity: nat): Hub {
    Hub(clientBuffer, replayCapacity, 0, 0, {}, map[], [], map[])
  }

  /** The frames numbered after a cursor that share a topic, in order. */
  function Matching(frames: seq<Frame>, topics: set<Topic>, after: nat): seq<Frame> {
    if frames == [] then []
    else
      var rest := Matching(frames[..|frames| - 1], topics, after);
      var frame := frames[|frames| - 1];
      if frame.id > after && Intersects(topics, frame.topics) then rest + [frame] else rest
  }

  /** The newest frame of a key among some frames. */
  function Newest(frames: seq<Frame>, key: StateKey): Option<Known> {
    if frames == [] then None
    else if frames[|frames| - 1].key == key then Some(Known(frames[|frames| - 1].content, frames[|frames| - 1].id))
    else Newest(frames[..|frames| - 1], key)
  }

  predicate CursorLost(h: Hub, after: nat) {
    after > h.nextMessage || (|h.history| > 0 && after + 1 < h.history[0].id)
  }

  function Replay(h: Hub, topics: set<Topic>, after: Option<nat>): seq<Frame> {
    if after.Some? && !CursorLost(h, after.value) then Matching(h.history, topics, after.value) else []
  }

  function Subscribe(h: Hub, topics: set<Topic>, after: Option<nat>): (r: (Hub, Subscription)) {
    var wanted := Replay(h, topics, after);
    var tooMany := |wanted| > h.replayCapacity;
    var replay := if tooMany then [] else wanted;
    var gap := (after.Some? && CursorLost(h, after.value)) || tooMany;
    var id := h.nextClient + 1;
    (h.(nextClient := id, clients := h.clients + {id},
        channels := h.channels[id := Channel(topics, h.clientBuffer + |replay|, replay, false)]),
     Subscription(id, gap, replay, h.nextMessage))
  }

  function Unsubscribe(h: Hub, id: nat): Hub {
    if id in h.clients && id in h.channels
    then h.(clients := h.clients - {id}, channels := h.channels[id := h.channels[id].(closed := true)])
    else h
  }

  /** What a channel holds after the hub offers it a frame: queued, or closed when it is full. */
  function Offer(c: Channel, frame: Frame): Channel {
    if !Intersects(c.topics, frame.topics) then c
    else if |c.buffer| < c.capacity then c.(buffer := c.buffer + [frame])
    else c.(closed := true)
  }

  /** Every channel after one frame has been offered to the registered clients. */
  function Offered(h: Hub, frame: Frame): map<nat, Channel> {
    map id | id in h.channels :: if id in h.clients then Offer(h.channels[id], frame) else h.channels[id]
  }

  function StillOpen(clients: set<nat>, channels: map<nat, Channel>): set<nat> {
    set id | id in clients && !(id in channels && channels[id].closed)
  }

  function Reached(h: Hub, topics: set<Topic>): set<nat> {
    set id | id in h.clients && id in h.channels && Intersects(h.channels[id].topics, topics)
  }

  function Append(h: Hub, frame: Frame): Hub {
    if h.replayCapacity == 0 then h
    else if |h.history| == h.replayCapacity then
      var evicted := h.history[0];
      h.(history := h.history[1..] + [frame],
         lastState := if evicted.key != Unkeyed && evicted.key in h.lastState && h.lastState[evicted.key].id == evicted.id
                      then h.lastState - {evicted.key} else h.lastState)
    else h.(history := h.history + [frame])
  }

  predicate Repeats(h: Hub, key: StateKey, content: string) {
    key != Unkeyed && key in h.lastState && h.lastState[key].content == content
  }

  /** The hub with a new frame numbered, indexed and buffered, before anyone is offered it. */
  function Stored(h: Hub, frame: Frame): Hub {
    var remembered := if frame.key != Unkeyed && h.replayCapacity > 0
                      then h.lastState[frame.key := Known(frame.content, frame.id)] else h.lastState;
    Append(h.(nextMessage := frame.id, lastState := remembered), frame)
  }

  function NextFrame(h: Hub, topics: set<Topic>, name: string, content: string): Frame {
    Frame(h.nextMessage + 1, KeyOf(name, topics), topics, content)
  }

  /** The hub after a new frame has been stored and offered. */
  function Published(h: Hub, frame: Frame): Hub {
    Stored(h, frame).(channels := Offered(h, frame), clients := StillOpen(h.clients, Offered(h, frame)))
  }

  function Broadcast(h: Hub, topics: set<Topic>, name: string, content: string): (r: (Hub, Result)) {
    if Repeats(h, KeyOf(name, topics), content) then (h, Result(h.lastState[KeyOf(name, topics)].id, 0, 0, true))
    else
      var frame := NextFrame(h, topics, name, content);
      var next := Published(h, frame);
      (next, Result(frame.id, |Reached(h, topics) * next.clients|, |Reached(h, topics) - next.clients|, false))
  }

  /** The connection's writer takes the oldest buffered frame. */
  function Receive(h: Hub, id: nat): Hub {
    if id in h.channels && |h.channels[id].buffer| > 0
    then h.(channels := h.channels[id := h.channels[id].(buffer := h.channels[id].buffer[1..])])
    else h
  }

  // ----- Facts about matching and newest frames ---------------------------------------------

  lemma MatchingAppend(frames: seq<Frame>, frame: Frame, topics: set<Topic>, after: nat)
    ensures Matching(frames + [frame], topics, after) ==
            Matching(frames, topics, after) + (if frame.id > after && Intersects(topics, frame.topics) then [frame] else [])
  {
    assert (frames + [frame])[..|frames|] == frames;
  }

  lemma {:induction false} MatchingConcat(left: seq<Frame>, right: seq<Frame>, topics: set<Topic>, after: nat)
    ensures Matching(left + right, topics, after) == Matching(left, topics, after) + Matching(right, topics, after)
    decreases |right|
  {
    if right == [] {
      assert left + right == left;
    } else {
      var shorter := right[..|right| - 1];
      assert (left + right)[..|left + right| - 1] == left + shorter;
      MatchingConcat(left, shorter, topics, after);
    }
  }

  lemma {:induction false} MatchingNone(frames: seq<Frame>, topics: set<Topic>, after: nat)
    requires forall i :: 0 <= i < |frames| ==> frames[i].id <= after
    ensures Matching(frames, topics, after) == []
  {
    if frames != [] {
      MatchingNone(frames[..|frames| - 1], topics, after);
    }
  }

  lemma {:induction false} MatchingSize(frames: seq<Frame>, topics: set<Topic>, after: nat)
    ensures |Matching(frames, topics, after)| <= |frames|
  {
    if frames != [] {
      MatchingSize(frames[..|frames| - 1], topics, after);
    }
  }

  /** Frames numbered 1, 2, 3, ... */
  predicate Numbered(log: seq<Frame>) {
    forall i :: 0 <= i < |log| ==> log[i].id == i + 1
  }

  /** Every frame found is a matching later frame of the log, in its own place. */
  lemma {:induction false} MatchingSound(log: seq<Frame>, topics: set<Topic>, after: nat, k: nat)
    requires Numbered(log) && k < |Matching(log, topics, after)|
    ensures var found := Matching(log, topics, after)[k];
            after < found.id <= |log| && log[found.id - 1] == found && Intersects(topics, found.topics)
  {
    var shorter := log[..|log| - 1];
    var before := Matching(shorter, topics, after);
    assert |before| <= |Matching(log, topics, after)| <= |before| + 1;
    if k < |before| {
      MatchingSound(shorter, topics, after, k);
    }
  }

  /** The frames found are in the order of their numbers, each once. */
  lemma {:induction false} MatchingOrdered(log: seq<Frame>, topics: set<Topic>, after: nat, j: nat, k: nat)
    requires Numbered(log) && j < k < |Matching(log, topics, after)|
    ensures Matching(log, topics, after)[j].id < Matching(log, topics, after)[k].id
  {
    var shorter := log[..|log| - 1];
    var before := Matching(shorter, topics, after);
    assert |before| <= |Matching(log, topics, after)| <= |before| + 1;
    if k < |before| {
      MatchingOrdered(shorter, topics, after, j, k);
    } else {
      MatchingSound(shorter, topics, after, j);
    }
  }

  /** No matching later frame is missed. */
  lemma {:induction false} MatchingComplete(log: seq<Frame>, topics: set<Topic>, after: nat, i: nat)
    requires i < |log| && log[i].id > after && Intersects(topics, log[i].topics)
    ensures log[i] in Matching(log, topics, after)
  {
    var shorter := log[..|log| - 1];
    if i < |shorter| {
      assert shorter[i] == log[i];
      MatchingComplete(shorter, topics, after, i);
    } else {
      var found := Matching(log, topics, after);
      assert found == Matching(shorter, topics, after) + [log[i]];
      assert found[|found| - 1] == log[i];
    }
  }

  /** A later log only adds matching frames at the end. */
  lemma MatchingGrows(log: seq<Frame>, shorter: nat, longer: nat, topics: set<Topic>, after: nat)
    requires shorter <= longer <= |log|
    ensures Matching(log[..shorter], topics, after) <= Matching(log[..longer], topics, after)
  {
    assert log[..longer] == log[..shorter] + log[shorter..longer];
    MatchingConcat(log[..shorter], log[shorter..longer], topics, after);
  }

  lemma NewestAppend(frames: seq<Frame>, frame: Frame, key: StateKey)
    ensures Newest(frames + [frame], key) == if frame.key == key then Some(Known(frame.content, frame.id)) else Newest(frames, key)
  {
    assert (frames + [frame])[..|frames|] == frames;
  }

  /** Dropping the oldest frame forgets a key exactly when that frame was its newest. */
  lemma {:induction false} NewestDrop(frames: seq<Frame>, key: StateKey)
    requires |frames| > 0
    requires forall i, j :: 0 <= i < j < |frames| ==> frames[i].id < frames[j].id
    ensures Newest(frames[1..], key) == if Newest(frames, key).Some? && Newest(frames, key).value.id == frames[0].id
                                        then None else Newest(frames, key)
    ensures Newest(frames, key).Some? ==> Newest(frames, key).value.id >= frames[0].id
    ensures Newest(frames, key).Some? && Newest(frames, key).value.id == frames[0].id ==> frames[0].key == key
  {
    if |frames| > 1 {
      var shorter := frames[..|frames| - 1];
      NewestDrop(shorter, key);
      assert frames[1..][..|frames| - 2] == shorter[1..];
    }
  }

  lemma {:induction false} NewestConcat(left: seq<Frame>, right: seq<Frame>, key: StateKey)
    ensures Newest(right, key).Some? ==> Newest(left + right, key) == Newest(right, key)
  {
    if right != [] {
      var shorter := right[..|right| - 1];
      assert (left + right)[..|left + right| - 1] == left + shorter;
      NewestConcat(left, shorter, key);
    }
  }

  lemma {:induction false} NewestIsThere(frames: seq<Frame>, key: StateKey)
    ensures Newest(frames, key).None? <==> forall i :: 0 <= i < |frames| ==> frames[i].key != key
    ensures Newest(frames, key).Some? ==>
              exists i :: 0 <= i < |frames| && frames[i].key == key && frames[i].content == Newest(frames, key).value.content
                          && frames[i].id == Newest(frames, key).value.id
                          && forall j :: i < j < |frames| ==> frames[j].key != key
  {
    if frames != [] {
      NewestIsThere(frames[..|frames| - 1], key);
    }
  }

  function KeysOf(frames: seq<Frame>): set<StateKey> {
    set i | 0 <= i < |frames| && frames[i].key != Unkeyed :: frames[i].key
  }

  lemma {:induction false} FewKeys(frames: seq<Frame>)
    ensures |KeysOf(frames)| <= |frames|
  {
    if frames != [] {
      var shorter := frames[..|frames| - 1];
      FewKeys(shorter);
      var key := frames[|frames| - 1].key;
      assert KeysOf(frames) == if key == Unkeyed then KeysOf(shorter) else KeysOf(shorter) + {key};
    }
  }
}
