/** The reconnecting client of the event stream: one cursor, updated event by event, carried across
    connections.
 */
module Follower {
  import opened HubModel

  /** A connection frame or a numbered event, as the follower reads them and hands them over. */
  datatype Event = Hello(latest: nat, count: nat, sync: bool) | Post(frame: Frame)

  datatype Fault = NoFault | RepeatedHello | OutOfOrder

  /** The follower's variables, everything handed over so far, and the protocol error that stopped it. */
  datatype Progress = Progress(
    lastID: nat, connected: bool, connectedLatest: nat, replayRemaining: nat, handed: seq<Event>, fault: Fault)

  const IDLE := Progress(0, false, 0, 0, [], NoFault)

  function Reconnected(p: Progress): Progress {
    p.(connected := false, connectedLatest := 0, replayRemaining := 0)
  }

  function AcceptHello(p: Progress, hello: Event): Progress
    requires hello.Hello?
  {
    if p.connected then p.(fault := RepeatedHello)
    else p.(connected := true, connectedLatest := hello.latest, replayRemaining := hello.count,
            lastID := if hello.sync || hello.count == 0 then hello.latest else p.lastID,
            handed := p.handed + [hello])
  }

  function AcceptPost(p: Progress, post: Event): Progress
    requires post.Post?
  {
    var id := post.frame.id;
    if !p.connected || id <= p.lastID then p.(fault := OutOfOrder)
    else if p.replayRemaining == 0 then p.(lastID := id, handed := p.handed + [post])
    else p.(replayRemaining := p.replayRemaining - 1,
            lastID := if p.replayRemaining == 1 && p.connectedLatest > id then p.connectedLatest else id,
            handed := p.handed + [post])
  }

  function Accept(p: Progress, event: Event): Progress {
    if p.fault != NoFault then p else if event.Hello? then AcceptHello(p, event) else AcceptPost(p, event)
  }

  /** One connection's events, read until the stream ends. */
  function ReadStream(p: Progress, events: seq<Event>): Progress {
    if events == [] then p else Accept(ReadStream(p, events[..|events| - 1]), events[|events| - 1])
  }

  /** A run of connections, each ended by a disconnect. */
  function Follow(streams: seq<seq<Event>>): Progress {
    if streams == [] then IDLE
    else
      var before := Follow(streams[..|streams| - 1]);
      if before.fault != NoFault then before else ReadStream(Reconnected(before), streams[|streams| - 1])
  }

  lemma {:induction false} FaultIsFinal(p: Progress, events: seq<Event>)
    requires p.fault != NoFault
    ensures ReadStream(p, events) == p
  {
    if events != [] {
      FaultIsFinal(p, events[..|events| - 1]);
    }
  }

  lemma {:induction false} ReadAppend(p: Progress, events: seq<Event>, more: seq<Event>)
    ensures ReadStream(p, events + more) == ReadStream(ReadStream(p, events), more)
  {
    if more == [] {
      assert events + more == events;
    } else {
      assert (events + more)[..|events + more| - 1] == events + more[..|more| - 1];
      ReadAppend(p, events, more[..|more| - 1]);
    }
  }

  lemma {:induction false} FollowFault(streams: seq<seq<Event>>, n: nat)
    requires n <= |streams| && Follow(streams[..n]).fault != NoFault
    ensures Follow(streams) == Follow(streams[..n])
    decreases |streams|
  {
    if n == |streams| {
      assert streams[..n] == streams;
    } else {
      var shorter := streams[..|streams| - 1];
      assert shorter[..n] == streams[..n];
      FollowFault(shorter, n);
    }
  }

  /** The follower's two nested loops: read a stream to its end, reconnect after `lastID`, read the next.
      `cursors` records the cursor each reconnect asks the server to resume after. */
  method FollowJobEvents(streams: seq<seq<Event>>) returns (progress: Progress, cursors: seq<nat>)
    ensures progress == Follow(streams)
    ensures progress.fault == NoFault ==>
              |cursors| == |streams| && forall i :: 0 <= i < |streams| ==> cursors[i] == Follow(streams[..i]).lastID
  {
    var lastID := 0;
    var handed: seq<Event> := [];
    cursors := [];
    progress := IDLE;
    for s := 0 to |streams|
      invariant progress == Follow(streams[..s]) && progress.fault == NoFault
      invariant lastID == progress.lastID && handed == progress.handed
      invariant |cursors| == s && forall i :: 0 <= i < s ==> cursors[i] == Follow(streams[..i]).lastID
    {
      cursors := cursors + [lastID];
      var connected, connectedLatest, replayRemaining := false, 0, 0;
      var stream := streams[s];
      assert streams[..s + 1][..s] == streams[..s];
      ghost var begun := Reconnected(progress);
      for e := 0 to |stream|
        invariant ReadStream(begun, stream[..e]) == Progress(lastID, connected, connectedLatest, replayRemaining, handed, NoFault)
      {
        var event := stream[e];
        assert stream[..e + 1][..e] == stream[..e];
        ghost var next := ReadStream(begun, stream[..e + 1]);
        var fault := NoFault;
        if event.Hello? {
          if connected {
            fault := RepeatedHello;
          } else {
            connected, connectedLatest, replayRemaining := true, event.latest, event.count;
            if event.sync || replayRemaining == 0 {
              lastID := connectedLatest;
            }
          }
        } else {
          if !connected || event.frame.id <= lastID {
            fault := OutOfOrder;
          } else {
            lastID := event.frame.id;
            if replayRemaining > 0 {
              replayRemaining := replayRemaining - 1;
              if replayRemaining == 0 && connectedLatest > lastID {
                lastID := connectedLatest;
              }
            }
          }
        }
        if fault != NoFault {
          progress := Progress(lastID, connected, connectedLatest, replayRemaining, handed, fault);
          assert stream == stream[..e + 1] + stream[e + 1..];
          ReadAppend(begun, stream[..e + 1], stream[e + 1..]);
          FaultIsFinal(next, stream[e + 1..]);
          FollowFault(streams, s + 1);
          return;
        }
        handed := handed + [event];
      }
      assert stream[..|stream|] == stream;
      progress := Progress(lastID, connected, connectedLatest, replayRemaining, handed, NoFault);
    }
    assert streams[..|streams|] == streams;
  }
}
