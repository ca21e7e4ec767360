/** Which event streams the follower reads without a protocol error, and where they leave its cursor. */
module FollowerOrder {
  import opened Basics
  import opened HubModel
  import opened Follower

  /** A connection's stream from `lastID` on, in order: one connection frame, first, then events with ascending
      numbers beyond the cursor, those after the replay also beyond what the frame named as latest. */
  predicate InOrder(lastID: nat, events: seq<Event>) {
    events == [] ||
    (&& events[0].Hello?
     && forall i :: 1 <= i < |events| ==> events[i].Post? && Beyond(lastID, events, i))
  }

  predicate Beyond(lastID: nat, events: seq<Event>, i: nat)
    requires 1 <= i < |events| && events[0].Hello? && events[i].Post?
  {
    var hello, id := events[0], events[i].frame.id;
    && (if i == 1 then id > (if hello.sync || hello.count == 0 then hello.latest else lastID)
        else events[i - 1].Post? && id > events[i - 1].frame.id)
    && (0 < hello.count < i ==> id > hello.latest)
  }

  /** The cursor after a stream in order. */
  function Cursor(lastID: nat, events: seq<Event>): nat {
    if events == [] || !events[0].Hello? then lastID
    else if |events| == 1 then (if events[0].sync || events[0].count == 0 then events[0].latest else lastID)
    else if events[|events| - 1].Hello? then lastID
    else
      var hello, id := events[0], events[|events| - 1].frame.id;
      if hello.count == |events| - 1 && hello.latest > id then hello.latest else id
  }

  /** How much of the replay is still to come. */
  function ToCome(events: seq<Event>): nat {
    if events == [] || !events[0].Hello? || events[0].count < |events| then 0 else events[0].count - (|events| - 1)
  }

  lemma InOrderFront(lastID: nat, events: seq<Event>)
    requires events != []
    ensures InOrder(lastID, events) <==>
            && InOrder(lastID, events[..|events| - 1])
            && if |events| == 1 then events[0].Hello? else events[|events| - 1].Post? && Beyond(lastID, events, |events| - 1)
  {
    var front := events[..|events| - 1];
    if |events| > 1 && events[0].Hello? {
      forall i | 1 <= i < |front|
        ensures events[i].Post? ==> (Beyond(lastID, front, i) <==> Beyond(lastID, events, i))
      {
      }
    }
  }

  /** Where the follower is once it has read the events of a connection, in order. */
  predicate ReadTo(p: Progress, events: seq<Event>, r: Progress) {
    && r.handed == p.handed + events && r.lastID == Cursor(p.lastID, events)
    && r.connected == (events != []) && r.replayRemaining == ToCome(events)
    && (events != [] ==> events[0].Hello? && r.connectedLatest == events[0].latest)
  }

  lemma HelloRead(p: Progress, front: seq<Event>, before: Progress, event: Event)
    requires before.fault == NoFault && ReadTo(p, front, before) && event.Hello?
    ensures var r := Accept(before, event);
            && (r.fault == NoFault <==> front == [])
            && (front == [] ==> ReadTo(p, front + [event], r))
  {
    if front == [] {
      assert front + [event] == [event] && p.handed + front == p.handed;
    }
  }

  lemma PostRead(p: Progress, front: seq<Event>, before: Progress, event: Event)
    requires before.fault == NoFault && ReadTo(p, front, before) && event.Post?
    requires InOrder(p.lastID, front)
    ensures var events := front + [event];
            var r := Accept(before, event);
            if front == [] then r.fault != NoFault
            else && (r.fault == NoFault <==> Beyond(p.lastID, events, |front|))
                 && (r.fault == NoFault ==> ReadTo(p, events, r))
  {
    Associates(p.handed, front, [event]);
    if |front| > 1 {
      assert front[|front| - 1].Post? && Beyond(p.lastID, front, |front| - 1);
    }
  }

  /** A stream is read without a protocol error if and only if it is in order. Then all of it is handed over,
      and the cursor is where it leads. */
  lemma {:induction false} ReadsIff(p: Progress, events: seq<Event>)
    requires p.fault == NoFault && !p.connected && p.replayRemaining == 0
    ensures var r := ReadStream(p, events);
            && (r.fault == NoFault <==> InOrder(p.lastID, events))
            && (r.fault == NoFault ==> ReadTo(p, events, r))
  {
    if events != [] {
      var front, event := events[..|events| - 1], events[|events| - 1];
      ReadsIff(p, front);
      InOrderFront(p.lastID, events);
      assert events == front + [event];
      var before := ReadStream(p, front);
      if before.fault == NoFault {
        if event.Hello? {
          HelloRead(p, front, before, event);
        } else {
          PostRead(p, front, before, event);
        }
      }
    }
  }
}
