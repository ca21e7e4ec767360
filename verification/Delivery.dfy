/** End to end: one hub, one follower, and a link between them that may break at any moment.

    The hub serves anyone else it likes, drops slow subscribers and evicts old frames; the connection's
    writer forwards what its channel holds; the follower reads, loses the connection and resumes after
    its cursor. The claims are about every interleaving of these steps within one hub lifetime.
 */
module Delivery {
  import opened Basics
  import opened HubModel
  import opened HubRuns
  import opened Follower

  /** A live connection: its client, the cursor it was opened with, the connection frame the server announced, what is on the wire, and
      how many frames the follower has taken from it. */
  datatype Conn = Conn(id: nat, cursor: Option<nat>, hello: Event, wire: seq<Event>, taken: nat)

  datatype Conns = Offline | Online(conn: Conn)

  /** `base` is where the follower's account of the stream begins, once its first connection frame is read. */
  datatype System = System(
    world: World, topics: set<Topic>, begun: bool, link: Conns, progress: Progress, base: Option<nat>)

  datatype Move =
    | Others(action: Action)
    | Open
    | Forward
    | Read
    | Lose

  function Begin(clientBuffer: nat, replayCapacity: nat, topics: set<Topic>): System {
    System(Start(clientBuffer, replayCapacity), topics, false, Offline, IDLE, None)
  }

  /** The first stream is opened without a cursor, every later one after `lastID`. */
  function CursorOf(s: System): Option<nat> {
    if s.begun then Some(s.progress.lastID) else None
  }

  function DoOpen(s: System): System {
    if s.link.Online? || s.progress.fault != NoFault then s
    else
      var sub := Subscribe(s.world.hub, s.topics, CursorOf(s)).1;
      var hello := Hello(sub.latest, |sub.replay|, sub.replayGap);
      s.(world := DoJoin(s.world, s.topics, CursorOf(s)), begun := true,
         link := Online(Conn(sub.id, CursorOf(s), hello, [hello], 0)),
         progress := Reconnected(s.progress))
  }

  function DoForward(s: System): System {
    if s.link.Offline? then s
    else
      var conn := s.link.conn;
      if conn.id in s.world.hub.channels && conn.id in s.world.members && |s.world.hub.channels[conn.id].buffer| > 0
      then s.(world := DoTake(s.world, conn.id),
              link := Online(conn.(wire := conn.wire + [Post(s.world.hub.channels[conn.id].buffer[0])])))
      else s
  }

  function DoRead(s: System): System {
    if s.link.Offline? || s.link.conn.wire == [] || s.progress.fault != NoFault then s
    else
      var conn := s.link.conn;
      var event := conn.wire[0];
      s.(progress := Accept(s.progress, event),
         link := Online(conn.(wire := conn.wire[1..], taken := if event.Post? then conn.taken + 1 else conn.taken)),
         base := if s.base.None? && event.Hello? then Some(FirstBase(conn, event)) else s.base)
  }

  /** A stream opened without a cursor begins at the hub's latest frame, a resumed one at its cursor. */
  function FirstBase(conn: Conn, hello: Event): nat
    requires hello.Hello?
  {
    if conn.cursor.Some? then conn.cursor.value else hello.latest
  }

  function Move1(s: System, move: Move): System {
    match move
    case Others(action) =>
      if s.link.Online? && action == Take(s.link.conn.id) then s else s.(world := Step(s.world, action))
    case Open => DoOpen(s)
    case Forward => DoForward(s)
    case Read => DoRead(s)
    case Lose => s.(link := Offline)
  }

  function Moves(s: System, moves: seq<Move>): System {
    if moves == [] then s else Move1(Moves(s, moves[..|moves| - 1]), moves[|moves| - 1])
  }

  // ----- Where a connection stands -------------------------------------------------------------

  /** The cursor after `taken` frames of a stream whose first `count` frames are a replay up to `latest`. */
  function Reach(stream: seq<Frame>, taken: nat, count: nat, start: nat, latest: nat): nat
    requires taken <= |stream|
  {
    if taken == count then latest else if taken == 0 then start else stream[taken - 1].id
  }

  /** The cursor splits the stream exactly at what has been taken. */
  lemma Frontier(log: seq<Frame>, topics: set<Topic>, start: nat, joinedAt: nat, until: nat, taken: nat)
    requires Numbered(log) && start <= joinedAt <= until <= |log|
    requires taken <= |Matching(log[..until], topics, start)|
    ensures var stream := Matching(log[..until], topics, start);
            var count := |Matching(log[..joinedAt], topics, start)|;
            var cursor := Reach(stream, taken, count, start, joinedAt);
            && start <= cursor <= until
            && (forall j :: 0 <= j < taken ==> stream[j].id <= cursor)
            && (forall j :: taken <= j < |stream| ==> cursor < stream[j].id)
  {
    var stream := Matching(log[..until], topics, start);
    var replayed := Matching(log[..joinedAt], topics, start);
    var count := |replayed|;
    MatchingGrows(log, joinedAt, until, topics, start);
    var cursor := Reach(stream, taken, count, start, joinedAt);
    forall j | 0 <= j < |stream|
      ensures start < stream[j].id <= until && (j < taken ==> stream[j].id <= cursor) && (taken <= j ==> cursor < stream[j].id)
    {
      MatchingSound(log[..until], topics, start, j);
      ReplaySplit(log, topics, start, joinedAt, until, j);
      if j < taken - 1 {
        MatchingOrdered(log[..until], topics, start, j, taken - 1);
      } else if 0 < taken <= j {
        MatchingOrdered(log[..until], topics, start, taken - 1, j);
      }
    }
    if 0 < taken {
      assert start < stream[taken - 1].id <= until;
    }
  }

  /** The replay is exactly the part of the stream that was there at the join. */
  lemma ReplaySplit(log: seq<Frame>, topics: set<Topic>, start: nat, joinedAt: nat, until: nat, j: nat)
    requires Numbered(log) && start <= joinedAt <= until <= |log|
    requires j < |Matching(log[..until], topics, start)|
    ensures j < |Matching(log[..joinedAt], topics, start)| <==> Matching(log[..until], topics, start)[j].id <= joinedAt
  {
    var stream := Matching(log[..until], topics, start);
    var replayed := Matching(log[..joinedAt], topics, start);
    MatchingGrows(log, joinedAt, until, topics, start);
    MatchingSound(log[..until], topics, start, j);
    if j < |replayed| {
      MatchingSound(log[..joinedAt], topics, start, j);
    } else if stream[j].id <= joinedAt {
      var at := stream[j].id - 1;
      assert log[..joinedAt][at] == stream[j];
      MatchingComplete(log[..joinedAt], topics, start, at);
      var k :| 0 <= k < |replayed| && replayed[k] == stream[j];
      MatchingOrdered(log[..until], topics, start, k, j);
      assert false;
    }
  }

  // ----- The invariant ---------------------------------------------------------------------------

  function Posts(frames: seq<Frame>): seq<Event> {
    seq(|frames|, i requires 0 <= i < |frames| => Post(frames[i]))
  }

  /** A frame is accounted for: handed over itself, or covered by a handed-over request to resynchronise
      that was issued at or after it. */
  predicate Accounted(handed: seq<Event>, frame: Frame) {
    || Post(frame) in handed
    || exists j :: 0 <= j < |handed| && handed[j].Hello? && handed[j].sync && handed[j].latest >= frame.id
  }

  /** The events handed over are matching frames of the log past the base, in increasing order. */
  predicate InOrder(log: seq<Frame>, topics: set<Topic>, p: Progress, base: nat)
    requires p.lastID <= |log|
  {
    && (forall j :: 0 <= j < |p.handed| && p.handed[j].Post? ==>
          var frame := p.handed[j].frame;
          base < frame.id <= p.lastID && frame == log[frame.id - 1] && Intersects(topics, frame.topics))
    && (forall j, k :: 0 <= j < k < |p.handed| && p.handed[j].Post? && p.handed[k].Post? ==>
          p.handed[j].frame.id < p.handed[k].frame.id)
  }

  predicate Complete(log: seq<Frame>, topics: set<Topic>, p: Progress, base: nat) {
    forall i :: 0 <= i < |log| && base < log[i].id <= p.lastID && Intersects(topics, log[i].topics) ==>
      Accounted(p.handed, log[i])
  }

  predicate Account(log: seq<Frame>, topics: set<Topic>, p: Progress, base: Option<nat>) {
    && p.lastID <= |log|
    && (base.None? ==> p.handed == [] && p.lastID == 0)
    && (base.Some? ==> base.value <= p.lastID && InOrder(log, topics, p, base.value) && Complete(log, topics, p, base.value))
  }

  /** Before its connection frame is read a connection's stream starts at the follower's cursor, unless the
      server announced a gap. */
  predicate Fresh(conn: Conn, m: Member, p: Progress, base: Option<nat>) {
    && conn.taken == 0 && conn.hello.Hello?
    && (conn.cursor.Some? ==> p.lastID == conn.cursor.value <= m.joinedAt && (!conn.hello.sync ==> m.start == p.lastID))
    && (conn.cursor.None? ==> !conn.hello.sync && m.start == m.joinedAt && base.None?)
    && (conn.hello.sync ==> m.start == m.joinedAt)
  }

  /** After it, the follower's variables are determined by how many frames it has taken. */
  predicate Current(conn: Conn, m: Member, p: Progress, count: nat)
    requires conn.taken <= |m.received|
  {
    && p.connectedLatest == m.joinedAt
    && p.replayRemaining == (if conn.taken < count then count - conn.taken else 0)
    && p.lastID == Reach(m.received, conn.taken, count, m.start, m.joinedAt)
  }

  /** What was received but not yet read is on the wire, behind the connection frame while that is unread. */
  predicate Wired(log: seq<Frame>, topics: set<Topic>, m: Member, conn: Conn, p: Progress, base: Option<nat>) {
    && m.joinedAt <= |log| && conn.taken <= |m.received|
    && conn.hello.Hello? && conn.hello.latest == m.joinedAt
    && conn.hello.count == |Matching(log[..m.joinedAt], topics, m.start)|
    && conn.wire == (if p.connected then [] else [conn.hello]) + Posts(m.received[conn.taken..])
    && (if p.connected then base.Some? && Current(conn, m, p, conn.hello.count) else Fresh(conn, m, p, base))
  }

  predicate ConnOk(s: System, conn: Conn) {
    && conn.id in s.world.members && conn.id in s.world.hub.channels
    && s.world.hub.channels[conn.id].topics == s.topics
    && Wired(s.world.log, s.topics, s.world.members[conn.id], conn, s.progress, s.base)
  }

  ghost predicate SystemOk(s: System) {
    && Inv(s.world) && s.world.hub.replayCapacity > 0
    && s.progress.fault == NoFault
    && Account(s.world.log, s.topics, s.progress, s.base)
    && (!s.begun ==> s.link.Offline? && s.base.None?)
    && (s.link.Online? ==> ConnOk(s, s.link.conn))
  }

  // ----- Steps of others --------------------------------------------------------------------------

  lemma AccountGrows(log: seq<Frame>, longer: seq<Frame>, topics: set<Topic>, p: Progress, base: Option<nat>)
    requires Account(log, topics, p, base) && log <= longer && Numbered(longer)
    ensures Account(longer, topics, p, base)
  {
    if base.Some? {
      forall i | 0 <= i < |longer| && base.value < longer[i].id <= p.lastID && Intersects(topics, longer[i].topics)
        ensures Accounted(p.handed, longer[i])
      {
        assert longer[i] == log[i];
      }
    }
  }

  /** Nobody else reads a subscriber's channel. */
  lemma ReceivedKept(w: World, action: Action, id: nat)
    requires Inv(w) && id in w.members && id in w.hub.channels && action != Take(id)
    ensures id in Step(w, action).members && Step(w, action).members[id].received == w.members[id].received
  {
    match action
    case Join(topics, after) => assert MemberOk(w, id);
    case Leave(other) =>
    case Publish(m) => PublishReads(w, m, id);
    case Take(other) =>
  }

  lemma PublishReads(w: World, m: Message, id: nat)
    requires id in w.members
    ensures id in DoPublish(w, m).members && DoPublish(w, m).members[id].received == w.members[id].received
  {
  }

  lemma WiredGrows(log: seq<Frame>, longer: seq<Frame>, topics: set<Topic>, m: Member, after: Member,
                   conn: Conn, p: Progress, base: Option<nat>)
    requires Wired(log, topics, m, conn, p, base) && log <= longer
    requires after == m.(until := after.until)
    ensures Wired(longer, topics, after, conn, p, base)
  {
    assert longer[..m.joinedAt] == log[..m.joinedAt];
  }

  lemma WiredForwards(log: seq<Frame>, topics: set<Topic>, m: Member, conn: Conn, p: Progress, base: Option<nat>, frame: Frame)
    requires Wired(log, topics, m, conn, p, base)
    ensures Wired(log, topics, m.(received := m.received + [frame]), conn.(wire := conn.wire + [Post(frame)]), p, base)
  {
    var after := m.received + [frame];
    assert after[conn.taken..] == m.received[conn.taken..] + [frame];
    assert Posts(after[conn.taken..]) == Posts(m.received[conn.taken..]) + [Post(frame)];
  }

  lemma OthersKeep(s: System, action: Action)
    requires SystemOk(s)
    ensures SystemOk(Move1(s, Others(action)))
  {
    var next := Move1(s, Others(action));
    if s.link.Offline? || action != Take(s.link.conn.id) {
      StepKeeps(s.world, action);
      StepExtends(s.world, action);
      AccountGrows(s.world.log, next.world.log, s.topics, s.progress, s.base);
      if s.link.Online? {
        var conn := s.link.conn;
        ReceivedKept(s.world, action, conn.id);
        assert SameMember(s.world, next.world, conn.id);
        WiredGrows(s.world.log, next.world.log, s.topics, s.world.members[conn.id], next.world.members[conn.id],
                   conn, s.progress, s.base);
      }
    }
  }

  /** A new connection: nothing received, its connection frame alone on the wire. */
  lemma WiredOpens(w: World, topics: set<Topic>, cursor: Option<nat>, p: Progress, base: Option<nat>)
    requires Inv(w) && w.hub.replayCapacity > 0 && !p.connected
    requires p.lastID <= |w.log| && (cursor.Some? ==> cursor.value == p.lastID) && (cursor.None? ==> base.None?)
    ensures var sub := Subscribe(w.hub, topics, cursor).1;
            var hello := Hello(sub.latest, |sub.replay|, sub.replayGap);
            && sub.id in DoJoin(w, topics, cursor).members
            && Wired(w.log, topics, DoJoin(w, topics, cursor).members[sub.id], Conn(sub.id, cursor, hello, [hello], 0), p, base)
  {
    JoinedWithReplay(w, topics, cursor);
    ReplayFits(w, topics, cursor);
    var m := DoJoin(w, topics, cursor).members[w.hub.nextClient + 1];
    assert w.log[..|w.log|] == w.log;
    assert Posts(m.received[0..]) == [];
  }

  lemma OpenKeeps(s: System)
    requires SystemOk(s)
    ensures SystemOk(DoOpen(s))
  {
    if s.link.Offline? {
      JoinKeeps(s.world, s.topics, CursorOf(s));
      WiredOpens(s.world, s.topics, CursorOf(s), Reconnected(s.progress), s.base);
    }
  }

  lemma ForwardKeeps(s: System)
    requires SystemOk(s)
    ensures SystemOk(DoForward(s))
  {
    if s.link.Online? && s.world.hub.channels[s.link.conn.id].buffer != [] {
      var conn := s.link.conn;
      TakeKeeps(s.world, conn.id);
      WiredForwards(s.world.log, s.topics, s.world.members[conn.id], conn, s.progress, s.base,
                    s.world.hub.channels[conn.id].buffer[0]);
    }
  }

  // ----- Reading -----------------------------------------------------------------------------------

  /** A stream that starts where it joins has no replay. */
  lemma NothingReplayed(log: seq<Frame>, topics: set<Topic>, m: Member)
    requires m.joinedAt <= |log| && Numbered(log)
    ensures m.start == m.joinedAt ==> Matching(log[..m.joinedAt], topics, m.start) == []
  {
    if m.start == m.joinedAt {
      MatchingNone(log[..m.joinedAt], topics, m.start);
    }
  }

  /** A connection frame opens the account, moves the cursor past nothing that matches, or covers what it
      moves past. */
  lemma HelloAccounts(log: seq<Frame>, topics: set<Topic>, m: Member, conn: Conn, p: Progress, base: Option<nat>, i: nat)
    requires Wired(log, topics, m, conn, p, base) && !p.connected && p.fault == NoFault
    requires Account(log, topics, p, base) && Numbered(log) && i < |log| && Intersects(topics, log[i].topics)
    requires var opening := if base.None? then FirstBase(conn, conn.hello) else base.value;
             opening < log[i].id <= Accept(p, conn.hello).lastID
    ensures Accounted(Accept(p, conn.hello).handed, log[i])
  {
    var next := Accept(p, conn.hello);
    assert next.handed[|p.handed|] == conn.hello;
    NothingReplayed(log, topics, m);
    if base.Some? && log[i].id <= p.lastID {
      StillAccounted(p.handed, conn.hello, log[i]);
    } else if !conn.hello.sync {
      assert log[..m.joinedAt][i] == log[i];
      MatchingComplete(log[..m.joinedAt], topics, m.start, i);
      assert false;
    }
  }

  /** Reading the connection frame puts the cursor at the connection's first position. */
  lemma HelloWired(log: seq<Frame>, topics: set<Topic>, m: Member, conn: Conn, p: Progress, base: Option<nat>, opening: Option<nat>)
    requires Wired(log, topics, m, conn, p, base) && !p.connected && p.fault == NoFault && opening.Some? && Numbered(log)
    ensures Wired(log, topics, m, conn.(wire := conn.wire[1..]), Accept(p, conn.hello), opening)
  {
    NothingReplayed(log, topics, m);
  }

  lemma ReadHelloKeeps(log: seq<Frame>, topics: set<Topic>, m: Member, conn: Conn, p: Progress, base: Option<nat>)
    requires Wired(log, topics, m, conn, p, base) && !p.connected && p.fault == NoFault
    requires Account(log, topics, p, base) && Numbered(log)
    ensures Accept(p, conn.hello).fault == NoFault
    ensures var opening := if base.None? then Some(FirstBase(conn, conn.hello)) else base;
            && Account(log, topics, Accept(p, conn.hello), opening)
            && Wired(log, topics, m, conn.(wire := conn.wire[1..]), Accept(p, conn.hello), opening)
  {
    var opening := if base.None? then Some(FirstBase(conn, conn.hello)) else base;
    HelloWired(log, topics, m, conn, p, base, opening);
    HelloAccount(log, topics, m, conn, p, base, opening.value);
  }

  lemma HelloCompletes(log: seq<Frame>, topics: set<Topic>, m: Member, conn: Conn, p: Progress, base: Option<nat>, opening: nat)
    requires Wired(log, topics, m, conn, p, base) && !p.connected && p.fault == NoFault
    requires Account(log, topics, p, base) && Numbered(log)
    requires opening == if base.None? then FirstBase(conn, conn.hello) else base.value
    ensures Complete(log, topics, Accept(p, conn.hello), opening)
  {
    var next := Accept(p, conn.hello);
    forall i | 0 <= i < |log| && opening < log[i].id <= next.lastID && Intersects(topics, log[i].topics)
      ensures Accounted(next.handed, log[i])
    {
      HelloAccounts(log, topics, m, conn, p, base, i);
    }
  }

  lemma HelloAccount(log: seq<Frame>, topics: set<Topic>, m: Member, conn: Conn, p: Progress, base: Option<nat>, opening: nat)
    requires Wired(log, topics, m, conn, p, base) && !p.connected && p.fault == NoFault
    requires Account(log, topics, p, base) && Numbered(log)
    requires opening == if base.None? then FirstBase(conn, conn.hello) else base.value
    ensures Account(log, topics, Accept(p, conn.hello), Some(opening))
  {
    NothingReplayed(log, topics, m);
    assert Accept(p, conn.hello).handed == p.handed + [conn.hello];
    HelloCompletes(log, topics, m, conn, p, base, opening);
    if base.Some? {
      HelloInOrder(log, topics, p, Accept(p, conn.hello), conn.hello, opening);
    }
  }

  /** A connection frame does not disturb the order of the frames. */
  lemma HelloInOrder(log: seq<Frame>, topics: set<Topic>, p: Progress, next: Progress, hello: Event, base: nat)
    requires p.lastID <= next.lastID <= |log| && InOrder(log, topics, p, base) && hello.Hello? && next.handed == p.handed + [hello]
    ensures InOrder(log, topics, next, base)
  {
  }

  lemma StillAccounted(handed: seq<Event>, event: Event, frame: Frame)
    requires Accounted(handed, frame)
    ensures Accounted(handed + [event], frame)
  {
    if Post(frame) !in handed {
      var j :| 0 <= j < |handed| && handed[j].Hello? && handed[j].sync && handed[j].latest >= frame.id;
      assert (handed + [event])[j] == handed[j];
    }
  }

  /** The follower's arithmetic on its next frame is the next position of the stream. */
  lemma NextReach(log: seq<Frame>, topics: set<Topic>, m: Member, conn: Conn, p: Progress, base: Option<nat>)
    requires Numbered(log) && Wired(log, topics, m, conn, p, base) && p.connected && p.fault == NoFault
    requires m.start <= m.joinedAt <= m.until <= |log| && conn.taken < |m.received|
    requires m.received <= Matching(log[..m.until], topics, m.start)
    ensures var next := Accept(p, Post(m.received[conn.taken]));
            && next.fault == NoFault
            && Current(conn.(taken := conn.taken + 1), m, next, conn.hello.count)
            && p.lastID <= next.lastID <= m.until
            && p.lastID < m.received[conn.taken].id <= next.lastID
  {
    var stream := Matching(log[..m.until], topics, m.start);
    var t := conn.taken;
    Frontier(log, topics, m.start, m.joinedAt, m.until, t);
    Frontier(log, topics, m.start, m.joinedAt, m.until, t + 1);
    ReplaySplit(log, topics, m.start, m.joinedAt, m.until, t);
    assert m.received[t] == stream[t];
    assert t > 0 ==> m.received[t - 1] == stream[t - 1];
  }

  /** Between two positions of the cursor lies exactly the one frame taken. */
  lemma OnlyNext(log: seq<Frame>, topics: set<Topic>, m: Member, t: nat, count: nat, i: nat)
    requires Numbered(log) && m.start <= m.joinedAt <= m.until <= |log|
    requires count == |Matching(log[..m.joinedAt], topics, m.start)|
    requires t < |Matching(log[..m.until], topics, m.start)| && i < |log| && Intersects(topics, log[i].topics)
    requires var stream := Matching(log[..m.until], topics, m.start);
             Reach(stream, t, count, m.start, m.joinedAt) < log[i].id <= Reach(stream, t + 1, count, m.start, m.joinedAt)
    ensures log[i] == Matching(log[..m.until], topics, m.start)[t]
  {
    var stream := Matching(log[..m.until], topics, m.start);
    Frontier(log, topics, m.start, m.joinedAt, m.until, t);
    Frontier(log, topics, m.start, m.joinedAt, m.until, t + 1);
    assert log[..m.until][i] == log[i];
    MatchingComplete(log[..m.until], topics, m.start, i);
    var j :| 0 <= j < |stream| && stream[j] == log[i];
  }

  lemma PostAccount(log: seq<Frame>, topics: set<Topic>, m: Member, conn: Conn, p: Progress, base: Option<nat>)
    requires Wired(log, topics, m, conn, p, base) && p.connected && p.fault == NoFault && conn.taken < |m.received|
    requires Account(log, topics, p, base) && Numbered(log)
    requires m.start <= m.joinedAt <= m.until <= |log|
    requires m.received <= Matching(log[..m.until], topics, m.start)
    ensures Account(log, topics, Accept(p, Post(m.received[conn.taken])), base)
  {
    var t := conn.taken;
    var frame := m.received[t];
    NextReach(log, topics, m, conn, p, base);
    var next := Accept(p, Post(frame));
    MatchingSound(log[..m.until], topics, m.start, t);
    assert next.handed == p.handed + [Post(frame)];
    HandOver(log, topics, p, next, base.value, frame);
    forall i | 0 <= i < |log| && base.value < log[i].id <= next.lastID && Intersects(topics, log[i].topics)
      ensures Accounted(next.handed, log[i])
    {
      if log[i].id <= p.lastID {
        StillAccounted(p.handed, Post(frame), log[i]);
      } else {
        OnlyNext(log, topics, m, t, conn.hello.count, i);
        assert next.handed[|p.handed|] == Post(log[i]);
      }
    }
  }

  lemma ReadPostKeeps(log: seq<Frame>, topics: set<Topic>, m: Member, conn: Conn, p: Progress, base: Option<nat>)
    requires Wired(log, topics, m, conn, p, base) && p.connected && p.fault == NoFault && conn.wire != []
    requires Account(log, topics, p, base) && Numbered(log)
    requires m.start <= m.joinedAt <= m.until <= |log|
    requires m.received <= Matching(log[..m.until], topics, m.start)
    ensures conn.wire[0].Post? && Accept(p, conn.wire[0]).fault == NoFault
    ensures Account(log, topics, Accept(p, conn.wire[0]), base)
    ensures Wired(log, topics, m, conn.(wire := conn.wire[1..], taken := conn.taken + 1), Accept(p, conn.wire[0]), base)
  {
    var t := conn.taken;
    assert conn.wire == Posts(m.received[t..]);
    assert conn.wire[0] == Post(m.received[t]);
    assert conn.wire[1..] == Posts(m.received[t + 1..]);
    NextReach(log, topics, m, conn, p, base);
    PostAccount(log, topics, m, conn, p, base);
  }

  lemma HandOver(log: seq<Frame>, topics: set<Topic>, p: Progress, next: Progress, base: nat, frame: Frame)
    requires p.lastID <= next.lastID <= |log| && InOrder(log, topics, p, base) && base <= p.lastID
    requires p.lastID < frame.id <= next.lastID && frame == log[frame.id - 1] && Intersects(topics, frame.topics)
    requires next.handed == p.handed + [Post(frame)]
    ensures InOrder(log, topics, next, base)
  {
  }

  lemma ReadKeeps(s: System)
    requires SystemOk(s)
    ensures SystemOk(DoRead(s))
  {
    if s.link.Online? && s.link.conn.wire != [] {
      var conn := s.link.conn;
      var m := s.world.members[conn.id];
      assert MemberOk(s.world, conn.id);
      if s.progress.connected {
        assert m.received <= Queued(s.world, conn.id);
        ReadPostKeeps(s.world.log, s.topics, m, conn, s.progress, s.base);
      } else {
        ReadHelloKeeps(s.world.log, s.topics, m, conn, s.progress, s.base);
      }
    }
  }

  lemma MoveKeeps(s: System, move: Move)
    requires SystemOk(s)
    ensures SystemOk(Move1(s, move)) && Move1(s, move).topics == s.topics
  {
    match move
    case Others(action) => OthersKeep(s, action);
    case Open => OpenKeeps(s);
    case Forward => ForwardKeeps(s);
    case Read => ReadKeeps(s);
    case Lose =>
  }

  lemma {:induction false} MovesKeep(clientBuffer: nat, replayCapacity: nat, topics: set<Topic>, moves: seq<Move>)
    requires replayCapacity > 0
    ensures SystemOk(Moves(Begin(clientBuffer, replayCapacity, topics), moves))
    ensures Moves(Begin(clientBuffer, replayCapacity, topics), moves).topics == topics
  {
    if moves != [] {
      MovesKeep(clientBuffer, replayCapacity, topics, moves[..|moves| - 1]);
      MoveKeeps(Moves(Begin(clientBuffer, replayCapacity, topics), moves[..|moves| - 1]), moves[|moves| - 1]);
    }
  }

  // ----- The promises ------------------------------------------------------------------------------

  /** Over every run the follower hands over matching frames of the log in increasing order, so none twice,
      and every matching frame from its base up to its cursor was handed over or is covered by a
      handed-over request to resynchronise. */
  lemma DeliveredOnceOrResynchronised(clientBuffer: nat, replayCapacity: nat, topics: set<Topic>, moves: seq<Move>)
    requires replayCapacity > 0
    ensures var s := Moves(Begin(clientBuffer, replayCapacity, topics), moves);
            && s.progress.lastID <= |s.world.log|
            && (s.base.None? ==> s.progress.handed == [])
            && (s.base.Some? ==>
                  && InOrder(s.world.log, topics, s.progress, s.base.value)
                  && forall i :: 0 <= i < |s.world.log| && s.base.value < i + 1 <= s.progress.lastID
                                 && Intersects(topics, s.world.log[i].topics) ==>
                       Accounted(s.progress.handed, s.world.log[i]))
  {
    MovesKeep(clientBuffer, replayCapacity, topics, moves);
  }

  /** Against the hub neither of the follower's protocol errors ever fires. */
  lemma NoProtocolError(clientBuffer: nat, replayCapacity: nat, topics: set<Topic>, moves: seq<Move>)
    requires replayCapacity > 0
    ensures Moves(Begin(clientBuffer, replayCapacity, topics), moves).progress.fault == NoFault
  {
    MovesKeep(clientBuffer, replayCapacity, topics, moves);
  }

  /** Once a connected follower has drained a connection the hub still serves, nothing matching is left
      beyond its cursor: every matching frame of the whole log since its base is accounted for. */
  lemma DrainedIsComplete(s: System, i: nat)
    requires SystemOk(s) && s.link.Online? && s.progress.connected
    requires var id := s.link.conn.id; id in s.world.hub.clients && s.world.hub.channels[id].buffer == [] && s.link.conn.wire == []
    requires i < |s.world.log| && s.base.value < s.world.log[i].id && Intersects(s.topics, s.world.log[i].topics)
    ensures Accounted(s.progress.handed, s.world.log[i])
  {
    var log, conn := s.world.log, s.link.conn;
    var m := s.world.members[conn.id];
    assert MemberOk(s.world, conn.id);
    assert |Posts(m.received[conn.taken..])| == 0;
    assert m.received == Queued(s.world, conn.id);
    if log[i].id > s.progress.lastID {
      var stream := Matching(log[..m.until], s.topics, m.start);
      Frontier(log, s.topics, m.start, m.joinedAt, m.until, conn.taken);
      assert log[..m.until][i] == log[i];
      MatchingComplete(log[..m.until], s.topics, m.start, i);
      assert false;
    }
  }

  /** Every handed-over event names a frame the hub has numbered. */
  predicate Named(handed: seq<Event>, n: nat) {
    forall k :: 0 <= k < |handed| ==> if handed[k].Hello? then handed[k].latest <= n else 1 <= handed[k].frame.id <= n
  }

  /** Nothing handed over is ever taken back, and the log is never rewritten. */
  lemma MoveExtends(s: System, move: Move)
    requires SystemOk(s)
    ensures s.progress.handed <= Move1(s, move).progress.handed
    ensures s.world.log <= Move1(s, move).world.log
    ensures !(move.Others? && move.action.Publish?) ==> Move1(s, move).world.log == s.world.log
    ensures Named(s.progress.handed, |s.world.log|) ==> Named(Move1(s, move).progress.handed, |Move1(s, move).world.log|)
  {
    match move
    case Others(action) => StepExtends(s.world, action);
    case Open =>
    case Forward =>
    case Read => ReadExtends(s);
    case Lose =>
  }

  lemma ReadExtends(s: System)
    requires SystemOk(s)
    ensures s.progress.handed <= DoRead(s).progress.handed
    ensures Named(s.progress.handed, |s.world.log|) ==> Named(DoRead(s).progress.handed, |s.world.log|)
  {
    if s.link.Online? && s.link.conn.wire != [] {
      var conn := s.link.conn;
      var m := s.world.members[conn.id];
      assert MemberOk(s.world, conn.id);
      var event := conn.wire[0];
      if s.progress.connected {
        assert event == Post(m.received[conn.taken]);
        assert Queued(s.world, conn.id)[conn.taken] == m.received[conn.taken];
        MatchingSound(s.world.log[..m.until], s.topics, m.start, conn.taken);
      }
    }
  }
}
