/** Snapshots against events. The server reads the hub's cursor before it reads the persisted state; the
    session skips an event its snapshot's cursor already covers and reloads on any other event that
    changes state. Commits, broadcasts, delivery, snapshot reads and failures interleave freely; the only
    assumption is that a state change is committed before it is broadcast.
 */
module Freshness {
  import opened Basics
  import opened HubModel
  import opened HubRuns
  import opened Follower
  import opened Delivery

  datatype Kind = JobProgress | RuntimeEvent(name: string) | OtherEvent

  predicate ChangesJobState(name: string) {
    name in {"step_start", "step_complete", "step_failed", "step_authority_lost", "step_canceled",
             "step_waiting_input", "coding_plan_review_ready", "session_message_resolved"}
  }

  predicate SnapshotReflects(kind: Kind) {
    kind.JobProgress? || (kind.RuntimeEvent? && ChangesJobState(kind.name))
  }

  /** What a frame announces: its kind and the commit it follows. */
  datatype Meta = Meta(kind: Kind, commit: nat)

  /** A snapshot contains every commit up to `version`; `cursor` was read before it. */
  datatype Snapshot = Snapshot(version: nat, cursor: nat)

  datatype Fetch = NoFetch | Asked | CursorRead(cursor: nat) | StateRead(cursor: nat, version: nat)

  /** The session: the snapshot it holds, the reload under way, how many handed-over events it has handled,
      and which of those still owe a reload that failed or has not finished. */
  datatype Session = Session(held: Option<Snapshot>, fetch: Fetch, handled: nat, owed: set<nat>)

  datatype Client = Client(sys: System, meta: seq<Meta>, committed: nat, session: Session)

  datatype Tick =
    | Commit
    | Announce(message: Message, meta: Meta)
    | Carry(move: Move)
    | Handle
    | Refresh
    | ServeCursor
    | ServeState
    | Adopt
    | AdoptDataOnly
    | FetchFails

  function Boot(clientBuffer: nat, replayCapacity: nat, topics: set<Topic>): Client {
    Client(Begin(clientBuffer, replayCapacity, topics), [], 0, Session(None, NoFetch, 0, {}))
  }

  /** A broadcast may only announce a commit that has happened. */
  function DoAnnounce(c: Client, message: Message, meta: Meta): Client {
    if meta.commit > c.committed then c
    else
      var sys := Move1(c.sys, Others(Publish(message)));
      c.(sys := sys, meta := if |sys.world.log| > |c.meta| then c.meta + [meta] else c.meta)
  }

  /** The follower starts reading only after the first snapshot is held. */
  predicate MayCarry(c: Client, move: Move) {
    && !(move.Others? && move.action.Publish?)
    && (move.Read? ==> c.session.held.Some?)
  }

  predicate NeedsReload(c: Client, event: Event, held: Snapshot) {
    match event
    case Hello(_, _, sync) => sync
    case Post(frame) =>
      && 1 <= frame.id <= |c.meta|
      && SnapshotReflects(c.meta[frame.id - 1].kind)
      && !(frame.id <= held.cursor)
  }

  function DoHandle(c: Client): Client {
    var session, handed := c.session, c.sys.progress.handed;
    if session.held.None? || session.fetch != NoFetch || session.handled >= |handed| then c
    else if NeedsReload(c, handed[session.handled], session.held.value)
    then c.(session := session.(fetch := Asked, handled := session.handled + 1, owed := session.owed + {session.handled}))
    else c.(session := session.(handled := session.handled + 1))
  }

  function Next(c: Client, tick: Tick): Client {
    var session := c.session;
    match tick
    case Commit => c.(committed := c.committed + 1)
    case Announce(message, meta) => DoAnnounce(c, message, meta)
    case Carry(move) => if MayCarry(c, move) then c.(sys := Move1(c.sys, move)) else c
    case Handle => DoHandle(c)
    case Refresh => if session.fetch == NoFetch && c.sys.begun then c.(session := session.(fetch := Asked)) else c
    case ServeCursor => if session.fetch == Asked then c.(session := session.(fetch := CursorRead(c.sys.world.hub.nextMessage))) else c
    case ServeState =>
      if session.fetch.CursorRead? then c.(session := session.(fetch := StateRead(session.fetch.cursor, c.committed))) else c
    case Adopt =>
      if session.fetch.StateRead?
      then c.(session := session.(held := Some(Snapshot(session.fetch.version, session.fetch.cursor)), fetch := NoFetch, owed := {}))
      else c
    case AdoptDataOnly =>
      if session.fetch.StateRead? && session.held.Some?
      then c.(session := session.(held := Some(session.held.value.(version := session.fetch.version)), fetch := NoFetch, owed := {}))
      else c
    case FetchFails => c.(session := session.(fetch := NoFetch))
  }

  function Life(c: Client, ticks: seq<Tick>): Client {
    if ticks == [] then c else Next(Life(c, ticks[..|ticks| - 1]), ticks[|ticks| - 1])
  }

  // ----- The invariant --------------------------------------------------------------------------

  /** A snapshot version contains what an event announces. For a resynchronisation that is everything up to
      the frame number it names. */
  predicate Reflected(meta: seq<Meta>, event: Event, version: nat) {
    match event
    case Hello(latest, _, sync) => sync ==> forall i :: 0 <= i < latest && i < |meta| ==> meta[i].commit <= version
    case Post(frame) =>
      1 <= frame.id <= |meta| && SnapshotReflects(meta[frame.id - 1].kind) ==> meta[frame.id - 1].commit <= version
  }

  predicate CoversCursor(meta: seq<Meta>, cursor: nat, version: nat) {
    cursor <= |meta| && forall i :: 0 <= i < cursor ==> meta[i].commit <= version
  }

  predicate ReflectsAll(meta: seq<Meta>, handed: seq<Event>, n: nat, owed: set<nat>, version: nat) {
    n <= |handed| && forall k :: 0 <= k < n && k !in owed ==> Reflected(meta, handed[k], version)
  }

  predicate FetchOk(c: Client) {
    match c.session.fetch
    case NoFetch => true
    case Asked => true
    case CursorRead(cursor) => cursor <= |c.meta| && (c.session.held.Some? ==> c.session.held.value.cursor <= cursor)
    case StateRead(cursor, version) =>
      && CoversCursor(c.meta, cursor, version) && version <= c.committed
      && ReflectsAll(c.meta, c.sys.progress.handed, c.session.handled, {}, version)
      && (c.session.held.Some? ==> c.session.held.value.cursor <= cursor && c.session.held.value.version <= version)
  }

  predicate HeldOk(c: Client) {
    var held := c.session.held;
    && (held.None? ==> c.session.handled == 0)
    && (held.Some? ==> held.value.version <= c.committed && CoversCursor(c.meta, held.value.cursor, held.value.version)
                       && ReflectsAll(c.meta, c.sys.progress.handed, c.session.handled, c.session.owed, held.value.version))
  }

  /** Every frame has its announcement, and no commit is announced early. */
  predicate MetaOk(c: Client) {
    && |c.meta| == |c.sys.world.log|
    && (forall i :: 0 <= i < |c.meta| ==> c.meta[i].commit <= c.committed)
    && Named(c.sys.progress.handed, |c.meta|)
  }

  /** The follower's account of the stream begins at or before a cursor. */
  predicate BeginsBy(sys: System, cursor: nat) {
    && sys.begun
    && (sys.base.Some? ==> sys.base.value <= cursor)
    && (sys.base.None? && sys.link.Online? && sys.link.conn.cursor.None? && sys.link.conn.hello.Hello? ==>
          sys.link.conn.hello.latest <= cursor)
  }

  /** The stream was opened before any snapshot was asked for. */
  predicate StartOk(c: Client) {
    && (c.session.fetch != NoFetch ==> c.sys.begun)
    && (c.session.fetch.CursorRead? ==> BeginsBy(c.sys, c.session.fetch.cursor))
    && (c.session.fetch.StateRead? ==> BeginsBy(c.sys, c.session.fetch.cursor))
    && (c.session.held.Some? ==> BeginsBy(c.sys, c.session.held.value.cursor))
  }

  ghost predicate ClientOk(c: Client) {
    SystemOk(c.sys) && MetaOk(c) && HeldOk(c) && FetchOk(c) && StartOk(c)
  }

  // ----- Every tick keeps it ---------------------------------------------------------------------

  /** More frames and more handed-over events change nothing about what was already reflected. */
  lemma ReflectsMore(meta: seq<Meta>, longer: seq<Meta>, handed: seq<Event>, more: seq<Event>, n: nat, owed: set<nat>, version: nat)
    requires ReflectsAll(meta, handed, n, owed, version)
    requires meta <= longer && handed <= more && Named(handed, |meta|)
    ensures ReflectsAll(longer, more, n, owed, version)
  {
    forall k | 0 <= k < n && k !in owed
      ensures Reflected(longer, more[k], version)
    {
      assert more[k] == handed[k];
      assert Reflected(meta, handed[k], version);
    }
  }

  lemma SessionUntouched(c: Client, next: Client)
    requires ClientOk(c) && SystemOk(next.sys) && MetaOk(next)
    requires next.session == c.session && c.committed <= next.committed
    requires c.meta <= next.meta && c.sys.progress.handed <= next.sys.progress.handed
    ensures HeldOk(next) && FetchOk(next)
  {
    var session := c.session;
    if session.held.Some? {
      ReflectsMore(c.meta, next.meta, c.sys.progress.handed, next.sys.progress.handed,
                   session.handled, session.owed, session.held.value.version);
    }
    if session.fetch.StateRead? {
      ReflectsMore(c.meta, next.meta, c.sys.progress.handed, next.sys.progress.handed,
                   session.handled, {}, session.fetch.version);
    }
  }

  lemma MoveBegins(s: System, move: Move, cursor: nat)
    requires SystemOk(s) && BeginsBy(s, cursor)
    ensures BeginsBy(Move1(s, move), cursor)
  {
    if move.Read? && s.link.Online? && s.link.conn.wire != [] && s.base.None? {
      assert s.link.conn.wire[0] == s.link.conn.hello;
    }
  }

  lemma MovesBegin(c: Client, next: Client, move: Move)
    requires ClientOk(c) && next.sys == Move1(c.sys, move) && next.session == c.session
    ensures StartOk(next)
  {
    var session := c.session;
    if session.fetch.CursorRead? || session.fetch.StateRead? {
      MoveBegins(c.sys, move, session.fetch.cursor);
    }
    if session.held.Some? {
      MoveBegins(c.sys, move, session.held.value.cursor);
    }
    assert c.sys.begun ==> next.sys.begun;
  }

  lemma AnnounceKeeps(c: Client, message: Message, meta: Meta)
    requires ClientOk(c)
    ensures ClientOk(DoAnnounce(c, message, meta)) && DoAnnounce(c, message, meta).sys.topics == c.sys.topics
  {
    var move := Others(Publish(message));
    var next := DoAnnounce(c, message, meta);
    if meta.commit <= c.committed {
      MoveKeeps(c.sys, move);
      MoveExtends(c.sys, move);
      assert |next.sys.world.log| <= |c.sys.world.log| + 1;
      SessionUntouched(c, next);
      MovesBegin(c, next, move);
    }
  }

  lemma CarryKeeps(c: Client, move: Move)
    requires ClientOk(c) && MayCarry(c, move)
    ensures ClientOk(c.(sys := Move1(c.sys, move))) && Move1(c.sys, move).topics == c.sys.topics
  {
    var next := c.(sys := Move1(c.sys, move));
    MoveKeeps(c.sys, move);
    MoveExtends(c.sys, move);
    SessionUntouched(c, next);
    MovesBegin(c, next, move);
  }

  lemma HandleKeeps(c: Client)
    requires ClientOk(c)
    ensures ClientOk(DoHandle(c)) && DoHandle(c).sys == c.sys
  {
    var session, handed := c.session, c.sys.progress.handed;
    if session.held.Some? && session.fetch == NoFetch && session.handled < |handed| {
      var held := session.held.value;
      assert NeedsReload(c, handed[session.handled], held) || Reflected(c.meta, handed[session.handled], held.version);
    }
  }

  /** The persisted state is read last, so it reflects everything handled before and everything below the cursor. */
  lemma ServeStateKeeps(c: Client)
    requires ClientOk(c) && c.session.fetch.CursorRead?
    ensures ClientOk(Next(c, ServeState)) && Next(c, ServeState).sys == c.sys
  {
    forall k | 0 <= k < c.session.handled
      ensures Reflected(c.meta, c.sys.progress.handed[k], c.committed)
    {
    }
  }

  lemma ServeCursorKeeps(c: Client)
    requires ClientOk(c) && c.session.fetch == Asked
    ensures ClientOk(Next(c, ServeCursor)) && Next(c, ServeCursor).sys == c.sys
  {
    if c.sys.link.Online? {
      assert ConnOk(c.sys, c.sys.link.conn);
    }
  }

  lemma TickKeeps(c: Client, tick: Tick)
    requires ClientOk(c)
    ensures ClientOk(Next(c, tick)) && Next(c, tick).sys.topics == c.sys.topics
  {
    match tick
    case Commit => SessionUntouched(c, Next(c, tick));
    case Announce(message, meta) => AnnounceKeeps(c, message, meta);
    case Carry(move) =>
      if MayCarry(c, move) {
        CarryKeeps(c, move);
      }
    case Handle => HandleKeeps(c);
    case Refresh => RefreshKeeps(c);
    case ServeCursor => if c.session.fetch == Asked { ServeCursorKeeps(c); }
    case ServeState => if c.session.fetch.CursorRead? { ServeStateKeeps(c); }
    case Adopt => AdoptKeeps(c);
    case AdoptDataOnly => AdoptDataKeeps(c);
    case FetchFails => FailureKeeps(c);
  }

  lemma RefreshKeeps(c: Client)
    requires ClientOk(c)
    ensures ClientOk(Next(c, Refresh)) && Next(c, Refresh).sys == c.sys
  {
  }

  lemma AdoptKeeps(c: Client)
    requires ClientOk(c)
    ensures ClientOk(Next(c, Adopt)) && Next(c, Adopt).sys == c.sys
  {
  }

  lemma FailureKeeps(c: Client)
    requires ClientOk(c)
    ensures ClientOk(Next(c, FetchFails)) && Next(c, FetchFails).sys == c.sys
  {
  }

  lemma AdoptDataKeeps(c: Client)
    requires ClientOk(c)
    ensures ClientOk(Next(c, AdoptDataOnly)) && Next(c, AdoptDataOnly).sys == c.sys
  {
    var session := c.session;
    if session.fetch.StateRead? && session.held.Some? {
      forall k | 0 <= k < session.handled
        ensures Reflected(c.meta, c.sys.progress.handed[k], session.fetch.version)
      {
      }
    }
  }

  lemma {:induction false} LifeKeeps(clientBuffer: nat, replayCapacity: nat, topics: set<Topic>, ticks: seq<Tick>)
    requires replayCapacity > 0
    ensures ClientOk(Life(Boot(clientBuffer, replayCapacity, topics), ticks))
    ensures Life(Boot(clientBuffer, replayCapacity, topics), ticks).sys.topics == topics
  {
    if ticks != [] {
      LifeKeeps(clientBuffer, replayCapacity, topics, ticks[..|ticks| - 1]);
      TickKeeps(Life(Boot(clientBuffer, replayCapacity, topics), ticks[..|ticks| - 1]), ticks[|ticks| - 1]);
    }
  }

  // ----- The promises ----------------------------------------------------------------------------

  /** Each event the session has handled, other than one whose reload failed or is still running, is
      reflected in the snapshot the session holds now. */
  lemma HandledIsReflected(clientBuffer: nat, replayCapacity: nat, topics: set<Topic>, ticks: seq<Tick>, k: nat)
    requires replayCapacity > 0
    ensures var c := Life(Boot(clientBuffer, replayCapacity, topics), ticks);
            k < c.session.handled && k !in c.session.owed ==>
              && c.session.held.Some? && k < |c.sys.progress.handed|
              && Reflected(c.meta, c.sys.progress.handed[k], c.session.held.value.version)
  {
    LifeKeeps(clientBuffer, replayCapacity, topics, ticks);
  }

  /** When nothing is owed and everything handed over has been handled, the held snapshot contains every
      state change announced to the follower's topics up to its cursor, however many frames were dropped,
      replayed or covered by a resynchronisation on the way. */
  lemma SnapshotIsCurrent(clientBuffer: nat, replayCapacity: nat, topics: set<Topic>, ticks: seq<Tick>, i: nat)
    requires replayCapacity > 0
    ensures var c := Life(Boot(clientBuffer, replayCapacity, topics), ticks);
            && c.session.held.Some? && c.session.owed == {} && c.session.handled == |c.sys.progress.handed|
            && i < |c.sys.world.log| && i + 1 <= c.sys.progress.lastID
            && Intersects(topics, c.sys.world.log[i].topics) && i < |c.meta| && SnapshotReflects(c.meta[i].kind) ==>
              c.meta[i].commit <= c.session.held.value.version
  {
    LifeKeeps(clientBuffer, replayCapacity, topics, ticks);
    var c := Life(Boot(clientBuffer, replayCapacity, topics), ticks);
    if c.session.held.Some? && c.session.owed == {} && c.session.handled == |c.sys.progress.handed|
       && i < |c.sys.world.log| && i + 1 <= c.sys.progress.lastID && Intersects(topics, c.sys.world.log[i].topics)
       && SnapshotReflects(c.meta[i].kind) {
      CurrentAt(c, i);
    }
  }

  lemma CurrentAt(c: Client, i: nat)
    requires ClientOk(c) && c.session.held.Some? && c.session.owed == {} && c.session.handled == |c.sys.progress.handed|
    requires i < |c.sys.world.log| && i + 1 <= c.sys.progress.lastID && Intersects(c.sys.topics, c.sys.world.log[i].topics)
    requires SnapshotReflects(c.meta[i].kind)
    ensures c.meta[i].commit <= c.session.held.value.version
  {
    var held, handed, log := c.session.held.value, c.sys.progress.handed, c.sys.world.log;
    if held.cursor <= i {
      assert c.sys.base.Some? && c.sys.base.value < log[i].id;
      assert Accounted(handed, log[i]);
      if Post(log[i]) in handed {
        var k :| 0 <= k < |handed| && handed[k] == Post(log[i]);
        assert Reflected(c.meta, handed[k], held.version);
      } else {
        var k :| 0 <= k < |handed| && handed[k].Hello? && handed[k].sync && handed[k].latest >= log[i].id;
        assert Reflected(c.meta, handed[k], held.version);
      }
    }
  }

  /** The event says that the persisted session has changed beyond what the snapshot's cursor covers: the stream
      asks for a resynchronisation, or a later frame tells of a job's progress or of a change of a step's, a plan
      review's or a message's state. */
  predicate Outdates(c: Client, event: Event, cursor: nat) {
    match event
    case Hello(_, _, sync) => sync
    case Post(frame) =>
      && 1 <= frame.id <= |c.meta| && frame.id > cursor
      && match c.meta[frame.id - 1].kind
         case JobProgress => true
         case OtherEvent => false
         case RuntimeEvent(name) =>
           || name == "step_start" || name == "step_complete" || name == "step_failed" || name == "step_authority_lost"
           || name == "step_canceled" || name == "step_waiting_input" || name == "coding_plan_review_ready"
           || name == "session_message_resolved"
  }

  /** The session handles the next event only between reloads and with a snapshot held; it asks for a reload if and
      only if the event outdates that snapshot, and owes it until one succeeds. */
  lemma ReloadsIff(c: Client)
    ensures var session, next := c.session, Next(c, Handle);
            if session.held.None? || session.fetch != NoFetch || session.handled >= |c.sys.progress.handed| then next == c
            else
              var asks := Outdates(c, c.sys.progress.handed[session.handled], session.held.value.cursor);
              && (next.session.fetch == Asked <==> asks)
              && next == c.(session := Session(session.held, if asks then Asked else NoFetch, session.handled + 1,
                                               if asks then session.owed + {session.handled} else session.owed))
  {
  }

  // ----- A failed reload ---------------------------------------------------------------------------

  lemma {:induction false} LifeConcat(c: Client, ticks: seq<Tick>, more: seq<Tick>)
    ensures Life(c, ticks + more) == Life(Life(c, ticks), more)
  {
    if more == [] {
      assert ticks + more == ticks;
    } else {
      assert (ticks + more)[..|ticks + more| - 1] == ticks + more[..|more| - 1];
      LifeConcat(c, ticks, more[..|more| - 1]);
    }
  }

  lemma LifeTwo(c: Client, one: Tick, other: Tick)
    ensures Life(c, [one, other]) == Next(Next(c, one), other)
  {
    assert [one, other][..1] == [one];
    assert [one][..0] == [];
    assert Life(c, [one]) == Next(Life(c, []), one);
  }

  const LINE: Topic := "job"
  const OPENING := [Carry(Open), Refresh] + [ServeCursor, ServeState] + [Adopt, Carry(Read)] + [Handle, Commit]
  const NEWS := Message({LINE}, "", "done")
  const FAILING := [Announce(NEWS, Meta(JobProgress, 1)), Carry(Forward)] + [Carry(Read), Handle] + [FetchFails, Commit]

  /** Connected, with the empty session held, the connection frame handled and one commit not yet announced. */
  predicate Waiting(c: Client) {
    && c.session == Session(Some(Snapshot(0, 0)), NoFetch, 1, {}) && c.meta == [] && c.committed == 1
    && c.sys.begun && c.sys.link.Online? && c.sys.link.conn.wire == [] && c.sys.progress.fault == NoFault
    && c.sys.progress.connected && c.sys.progress.lastID == 0 && c.sys.progress.replayRemaining == 0 && |c.sys.progress.handed| == 1
    && ReadyToPublish(c.sys.world, c.sys.link.conn.id)
  }

  predicate ReadyToPublish(w: World, id: nat) {
    && w.log == [] && w.hub.nextMessage == 0 && id in w.members && id in w.hub.clients && id in w.hub.channels
    && w.hub.channels[id] == Channel({LINE}, CLIENT_BUFFER, [], false)
  }

  /** Connected and asking for the first snapshot; the connection frame is on the wire. */
  predicate Connecting(c: Client) {
    && c.session == Session(None, Asked, 0, {}) && c.meta == [] && c.committed == 0
    && c.sys.begun && c.sys.link.Online? && c.sys.link.conn.wire == [Hello(0, 0, false)] && c.sys.progress == IDLE
    && ReadyToPublish(c.sys.world, c.sys.link.conn.id)
  }

  lemma Connects(start: Client)
    requires start == Boot(CLIENT_BUFFER, REPLAY_CAPACITY, {LINE})
    ensures Connecting(Life(start, [Carry(Open), Refresh]))
  {
    LifeTwo(start, Carry(Open), Refresh);
  }

  lemma FirstSnapshot(c: Client)
    requires Connecting(c)
    ensures var served := Life(c, [ServeCursor, ServeState]); served == c.(session := c.session.(fetch := StateRead(0, 0)))
  {
    LifeTwo(c, ServeCursor, ServeState);
  }

  lemma FirstEvent(c: Client, served: Client)
    requires Connecting(c) && served == c.(session := c.session.(fetch := StateRead(0, 0)))
    ensures Waiting(Life(Life(served, [Adopt, Carry(Read)]), [Handle, Commit]))
  {
    LifeTwo(served, Adopt, Carry(Read));
    LifeTwo(Life(served, [Adopt, Carry(Read)]), Handle, Commit);
  }

  lemma LifeFour(c: Client, a: seq<Tick>, b: seq<Tick>, d: seq<Tick>, e: seq<Tick>)
    ensures Life(c, a + b + d + e) == Life(Life(Life(Life(c, a), b), d), e)
  {
    LifeConcat(c, a, b);
    LifeConcat(c, a + b, d);
    LifeConcat(c, a + b + d, e);
  }

  lemma OpeningWaits(start: Client)
    requires start == Boot(CLIENT_BUFFER, REPLAY_CAPACITY, {LINE})
    ensures Waiting(Life(start, OPENING))
  {
    LifeFour(start, [Carry(Open), Refresh], [ServeCursor, ServeState], [Adopt, Carry(Read)], [Handle, Commit]);
    Connects(start);
    var c := Life(start, [Carry(Open), Refresh]);
    FirstSnapshot(c);
    FirstEvent(c, Life(c, [ServeCursor, ServeState]));
  }

  /** The event is on the wire to a session that holds the state from before it. */
  predicate Arrived(c: Client) {
    && c.session == Session(Some(Snapshot(0, 0)), NoFetch, 1, {}) && c.meta == [Meta(JobProgress, 1)] && c.committed == 1
    && c.sys.progress.fault == NoFault && c.sys.progress.connected && c.sys.progress.lastID == 0
    && c.sys.progress.replayRemaining == 0 && |c.sys.progress.handed| == 1
    && c.sys.link.Online? && c.sys.link.conn.wire == [Post(Frame(1, Unkeyed, {LINE}, "done"))]
  }

  lemma NewsArrives(c: Client)
    requires Waiting(c)
    ensures Arrived(Life(c, [Announce(NEWS, Meta(JobProgress, 1)), Carry(Forward)]))
  {
    LifeTwo(c, Announce(NEWS, Meta(JobProgress, 1)), Carry(Forward));
    assert {LINE} * {LINE} == {LINE};
  }

  /** Everything handed over is handled and no reload runs, but one is owed and its event is not reflected. */
  predicate Stale(c: Client) {
    && c.session.handled == 2 == |c.sys.progress.handed| && c.session.fetch == NoFetch && c.session.owed == {1}
    && c.session.held.Some? && !Reflected(c.meta, c.sys.progress.handed[1], c.session.held.value.version)
  }

  lemma ReloadFails(c: Client)
    requires Arrived(c)
    ensures Stale(Life(Life(c, [Carry(Read), Handle]), [FetchFails, Commit]))
  {
    LifeTwo(c, Carry(Read), Handle);
    LifeTwo(Life(c, [Carry(Read), Handle]), FetchFails, Commit);
  }

  /** A reload that fails leaves its event unreflected: this run ends with the event handled, the reload owed, and
      a snapshot from before the commit that the event announced. */
  lemma FailedReloadIsStale()
    ensures Stale(Life(Boot(CLIENT_BUFFER, REPLAY_CAPACITY, {LINE}), OPENING + FAILING))
  {
    var start := Boot(CLIENT_BUFFER, REPLAY_CAPACITY, {LINE});
    OpeningWaits(start);
    NewsArrives(Life(start, OPENING));
    ReloadFails(Life(Life(start, OPENING), [Announce(NEWS, Meta(JobProgress, 1)), Carry(Forward)]));
    FailingTail(start, OPENING);
  }

  lemma FailingTail(start: Client, ticks: seq<Tick>)
    ensures Life(start, ticks + FAILING) ==
            Life(Life(Life(Life(start, ticks), [Announce(NEWS, Meta(JobProgress, 1)), Carry(Forward)]), [Carry(Read), Handle]), [FetchFails, Commit])
  {
    var news := [Announce(NEWS, Meta(JobProgress, 1)), Carry(Forward)];
    assert ticks + FAILING == ticks + news + [Carry(Read), Handle] + [FetchFails, Commit];
    LifeFour(start, ticks, news, [Carry(Read), Handle], [FetchFails, Commit]);
  }
}
