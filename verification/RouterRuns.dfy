/** Every run of the input router: chunks of source bytes, review and note transitions, timers that fire
    late, and readers taking bytes and keys, in any order.
 */
module RouterRuns {
  import opened Utf8
  import opened InputAuthority
  import opened RouterModel

  datatype Act =
    | BeginRead
    | Chunk(values: Bytes)
    | EnableReview
    | DisableReview
    | BeginNoteInput
    | EndNoteInput(authority: Authority)
    | TimerFires(generation: nat)
    | SourceEnds
    | EditorReads(count: nat)
    | KeyRead

  /** What may happen. The router begins a read only when it has room. While it polls the source, the
      source's lock keeps mode changes out, but timers fire and readers take bytes and keys. Review may not be
      opened over the note editor, which would panic. */
  predicate Legal(r: Router, act: Act) {
    match act
    case BeginRead => !r.failed && !r.polling && HasCapacity(r)
    case Chunk(values) => !r.failed && r.polling && |values| <= CHUNK
    case EnableReview => !r.polling && (r.review || !r.noteInput)
    case DisableReview => !r.polling
    case BeginNoteInput => !r.polling
    case EndNoteInput(_) => !r.polling
    case EditorReads(count) => 0 < count <= |r.lineBytes|
    case SourceEnds => !r.failed
    case _ => true
  }

  function Step(r: Router, act: Act): Router {
    if !Legal(r, act) then r
    else
      match act
      case BeginRead => Poll(r)
      case Chunk(values) => Deliver(r, values)
      case EnableReview => Enable(r)
      case DisableReview => Disable(r, true)
      case BeginNoteInput => if MayBeginNote(r) then BeginNote(r) else r
      case EndNoteInput(authority) => if MayEndNote(r, authority) then EndNote(r) else r
      case TimerFires(generation) => Expire(r, generation)
      case SourceEnds => Finish(r)
      case EditorReads(count) => TakeLineBytes(r, count)
      case KeyRead => TakeKey(r)
  }

  function Run(r: Router, acts: seq<Act>): Router {
    if acts == [] then r else Step(Run(r, acts[..|acts| - 1]), acts[|acts| - 1])
  }

  // ----- What every step keeps --------------------------------------------------------------------

  /** An escape that has been read but not yet decided would become a key if its timer fired. */
  function Undecided(r: Router): nat {
    if r.review && r.decoder == Escape then 1 else 0
  }

  /** Note input excludes review; a pending note means review with an idle decoder; a timer runs exactly while
      a sequence is being decoded. */
  predicate Coherent(r: Router) {
    && (r.noteInput ==> !r.review)
    && (r.noteTransition ==> r.review && r.decoder == Idle)
    && (r.noteBytes != [] ==> r.noteTransition)
    && (r.timerArmed <==> r.decoder != Idle)
  }

  /** The keys that are queued or may yet come of an undecided escape. */
  function Load(r: Router): nat {
    |r.keys| + Undecided(r)
  }

  /** While the source is polled in review at most one key can be queued, that of an escape that was still
      undecided when the poll began; then the decoder is idle and no note is pending. */
  predicate Roomy(r: Router) {
    r.polling && r.review ==> Load(r) <= 1 && (r.keys != [] ==> r.decoder == Idle && !r.noteTransition)
  }

  /** Queued keys and an undecided escape never exceed one chunk and that one key. */
  predicate Bounded(r: Router) {
    Load(r) <= CHUNK + 1
  }

  /** A byte adds at most one key, and never a key while an escape is undecided. */
  lemma ByteKeeps(r: Router, b: Byte)
    requires Coherent(r)
    ensures Coherent(RouteByte(r, b))
    ensures |RouteByte(r, b).keys| + Undecided(RouteByte(r, b)) <= |r.keys| + 1
  {
    var ready := r.(dropLeadingLF := false);
    if r.review && !r.noteTransition {
      if r.decoder == Idle {
        IdleKeeps(ready, b);
      } else {
        SequenceKeeps(ready, b);
      }
    } else if !r.review {
      OutsideKeeps(ready, b);
    }
  }

  lemma IdleKeeps(r: Router, b: Byte)
    requires Coherent(r) && r.review && !r.noteTransition && r.decoder == Idle
    ensures Coherent(ReviewByte(r, b)) && Load(ReviewByte(r, b)) <= |r.keys| + 1
  {
    if b == 0x04 {
      assert ReviewByte(r, b) == Disable(AppendKey(r, EOFKey), false);
    }
  }

  lemma SequenceKeeps(r: Router, b: Byte)
    requires Coherent(r) && r.review && !r.noteTransition && r.decoder != Idle
    ensures Coherent(ReviewByte(r, b)) && Load(ReviewByte(r, b)) <= |r.keys| + 1
  {
  }

  /** Outside review a byte is appended or swallowed; nothing else changes. */
  lemma OutsideKeeps(r: Router, b: Byte)
    requires Coherent(r) && !r.review
    ensures var next := if r.decoder != Idle then DisabledByte(r, b) else AppendLine(r, [b], CurrentAuthority(r));
            Coherent(next) && SameModes(r, next)
  {
  }

  predicate SameModes(r: Router, next: Router) {
    next.review == r.review && next.keys == r.keys && next.modeGeneration == r.modeGeneration && next.noteInput == r.noteInput
    && next.noteTransition == r.noteTransition
  }

  lemma ByteOutsideReview(r: Router, b: Byte)
    requires Coherent(r) && !r.review
    ensures SameModes(r, RouteByte(r, b))
  {
    OutsideKeeps(r.(dropLeadingLF := false), b);
  }

  /** Within a chunk the keys and the undecided escape grow by at most one a byte. */
  lemma {:induction false} RouteKeeps(r: Router, values: Bytes)
    requires Coherent(r)
    ensures Coherent(Route(r, values))
    ensures values != [] ==> |Route(r, values).keys| + Undecided(Route(r, values)) <= |r.keys| + |values|
  {
    if values != [] {
      var front := values[..|values| - 1];
      RouteKeeps(r, front);
      ByteKeeps(Route(r, front), values[|values| - 1]);
    }
  }

  /** Outside review no key is added. */
  lemma {:induction false} RouteOutsideReview(r: Router, values: Bytes)
    requires Coherent(r) && !r.review
    ensures var next := Route(r, values);
            !next.review && next.keys == r.keys && next.modeGeneration == r.modeGeneration && next.noteInput == r.noteInput
            && !next.noteTransition
  {
    if values != [] {
      RouteKeeps(r, values[..|values| - 1]);
      RouteOutsideReview(r, values[..|values| - 1]);
      ByteOutsideReview(Route(r, values[..|values| - 1]), values[|values| - 1]);
    }
  }

  lemma DeliverKeeps(r: Router, values: Bytes)
    requires Coherent(r) && Roomy(r) && Bounded(r) && r.polling && |values| <= CHUNK
    ensures Coherent(Deliver(r, values)) && Bounded(Deliver(r, values))
    ensures |r.keys| + |values| <= CHUNK && r.review ==> Load(Deliver(r, values)) <= CHUNK
  {
    RouteKeeps(r, values);
    if !r.review {
      RouteOutsideReview(r, values);
    }
  }

  lemma StepKeeps(r: Router, act: Act)
    requires Coherent(r) && Roomy(r) && Bounded(r)
    ensures Coherent(Step(r, act)) && Roomy(Step(r, act)) && Bounded(Step(r, act))
  {
    if act.Chunk? && Legal(r, act) {
      DeliverKeeps(r, act.values);
    }
  }

  /** In every run of the router these hold, so its decoder's panics are never reached and its key queue stays
      within a chunk and one key. */
  lemma {:induction false} RunKeeps(acts: seq<Act>)
    ensures var r := Run(FRESH_ROUTER, acts); Coherent(r) && Roomy(r) && Bounded(r)
  {
    if acts != [] {
      RunKeeps(acts[..|acts| - 1]);
      StepKeeps(Run(FRESH_ROUTER, acts[..|acts| - 1]), acts[|acts| - 1]);
    }
  }

  // ----- When a chunk is enough ---------------------------------------------------------------------

  const SPACE: Byte := 0x20

  function Spaces(n: nat): Bytes {
    if n == 0 then [] else Spaces(n - 1) + [SPACE]
  }

  /** In review with nothing half-read, each space is a key. */
  lemma {:induction false} SpacesAreKeys(r: Router, n: nat)
    requires r.review && r.decoder == Idle && !r.noteTransition
    ensures |Spaces(n)| == n && |Route(r, Spaces(n)).keys| == |r.keys| + n
    ensures var next := Route(r, Spaces(n)); next.review && next.decoder == Idle && !next.noteTransition
  {
    if n > 0 {
      SpacesAreKeys(r, n - 1);
      assert Spaces(n)[..n - 1] == Spaces(n - 1);
    }
  }

  /** A read of up to `n` bytes, begun now, ends with at most a chunk of keys, whether or not the escape timer
      fires while it lasts. */
  ghost predicate StaysWithinChunk(r: Router, n: nat) {
    forall values: Bytes, fired: bool :: |values| <= n ==> Load(Deliver(Polled(r, fired), values)) <= CHUNK
  }

  /** The source is polled, and the timer may fire meanwhile. */
  function Polled(r: Router, fired: bool): Router {
    if fired then Expire(Poll(r), r.timerGeneration) else Poll(r)
  }

  lemma PolledKeeps(r: Router, fired: bool)
    requires Coherent(r) && r.review && HasCapacity(r)
    ensures var p := Polled(r, fired); Coherent(p) && p.polling && p.review && |p.keys| == (if fired then Undecided(r) else 0)
    ensures fired && Undecided(r) == 1 ==> Polled(r, fired).decoder == Idle && !Polled(r, fired).noteTransition
  {
  }

  /** The bound of one chunk holds for a read begun in review if and only if no escape is undecided when it
      begins, or fewer bytes than a chunk are read. */
  lemma ChunkIsEnoughIff(r: Router, n: nat)
    requires Coherent(r) && r.review && HasCapacity(r) && n <= CHUNK
    ensures StaysWithinChunk(r, n) <==> Undecided(r) == 0 || n < CHUNK
  {
    if Undecided(r) == 0 || n < CHUNK {
      forall values: Bytes, fired: bool | |values| <= n
        ensures Load(Deliver(Polled(r, fired), values)) <= CHUNK
      {
        PolledKeeps(r, fired);
        RouteKeeps(Polled(r, fired), values);
      }
    } else {
      PolledKeeps(r, true);
      SpacesAreKeys(Polled(r, true), n);
      assert Load(Deliver(Polled(r, true), Spaces(n))) > CHUNK;
    }
  }

  /** A run that exceeds a chunk: an escape is read alone, its timer fires during the next poll, and that poll
      returns a whole chunk of keys. */
  lemma EscapeThenFullChunk()
    ensures var r := Run(FRESH_ROUTER, [EnableReview, BeginRead, Chunk([0x1B]), BeginRead, TimerFires(2), Chunk(Spaces(CHUNK))]);
            |r.keys| == CHUNK + 1
  {
    var acts := [EnableReview, BeginRead, Chunk([0x1B]), BeginRead, TimerFires(2), Chunk(Spaces(CHUNK))];
    var armed := EscapeArmed();
    assert acts[..5] == armed + [BeginRead, TimerFires(2)];
    EscapeFired(armed);
    var fired := Run(FRESH_ROUTER, acts[..5]);
    SpacesAreKeys(fired, CHUNK);
  }

  lemma EscapeArmed() returns (acts: seq<Act>)
    ensures acts == [EnableReview, BeginRead, Chunk([0x1B])]
    ensures var r := Run(FRESH_ROUTER, acts);
            r == FRESH_ROUTER.(review := true, modeGeneration := 1, decoder := Escape, timerGeneration := 2, timerArmed := true)
  {
    acts := [EnableReview, BeginRead, Chunk([0x1B])];
    assert acts[..2] == [EnableReview, BeginRead] && acts[..2][..1] == [EnableReview] && acts[..2][..1][..0] == [];
    assert [0x1B][..0] == [];
    var idle := Run(FRESH_ROUTER, acts[..2]);
    assert Run(FRESH_ROUTER, acts[..2][..1]) == Enable(FRESH_ROUTER);
    assert Route(idle, [0x1B]) == RouteByte(idle, 0x1B);
  }

  lemma EscapeFired(armed: seq<Act>)
    requires Run(FRESH_ROUTER, armed)
             == FRESH_ROUTER.(review := true, modeGeneration := 1, decoder := Escape, timerGeneration := 2, timerArmed := true)
    ensures var r := Run(FRESH_ROUTER, armed + [BeginRead, TimerFires(2)]);
            r.review && r.polling && r.decoder == Idle && !r.noteTransition && !r.failed && |r.keys| == 1
  {
    var acts := armed + [BeginRead, TimerFires(2)];
    assert acts[..|acts| - 1] == armed + [BeginRead];
    assert acts[..|acts| - 1][..|armed|] == armed;
  }

  // ----- Timers --------------------------------------------------------------------------------------

  lemma ReviewTimers(r: Router, b: Byte)
    ensures r.timerGeneration <= ReviewByte(r, b).timerGeneration
  {
    if r.decoder == Idle {
      IdleTimers(r, b);
    } else {
      SequenceTimers(r, b);
    }
  }

  lemma DisableTimers(r: Router, clearKeys: bool)
    ensures r.timerGeneration <= Disable(r, clearKeys).timerGeneration
  {
  }

  lemma IdleTimers(r: Router, b: Byte)
    requires r.decoder == Idle
    ensures r.timerGeneration <= ReviewByte(r, b).timerGeneration
  {
    if b == 0x1B {
      assert ReviewByte(r, b) == Arm(r.(decoder := Escape));
    } else if b == 0x04 {
      assert ReviewByte(r, b) == Disable(AppendKey(r, EOFKey), false);
      DisableTimers(AppendKey(r, EOFKey), false);
    } else {
      KeyFrame(r, b);
    }
  }

  /** A byte that is a key, or nothing, touches the keys and the two flags that go with them. */
  lemma KeyFrame(r: Router, b: Byte)
    requires r.decoder == Idle && b != 0x1B && b != 0x04
    ensures var next := ReviewByte(r, b);
            next == r.(keys := next.keys, dropLeadingLF := next.dropLeadingLF, noteTransition := next.noteTransition)
  {
    if b == 0x20 {
      assert ReviewByte(r, b) == AppendKey(r, ToggleKey);
    } else if b == 0x0D {
      assert ReviewByte(r, b) == AppendKey(r.(dropLeadingLF := true), EnterKey);
    } else if b == 0x0A {
      assert ReviewByte(r, b) == AppendKey(r, EnterKey);
    } else if b == 0x6E || b == 0x4E {
      assert ReviewByte(r, b) == AppendKey(r, NoteKey).(noteTransition := true);
    } else {
      assert ReviewByte(r, b) == r;
    }
  }

  lemma SequenceTimers(r: Router, b: Byte)
    requires r.decoder != Idle
    ensures r.timerGeneration <= ReviewByte(r, b).timerGeneration
  {
    var stopped := Stop(r).(decoder := Idle);
    if r.decoder == Escape {
      assert b == 0x5B ==> ReviewByte(r, b) == Arm(Stop(r).(decoder := CSI));
      assert b == 0x4F ==> ReviewByte(r, b) == Arm(Stop(r).(decoder := SS3));
      assert b != 0x5B && b != 0x4F ==> ReviewByte(r, b) == stopped;
    } else {
      assert ReviewByte(r, b).timerGeneration == stopped.timerGeneration;
    }
  }

  lemma ByteTimers(r: Router, b: Byte)
    ensures r.timerGeneration <= RouteByte(r, b).timerGeneration
  {
    ReviewTimers(r.(dropLeadingLF := false), b);
  }

  lemma {:induction false} RouteTimers(r: Router, values: Bytes)
    ensures r.timerGeneration <= Route(r, values).timerGeneration
  {
    if values != [] {
      RouteTimers(r, values[..|values| - 1]);
      ByteTimers(Route(r, values[..|values| - 1]), values[|values| - 1]);
    }
  }

  lemma {:induction false} RunTimers(r: Router, acts: seq<Act>)
    ensures r.timerGeneration <= Run(r, acts).timerGeneration
  {
    if acts != [] {
      RunTimers(r, acts[..|acts| - 1]);
      StepTimers(Run(r, acts[..|acts| - 1]), acts[|acts| - 1]);
    }
  }

  lemma StepTimers(r: Router, act: Act)
    ensures r.timerGeneration <= Step(r, act).timerGeneration
  {
    if act.Chunk? {
      RouteTimers(r, act.values);
    }
  }

  /** A timer that was stopped or replaced has no effect whenever it fires: it emits no key and leaves the
      decoder alone. */
  lemma SupersededTimerIsSilent(r: Router, generation: nat, acts: seq<Act>)
    requires generation < r.timerGeneration
    ensures Step(Run(r, acts), TimerFires(generation)) == Run(r, acts)
  {
    RunTimers(r, acts);
  }

  /** A timer that does act turns an undecided escape into one key, or just ends a sequence. */
  lemma TimerActsOnce(r: Router)
    requires Coherent(r) && r.timerArmed
    ensures var next := Step(r, TimerFires(r.timerGeneration));
            && next.decoder == Idle && !next.timerArmed && next.lineBytes == r.lineBytes
            && next.keys == (if Undecided(r) == 1 then r.keys + [KeyEvent(EscapeKey, r.modeGeneration)] else r.keys)
            && forall g :: Step(next, TimerFires(g)) == next
  {
  }

  // ----- Where bytes go ---------------------------------------------------------------------------

  /** In review a byte never reaches the editor, and only Ctrl-D leaves review. */
  lemma ReviewIsPrivate(r: Router, b: Byte)
    requires Coherent(r) && r.review
    ensures var next := RouteByte(r, b);
            && next.lineBytes == r.lineBytes && next.lineAuthority == r.lineAuthority
            && (!next.review ==> b == 0x04 && !r.noteTransition && r.decoder == Idle)
  {
    if !r.noteTransition {
      DecodedIsPrivate(r.(dropLeadingLF := false), b);
    }
  }

  /** What reaches the editor is as it was, and review is left only by a Ctrl-D outside any sequence. */
  predicate Private(r: Router, b: Byte, next: Router) {
    next.lineBytes == r.lineBytes && next.lineAuthority == r.lineAuthority && (!next.review ==> b == 0x04 && r.decoder == Idle)
  }

  lemma DecodedIsPrivate(r: Router, b: Byte)
    requires r.review
    ensures Private(r, b, ReviewByte(r, b))
  {
    if r.decoder == Idle {
      KeyIsPrivate(r, b);
    } else {
      SequenceIsPrivate(r, b);
    }
  }

  lemma KeyIsPrivate(r: Router, b: Byte)
    requires r.review && r.decoder == Idle
    ensures Private(r, b, ReviewByte(r, b))
  {
    if b == 0x04 {
      assert ReviewByte(r, b) == Disable(AppendKey(r, EOFKey), false);
    } else if b == 0x1B {
      assert ReviewByte(r, b) == Arm(r.(decoder := Escape));
    } else {
      KeyFrame(r, b);
    }
  }

  lemma SequenceIsPrivate(r: Router, b: Byte)
    requires r.review && r.decoder != Idle
    ensures Private(r, b, ReviewByte(r, b))
  {
    if r.decoder == Escape {
      assert ReviewByte(r, b) == if b == 0x5B then Arm(Stop(r).(decoder := CSI)) else if b == 0x4F then Arm(Stop(r).(decoder := SS3)) else Stop(r).(decoder := Idle);
    } else {
      var done := Stop(r).(decoder := Idle);
      assert ReviewByte(r, b) == if b == 0x41 then AppendKey(done, UpKey) else if b == 0x42 then AppendKey(done, DownKey) else done;
    }
  }

  /** A whole chunk read in review that stays in review gives the editor nothing. */
  lemma {:induction false} ReviewChunkIsPrivate(r: Router, values: Bytes)
    requires Coherent(r) && r.review && Route(r, values).review
    ensures Route(r, values).lineBytes == r.lineBytes
  {
    if values != [] {
      var front := values[..|values| - 1];
      RouteKeeps(r, front);
      if Route(r, front).review {
        ReviewChunkIsPrivate(r, front);
        ReviewIsPrivate(Route(r, front), values[|values| - 1]);
      } else {
        ByteOutsideReview(Route(r, front), values[|values| - 1]);
      }
    }
  }

  /** The source bytes the editor does not get outside review: one line feed after an Enter key, and the rest
      of an escape sequence that review had begun. */
  function Swallowed(r: Router, values: Bytes): nat
    decreases |values|
  {
    if values == [] || r.review || (!r.dropLeadingLF && r.decoder == Idle) then 0
    else if r.dropLeadingLF && values[0] != 0x0A && r.decoder == Idle then 0
    else 1 + Swallowed(RouteByte(r, values[0]), values[1..])
  }

  lemma {:induction false} RouteConcat(r: Router, a: Bytes, b: Bytes)
    ensures Route(r, a + b) == Route(Route(r, a), b)
  {
    if b == [] {
      assert a + b == a;
    } else {
      assert (a + b)[..|a + b| - 1] == a + b[..|b| - 1];
      RouteConcat(r, a, b[..|b| - 1]);
    }
  }

  lemma RouteFirst(r: Router, values: Bytes)
    requires values != []
    ensures Route(r, values) == Route(RouteByte(r, values[0]), values[1..])
  {
    assert values == [values[0]] + values[1..];
    RouteConcat(r, [values[0]], values[1..]);
    assert [values[0]][..0] == [];
    assert Route(r, [values[0]]) == RouteByte(Route(r, [values[0]][..0]), values[0]);
  }

  /** Outside review, with nothing half-read, every byte reaches the editor in order. */
  lemma {:induction false} PassThrough(r: Router, values: Bytes)
    requires Coherent(r) && !r.review && !r.dropLeadingLF && r.decoder == Idle
    ensures Route(r, values) == AppendLine(r, values, CurrentAuthority(r))
  {
    if values != [] {
      var front, b := values[..|values| - 1], values[|values| - 1];
      PassThrough(r, front);
      assert front + [b] == values;
      assert (r.lineBytes + front) + [b] == r.lineBytes + values;
      assert r.(dropLeadingLF := false) == r;
    }
  }

  lemma DropsNothing(r: Router, values: Bytes)
    requires Coherent(r) && !r.review && r.dropLeadingLF && values != [] && values[0] != 0x0A && r.decoder == Idle
    ensures Route(r, values).lineBytes == r.lineBytes + values
  {
    var ready := r.(dropLeadingLF := false);
    RouteFirst(r, values);
    RouteFirst(ready, values);
    assert RouteByte(r, values[0]) == RouteByte(ready, values[0]);
    PassThrough(ready, values);
  }

  /** A byte that is swallowed leaves the buffer alone. */
  lemma SwallowsByte(r: Router, b: Byte)
    requires Coherent(r) && !r.review && (r.decoder != Idle || (r.dropLeadingLF && b == 0x0A))
    ensures RouteByte(r, b).lineBytes == r.lineBytes && !RouteByte(r, b).review
  {
  }

  lemma {:induction false} SwallowedThenInOrder(r: Router, values: Bytes)
    requires Coherent(r) && !r.review
    ensures var k := Swallowed(r, values); k <= |values| && Route(r, values).lineBytes == r.lineBytes + values[k..]
    decreases |values|
  {
    if values == [] {
    } else if !r.dropLeadingLF && r.decoder == Idle {
      PassThrough(r, values);
      assert values[0..] == values;
    } else if r.dropLeadingLF && values[0] != 0x0A && r.decoder == Idle {
      DropsNothing(r, values);
      assert values[0..] == values;
    } else {
      var next := RouteByte(r, values[0]);
      SwallowsByte(r, values[0]);
      ByteKeeps(r, values[0]);
      RouteFirst(r, values);
      SwallowedThenInOrder(next, values[1..]);
      assert values[1..][Swallowed(next, values[1..])..] == values[1 + Swallowed(next, values[1..])..];
    }
  }

  /** Outside review the editor gets the source bytes in order but for a short prefix. */
  lemma OutsideReviewInOrder(r: Router, values: Bytes)
    requires Coherent(r) && !r.review
    ensures var k := Swallowed(r, values); k <= |values| && Route(r, values).lineBytes == r.lineBytes + values[k..]
    ensures Swallowed(r, values) <= 3
  {
    SwallowedThenInOrder(r, values);
    SwallowedFew(r, values);
  }

  lemma {:induction false} SwallowedFew(r: Router, values: Bytes)
    requires Coherent(r) && !r.review
    ensures Swallowed(r, values) <= (if r.dropLeadingLF then 1 else 0) + (match r.decoder case Idle => 0 case Escape => 2 case _ => 1)
    decreases |values|
  {
    if values != [] && !(r.decoder == Idle && (!r.dropLeadingLF || values[0] != 0x0A)) {
      ByteKeeps(r, values[0]);
      SwallowedFew(RouteByte(r, values[0]), values[1..]);
    }
  }
}
