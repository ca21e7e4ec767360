/** Whose bytes a submitted line is made of. Each byte is remembered with the authority under which it
    entered the router's line buffer; lines are assembled by the paste reader from buffers of any size;
    the session accepts a line as a plan note or as a chat turn by its merged authority alone.
 */
module Provenance {
  import opened Basics
  import opened Utf8
  import opened InputAuthority
  import opened RouterModel
  import opened RouterRuns

  /** The router with what its bytes do not tell: the entry authority of each buffered byte, and the mode of
      every period so far. */
  datatype Tagged = Tagged(r: Router, tags: seq<Authority>, modes: seq<Mode>)

  const FRESH_TAGGED := Tagged(FRESH_ROUTER, [], [Ordinary])

  /** What a change of the router does to the record. */
  function Noted(w: Tagged, next: Router): Tagged {
    var grown := if |next.lineBytes| > |w.r.lineBytes| then |next.lineBytes| - |w.r.lineBytes| else 0;
    var taken := if |next.lineBytes| < |w.r.lineBytes| then |w.r.lineBytes| - |next.lineBytes| else 0;
    Tagged(next,
           (if taken <= |w.tags| then w.tags[taken..] else []) + seq(grown, _ => CurrentAuthority(next)),
           if next.modeGeneration > w.r.modeGeneration then w.modes + [CurrentMode(next)] else w.modes)
  }

  function TagRoute(w: Tagged, values: Bytes): Tagged {
    if values == [] then w
    else
      var before := TagRoute(w, values[..|values| - 1]);
      Noted(before, RouteByte(before.r, values[|values| - 1]))
  }

  /** The source's lock is released. */
  function Released(w: Tagged): Tagged {
    w.(r := w.r.(polling := false))
  }

  function TagStep(w: Tagged, act: Act): Tagged {
    if act.Chunk? && Legal(w.r, act) then Released(TagRoute(w, act.values)) else Noted(w, Step(w.r, act))
  }

  // ----- The record is right ------------------------------------------------------------------------

  /** An entry authority names a period that has been, by its mode. */
  predicate Genuine(w: Tagged, tag: Authority) {
    tag.generation < |w.modes| && tag.mode == w.modes[tag.generation] && tag.mode != Mixed
  }

  predicate TaggedOk(w: Tagged) {
    && Coherent(w.r)
    && |w.tags| == |w.r.lineBytes|
    && (w.tags != [] ==> Vouches(w.r.lineAuthority, w.tags))
    && |w.modes| == w.r.modeGeneration + 1
    && w.modes[w.r.modeGeneration] == CurrentMode(w.r)
    && forall i :: 0 <= i < |w.tags| ==> Genuine(w, w.tags[i])
  }

  /** The ways a router changes: bytes appended under the authority it then has, bytes taken, or neither; and
      the mode only with its generation. */
  predicate Change(r: Router, next: Router) {
    && Coherent(next)
    && (|| (next.modeGeneration == r.modeGeneration && CurrentMode(next) == CurrentMode(r))
        || next.modeGeneration == r.modeGeneration + 1)
    && (|| (next.lineBytes == r.lineBytes && next.lineAuthority == r.lineAuthority)
        || (|next.lineBytes| < |r.lineBytes| && next.lineBytes == r.lineBytes[|r.lineBytes| - |next.lineBytes|..]
            && (next.lineBytes != [] ==> next.lineAuthority == r.lineAuthority))
        || (r.lineBytes < next.lineBytes
            && next.lineAuthority == if r.lineBytes == [] then CurrentAuthority(next)
                                     else Combine(r.lineAuthority, CurrentAuthority(next))))
  }

  lemma ByteChanges(r: Router, b: Byte)
    requires Coherent(r)
    ensures Change(r, RouteByte(r, b))
  {
    ByteKeeps(r, b);
    if r.review {
      ReviewIsPrivate(r, b);
      ReviewModes(r, b);
    } else {
      ByteOutsideReview(r, b);
      OutsideAppends(r, b);
    }
  }

  /** In review a byte changes the mode only with its generation. */
  lemma ReviewModes(r: Router, b: Byte)
    requires Coherent(r) && r.review
    ensures var next := RouteByte(r, b);
            if next.review then next.modeGeneration == r.modeGeneration else next.modeGeneration == r.modeGeneration + 1
  {
  }

  lemma OutsideAppends(r: Router, b: Byte)
    requires Coherent(r) && !r.review
    ensures var next := RouteByte(r, b);
            || (next.lineBytes == r.lineBytes && next.lineAuthority == r.lineAuthority)
            || (next.lineBytes == r.lineBytes + [b]
                && next.lineAuthority == if r.lineBytes == [] then CurrentAuthority(r) else Combine(r.lineAuthority, CurrentAuthority(r)))
  {
  }

  lemma StepChanges(r: Router, act: Act)
    requires Coherent(r) && !(act.Chunk? && Legal(r, act))
    ensures Change(r, Step(r, act))
  {
    var next := Step(r, act);
    if act.BeginNoteInput? && !r.polling && MayBeginNote(r) && r.noteBytes != [] {
      assert next.lineBytes == r.lineBytes + r.noteBytes;
    }
  }

  lemma ModesGrow(w: Tagged, next: Router, tag: Authority)
    requires Genuine(w, tag) && |w.modes| == w.r.modeGeneration + 1
    ensures Genuine(Noted(w, next), tag)
  {
  }

  lemma NotedKeeps(w: Tagged, next: Router)
    requires TaggedOk(w) && Change(w.r, next)
    ensures TaggedOk(Noted(w, next))
  {
    var after := Noted(w, next);
    assert Genuine(after, CurrentAuthority(next));
    forall i | 0 <= i < |w.tags|
      ensures Genuine(after, w.tags[i])
    {
      ModesGrow(w, next, w.tags[i]);
    }
    var own := seq(if |next.lineBytes| > |w.r.lineBytes| then |next.lineBytes| - |w.r.lineBytes| else 0, _ => CurrentAuthority(next));
    assert Vouches(CurrentAuthority(next), own);
    if |next.lineBytes| > |w.r.lineBytes| && w.tags != [] {
      CombineVouches(w.r.lineAuthority, w.tags, CurrentAuthority(next), own);
      assert after.tags == w.tags + own;
    }
  }

  lemma {:induction false} TagRouteKeeps(w: Tagged, values: Bytes)
    requires TaggedOk(w)
    ensures TaggedOk(TagRoute(w, values)) && TagRoute(w, values).r == Route(w.r, values)
  {
    if values != [] {
      var front := values[..|values| - 1];
      TagRouteKeeps(w, front);
      ByteChanges(TagRoute(w, front).r, values[|values| - 1]);
      NotedKeeps(TagRoute(w, front), RouteByte(TagRoute(w, front).r, values[|values| - 1]));
    }
  }

  lemma TagStepKeeps(w: Tagged, act: Act)
    requires TaggedOk(w)
    ensures TaggedOk(TagStep(w, act)) && TagStep(w, act).r == Step(w.r, act)
  {
    if act.Chunk? && Legal(w.r, act) {
      TagRouteKeeps(w, act.values);
    } else {
      StepChanges(w.r, act);
      NotedKeeps(w, Step(w.r, act));
    }
  }

  // ----- Lines and the session ------------------------------------------------------------------------

  /** The whole input path. Of the reader's bytes only their entry authorities matter: those waiting after a
      line end, and those of the line being assembled. The session may hold the note editor open. */
  datatype Path = Path(
    w: Tagged, raw: seq<Authority>, rawAuthority: Authority,
    line: seq<Authority>, lineAuthority: Authority, lineSet: bool, note: Option<Authority>)

  const FRESH_PATH := Path(FRESH_TAGGED, [], UNSET, [], UNSET, false, None)

  datatype Event =
    | Router(act: Act)
    | Pull(size: nat, used: nat)
    | OpenNote
    | CloseNote
    | Submitted

  datatype Verdict = Note | Turn | Rejected

  /** The session's test of a submitted line. `busy` says a review or a note submission is under way. */
  function Judge(p: Path, busy: bool): Verdict {
    if p.note.Some? then
      if p.lineAuthority == p.note.value && p.lineAuthority.mode == PlanNote then Note else Rejected
    else if p.lineAuthority.mode != Ordinary || p.lineAuthority != CurrentAuthority(p.w.r) || busy then Rejected
    else Turn
  }

  /** The reader takes what waits, or else part of the router's buffer, and puts its first bytes on the line. */
  function DoPull(p: Path, size: nat, used: nat): Path {
    if p.raw != [] then Take(p.(raw := []), p.raw, p.rawAuthority, used)
    else if size == 0 || size > |p.w.tags| || !Legal(p.w.r, EditorReads(size)) then p
    else Take(p.(w := TagStep(p.w, EditorReads(size))), p.w.tags[..size], p.w.r.lineAuthority, used)
  }

  function Take(p: Path, batch: seq<Authority>, authority: Authority, used: nat): Path {
    var n := if used <= |batch| then used else |batch|;
    p.(line := p.line + batch[..n], raw := batch[n..], rawAuthority := authority,
       lineAuthority := if p.lineSet then Combine(p.lineAuthority, authority) else authority, lineSet := true)
  }

  /** The session opens the note editor only through the router and remembers the authority it was given. */
  function Move(p: Path, event: Event): Path {
    match event
    case Router(act) => if act.BeginNoteInput? || act.EndNoteInput? || act.EditorReads? then p else p.(w := TagStep(p.w, act))
    case Pull(size, used) => DoPull(p, size, used)
    case OpenNote =>
      if !p.w.r.polling && MayBeginNote(p.w.r)
      then p.(w := TagStep(p.w, BeginNoteInput), note := Some(CurrentAuthority(BeginNote(p.w.r))))
      else p
    case CloseNote =>
      if !p.w.r.polling && p.note.Some? && MayEndNote(p.w.r, p.note.value)
      then p.(w := TagStep(p.w, EndNoteInput(p.note.value)), note := None)
      else p
    case Submitted => p.(line := [], lineAuthority := UNSET, lineSet := false)
  }

  function Moves(p: Path, events: seq<Event>): Path {
    if events == [] then p else Move(Moves(p, events[..|events| - 1]), events[|events| - 1])
  }

  predicate AllGenuine(w: Tagged, tags: seq<Authority>) {
    forall i :: 0 <= i < |tags| ==> Genuine(w, tags[i])
  }

  predicate PathOk(p: Path) {
    && TaggedOk(p.w)
    && (p.raw != [] ==> Vouches(p.rawAuthority, p.raw))
    && (if p.lineSet then Vouches(p.lineAuthority, p.line) else p.line == [] && p.lineAuthority == UNSET)
    && AllGenuine(p.w, p.raw) && AllGenuine(p.w, p.line)
    && (p.note.Some? ==> Genuine(p.w, p.note.value))
  }

  lemma TakeKeeps(p: Path, batch: seq<Authority>, authority: Authority, used: nat)
    requires PathOk(p) && p.raw == [] && Vouches(authority, batch) && AllGenuine(p.w, batch)
    ensures PathOk(Take(p, batch, authority, used))
  {
    var n := if used <= |batch| then used else |batch|;
    if p.lineSet {
      CombineVouches(p.lineAuthority, p.line, authority, batch[..n]);
    }
  }

  /** Periods are only ever added. */
  lemma StepModes(w: Tagged, act: Act)
    requires TaggedOk(w)
    ensures w.modes <= TagStep(w, act).modes
  {
    TagStepKeeps(w, act);
    if act.Chunk? && Legal(w.r, act) {
      RouteModes(w, act.values);
    }
  }

  lemma {:induction false} RouteModes(w: Tagged, values: Bytes)
    requires TaggedOk(w)
    ensures w.modes <= TagRoute(w, values).modes
  {
    if values != [] {
      RouteModes(w, values[..|values| - 1]);
    }
  }

  lemma ActKeeps(p: Path, act: Act)
    requires PathOk(p)
    ensures PathOk(p.(w := TagStep(p.w, act)))
  {
    TagStepKeeps(p.w, act);
    StepModes(p.w, act);
  }

  lemma PullKeeps(p: Path, size: nat, used: nat)
    requires PathOk(p)
    ensures PathOk(DoPull(p, size, used))
  {
    if p.raw != [] {
      TakeKeeps(p.(raw := []), p.raw, p.rawAuthority, used);
    } else if DoPull(p, size, used) != p {
      var act := EditorReads(size);
      ActKeeps(p, act);
      StepModes(p.w, act);
      var next := p.(w := TagStep(p.w, act));
      assert Vouches(p.w.r.lineAuthority, p.w.tags[..size]);
      assert AllGenuine(next.w, p.w.tags[..size]);
      TakeKeeps(next, p.w.tags[..size], p.w.r.lineAuthority, used);
    }
  }

  lemma MoveKeeps(p: Path, event: Event)
    requires PathOk(p)
    ensures PathOk(Move(p, event))
  {
    match event
    case Router(act) => ActKeeps(p, act);
    case Pull(size, used) => PullKeeps(p, size, used);
    case OpenNote =>
      if !p.w.r.polling && MayBeginNote(p.w.r) {
        ActKeeps(p, BeginNoteInput);
        TagStepKeeps(p.w, BeginNoteInput);
      }
    case CloseNote =>
      if p.note.Some? {
        ActKeeps(p, EndNoteInput(p.note.value));
      }
    case Submitted =>
  }

  lemma {:induction false} MovesKeep(events: seq<Event>)
    ensures PathOk(Moves(FRESH_PATH, events))
  {
    if events != [] {
      MovesKeep(events[..|events| - 1]);
      MoveKeeps(Moves(FRESH_PATH, events[..|events| - 1]), events[|events| - 1]);
    }
  }

  // ----- The promises -----------------------------------------------------------------------------------

  /** In every run, a line accepted as a plan note consists only of bytes that entered the line buffer in the
      very note period the session opened, and a line accepted as a chat turn only of bytes that entered it
      in the ordinary period that is still current. */
  lemma AcceptedBytesBelong(events: seq<Event>, busy: bool)
    ensures var p := Moves(FRESH_PATH, events);
            && (Judge(p, busy) == Note ==> p.note.Some? && forall i :: 0 <= i < |p.line| ==> p.line[i] == p.note.value)
            && (Judge(p, busy) == Turn ==> forall i :: 0 <= i < |p.line| ==> p.line[i] == CurrentAuthority(p.w.r))
  {
    MovesKeep(events);
  }

  /** A generation has one mode for good: whoever holds an authority can tell which period it names. */
  lemma {:induction false} PeriodsAreDistinct(w: Tagged, acts: seq<Act>)
    requires TaggedOk(w)
    ensures var later := TagRun(w, acts);
            && TaggedOk(later) && w.modes <= later.modes
            && w.r.modeGeneration <= later.r.modeGeneration
            && (later.r.modeGeneration == w.r.modeGeneration ==> CurrentAuthority(later.r) == CurrentAuthority(w.r))
  {
    if acts != [] {
      PeriodsAreDistinct(w, acts[..|acts| - 1]);
      TagStepKeeps(TagRun(w, acts[..|acts| - 1]), acts[|acts| - 1]);
      StepModes(TagRun(w, acts[..|acts| - 1]), acts[|acts| - 1]);
    }
  }

  function TagRun(w: Tagged, acts: seq<Act>): Tagged {
    if acts == [] then w else TagStep(TagRun(w, acts[..|acts| - 1]), acts[|acts| - 1])
  }

  /** Bytes buffered anywhere on the path before a note opens can never be part of an accepted note: the note's
      authority is newer than every one of theirs. */
  lemma EarlierBytesAreOlder(p: Path, i: nat)
    requires PathOk(p) && !p.w.r.polling && MayBeginNote(p.w.r)
    ensures var note := Move(p, OpenNote).note;
            && note.Some?
            && (i < |p.w.tags| ==> p.w.tags[i].generation < note.value.generation)
            && (i < |p.raw| ==> p.raw[i].generation < note.value.generation)
            && (i < |p.line| ==> p.line[i].generation < note.value.generation)
  {
    assert i < |p.w.tags| ==> Genuine(p.w, p.w.tags[i]);
    assert i < |p.raw| ==> Genuine(p.w, p.raw[i]);
    assert i < |p.line| ==> Genuine(p.w, p.line[i]);
  }
}
