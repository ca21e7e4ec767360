/** When the session does accept a submitted line. The buffers a line was assembled from each carry one
    authority for all that entered them since they were last empty, so a line is judged by its company:
    every byte that entered a buffer some of it was taken from.
 */
module LineCompany {
  import opened Basics
  import opened Utf8
  import opened InputAuthority
  import opened RouterModel
  import opened RouterRuns
  import opened Provenance

  predicate AllAre(tags: seq<Authority>, authority: Authority) {
    forall i :: 0 <= i < |tags| ==> tags[i] == authority
  }

  /** The authority of some bytes together: theirs if they share one, else mixed. */
  predicate Sums(authority: Authority, tags: seq<Authority>) {
    && tags != []
    && (forall i :: 0 <= i < |tags| ==> tags[i].mode != Mixed)
    && (if AllAre(tags, tags[0]) then authority == tags[0] else authority.mode == Mixed)
  }

  lemma CombineSums(current: Authority, tags: seq<Authority>, incoming: Authority, more: seq<Authority>)
    requires Sums(current, tags) && Sums(incoming, more)
    ensures Sums(Combine(current, incoming), tags + more)
  {
    var all := tags + more;
    assert all[0] == tags[0] && all[|tags|] == more[0];
    assert AllAre(all, all[0]) ==> AllAre(tags, tags[0]) by {
      assert forall i :: 0 <= i < |tags| ==> all[i] == tags[i];
    }
    assert AllAre(all, all[0]) ==> AllAre(more, more[0]) by {
      assert forall i :: 0 <= i < |more| ==> all[|tags| + i] == more[i];
    }
  }

  // ----- The company ------------------------------------------------------------------------------------

  /** What has entered a buffer since it was last empty, once its bytes have changed. */
  function Entered(entered: seq<Authority>, tags: seq<Authority>, later: seq<Authority>): seq<Authority> {
    if |later| > |tags| then (if tags == [] then later else entered + later[|tags|..])
    else if later == [] then [] else entered
  }

  /** The path with what its buffers do not tell: all that entered the router's buffer since it was empty, the
      same for the bytes that wait in the reader, and for all that the line was taken from. */
  datatype Walk = Walk(p: Path, entered: seq<Authority>, waiting: seq<Authority>, company: seq<Authority>)

  const FRESH_WALK := Walk(FRESH_PATH, [], [], [])

  function Go(k: Walk, event: Event): Walk {
    var next := Move(k.p, event);
    var entered := Entered(k.entered, k.p.w.tags, next.w.tags);
    match event
    case Pull(size, _) =>
      if k.p.raw != [] then Walk(next, entered, k.waiting, k.company + k.waiting)
      else if size == 0 || size > |k.p.w.tags| || !Legal(k.p.w.r, EditorReads(size)) then k
      else Walk(next, entered, k.entered, k.company + k.entered)
    case Submitted => Walk(next, entered, k.waiting, [])
    case _ => Walk(next, entered, k.waiting, k.company)
  }

  function Walked(events: seq<Event>): Walk {
    if events == [] then FRESH_WALK else Go(Walked(events[..|events| - 1]), events[|events| - 1])
  }

  // ----- It is what the authorities say -----------------------------------------------------------------

  predicate BufferExact(w: Tagged, entered: seq<Authority>) {
    w.tags != [] ==> Sums(w.r.lineAuthority, entered)
  }

  lemma NotedExact(w: Tagged, next: Router, entered: seq<Authority>)
    requires TaggedOk(w) && Change(w.r, next) && BufferExact(w, entered)
    ensures BufferExact(Noted(w, next), Entered(entered, w.tags, Noted(w, next).tags))
  {
    NotedKeeps(w, next);
    var after := Noted(w, next);
    if |after.tags| > |w.tags| {
      var own := seq(|next.lineBytes| - |w.r.lineBytes|, _ => CurrentAuthority(next));
      assert after.tags == w.tags + own;
      assert after.tags[|w.tags|..] == own;
      assert AllAre(own, own[0]) && Sums(CurrentAuthority(next), own);
      if w.tags != [] {
        CombineSums(w.r.lineAuthority, entered, CurrentAuthority(next), own);
      } else {
        assert after.tags == own;
      }
    }
  }

  lemma ByteGrows(w: Tagged, b: Byte)
    requires TaggedOk(w)
    ensures w.tags <= Noted(w, RouteByte(w.r, b)).tags
  {
    ByteChanges(w.r, b);
    if w.r.review {
      ReviewIsPrivate(w.r, b);
    } else {
      OutsideAppends(w.r, b);
    }
  }

  lemma EnteredTwice(entered: seq<Authority>, tags: seq<Authority>, more: seq<Authority>, most: seq<Authority>)
    requires tags <= more <= most
    ensures Entered(Entered(entered, tags, more), more, most) == Entered(entered, tags, most)
  {
    assert most[|tags|..] == more[|tags|..] + most[|more|..];
  }

  lemma {:induction false} RouteExact(w: Tagged, values: Bytes, entered: seq<Authority>)
    requires TaggedOk(w) && BufferExact(w, entered)
    ensures var later := TagRoute(w, values);
            TaggedOk(later) && w.tags <= later.tags && BufferExact(later, Entered(entered, w.tags, later.tags))
  {
    TagRouteKeeps(w, values);
    if values != [] {
      var front, b := values[..|values| - 1], values[|values| - 1];
      RouteExact(w, front, entered);
      RouteByteExact(w, TagRoute(w, front), b, entered);
    }
  }

  lemma RouteByteExact(w: Tagged, before: Tagged, b: Byte, entered: seq<Authority>)
    requires TaggedOk(before) && w.tags <= before.tags && BufferExact(before, Entered(entered, w.tags, before.tags))
    ensures var later := Noted(before, RouteByte(before.r, b));
            w.tags <= later.tags && BufferExact(later, Entered(entered, w.tags, later.tags))
  {
    ByteChanges(before.r, b);
    ByteGrows(before, b);
    var later := Noted(before, RouteByte(before.r, b));
    NotedExact(before, RouteByte(before.r, b), Entered(entered, w.tags, before.tags));
    EnteredTwice(entered, w.tags, before.tags, later.tags);
  }

  lemma StepExact(w: Tagged, act: Act, entered: seq<Authority>)
    requires TaggedOk(w) && BufferExact(w, entered)
    ensures BufferExact(TagStep(w, act), Entered(entered, w.tags, TagStep(w, act).tags))
  {
    if act.Chunk? && Legal(w.r, act) {
      RouteExact(w, act.values, entered);
    } else {
      StepChanges(w.r, act);
      NotedExact(w, Step(w.r, act), entered);
    }
  }

  /** The authorities on the path are those of what entered; an open note's is a note's. */
  predicate Exact(k: Walk) {
    && PathOk(k.p) && BufferExact(k.p.w, k.entered)
    && (k.p.raw != [] ==> Sums(k.p.rawAuthority, k.waiting))
    && (if k.p.lineSet then Sums(k.p.lineAuthority, k.company) else k.company == [])
    && (k.p.note.Some? ==> k.p.note.value.mode == PlanNote)
  }

  /** A batch joins the line. */
  lemma TakeExact(k: Walk, batch: seq<Authority>, authority: Authority, among: seq<Authority>, used: nat)
    requires Sums(authority, among) && if k.p.lineSet then Sums(k.p.lineAuthority, k.company) else k.company == []
    ensures var next := Take(k.p, batch, authority, used);
            next.lineSet && Sums(next.lineAuthority, k.company + among) && next.rawAuthority == authority
            && next.w == k.p.w && next.note == k.p.note
  {
    if k.p.lineSet {
      CombineSums(k.p.lineAuthority, k.company, authority, among);
    } else {
      assert k.company + among == among;
    }
  }

  lemma PullExact(k: Walk, size: nat, used: nat)
    requires Exact(k)
    ensures Exact(Go(k, Pull(size, used)))
  {
    PullKeeps(k.p, size, used);
    if k.p.raw != [] {
      TakeExact(k.(p := k.p.(raw := [])), k.p.raw, k.p.rawAuthority, k.waiting, used);
      assert Entered(k.entered, k.p.w.tags, k.p.w.tags) == k.entered || k.p.w.tags == [];
    } else if !(size == 0 || size > |k.p.w.tags| || !Legal(k.p.w.r, EditorReads(size))) {
      StepExact(k.p.w, EditorReads(size), k.entered);
      TakeExact(k.(p := k.p.(w := TagStep(k.p.w, EditorReads(size)))), k.p.w.tags[..size], k.p.w.r.lineAuthority, k.entered, used);
    }
  }

  /** The router moves, or nothing does; the reader's part of the path stays. */
  lemma RouterExact(k: Walk, next: Path, act: Act)
    requires Exact(k) && PathOk(next) && (next.w == k.p.w || next.w == TagStep(k.p.w, act))
    requires next.raw == k.p.raw && next.rawAuthority == k.p.rawAuthority
    requires next.lineAuthority == k.p.lineAuthority && next.lineSet == k.p.lineSet
    requires next.note.Some? ==> next.note.value.mode == PlanNote
    ensures Exact(Walk(next, Entered(k.entered, k.p.w.tags, next.w.tags), k.waiting, k.company))
  {
    StepExact(k.p.w, act, k.entered);
  }

  lemma GoExact(k: Walk, event: Event)
    requires Exact(k)
    ensures Exact(Go(k, event))
  {
    MoveKeeps(k.p, event);
    var next := Move(k.p, event);
    if event.Pull? {
      PullExact(k, event.size, event.used);
    } else if event.Router? {
      RouterExact(k, next, event.act);
    } else if event.OpenNote? {
      RouterExact(k, next, BeginNoteInput);
    } else if event.CloseNote? {
      RouterExact(k, next, if k.p.note.Some? then EndNoteInput(k.p.note.value) else BeginNoteInput);
    } else {
      RouterExact(k.(company := [], p := k.p.(lineSet := false, line := [], lineAuthority := UNSET)), next, BeginNoteInput);
    }
  }

  lemma {:induction false} WalkedExact(events: seq<Event>)
    ensures Exact(Walked(events)) && Walked(events).p == Moves(FRESH_PATH, events)
  {
    if events != [] {
      WalkedExact(events[..|events| - 1]);
      GoExact(Walked(events[..|events| - 1]), events[|events| - 1]);
    }
  }

  /** In every run, a submitted line is a plan note if and only if a note is open and all its company entered in
      that note's period; it is a chat turn if and only if no note is open, nothing is under way, the current
      period is ordinary and all its company entered in it. An untouched line is a turn only in the first period. */
  lemma AcceptedIff(events: seq<Event>, busy: bool)
    ensures var k, p := Walked(events), Moves(FRESH_PATH, events);
            && (Judge(p, busy) == Note <==> p.note.Some? && p.lineSet && AllAre(k.company, p.note.value))
            && (Judge(p, busy) == Turn <==>
                && p.note.None? && !busy && !p.w.r.review && !p.w.r.noteInput
                && if p.lineSet then AllAre(k.company, Authority(p.w.r.modeGeneration, Ordinary)) else p.w.r.modeGeneration == 0)
            && (p.lineSet ==> k.company != [])
  {
    WalkedExact(events);
    var k := Walked(events);
    if k.p.lineSet {
      SumIs(k.p.lineAuthority, k.company, if k.p.note.Some? then k.p.note.value else CurrentAuthority(k.p.w.r));
    }
  }

  lemma SumIs(authority: Authority, tags: seq<Authority>, which: Authority)
    requires Sums(authority, tags) && which.mode != Mixed
    ensures authority == which <==> AllAre(tags, which)
  {
    assert AllAre(tags, which) ==> tags[0] == which;
  }
}
