/** What opening and closing a review or a note does to the bytes and keys that wait. */
module RouterPeriods {
  import opened Utf8
  import opened InputAuthority
  import opened RouterModel
  import opened RouterRuns
  import opened RouterKeys

  /** The text typed after the Note key, before the note editor opens, is what the editor is given first, behind
      whatever was still in its buffer; with that empty, under the note's own authority. No key is left. */
  lemma NoteTextArrives(r: Router, v: Bytes, rest: Bytes, noted: Router)
    requires Ready(r) && Keys(v).end == Notes(rest) && noted == Step(Route(r, v).(polling := false), BeginNoteInput)
    ensures noted.lineBytes == r.lineBytes + rest && noted.noteBytes == [] && noted.keys == []
    ensures CurrentAuthority(noted) == Authority(r.modeGeneration + 1, PlanNote)
    ensures rest != [] && r.lineBytes == [] ==> noted.lineAuthority == Authority(r.modeGeneration + 1, PlanNote)
    ensures rest != [] && r.lineBytes != [] && r.lineAuthority.generation <= r.modeGeneration ==> noted.lineAuthority.mode == Mixed
  {
    KeysExactly(r, v);
    LineStays(r, v);
    assert r.noteBytes + rest == rest;
  }

  /** Up to the Note key nothing reaches the editor's buffer. */
  lemma {:induction false} LineStays(r: Router, v: Bytes)
    requires Coherent(r) && r.review
    ensures Coherent(Route(r, v)) && (Route(r, v).review ==> Route(r, v).lineAuthority == r.lineAuthority)
  {
    RouteKeeps(r, v);
    if v != [] {
      var front, last := v[..|v| - 1], v[|v| - 1];
      LineStays(r, front);
      var before := Route(r, front);
      RouteKeeps(r, front);
      if before.review {
        ReviewIsPrivate(before, last);
      } else {
        StaysOutside(before, last);
      }
    }
  }

  lemma StaysOutside(r: Router, b: Byte)
    requires Coherent(r) && !r.review
    ensures !RouteByte(r, b).review
  {
  }

  /** The bytes in the editor's buffer stay as they are. */
  predicate SameLine(r: Router, next: Router) {
    next.lineBytes == r.lineBytes && next.lineAuthority == r.lineAuthority
  }

  /** Opening a review, unless one is open or a note is being typed, begins a period with no keys and nothing half-read. */
  lemma ReviewOpens(r: Router)
    requires Coherent(r) && !r.polling
    ensures var next := Step(r, EnableReview);
            if r.review || r.noteInput then next == r
            else && CurrentAuthority(next) == Authority(r.modeGeneration + 1, PlanReview) && SameLine(r, next)
                 && next.keys == [] && next.noteBytes == [] && next.decoder == Idle && !next.noteTransition && !next.timerArmed
  {
  }

  /** Closing it begins an ordinary period without its keys; a sequence that was being read is still read to its end. */
  lemma ReviewCloses(r: Router)
    requires Coherent(r) && !r.polling
    ensures var next := Step(r, DisableReview);
            && CurrentAuthority(next) == Authority(r.modeGeneration + 1, Ordinary) && SameLine(r, next)
            && next.keys == [] && next.noteBytes == [] && !next.noteTransition && next.decoder == r.decoder
  {
  }

  /** A note is opened if and only if none is open and no review is, but for its Note key; and closed if and only if
      it is open, by its own authority. Otherwise nothing changes. */
  lemma NoteOpensAndCloses(r: Router, authority: Authority)
    requires Coherent(r) && !r.polling
    ensures var next := Step(r, BeginNoteInput);
            if r.noteInput || (r.review && !r.noteTransition) then next == r
            else CurrentAuthority(next) == Authority(r.modeGeneration + 1, PlanNote) && next.lineBytes == r.lineBytes + r.noteBytes
    ensures var next := Step(r, EndNoteInput(authority));
            if r.noteInput && authority == Authority(r.modeGeneration, PlanNote)
            then CurrentAuthority(next) == Authority(r.modeGeneration + 1, Ordinary) && SameLine(r, next) && next.keys == r.keys
            else next == r
  {
    if r.noteBytes == [] {
      assert r.lineBytes + r.noteBytes == r.lineBytes;
    }
  }

  /** When the source ends, an escape that was waiting for more is a key. */
  lemma SourceEndsKeys(r: Router)
    requires Coherent(r) && !r.failed
    ensures var next := Step(r, SourceEnds);
            && next.failed && SameLine(r, next) && next.decoder == Idle && !next.timerArmed
            && next.keys == r.keys + if r.review && r.decoder == Escape then [KeyEvent(EscapeKey, r.modeGeneration)] else []
  {
  }
}
