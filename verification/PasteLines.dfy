/** One editor line with a paste in it: where the markers are found, what comes out, and when the line is
    refused.
 */
module PasteLines {
  import opened Basics
  import opened Utf8
  import opened MarkerStream
  import opened PasteModel
  import opened PasteRoundTrip

  // ----- A stretch of text read on its own --------------------------------------------------------

  /** A stretch of one mode, read from a clean start. */
  function Stretch(cf: Category, paste: bool, t: Bytes): Machine {
    Fold(Reader(cf), FRESH.(paste := paste), t)
  }

  /** What a stretch adds to a machine that is between characters. */
  function Add(m: Machine, stretch: Machine): Machine {
    m.(invalid := m.invalid || stretch.invalid, unsafe := m.unsafe || stretch.unsafe,
       pasteRune := stretch.pasteRune, typedRune := stretch.typedRune, queued := m.queued + stretch.queued)
  }

  /** A stretch one byte longer. */
  lemma StretchGrows(cf: Category, paste: bool, front: Bytes, b: Byte)
    ensures Stretch(cf, paste, front + [b]) == Literal(cf, Stretch(cf, paste, front), b)
  {
    assert (front + [b])[..|front|] == front;
  }

  lemma {:induction false} StretchFrame(cf: Category, paste: bool, t: Bytes)
    ensures SameFrame(FRESH.(paste := paste), Stretch(cf, paste, t)) && Tidy(Stretch(cf, paste, t))
    ensures Lossless(Stretch(cf, paste, t), t)
  {
    if t == [] {
      StretchBegins(cf, paste);
    } else {
      var front, b := t[..|t| - 1], t[|t| - 1];
      assert front + [b] == t;
      StretchFrame(cf, paste, front);
      StretchGrows(cf, paste, front, b);
      LiteralKeeps(cf, Stretch(cf, paste, front), front, b);
    }
  }

  lemma StretchBegins(cf: Category, paste: bool)
    ensures Stretch(cf, paste, []) == FRESH.(paste := paste)
    ensures Tidy(FRESH.(paste := paste)) && Lossless(FRESH.(paste := paste), [])
  {
  }

  lemma TypedAdds(cf: Category, m: Machine, stretch: Machine, b: Byte)
    requires Partial(stretch.typedRune) && b >= 0x80
    ensures TypedByte(cf, Add(m, stretch), b) == Add(m, TypedByte(cf, stretch, b))
  {
    TypedCases(cf, stretch, b);
    TypedCases(cf, Add(m, stretch), b);
    Associates(m.queued, stretch.queued, stretch.typedRune + [b]);
  }

  lemma FinishAdds(m: Machine, stretch: Machine)
    ensures FinishTyped(Add(m, stretch)) == Add(m, FinishTyped(stretch))
  {
  }

  lemma QueueAdds(m: Machine, stretch: Machine, more: Bytes)
    ensures Add(m, stretch).(queued := Add(m, stretch).queued + more) == Add(m, stretch.(queued := stretch.queued + more))
  {
    Associates(m.queued, stretch.queued, more);
  }

  lemma AsciiAdds(cf: Category, m: Machine, stretch: Machine, b: Byte)
    requires b < 0x80
    ensures TypedByte(cf, Add(m, stretch), b) == Add(m, TypedByte(cf, stretch, b))
  {
    FinishAdds(m, stretch);
    QueueAdds(m, FinishTyped(stretch), [b]);
  }

  lemma PasteAdds(cf: Category, m: Machine, stretch: Machine, b: Byte)
    requires Partial(stretch.pasteRune)
    ensures PasteByte(cf, Add(m, stretch), b) == Add(m, PasteByte(cf, stretch, b))
  {
    PasteCases(cf, stretch, b);
    PasteCases(cf, Add(m, stretch), b);
    Associates(m.queued, stretch.queued, EncodeRune(ProjectRune(DecodeRune(stretch.pasteRune + [b]).0)));
  }

  lemma LiteralAdds(cf: Category, m: Machine, stretch: Machine, b: Byte)
    requires m.paste == stretch.paste && Tidy(stretch)
    ensures Literal(cf, Add(m, stretch), b) == Add(m, Literal(cf, stretch, b))
  {
    if m.paste {
      PasteAdds(cf, m, stretch, b);
    } else if b < 0x80 {
      AsciiAdds(cf, m, stretch, b);
    } else {
      TypedAdds(cf, m, stretch, b);
    }
  }

  /** Reading a stretch does not depend on what came before it. */
  lemma {:induction false} StretchAdds(cf: Category, m: Machine, t: Bytes)
    requires m.pasteRune == [] && m.typedRune == []
    ensures Fold(Reader(cf), m, t) == Add(m, Stretch(cf, m.paste, t))
  {
    if t == [] {
      assert m.queued + [] == m.queued;
    } else {
      StretchAdds(cf, m, t[..|t| - 1]);
      StretchFrame(cf, m.paste, t[..|t| - 1]);
      LiteralAdds(cf, m, Stretch(cf, m.paste, t[..|t| - 1]), t[|t| - 1]);
    }
  }

  /** Nothing that could follow makes some bytes UTF-8. */
  ghost predicate Hopeless(t: Bytes) {
    forall rest: Bytes :: !Valid(t + rest)
  }

  /** A stretch is refused, now or when it ends, exactly when it is not UTF-8. */
  ghost predicate Judged(invalid: bool, pending: Bytes, t: Bytes) {
    if invalid then Hopeless(t)
    else |pending| <= |t| && Valid(t[..|t| - |pending|]) && t[|t| - |pending|..] == pending && Partial(pending)
  }

  lemma JudgeSpoiled(pending: Bytes, t: Bytes, b: Byte)
    requires Judged(false, pending, t) && FateOf(pending, b) == Spoils
    ensures Judged(true, [], t + [b])
  {
    var done := t[..|t| - |pending|];
    PartialGrows(pending, b);
    forall rest: Bytes
      ensures !Valid((t + [b]) + rest)
    {
      assert (pending + [b])[..|pending|] == pending;
      RuinedStaysInvalid(pending + [b], rest);
      ValidConcat(done, (pending + [b]) + rest);
      assert (t + [b]) + rest == done + ((pending + [b]) + rest);
    }
  }

  lemma JudgeCompleted(pending: Bytes, t: Bytes, b: Byte)
    requires Judged(false, pending, t) && FateOf(pending, b) == Completes
    ensures Judged(false, [], t + [b])
  {
    var done := t[..|t| - |pending|];
    CharacterIsValid(pending + [b]);
    ValidConcat(done, pending + [b]);
    assert t + [b] == done + (pending + [b]);
    assert (t + [b])[..|t + [b]|] == t + [b];
  }

  lemma JudgeWaits(pending: Bytes, t: Bytes, b: Byte)
    requires Judged(false, pending, t) && FateOf(pending, b) == Waits
    ensures Judged(false, pending + [b], t + [b])
  {
    var done, grown := t[..|t| - |pending|], t + [b];
    assert t == done + pending;
    Associates(done, pending, [b]);
    assert grown == done + (pending + [b]);
    assert grown[..|done|] == done && grown[|done|..] == pending + [b];
  }

  lemma JudgeSpoiledStays(t: Bytes, b: Byte)
    requires Judged(true, [], t)
    ensures Judged(true, [], t + [b])
  {
    forall rest: Bytes
      ensures !Valid((t + [b]) + rest)
    {
      Associates(t, [b], rest);
      assert !Valid(t + ([b] + rest));
    }
  }

  /** An ASCII byte completes nothing but itself. */
  lemma AsciiFate(pending: Bytes, b: Byte)
    requires Partial(pending) && b < 0x80
    ensures FateOf(pending, b) == if pending == [] then Completes else Spoils
  {
    assert pending == [] ==> pending + [b] == [b];
  }

  /** What one more byte of text does to the judgement so far. */
  predicate Advanced(m: Machine, b: Byte, next: Machine) {
    if m.invalid then next.invalid
    else match FateOf(Pending(m), b)
      case Waits => !next.invalid && Pending(next) == Pending(m) + [b]
      case Spoils => next.invalid
      case Completes => !next.invalid && Pending(next) == []
  }

  lemma LiteralAdvances(cf: Category, m: Machine, b: Byte)
    requires Tidy(m)
    ensures Advanced(m, b, Literal(cf, m, b))
  {
    if m.paste {
      PasteCases(cf, m, b);
    } else if b < 0x80 {
      AsciiFate(m.typedRune, b);
    } else {
      TypedCases(cf, m, b);
    }
  }

  lemma JudgeAdvance(m: Machine, t: Bytes, b: Byte, next: Machine)
    requires Judged(m.invalid, Pending(m), t) && Advanced(m, b, next)
    ensures Judged(next.invalid, Pending(next), t + [b])
  {
    if m.invalid {
      JudgeSpoiledStays(t, b);
    } else {
      match FateOf(Pending(m), b)
      case Waits => JudgeWaits(Pending(m), t, b);
      case Spoils => JudgeSpoiled(Pending(m), t, b);
      case Completes => JudgeCompleted(Pending(m), t, b);
    }
  }

  /** A text reader judges as it goes. */
  ghost predicate Judges(read: TextReader) {
    forall m, b :: Tidy(m) ==> Tidy(read(m, b)) && Advanced(m, b, read(m, b))
  }

  lemma ReaderJudges(cf: Category)
    ensures Judges(Reader(cf))
  {
    forall m, b | Tidy(m)
      ensures Tidy(Reader(cf)(m, b)) && Advanced(m, b, Reader(cf)(m, b))
    {
      LiteralKeeps(cf, m, Restore(m.queued) + Pending(m), b);
      LiteralAdvances(cf, m, b);
    }
  }

  lemma {:induction false} JudgeFold(read: TextReader, m: Machine, t: Bytes)
    requires Judges(read) && Tidy(m) && Judged(m.invalid, Pending(m), [])
    ensures Tidy(Fold(read, m, t)) && Judged(Fold(read, m, t).invalid, Pending(Fold(read, m, t)), t)
  {
    if t != [] {
      var front, b := t[..|t| - 1], t[|t| - 1];
      assert front + [b] == t;
      JudgeFold(read, m, front);
      JudgeAdvance(Fold(read, m, front), front, b, Fold(read, m, t));
    }
  }

  lemma JudgeNothing()
    ensures Judged(false, [], [])
  {
  }

  /** A judgement at the end of a stretch. */
  lemma Verdict(invalid: bool, pending: Bytes, t: Bytes)
    requires Judged(invalid, pending, t)
    ensures invalid || pending != [] <==> !Valid(t)
  {
    if invalid {
      assert t + [] == t;
    } else {
      assert t == t[..|t| - |pending|] + pending;
      ValidConcat(t[..|t| - |pending|], pending);
      if pending != [] {
        PartialIsNotValid(pending);
      }
    }
  }

  /** When a stretch ends, it has been found invalid exactly if it is not UTF-8. */
  lemma StretchVerdict(cf: Category, paste: bool, t: Bytes)
    ensures var s := Stretch(cf, paste, t); s.invalid || Pending(s) != [] <==> !Valid(t)
  {
    JudgeNothing();
    ReaderJudges(cf);
    JudgeFold(Reader(cf), FRESH.(paste := paste), t);
    Verdict(Stretch(cf, paste, t).invalid, Pending(Stretch(cf, paste, t)), t);
  }

  predicate NoBreak(t: Bytes) {
    CR !in t && LF !in t
  }

  lemma PasteEmitsNoBreak(cf: Category, m: Machine, b: Byte)
    requires m.paste && Partial(m.pasteRune) && NoBreak(m.queued)
    ensures NoBreak(PasteByte(cf, m, b).queued)
  {
    PasteCases(cf, m, b);
    var grown := m.pasteRune + [b];
    if FateOf(m.pasteRune, b) == Completes && Admitted(cf, DecodeRune(grown).0) {
      ProjectedRestores(cf, grown);
    }
  }

  /** Inside a paste no carriage return or line feed reaches the editor. */
  lemma {:induction false} StretchHasNoBreak(cf: Category, t: Bytes)
    ensures NoBreak(Stretch(cf, true, t).queued)
  {
    if t != [] {
      StretchHasNoBreak(cf, t[..|t| - 1]);
      StretchFrame(cf, true, t[..|t| - 1]);
      PasteEmitsNoBreak(cf, Stretch(cf, true, t[..|t| - 1]), t[|t| - 1]);
    }
  }

  // ----- Finding the markers ----------------------------------------------------------------------

  lemma MarkersAreMarkerLike(paste: bool)
    ensures MarkerLike(Marker(paste)) && |Marker(paste)| == 6 && NoBreak(Marker(paste))
  {
  }

  /** A text reader leaves the marker search alone. */
  ghost predicate Framed(read: TextReader) {
    forall m, b :: SameFrame(m, read(m, b))
  }

  lemma ReaderIsFramed(cf: Category)
    ensures Framed(Reader(cf))
  {
    forall m, b
      ensures SameFrame(m, Reader(cf)(m, b))
    {
      LiteralFrame(cf, m, b);
    }
  }

  lemma CharacterFrame(m: Machine, d: Decoded, projected: Bytes)
    requires d.size <= |d.grown|
    ensures SameFrame(m, TypedCharacter(m, d)) && SameFrame(m, PasteCharacter(m, d, projected))
  {
  }

  lemma LiteralFrame(cf: Category, m: Machine, b: Byte)
    ensures SameFrame(m, Literal(cf, m, b))
  {
    var d := Decode(cf, Pending(m) + [b]);
    CharacterFrame(m, d, EncodeRune(ProjectRune(d.rune)));
  }

  lemma {:induction false} FoldFrame(read: TextReader, m: Machine, t: Bytes)
    requires Framed(read)
    ensures SameFrame(m, Fold(read, m, t))
  {
    if t != [] {
      FoldFrame(read, m, t[..|t| - 1]);
    }
  }

  /** The machine after some text, holding back the first `k` bytes of a possible marker. */
  function Holding(read: TextReader, m: Machine, text: Bytes, k: nat, marker: Bytes): Machine
    requires k <= |marker|
  {
    Fold(read, m, text).(candidate := marker[..k])
  }

  predicate Between(m: Machine) {
    m.candidate == [] && !m.skipLF
  }

  /** A machine that has read everything but the held-back tail of some bytes as text. */
  predicate HeldAfter(read: TextReader, m: Machine, t: Bytes, marker: Bytes, x: Machine)
    requires |marker| > 0
  {
    x == Holding(read, m, t[..|t| - Held(t, marker)], Held(t, marker), marker)
  }

  lemma HeldFrame(read: TextReader, m: Machine, t: Bytes, marker: Bytes, x: Machine)
    requires Framed(read) && Between(m) && |marker| > 0 && HeldAfter(read, m, t, marker, x)
    ensures x.paste == m.paste && !x.skipLF && |x.candidate| == Held(t, marker)
    ensures Fold(read, m, t[..|t| - Held(t, marker)]).candidate == []
  {
    FoldFrame(read, m, t[..|t| - Held(t, marker)]);
  }

  /** One byte of marker search, on the machine. */
  lemma SettledStep(read: TextReader, m: Machine, front: Bytes, b: Byte, marker: Bytes, before: Machine)
    requires MarkerLike(marker) && Held(front, marker) < |marker| && HeldAfter(read, m, front, marker, before)
    requires Fold(read, m, front[..|front| - Held(front, marker)]).candidate == []
    ensures HeldAfter(read, m, front + [b], marker, Settled(read, before, b, marker))
  {
    var k := Held(front, marker);
    var text := Fold(read, m, front[..|front| - k]);
    assert before.(candidate := []) == text;
    ScanStep(read, m, front, b, marker);
  }

  lemma FeedOne(u: Terminal, m: Machine, front: Bytes, b: Byte)
    ensures Feed(u, m, front + [b]) == Consume(u, Feed(u, m, front), b).0
  {
    assert (front + [b])[..|front|] == front;
  }

  /** When no line feed is to be dropped, a byte is matched against the marker of the current mode. */
  lemma ConsumeIs(u: Terminal, m: Machine, b: Byte, marker: Bytes)
    requires !m.skipLF && marker == u.markers(m.paste)
    ensures Consume(u, m, b) == ConsumeExpecting(u.read, m, b, marker)
  {
    assert m.(skipLF := false) == m;
  }

  /** Within a stretch a byte neither completes a marker nor ends a line. */
  lemma ConsumeHeld(u: Terminal, before: Machine, b: Byte, after: Machine, marker: Bytes)
    requires !before.skipLF && marker == u.markers(before.paste) && Settled(u.read, before, b, marker) == after
    requires |after.candidate| < |marker| && (after.paste || (b != CR && b != LF))
    ensures Consume(u, before, b).0 == after
  {
    ConsumeIs(u, before, b, marker);
  }

  /** Within a stretch every byte but the held-back tail has been read as text. */
  lemma {:induction false} FeedStretch(u: Terminal, m: Machine, t: Bytes, marker: Bytes)
    requires Framed(u.read) && Between(m) && (!m.paste ==> NoBreak(t))
    requires marker == u.markers(m.paste) && MarkerLike(marker) && Free(t, marker)
    ensures Held(t, marker) < |marker| && HeldAfter(u.read, m, t, marker, Feed(u, m, t))
  {
    HeldIsProper(t, marker);
    if t != [] {
      var front, b := t[..|t| - 1], t[|t| - 1];
      assert t == front + [b] && b in t;
      FreePrefix(t, |t| - 1, marker);
      FeedStretch(u, m, front, marker);
      var before := Feed(u, m, front);
      HeldFrame(u.read, m, front, marker, before);
      SettledStep(u.read, m, front, b, marker, before);
      HeldFrame(u.read, m, t, marker, Settled(u.read, before, b, marker));
      ConsumeHeld(u, before, b, Settled(u.read, before, b, marker), marker);
      FeedOne(u, m, front, b);
    }
  }

  /** All of a marker is held back when its last byte arrives. */
  lemma MarkerEdge(t: Bytes, marker: Bytes)
    requires MarkerLike(marker)
    ensures Held(t + marker, marker) == |marker|
    ensures (t + marker[..|marker| - 1]) + [marker[|marker| - 1]] == t + marker
  {
    HeldMarker(t, marker, |marker|);
    assert marker[..|marker|] == marker;
  }

  lemma HeldWhole(read: TextReader, m: Machine, t: Bytes, marker: Bytes, x: Machine)
    requires MarkerLike(marker) && HeldAfter(read, m, t + marker, marker, x)
    ensures x == Fold(read, m, t).(candidate := marker)
  {
    MarkerEdge(t, marker);
    assert (t + marker)[..|t|] == t && marker[..|marker|] == marker;
  }

  /** A marker after a marker-free stretch is found, and ends it. */
  lemma FeedMarker(u: Terminal, m: Machine, t: Bytes, marker: Bytes)
    requires Framed(u.read) && Between(m) && (!m.paste ==> NoBreak(t))
    requires marker == u.markers(m.paste) && MarkerLike(marker) && NoBreak(marker) && Free(t, marker)
    ensures Feed(u, m, t + marker) == Toggle(Fold(u.read, m, t).(candidate := marker))
  {
    var front, b := t + marker[..|marker| - 1], marker[|marker| - 1];
    FreeUntilMarker(t, marker, |marker| - 1);
    assert !m.paste ==> NoBreak(front);
    FeedStretch(u, m, front, marker);
    var before := Feed(u, m, front);
    HeldFrame(u.read, m, front, marker, before);
    SettledStep(u.read, m, front, b, marker, before);
    MarkerEdge(t, marker);
    HeldWhole(u.read, m, t, marker, Settled(u.read, before, b, marker));
    assert b in marker;
    ConsumeMarker(u, before, b, marker);
    FeedOne(u, m, front, b);
  }

  lemma ConsumeMarker(u: Terminal, m: Machine, b: Byte, marker: Bytes)
    requires !m.skipLF && marker == u.markers(m.paste) && b != CR && b != LF
    requires Settled(u.read, m, b, marker).candidate == marker
    ensures Consume(u, m, b).0 == Toggle(Settled(u.read, m, b, marker))
  {
    ConsumeIs(u, m, b, marker);
  }

  lemma ReturnIsNotHeld(t: Bytes, marker: Bytes)
    requires MarkerLike(marker) && NoBreak(marker) && Held(t, marker) < |marker|
    ensures Held(t + [CR], marker) == 0
  {
    HeldSplits(t, CR, marker);
    assert marker[Held(t, marker)] in marker;
  }

  lemma HoldingNothing(read: TextReader, m: Machine, s: Bytes, marker: Bytes, x: Machine)
    requires |marker| > 0 && Held(s, marker) == 0 && HeldAfter(read, m, s, marker, x)
    ensures x == Fold(read, m, s).(candidate := [])
  {
    assert s[..|s|] == s && marker[..0] == [];
  }

  lemma ReturnEndsLine(u: Terminal, m: Machine, marker: Bytes)
    requires !m.paste && !m.skipLF && marker == u.markers(false) && |marker| > 0
    requires Settled(u.read, m, CR, marker).candidate == [] && !Settled(u.read, m, CR, marker).paste
    ensures Consume(u, m, CR) == (Settled(u.read, m, CR, marker).(skipLF := true), true)
  {
    ConsumeIs(u, m, CR, marker);
  }

  /** A carriage return after a typed stretch flushes what was held back and ends the line. */
  lemma FeedReturn(u: Terminal, m: Machine, t: Bytes, marker: Bytes)
    requires Framed(u.read) && Between(m) && !m.paste && NoBreak(t)
    requires marker == u.markers(false) && MarkerLike(marker) && NoBreak(marker) && Free(t, marker)
    ensures Feed(u, m, t + [CR]) == Fold(u.read, m, t + [CR]).(skipLF := true)
    ensures Consume(u, Feed(u, m, t), CR).1
  {
    FeedStretch(u, m, t, marker);
    var before := Feed(u, m, t);
    HeldFrame(u.read, m, t, marker, before);
    SettledStep(u.read, m, t, CR, marker, before);
    ReturnIsNotHeld(t, marker);
    HoldingNothing(u.read, m, t + [CR], marker, Settled(u.read, before, CR, marker));
    FoldFrame(u.read, m, t + [CR]);
    ReturnEndsLine(u, before, marker);
    FeedOne(u, m, t, CR);
    assert Fold(u.read, m, t + [CR]).(candidate := []) == Fold(u.read, m, t + [CR]);
  }

  lemma {:induction false} FeedConcat(u: Terminal, m: Machine, a: Bytes, b: Bytes)
    ensures Feed(u, m, a + b) == Feed(u, Feed(u, m, a), b)
  {
    if b == [] {
      assert a + b == a;
    } else {
      assert (a + b)[..|a + b| - 1] == a + b[..|b| - 1];
      FeedConcat(u, m, a, b[..|b| - 1]);
    }
  }

  // ----- The line ---------------------------------------------------------------------------------

  /** A machine between characters, past a stretch of text and the marker that ended it. */
  function PastMarker(m: Machine, emitted: Bytes, unsafe: bool, valid: bool, marker: Bytes): Machine {
    m.(paste := !m.paste, linePasted := m.linePasted || !m.paste, invalid := m.invalid || !valid,
       unsafe := m.unsafe || unsafe, queued := (m.queued + emitted) + marker)
  }

  lemma StretchThenMarker(cf: Category, m: Machine, t: Bytes, marker: Bytes)
    requires Between(m) && m.pasteRune == [] && m.typedRune == [] && (!m.paste ==> NoBreak(t))
    requires marker == Marker(m.paste) && Free(t, marker)
    ensures var s := Stretch(cf, m.paste, t);
            Feed(Bracketed(cf), m, t + marker) == PastMarker(m, s.queued, s.unsafe, Valid(t), marker)
  {
    MarkersAreMarkerLike(m.paste);
    ReaderIsFramed(cf);
    FeedMarker(Bracketed(cf), m, t, marker);
    StretchAdds(cf, m, t);
    StretchVerdict(cf, m.paste, t);
    StretchFrame(cf, m.paste, t);
    ToggleAdds(m, Stretch(cf, m.paste, t), marker);
  }

  lemma ToggleAdds(m: Machine, s: Machine, marker: Bytes)
    requires m.candidate == [] && m.pasteRune == [] && m.typedRune == [] && Tidy(s) && s.paste == m.paste
    ensures Toggle(Add(m, s).(candidate := marker)) ==
            PastMarker(m, s.queued, s.unsafe, !(s.invalid || Pending(s) != []), marker)
  {
  }

  lemma StretchThenReturn(cf: Category, m: Machine, t: Bytes)
    requires Between(m) && m.pasteRune == [] && m.typedRune == [] && !m.paste && NoBreak(t) && Free(t, PASTE_START)
    ensures var s := Stretch(cf, false, t);
            && Feed(Bracketed(cf), m, t + [CR]) == m.(invalid := m.invalid || !Valid(t), unsafe := m.unsafe || s.unsafe,
                                                   queued := m.queued + (s.queued + [CR]), skipLF := true)
            && Consume(Bracketed(cf), Feed(Bracketed(cf), m, t), CR).1
  {
    MarkersAreMarkerLike(false);
    ReaderIsFramed(cf);
    FeedReturn(Bracketed(cf), m, t, PASTE_START);
    StretchAdds(cf, m, t + [CR]);
    StretchVerdict(cf, false, t);
    StretchFrame(cf, false, t);
    assert (t + [CR])[..|t|] == t;
    assert Stretch(cf, false, t + [CR]) == Literal(cf, Stretch(cf, false, t), CR);
  }

  /** What a stretch puts out. */
  function Emitted(cf: Category, paste: bool, t: Bytes): Bytes {
    Stretch(cf, paste, t).queued
  }

  /** The bytes of one line: typed text, a paste, typed text, Return. */
  function LineInput(prefix: Bytes, payload: Bytes, suffix: Bytes): Bytes {
    (prefix + PASTE_START) + ((payload + PASTE_END) + (suffix + [CR]))
  }

  /** What a terminal sends for it: the paste stands between ESC [ 2 0 0 ~ and ESC [ 2 0 1 ~, and a return ends the line. */
  lemma LineBytes(prefix: Bytes, payload: Bytes, suffix: Bytes)
    ensures LineInput(prefix, payload, suffix)
            == prefix + [0x1B, 0x5B, 0x32, 0x30, 0x30, 0x7E] + payload + [0x1B, 0x5B, 0x32, 0x30, 0x31, 0x7E] + suffix + [0x0D]
  {
    var opening: Bytes, closing: Bytes, end: Bytes := [0x1B, 0x5B, 0x32, 0x30, 0x30, 0x7E], [0x1B, 0x5B, 0x32, 0x30, 0x31, 0x7E], [0x0D];
    assert PASTE_START == opening && PASTE_END == closing && [CR] == end;
    Associates(prefix + opening, payload, closing);
    Associates(prefix + opening, payload + closing, suffix + end);
    Associates(prefix + opening + payload + closing, suffix, end);
  }

  /** One line. The paste is found wherever it starts; the three parts come out separately between the
      markers; the pasted part contains no line break; the line is marked invalid exactly when a part is not
      UTF-8; and unless it is marked invalid or unsafe, putting the stand-ins back gives exactly the bytes that
      were typed and pasted. */
  lemma PastedLine(cf: Category, prefix: Bytes, payload: Bytes, suffix: Bytes, m: Machine)
    requires NoBreak(prefix) && NoBreak(suffix)
    requires Free(prefix, PASTE_START) && Free(payload, PASTE_END) && Free(suffix, PASTE_START)
    requires m == Feed(Bracketed(cf), FRESH, LineInput(prefix, payload, suffix))
    ensures var before, inside, after := Emitted(cf, false, prefix), Emitted(cf, true, payload), Emitted(cf, false, suffix);
            && m.queued == LineInput(before, inside, after) && NoBreak(inside)
            && !m.paste && m.candidate == []
            && (m.invalid <==> !(Valid(prefix) && Valid(payload) && Valid(suffix)))
            && TakeLine(m).1 == Line(true, m.invalid, m.unsafe)
            && (m.unsafe <==> Stretch(cf, false, prefix).unsafe || Stretch(cf, true, payload).unsafe || Stretch(cf, false, suffix).unsafe)
            && (!m.invalid && !m.unsafe ==> Restore(before) == prefix && Restore(inside) == payload && Restore(after) == suffix)
  {
    var s0, s1, s2 := Stretch(cf, false, prefix), Stretch(cf, true, payload), Stretch(cf, false, suffix);
    var u := Bracketed(cf);
    StretchThenMarker(cf, FRESH, prefix, PASTE_START);
    var m1 := PastMarker(FRESH, s0.queued, s0.unsafe, Valid(prefix), PASTE_START);
    StretchThenMarker(cf, m1, payload, PASTE_END);
    var m2 := PastMarker(m1, s1.queued, s1.unsafe, Valid(payload), PASTE_END);
    StretchThenReturn(cf, m2, suffix);
    FeedConcat(u, FRESH, prefix + PASTE_START, (payload + PASTE_END) + (suffix + [CR]));
    FeedConcat(u, m1, payload + PASTE_END, suffix + [CR]);
    QueuedShape(s0.queued, s1.queued, s2.queued);
    StretchHasNoBreak(cf, payload);
    Restored(cf, false, prefix);
    Restored(cf, true, payload);
    Restored(cf, false, suffix);
  }

  lemma QueuedShape(before: Bytes, inside: Bytes, after: Bytes)
    ensures (((([] + before) + PASTE_START) + inside) + PASTE_END) + (after + [CR]) ==
            (before + PASTE_START) + ((inside + PASTE_END) + (after + [CR]))
  {
  }

  lemma Restored(cf: Category, paste: bool, t: Bytes)
    ensures var s := Stretch(cf, paste, t); Valid(t) && !s.unsafe ==> Restore(s.queued) == t
  {
    var s := Stretch(cf, paste, t);
    StretchFrame(cf, paste, t);
    StretchVerdict(cf, paste, t);
    Nothing(Restore(s.queued));
  }
}
