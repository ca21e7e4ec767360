/** What the paste machine promises about text: nothing is lost, nothing is invented, and the flags say
    exactly when something was refused.
 */
module PasteRoundTrip {
  import opened Basics
  import opened Utf8
  import opened MarkerStream
  import opened PasteModel

  // ----- Restoring ------------------------------------------------------------------------------

  /** One character put back. */
  function RestoreCharacter(u: Bytes): Bytes
    requires u != []
  {
    if Replacement(u).1 == |u| then [Replacement(u).0] else u
  }

  lemma RestoreByte(b: Byte, t: Bytes)
    requires Continuation(b)
    ensures Restore([b] + t) == [b] + Restore(t)
  {
    assert Replacement([b] + t) == (b, 1) && ([b] + t)[1..] == t;
  }

  /** Only a first byte can start a stand-in, so restoring copies continuation bytes. */
  lemma {:induction false} RestoreRest(rest: Bytes, t: Bytes)
    requires forall i :: 0 <= i < |rest| ==> Continuation(rest[i])
    ensures Restore(rest + t) == rest + Restore(t)
  {
    if rest == [] {
      assert rest + t == t;
    } else {
      RestoreRest(rest[1..], t);
      RestoreByte(rest[0], rest[1..] + t);
      Associates([rest[0]], rest[1..], t);
      Associates([rest[0]], rest[1..], Restore(t));
      assert rest == [rest[0]] + rest[1..];
    }
  }

  /** Whether a stand-in starts some text is decided within its first character. */
  lemma ReplacementLocal(u: Bytes, t: Bytes)
    requires Character(u)
    ensures Replacement(u + t) == Replacement(u)
    ensures Replacement(u).1 == |u| || Replacement(u) == (u[0], 1)
  {
    assert forall i :: 0 <= i < |u| ==> (u + t)[i] == u[i];
  }

  /** Restoring works one character at a time. */
  lemma RestoreOne(u: Bytes, t: Bytes)
    requires Character(u)
    ensures Restore(u + t) == RestoreCharacter(u) + Restore(t)
  {
    ReplacementLocal(u, t);
    if Replacement(u).1 == |u| {
      assert (u + t)[|u|..] == t;
    } else {
      RestoreRest(u[1..], t);
      assert (u + t)[1..] == u[1..] + t;
      Associates([u[0]], u[1..], Restore(t));
      assert u == [u[0]] + u[1..];
    }
  }

  lemma RestoreStep(u: Bytes, rest: Bytes, t: Bytes)
    requires Character(u) && Restore(rest + t) == Restore(rest) + Restore(t)
    ensures Restore((u + rest) + t) == Restore(u + rest) + Restore(t)
  {
    Associates(u, rest, t);
    RestoreOne(u, rest + t);
    RestoreOne(u, rest);
    Associates(RestoreCharacter(u), Restore(rest), Restore(t));
  }

  /** After valid text restoring starts afresh. */
  lemma {:induction false} RestoreConcat(s: Bytes, t: Bytes)
    requires Valid(s)
    ensures Restore(s + t) == Restore(s) + Restore(t)
  {
    if s == [] {
      assert s + t == t;
    } else {
      var first, rest := s[..Width(s[0])], s[Width(s[0])..];
      RestoreConcat(rest, t);
      RestoreStep(first, rest, t);
      assert s == first + rest;
    }
  }

  /** Appending one complete character to valid text. */
  lemma RestoreAppend(s: Bytes, u: Bytes)
    requires Valid(s) && Character(u)
    ensures Valid(s + u) && Restore(s + u) == Restore(s) + RestoreCharacter(u)
  {
    RestoreConcat(s, u);
    RestoreOne(u, []);
    assert u + [] == u && RestoreCharacter(u) + Restore([]) == RestoreCharacter(u);
    CharacterIsValid(u);
    ValidConcat(s, u);
  }

  /** The three stand-ins, byte for byte. */
  lemma StandIns()
    ensures EncodeRune(PASTE_LINE_FEED) == [0xE2, 0x80, 0xA8]
    ensures EncodeRune(PASTE_CARRIAGE_RETURN) == [0xE2, 0x80, 0xA9]
    ensures EncodeRune(PASTE_TAB) == [0xC2, 0x85]
  {
  }

  /** A character the reader lets through is projected to one character that restores to it. */
  lemma ProjectedRestores(cf: Category, u: Bytes)
    requires Character(u)
    requires Admitted(cf, DecodeRune(u).0)
    ensures var e := EncodeRune(ProjectRune(DecodeRune(u).0));
            Character(e) && RestoreCharacter(e) == u && CR !in e && LF !in e
  {
    DecodeCharacter(u);
    StandIns();
    var r := DecodeRune(u).0;
    if ProjectRune(r) == r {
      if |u| == 1 {
        assert u == [u[0]];
      } else if u == [0xE2, 0x80, 0xA8] || u == [0xE2, 0x80, 0xA9] || u == [0xC2, 0x85] {
        assert false;
      }
    } else {
      assert u == [u[0]];
    }
  }

  // ----- One literal byte -----------------------------------------------------------------------

  /** The incomplete character being collected in the current mode. */
  function Pending(m: Machine): Bytes {
    if m.paste then m.pasteRune else m.typedRune
  }

  predicate Tidy(m: Machine) {
    && Partial(Pending(m))
    && (if m.paste then m.typedRune == [] else m.pasteRune == [])
    && Valid(m.queued)
  }

  /** Unless something was refused, the emitted text restored and the bytes held back are the text read. */
  predicate Lossless(m: Machine, text: Bytes) {
    !m.invalid && !m.unsafe ==> Restore(m.queued) + Pending(m) == text
  }

  /** A literal byte touches only the flags, the pending character and the output. */
  predicate SameFrame(m: Machine, next: Machine) {
    && next.paste == m.paste && next.linePasted == m.linePasted && next.skipLF == m.skipLF && next.candidate == m.candidate
    && (m.invalid ==> next.invalid) && (m.unsafe ==> next.unsafe)
  }

  /** The three fates of one more byte after a partial character. */
  datatype Fate = Waits | Spoils | Completes

  function FateOf(pending: Bytes, b: Byte): Fate {
    if Partial(pending + [b]) then Waits else if Character(pending + [b]) then Completes else Spoils
  }

  /** A typed byte, by its fate. */
  lemma TypedCases(cf: Category, m: Machine, b: Byte)
    requires Partial(m.typedRune) && b >= 0x80
    ensures var grown := m.typedRune + [b];
            TypedByte(cf, m, b) ==
              match FateOf(m.typedRune, b)
              case Waits => m.(typedRune := grown)
              case Spoils => m.(invalid := true, typedRune := [])
              case Completes => if UnsafeRune(cf, DecodeRune(grown).0) then m.(unsafe := true, typedRune := [])
                                else m.(queued := m.queued + grown, typedRune := [])
  {
    var grown := m.typedRune + [b];
    PartialGrows(m.typedRune, b);
    if Character(grown) {
      DecodeCharacter(grown);
      assert grown[..|grown|] == grown;
    }
  }

  predicate Admitted(cf: Category, r: int) {
    !UnsafeRune(cf, r) || r == 0x0D || r == 0x0A || r == 0x09
  }

  /** A pasted byte, by its fate. */
  lemma PasteCases(cf: Category, m: Machine, b: Byte)
    requires Partial(m.pasteRune)
    ensures var grown := m.pasteRune + [b];
            PasteByte(cf, m, b) ==
              match FateOf(m.pasteRune, b)
              case Waits => m.(pasteRune := grown)
              case Spoils => m.(invalid := true, pasteRune := [])
              case Completes => if Admitted(cf, DecodeRune(grown).0)
                                then m.(queued := m.queued + EncodeRune(ProjectRune(DecodeRune(grown).0)), pasteRune := [])
                                else m.(unsafe := true, pasteRune := [])
  {
    var grown := m.pasteRune + [b];
    PartialGrows(m.pasteRune, b);
    if Character(grown) {
      DecodeCharacter(grown);
      assert grown[|grown|..] == [];
    }
  }

  /** Emitting the stand-in of a completed character accounts for its last byte. */
  lemma EmitKeeps(queued: Bytes, pending: Bytes, b: Byte, e: Bytes)
    requires Valid(queued) && Character(e) && RestoreCharacter(e) == pending + [b]
    ensures Valid(queued + e) && Restore(queued + e) + [] == (Restore(queued) + pending) + [b]
  {
    RestoreAppend(queued, e);
    Associates(Restore(queued), pending, [b]);
  }

  lemma TypedKeeps(cf: Category, m: Machine, text: Bytes, b: Byte)
    requires Tidy(m) && !m.paste && Lossless(m, text)
    ensures var next := TypedByte(cf, m, b); Tidy(next) && Lossless(next, text + [b]) && SameFrame(m, next)
  {
    if b < 0x80 {
      AsciiKeeps(cf, m, text, b);
    } else {
      var grown := m.typedRune + [b];
      TypedCases(cf, m, b);
      match FateOf(m.typedRune, b)
      case Waits => Associates(Restore(m.queued), m.typedRune, [b]);
      case Spoils =>
      case Completes =>
        if !UnsafeRune(cf, DecodeRune(grown).0) {
          DecodeCharacter(grown);
          ProjectedRestores(cf, grown);
          EmitKeeps(m.queued, m.typedRune, b, grown);
        }
    }
  }

  lemma AsciiKeeps(cf: Category, m: Machine, text: Bytes, b: Byte)
    requires Tidy(m) && !m.paste && Lossless(m, text) && b < 0x80
    ensures var next := TypedByte(cf, m, b); Tidy(next) && Lossless(next, text + [b]) && SameFrame(m, next)
  {
    assert Character([b]) && RestoreCharacter([b]) == [] + [b];
    EmitKeeps(m.queued, [], b, [b]);
  }

  lemma PasteKeeps(cf: Category, m: Machine, text: Bytes, b: Byte)
    requires Tidy(m) && m.paste && Lossless(m, text)
    ensures var next := PasteByte(cf, m, b); Tidy(next) && Lossless(next, text + [b]) && SameFrame(m, next)
  {
    var grown := m.pasteRune + [b];
    PasteCases(cf, m, b);
    match FateOf(m.pasteRune, b)
    case Waits => Associates(Restore(m.queued), m.pasteRune, [b]);
    case Spoils =>
    case Completes =>
      if Admitted(cf, DecodeRune(grown).0) {
        ProjectedRestores(cf, grown);
        EmitKeeps(m.queued, m.pasteRune, b, EncodeRune(ProjectRune(DecodeRune(grown).0)));
      }
  }

  lemma LiteralKeeps(cf: Category, m: Machine, text: Bytes, b: Byte)
    requires Tidy(m) && Lossless(m, text)
    ensures Tidy(Literal(cf, m, b)) && Lossless(Literal(cf, m, b), text + [b]) && SameFrame(m, Literal(cf, m, b))
  {
    if m.paste {
      PasteKeeps(cf, m, text, b);
    } else {
      TypedKeeps(cf, m, text, b);
    }
  }

  // ----- Markers --------------------------------------------------------------------------------

  lemma {:induction false} AsciiRestores(s: Bytes)
    requires forall i :: 0 <= i < |s| ==> s[i] < 0x80
    ensures Valid(s) && Restore(s) == s
  {
    if s != [] {
      AsciiRestores(s[1..]);
      assert Character([s[0]]) && RestoreCharacter([s[0]]) == [s[0]];
      assert s == [s[0]] + s[1..];
      RestoreOne([s[0]], s[1..]);
      CharacterIsValid([s[0]]);
      ValidConcat([s[0]], s[1..]);
    }
  }

  /** What is given up as text plus what is still a candidate is what was there. */
  lemma {:induction false} SettleKeeps(cf: Category, m: Machine, text: Bytes, candidate: Bytes, marker: Bytes)
    requires Tidy(m) && Lossless(m, text)
    ensures var (next, rest) := Settle(Reader(cf), m, candidate, marker);
            && Tidy(next) && SameFrame(m, next) && (rest == [] || rest <= marker)
            && exists given :: given + rest == candidate && Lossless(next, text + given)
    decreases |candidate|
  {
    if candidate == [] || candidate <= marker {
      Nothing(text);
      assert [] + candidate == candidate;
    } else {
      var b := candidate[0];
      LiteralKeeps(cf, m, text, b);
      var read := Literal(cf, m, b);
      assert Reader(cf)(m, b) == read;
      SettleKeeps(cf, read, text + [b], candidate[1..], marker);
      var (next, rest) := Settle(Reader(cf), read, candidate[1..], marker);
      var given :| given + rest == candidate[1..] && Lossless(next, (text + [b]) + given);
      Associates(text, [b], given);
      Associates([b], given, rest);
      assert [b] + candidate[1..] == candidate;
      assert ([b] + given) + rest == candidate && Lossless(next, text + ([b] + given));
    }
  }

  /** The machine between bytes: nothing lost, and the candidate not yet a whole marker. */
  predicate Sound(m: Machine, fed: Bytes) {
    && Tidy(m) && m.candidate < Marker(m.paste)
    && (!m.invalid && !m.unsafe ==> Restore(m.queued) + Pending(m) + m.candidate == fed)
  }

  lemma MarkerRestores(queued: Bytes, marker: Bytes)
    requires Valid(queued) && (marker == PASTE_START || marker == PASTE_END)
    ensures Valid(queued + marker) && Restore(queued + marker) == Restore(queued) + marker
  {
    AsciiRestores(marker);
    RestoreConcat(queued, marker);
    ValidConcat(queued, marker);
  }

  lemma ToggleKeeps(m: Machine, fed: Bytes)
    requires Tidy(m) && m.candidate == Marker(m.paste)
    requires !m.invalid && !m.unsafe ==> Restore(m.queued) + Pending(m) + m.candidate == fed
    ensures Sound(Toggle(m), fed)
  {
    MarkerRestores(m.queued, m.candidate);
    var next := Toggle(m);
    if !next.invalid && !next.unsafe {
      Nothing(Restore(m.queued));
      Nothing(Restore(next.queued));
    }
  }

  lemma Nothing(s: Bytes)
    ensures s + [] == s
  {
  }

  /** The input without the line feeds that follow a carriage return ending a line. */
  function Fed(u: Terminal, m: Machine, s: Bytes): Bytes {
    if s == [] then []
    else
      var before := Feed(u, m, s[..|s| - 1]);
      var b := s[|s| - 1];
      if !before.paste && before.skipLF && b == LF then Fed(u, m, s[..|s| - 1]) else Fed(u, m, s[..|s| - 1]) + [b]
  }

  lemma SettledKeeps(cf: Category, m: Machine, fed: Bytes, b: Byte, marker: Bytes)
    requires Sound(m, fed)
    ensures var next := Settled(Reader(cf), m, b, marker);
            && Tidy(next) && next.paste == m.paste && (next.candidate == [] || next.candidate <= marker)
            && (!next.invalid && !next.unsafe ==> Restore(next.queued) + Pending(next) + next.candidate == fed + [b])
  {
    var start := m.(candidate := []);
    var text := Restore(m.queued) + Pending(m);
    SettleKeeps(cf, start, text, m.candidate + [b], marker);
    var (next, rest) := Settle(Reader(cf), start, m.candidate + [b], marker);
    var given :| given + rest == m.candidate + [b] && Lossless(next, text + given);
    Associates(text, given, rest);
    Associates(text, m.candidate, [b]);
  }

  lemma ExpectingKeeps(cf: Category, m: Machine, fed: Bytes, b: Byte)
    requires Sound(m, fed)
    ensures Sound(ConsumeExpecting(Reader(cf), m, b, Marker(m.paste)).0, fed + [b])
  {
    var marker := Marker(m.paste);
    SettledKeeps(cf, m, fed, b, marker);
    var settled := Settled(Reader(cf), m, b, marker);
    if settled.candidate == marker {
      ToggleKeeps(settled, fed + [b]);
    }
  }

  lemma ConsumeKeeps(cf: Category, m: Machine, fed: Bytes, b: Byte)
    requires Sound(m, fed)
    ensures Sound(Consume(Bracketed(cf), m, b).0, if !m.paste && m.skipLF && b == LF then fed else fed + [b])
  {
    if m.paste {
      ExpectingKeeps(cf, m, fed, b);
    } else {
      ExpectingKeeps(cf, m.(skipLF := false), fed, b);
    }
  }

  /** For any input at all, in any mix of typing and pastes: unless a flag is raised, un-projecting what was
      emitted, followed by what is held back, is the input itself. */
  lemma {:induction false} NothingLost(cf: Category, s: Bytes)
    ensures Sound(Feed(Bracketed(cf), FRESH, s), Fed(Bracketed(cf), FRESH, s))
  {
    if s != [] {
      NothingLost(cf, s[..|s| - 1]);
      ConsumeKeeps(cf, Feed(Bracketed(cf), FRESH, s[..|s| - 1]), Fed(Bracketed(cf), FRESH, s[..|s| - 1]), s[|s| - 1]);
    }
  }
}
