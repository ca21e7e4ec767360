/** When text is marked unsafe: exactly when one of its characters is a control or format character that may
    not be typed, or pasted.
 */
module PasteSafety {
  import opened Basics
  import opened Utf8
  import opened MarkerStream
  import opened PasteModel
  import opened PasteRoundTrip
  import opened PasteLines

  /** A character that is kept from the editor. Typed single bytes are the editor's own business; a paste may
      hold line feeds, carriage returns and tabs. */
  predicate Suspect(cf: Category, paste: bool, u: Bytes) {
    var r := DecodeRune(u).0;
    if paste
    then r != 0x0A && r != 0x0D && r != 0x09 && (r < 0x20 || r == 0x7F || 0x80 <= r <= 0x9F || cf(r) || r == 0x2028 || r == 0x2029)
    else |u| > 1 && (0x80 <= r <= 0x9F || cf(r) || r == 0x2028 || r == 0x2029)
  }

  function Suspects(cf: Category, paste: bool): Bytes -> bool {
    (u: Bytes) => Suspect(cf, paste, u)
  }

  // ----- Characters of a text ---------------------------------------------------------------------

  /** A character of some text is such. */
  predicate Any(such: Bytes -> bool, s: Bytes)
    requires Valid(s)
  {
    s != [] && (such(s[..Width(s[0])]) || Any(such, s[Width(s[0])..]))
  }

  lemma AnyOne(such: Bytes -> bool, u: Bytes, rest: Bytes)
    requires Character(u) && Valid(rest)
    ensures Valid(u + rest) && (Any(such, u + rest) <==> such(u) || Any(such, rest))
  {
    CharacterIsValid(u);
    ValidConcat(u, rest);
    assert (u + rest)[..|u|] == u && (u + rest)[|u|..] == rest;
  }

  lemma AnyStep(such: Bytes -> bool, first: Bytes, rest: Bytes, u: Bytes)
    requires Character(first) && Valid(rest) && Valid(rest + u)
    requires Any(such, rest + u) <==> Any(such, rest) || such(u)
    ensures Valid(first + rest) && Valid((first + rest) + u)
    ensures Any(such, (first + rest) + u) <==> Any(such, first + rest) || such(u)
  {
    AnyOne(such, first, rest);
    AnyOne(such, first, rest + u);
    Associates(first, rest, u);
  }

  lemma {:induction false} AnyAppend(such: Bytes -> bool, s: Bytes, u: Bytes)
    requires Valid(s) && Character(u)
    ensures Valid(s + u) && (Any(such, s + u) <==> Any(such, s) || such(u))
  {
    if s == [] {
      AnyOne(such, u, []);
      assert s + u == u + [];
    } else {
      var first, rest := s[..Width(s[0])], s[Width(s[0])..];
      AnyAppend(such, rest, u);
      AnyStep(such, first, rest, u);
      assert s == first + rest;
    }
  }

  predicate Unsafe(cf: Category, paste: bool, s: Bytes)
    requires Valid(s)
  {
    Any(Suspects(cf, paste), s)
  }

  lemma UnsafeAppend(cf: Category, paste: bool, s: Bytes, u: Bytes)
    requires Valid(s) && Character(u)
    ensures Valid(s + u) && (Unsafe(cf, paste, s + u) <==> Unsafe(cf, paste, s) || Suspect(cf, paste, u))
  {
    AnyAppend(Suspects(cf, paste), s, u);
  }

  // ----- The mark ---------------------------------------------------------------------------------

  /** What one more byte of text does to the mark. */
  predicate Marks(cf: Category, m: Machine, b: Byte, next: Machine) {
    match FateOf(Pending(m), b)
    case Waits => next.unsafe == m.unsafe
    case Spoils => true
    case Completes => next.unsafe == (m.unsafe || Suspect(cf, m.paste, Pending(m) + [b]))
  }

  lemma LiteralMarks(cf: Category, m: Machine, b: Byte)
    requires Tidy(m)
    ensures Marks(cf, m, b, Literal(cf, m, b))
  {
    if m.paste {
      PasteCases(cf, m, b);
    } else if b < 0x80 {
      AsciiFate(m.typedRune, b);
    } else {
      TypedCases(cf, m, b);
      if FateOf(m.typedRune, b) == Completes {
        TypedSuspect(m.typedRune, b);
      }
    }
  }

  lemma TypedSuspect(pending: Bytes, b: Byte)
    requires b >= 0x80 && FateOf(pending, b) == Completes
    ensures |pending + [b]| > 1
  {
    assert pending == [] ==> pending + [b] == [b];
  }

  /** As long as nothing was invalid, the mark is that of the characters completed so far. */
  ghost predicate Marked(cf: Category, m: Machine, t: Bytes) {
    !m.invalid ==> && |Pending(m)| <= |t| && Partial(Pending(m)) && t[|t| - |Pending(m)|..] == Pending(m)
                   && Valid(t[..|t| - |Pending(m)|]) && (m.unsafe <==> Unsafe(cf, m.paste, t[..|t| - |Pending(m)|]))
  }

  lemma MarkedWaits(cf: Category, m: Machine, t: Bytes, b: Byte, next: Machine)
    requires Marked(cf, m, t) && !m.invalid && !next.invalid && next.paste == m.paste && next.unsafe == m.unsafe
    requires Pending(next) == Pending(m) + [b] && Partial(Pending(next))
    ensures Marked(cf, next, t + [b])
  {
    assert (t + [b])[..|t| - |Pending(m)|] == t[..|t| - |Pending(m)|];
    assert (t + [b])[|t| - |Pending(m)|..] == Pending(m) + [b];
  }

  lemma MarkedCompletes(cf: Category, m: Machine, t: Bytes, b: Byte, next: Machine)
    requires Marked(cf, m, t) && !m.invalid && !next.invalid && next.paste == m.paste && Pending(next) == []
    requires Character(Pending(m) + [b]) && next.unsafe == (m.unsafe || Suspect(cf, m.paste, Pending(m) + [b]))
    ensures Marked(cf, next, t + [b])
  {
    var done, last := t[..|t| - |Pending(m)|], Pending(m) + [b];
    UnsafeAppend(cf, m.paste, done, last);
    assert t + [b] == done + last;
    assert (t + [b])[..|t + [b]|] == t + [b];
  }

  lemma MarkedGrows(cf: Category, m: Machine, t: Bytes, b: Byte, next: Machine)
    requires Marked(cf, m, t) && Advanced(m, b, next) && Marks(cf, m, b, next) && next.paste == m.paste
    ensures Marked(cf, next, t + [b])
  {
    if !next.invalid && !m.invalid {
      match FateOf(Pending(m), b)
      case Waits => MarkedWaits(cf, m, t, b, next);
      case Spoils =>
      case Completes => MarkedCompletes(cf, m, t, b, next);
    }
  }

  lemma {:induction false} StretchMarked(cf: Category, paste: bool, t: Bytes)
    ensures Marked(cf, Stretch(cf, paste, t), t) && Stretch(cf, paste, t).paste == paste
  {
    if t != [] {
      var front, b := t[..|t| - 1], t[|t| - 1];
      assert front + [b] == t;
      StretchMarked(cf, paste, front);
      StretchGrows(cf, paste, front, b);
      StretchFrame(cf, paste, front);
      StretchFrame(cf, paste, t);
      var m := Stretch(cf, paste, front);
      LiteralAdvances(cf, m, b);
      LiteralMarks(cf, m, b);
      MarkedGrows(cf, m, front, b, Stretch(cf, paste, t));
    }
  }

  /** UTF-8 text is marked unsafe exactly when it holds a character that is kept from the editor. */
  lemma UnsafeIff(cf: Category, paste: bool, t: Bytes)
    requires Valid(t)
    ensures Stretch(cf, paste, t).unsafe <==> Unsafe(cf, paste, t)
  {
    StretchMarked(cf, paste, t);
    StretchVerdict(cf, paste, t);
    assert t[..|t|] == t;
  }

  /** The state of a line of typed and pasted text: invalid exactly if a part is not UTF-8, and otherwise unsafe
      exactly if a part holds a character that is kept from the editor. */
  lemma LineUnsafeIff(cf: Category, prefix: Bytes, payload: Bytes, suffix: Bytes, m: Machine)
    requires NoBreak(prefix) && NoBreak(suffix)
    requires Free(prefix, PASTE_START) && Free(payload, PASTE_END) && Free(suffix, PASTE_START)
    requires m == Feed(Bracketed(cf), FRESH, LineInput(prefix, payload, suffix))
    ensures m.invalid <==> !(Valid(prefix) && Valid(payload) && Valid(suffix))
    ensures !m.invalid ==> (m.unsafe <==> Unsafe(cf, false, prefix) || Unsafe(cf, true, payload) || Unsafe(cf, false, suffix))
  {
    PastedLine(cf, prefix, payload, suffix, m);
    if !m.invalid {
      UnsafeIff(cf, false, prefix);
      UnsafeIff(cf, true, payload);
      UnsafeIff(cf, false, suffix);
    }
  }

  // ----- What comes out ---------------------------------------------------------------------------

  /** A character that must not come out: of typing, a control, format or separator character beyond ASCII; of a
      paste, any of these but the three stand-ins, and any ASCII control. */
  predicate Foul(cf: Category, paste: bool, u: Bytes) {
    var r := DecodeRune(u).0;
    if paste
    then r != 0x85 && r != 0x2028 && r != 0x2029 && (r < 0x20 || r == 0x7F || 0x80 <= r <= 0x9F || cf(r))
    else r >= 0x80 && (0x80 <= r <= 0x9F || cf(r) || r == 0x2028 || r == 0x2029)
  }

  function Fouls(cf: Category, paste: bool): Bytes -> bool {
    (u: Bytes) => Foul(cf, paste, u)
  }

  /** The bytes that may come out of a paste. */
  predicate Printable(t: Bytes) {
    forall i :: 0 <= i < |t| ==> t[i] >= 0x20 && t[i] != 0x7F
  }

  /** What one literal byte puts out is nothing, or one character that may. */
  lemma LiteralPutsOut(cf: Category, m: Machine, b: Byte)
    requires Tidy(m)
    ensures var next := Literal(cf, m, b).queued;
            next == m.queued || exists u :: Character(u) && !Foul(cf, m.paste, u) && (m.paste ==> Printable(u)) && next == m.queued + u
  {
    if m.paste {
      PastePutsOut(cf, m, b);
    } else if b < 0x80 {
      assert Character([b]) && !Foul(cf, false, [b]);
      assert Literal(cf, m, b).queued == m.queued + [b];
    } else {
      TypedCases(cf, m, b);
      var grown := m.typedRune + [b];
      if FateOf(m.typedRune, b) == Completes && !UnsafeRune(cf, DecodeRune(grown).0) {
        assert Character(grown) && !Foul(cf, false, grown);
      }
    }
  }

  lemma PastePutsOut(cf: Category, m: Machine, b: Byte)
    requires Tidy(m) && m.paste
    ensures var next := Literal(cf, m, b).queued;
            next == m.queued || exists u :: Character(u) && !Foul(cf, true, u) && Printable(u) && next == m.queued + u
  {
    PasteCases(cf, m, b);
    var grown := m.pasteRune + [b];
    if FateOf(m.pasteRune, b) == Completes && Admitted(cf, DecodeRune(grown).0) {
      ProjectedIsFine(cf, grown);
    }
  }

  lemma ProjectedIsFine(cf: Category, u: Bytes)
    requires Character(u) && Admitted(cf, DecodeRune(u).0)
    ensures var e := EncodeRune(ProjectRune(DecodeRune(u).0)); Character(e) && !Foul(cf, true, e) && Printable(e)
  {
    var r := DecodeRune(u).0;
    DecodeCharacter(u);
    StandIns();
    ProjectedRestores(cf, u);
    if r == 0x0A {
      assert DecodeRune([0xE2, 0x80, 0xA8]).0 == 0x2028;
    } else if r == 0x0D {
      assert DecodeRune([0xE2, 0x80, 0xA9]).0 == 0x2029;
    } else if r == 0x09 {
      assert DecodeRune([0xC2, 0x85]).0 == 0x85;
    }
  }

  /** Whatever is typed or pasted, valid or not, what reaches the editor is UTF-8 without a character that must not
      come out; and of a paste without a byte below 0x20 or 0x7F. */
  lemma {:induction false} OnlyFineComesOut(cf: Category, paste: bool, t: Bytes)
    ensures var out := Stretch(cf, paste, t).queued; Valid(out) && !Any(Fouls(cf, paste), out) && (paste ==> Printable(out))
  {
    if t != [] {
      var front, b := t[..|t| - 1], t[|t| - 1];
      assert front + [b] == t;
      OnlyFineComesOut(cf, paste, front);
      StretchGrows(cf, paste, front, b);
      StretchFrame(cf, paste, front);
      var m := Stretch(cf, paste, front);
      LiteralPutsOut(cf, m, b);
      if Literal(cf, m, b).queued != m.queued {
        var u :| Character(u) && !Foul(cf, m.paste, u) && (m.paste ==> Printable(u)) && Literal(cf, m, b).queued == m.queued + u;
        AnyAppend(Fouls(cf, paste), m.queued, u);
      }
    }
  }

  /** A character that is let through as it is, typed or pasted. */
  predicate Plain(cf: Category, u: Bytes) {
    var r := DecodeRune(u).0;
    r >= 0x20 && r != 0x7F && !(0x80 <= r <= 0x9F) && !cf(r) && r != 0x2028 && r != 0x2029
  }

  function NotPlain(cf: Category): Bytes -> bool {
    (u: Bytes) => !Plain(cf, u)
  }

  /** UTF-8 text of such characters alone raises no mark. */
  lemma PlainIsSafe(cf: Category, paste: bool, t: Bytes)
    requires Valid(t) && !Any(NotPlain(cf), t)
    ensures !Stretch(cf, paste, t).unsafe && !Stretch(cf, paste, t).invalid && Pending(Stretch(cf, paste, t)) == []
  {
    StretchVerdict(cf, paste, t);
    UnsafeIff(cf, paste, t);
    PlainIsNotSuspect(cf, paste, t);
  }

  lemma {:induction false} PlainIsNotSuspect(cf: Category, paste: bool, t: Bytes)
    requires Valid(t) && !Any(NotPlain(cf), t)
    ensures !Unsafe(cf, paste, t)
  {
    if t != [] {
      PlainIsNotSuspect(cf, paste, t[Width(t[0])..]);
    }
  }

  // ----- What safe text becomes -------------------------------------------------------------------

  /** The stand-ins of a line feed, a carriage return and a tab; any other byte stands for itself. */
  function StandIn(b: Byte): Bytes {
    if b == 0x0A then [0xE2, 0x80, 0xA8] else if b == 0x0D then [0xE2, 0x80, 0xA9] else if b == 0x09 then [0xC2, 0x85] else [b]
  }

  function Projected(t: Bytes): Bytes {
    if t == [] then [] else Projected(t[..|t| - 1]) + StandIn(t[|t| - 1])
  }

  lemma {:induction false} ProjectedConcat(a: Bytes, b: Bytes)
    ensures Projected(a + b) == Projected(a) + Projected(b)
  {
    if b == [] {
      assert a + b == a;
    } else {
      var front := b[..|b| - 1];
      ProjectedConcat(a, front);
      assert (a + b)[..|a + b| - 1] == a + front;
      Associates(Projected(a), Projected(front), StandIn(b[|b| - 1]));
    }
  }

  lemma {:induction false} ProjectedSame(u: Bytes)
    requires forall i :: 0 <= i < |u| ==> u[i] >= 0x80
    ensures Projected(u) == u
  {
    if u != [] {
      ProjectedSame(u[..|u| - 1]);
    }
  }

  lemma ProjectedCharacter(u: Bytes)
    requires Character(u)
    ensures EncodeRune(ProjectRune(DecodeRune(u).0)) == Projected(u)
  {
    DecodeCharacter(u);
    StandIns();
    if |u| == 1 {
      assert u == [u[0]] && u[..0] == [];
      assert Projected(u) == Projected([]) + StandIn(u[0]);
    } else {
      ProjectedSame(u);
    }
  }

  /** As long as no mark is raised, what has come out is what went in, projected if it was pasted. */
  ghost predicate CameOut(m: Machine, t: Bytes) {
    !m.invalid && !m.unsafe ==>
      && |Pending(m)| <= |t| && t[|t| - |Pending(m)|..] == Pending(m)
      && m.queued == if m.paste then Projected(t[..|t| - |Pending(m)|]) else t[..|t| - |Pending(m)|]
  }

  /** What one literal byte puts out if it raises no mark. */
  lemma LiteralAsIs(cf: Category, m: Machine, b: Byte)
    requires Tidy(m) && !Literal(cf, m, b).invalid && !Literal(cf, m, b).unsafe
    ensures var next := Literal(cf, m, b);
            if Partial(Pending(m) + [b]) then next.queued == m.queued && Pending(next) == Pending(m) + [b]
            else Pending(next) == [] && next.queued == m.queued + if m.paste then Projected(Pending(m) + [b]) else Pending(m) + [b]
  {
    if m.paste {
      PasteCases(cf, m, b);
      if FateOf(m.pasteRune, b) == Completes {
        ProjectedCharacter(m.pasteRune + [b]);
      }
    } else if b < 0x80 {
      AsciiFate(m.typedRune, b);
      assert [] + [b] == [b];
    } else {
      TypedCases(cf, m, b);
    }
  }

  lemma CameOutWaits(m: Machine, t: Bytes, b: Byte, next: Machine)
    requires CameOut(m, t) && !m.invalid && !m.unsafe && next.paste == m.paste
    requires next.queued == m.queued && Pending(next) == Pending(m) + [b]
    ensures CameOut(next, t + [b])
  {
    var done, pending, grown := t[..|t| - |Pending(m)|], Pending(m), t + [b];
    assert t == done + pending;
    Associates(done, pending, [b]);
    assert grown == done + (pending + [b]);
    assert grown[..|done|] == done && grown[|done|..] == pending + [b];
  }

  lemma AllCameOut(m: Machine, t: Bytes)
    requires Pending(m) == [] && m.queued == if m.paste then Projected(t) else t
    ensures CameOut(m, t)
  {
    assert t[..|t|] == t && t[|t|..] == [];
  }

  lemma OutConcat(paste: bool, done: Bytes, pending: Bytes, b: Byte)
    ensures (if paste then Projected(done) else done) + (if paste then Projected(pending + [b]) else pending + [b]) ==
            if paste then Projected((done + pending) + [b]) else (done + pending) + [b]
  {
    Associates(done, pending, [b]);
    ProjectedConcat(done, pending + [b]);
  }

  lemma CameOutCompletes(m: Machine, t: Bytes, b: Byte, next: Machine)
    requires CameOut(m, t) && !m.invalid && !m.unsafe && next.paste == m.paste && Pending(next) == []
    requires next.queued == m.queued + if m.paste then Projected(Pending(m) + [b]) else Pending(m) + [b]
    ensures CameOut(next, t + [b])
  {
    var done := t[..|t| - |Pending(m)|];
    assert t == done + Pending(m);
    OutConcat(m.paste, done, Pending(m), b);
    AllCameOut(next, t + [b]);
  }

  lemma CameOutGrows(cf: Category, m: Machine, t: Bytes, b: Byte)
    requires CameOut(m, t) && Tidy(m)
    ensures CameOut(Literal(cf, m, b), t + [b])
  {
    var next := Literal(cf, m, b);
    LiteralFrame(cf, m, b);
    if !next.invalid && !next.unsafe {
      LiteralAsIs(cf, m, b);
      if Partial(Pending(m) + [b]) {
        CameOutWaits(m, t, b, next);
      } else {
        CameOutCompletes(m, t, b, next);
      }
    }
  }

  lemma {:induction false} StretchCameOut(cf: Category, paste: bool, t: Bytes)
    ensures CameOut(Stretch(cf, paste, t), t)
  {
    if t != [] {
      var front, b := t[..|t| - 1], t[|t| - 1];
      assert front + [b] == t;
      StretchCameOut(cf, paste, front);
      StretchGrows(cf, paste, front, b);
      StretchFrame(cf, paste, front);
      var m := Stretch(cf, paste, front);
      CameOutGrows(cf, m, front, b);
    }
  }

  /** Safe UTF-8 text reaches the editor as it was typed, or as it was pasted with its line feeds, carriage returns
      and tabs replaced by U+2028, U+2029 and U+0085. */
  lemma ComesOutProjected(cf: Category, paste: bool, t: Bytes)
    requires Valid(t) && !Unsafe(cf, paste, t)
    ensures Stretch(cf, paste, t).queued == if paste then Projected(t) else t
  {
    var m := Stretch(cf, paste, t);
    StretchVerdict(cf, paste, t);
    UnsafeIff(cf, paste, t);
    StretchMarked(cf, paste, t);
    StretchCameOut(cf, paste, t);
    assert m.paste == paste && !m.invalid && !m.unsafe && Pending(m) == [];
    AllOut(m, t);
  }

  lemma AllOut(m: Machine, t: Bytes)
    requires CameOut(m, t) && !m.invalid && !m.unsafe && Pending(m) == []
    ensures m.queued == if m.paste then Projected(t) else t
  {
    assert t[..|t|] == t;
  }
}
