/** What printing text to a fresh screen leaves on it: the text laid out in rows, of which the last are
    kept, and from which the text can be read back.
 */
module ScreenText {
  import opened Screen

  /** Text laid out without a bound on the rows. */
  datatype Page = Page(lines: seq<seq<Rune>>, soft: seq<bool>)

  const BLANK := Page([[]], [false])

  predicate Printable(c: Rune) {
    c == LF || c >= SPACE
  }

  predicate Text(text: seq<Rune>) {
    forall i :: 0 <= i < |text| ==> Printable(text[i])
  }

  /** Rows fit the width; a row continues on the next only when it is full; the last row does not. */
  predicate Fits(p: Page, width: int) {
    && |p.lines| == |p.soft| > 0 && 1 <= width && !p.soft[|p.soft| - 1]
    && (forall i :: 0 <= i < |p.lines| ==> |p.lines[i]| <= width && LF !in p.lines[i])
    && (forall i :: 0 <= i < |p.lines| && p.soft[i] ==> |p.lines[i]| == width && i + 1 < |p.lines| && p.lines[i + 1] != [])
  }

  function Last(p: Page): seq<Rune>
    requires |p.lines| > 0
  {
    p.lines[|p.lines| - 1]
  }

  /** A newline starts a row; a rune goes at the end of the last row, or on a row of its own if that is full. */
  function Add(p: Page, width: int, c: Rune): Page
    requires |p.lines| == |p.soft| > 0
  {
    var n := |p.lines| - 1;
    if c == LF then Page(p.lines + [[]], p.soft + [false])
    else if |Last(p)| >= width then Page(p.lines + [[c]], p.soft[n := true] + [false])
    else Page(p.lines[n := Last(p) + [c]], p.soft)
  }

  function Layout(text: seq<Rune>, width: int): (p: Page)
    ensures |p.lines| == |p.soft| > 0
  {
    if text == [] then BLANK else Add(Layout(text[..|text| - 1], width), width, text[|text| - 1])
  }

  /** The rows read back: a row is followed by a newline unless it continues on the next. */
  function Rejoin(lines: seq<seq<Rune>>, soft: seq<bool>): seq<Rune>
    requires |lines| == |soft|
  {
    var n := |lines| - 1;
    if |lines| == 0 then []
    else if n == 0 then lines[0]
    else Rejoin(lines[..n], soft[..n]) + (if soft[n - 1] then [] else [LF]) + lines[n]
  }

  // ----- The layout -------------------------------------------------------------------------------

  lemma {:induction false} RejoinIgnoresLastFlag(lines: seq<seq<Rune>>, soft: seq<bool>, flag: bool)
    requires |lines| == |soft| > 0
    ensures Rejoin(lines, soft[|soft| - 1 := flag]) == Rejoin(lines, soft)
  {
    var n := |lines| - 1;
    assert soft[n := flag][..n] == soft[..n];
  }

  lemma AddRejoins(p: Page, width: int, c: Rune)
    requires |p.lines| == |p.soft| > 0 && !p.soft[|p.soft| - 1]
    ensures var q := Add(p, width, c); Rejoin(q.lines, q.soft) == Rejoin(p.lines, p.soft) + [c]
  {
    var n := |p.lines| - 1;
    var q := Add(p, width, c);
    if c == LF || |Last(p)| >= width {
      assert q.lines[..n + 1] == p.lines;
      RejoinIgnoresLastFlag(p.lines, p.soft, true);
      assert q.soft[..n + 1] == if c == LF then p.soft else p.soft[n := true];
    } else {
      assert q.lines[..n] == p.lines[..n];
    }
  }

  lemma AddFits(p: Page, width: int, c: Rune)
    requires Fits(p, width)
    ensures Fits(Add(p, width, c), width)
  {
  }

  /** The layout fits the width, and reads back as the text: for every text and width. */
  lemma {:induction false} LayoutRoundTrip(text: seq<Rune>, width: int)
    requires width >= 1
    ensures var p := Layout(text, width); Fits(p, width) && Rejoin(p.lines, p.soft) == text
  {
    if text != [] {
      LayoutRoundTrip(text[..|text| - 1], width);
      AddRoundTrip(text, width, Layout(text[..|text| - 1], width));
    }
  }

  lemma AddRoundTrip(text: seq<Rune>, width: int, p: Page)
    requires text != [] && Fits(p, width) && Rejoin(p.lines, p.soft) == text[..|text| - 1]
    ensures var q := Add(p, width, text[|text| - 1]); Fits(q, width) && Rejoin(q.lines, q.soft) == text
  {
    AddFits(p, width, text[|text| - 1]);
    AddRejoins(p, width, text[|text| - 1]);
    assert text == text[..|text| - 1] + [text[|text| - 1]];
  }

  // ----- The screen -------------------------------------------------------------------------------

  /** A newline is sent as a return and a line feed. */
  function Type(s: Screen, c: Rune): (r: Screen)
    requires Valid(s)
    ensures Valid(r)
  {
    if c == LF then Put(Put(s, CR), LF) else Put(s, c)
  }

  function Print(width: int, text: seq<Rune>): (s: Screen)
    ensures Valid(s)
  {
    if text == [] then NewScreen(width) else Type(Print(width, text[..|text| - 1]), text[|text| - 1])
  }

  /** The rows that no longer fit the scrollback. */
  function Excess(p: Page): nat {
    if |p.lines| > SCROLLBACK then |p.lines| - SCROLLBACK else 0
  }

  /** The screen holds the last rows of the page, with the cursor at its end. */
  predicate Shows(s: Screen, p: Page) {
    && Valid(s) && |p.lines| == |p.soft| > 0
    && s.lines == p.lines[Excess(p)..] && s.soft == p.soft[Excess(p)..] && s.dropped == Excess(p)
    && s.row == |s.lines| - 1
    && s.wrap == (|Last(p)| >= s.width)
    && s.column == (if s.wrap then s.width - 1 else |Last(p)|)
  }

  lemma BreakShown(s: Screen, p: Page, flag: bool)
    requires Valid(s) && |p.lines| == |p.soft| > 0
    requires s.lines == p.lines[Excess(p)..] && s.soft == p.soft[Excess(p)..] && s.dropped == Excess(p) && s.row == |s.lines| - 1
    ensures var n := |p.lines| - 1;
            var q := Page(p.lines + [[]], p.soft[n := flag] + [false]);
            var r := EnsureRow(s.(soft := s.soft[s.row := flag], row := s.row + 1));
            && r.lines == q.lines[Excess(q)..] && r.soft == q.soft[Excess(q)..] && r.dropped == Excess(q) && r.row == |r.lines| - 1
  {
    var n := |p.lines| - 1;
    var k := Excess(p);
    assert Reach(s.lines, s.row + 1, []) == s.lines + [[]];
    var soft := s.soft[s.row := flag];
    assert soft == p.soft[n := flag][k..];
    assert Reach(soft, s.row + 1, false) == soft + [false];
    assert s.lines + [[]] == (p.lines + [[]])[k..];
    assert soft + [false] == (p.soft[n := flag] + [false])[k..];
  }

  lemma WriteAtEnd(line: seq<Rune>, c: Rune)
    ensures Write(line, |line|, c) == line + [c]
  {
    assert Repeat(SPACE, 1) == [SPACE];
    assert Reach(line, |line|, SPACE) == line + [SPACE];
  }

  lemma LineBreakShown(s: Screen, p: Page)
    requires Shows(s, p) && Fits(p, s.width)
    ensures Shows(Type(s, LF), Add(p, s.width, LF))
  {
    var t := Put(s, CR);
    BreakShown(t, p, false);
    assert p.soft[|p.lines| - 1 := false] == p.soft;
  }

  /** A rune at the cursor of the last row. */
  lemma WrittenShown(e: Screen, q: Page, c: Rune)
    requires Valid(e) && |q.lines| == |q.soft| > 0 && e.row == |e.lines| - 1 && !e.wrap
    requires e.lines == q.lines[Excess(q)..] && e.soft == q.soft[Excess(q)..] && e.dropped == Excess(q)
    requires e.column == |Last(q)| < e.width && c >= SPACE
    ensures Shows(WriteAt(e, c), Page(q.lines[|q.lines| - 1 := Last(q) + [c]], q.soft))
  {
    assert e.lines[e.row] == Last(q);
    WriteAtEnd(Last(q), c);
    assert e.lines[e.row := Last(q) + [c]] == q.lines[|q.lines| - 1 := Last(q) + [c]][Excess(q)..];
  }

  lemma WrapShown(s: Screen, p: Page, c: Rune)
    requires Shows(s, p) && Fits(p, s.width) && c >= SPACE && s.wrap
    ensures Shows(PutRune(s, c), Add(p, s.width, c))
  {
    var n := |p.lines| - 1;
    BreakShown(s.(column := 0, wrap := false), p, true);
    var q := Page(p.lines + [[]], p.soft[n := true] + [false]);
    assert Last(q) == [];
    WrittenShown(EnsureRow(Broken(s)), q, c);
    AddedRow(p, c);
  }

  lemma AddedRow(p: Page, c: Rune)
    requires |p.lines| > 0
    ensures (p.lines + [[]])[|p.lines| := [] + [c]] == p.lines + [[c]]
  {
    assert [] + [c] == [c];
  }

  lemma EnsuredAlready(s: Screen)
    requires Valid(s)
    ensures EnsureRow(s) == s
  {
  }

  lemma PlainShown(s: Screen, p: Page, c: Rune)
    requires Shows(s, p) && c >= SPACE && !s.wrap
    ensures Shows(PutRune(s, c), Add(p, s.width, c))
  {
    EnsuredAlready(s);
    WrittenShown(s, p, c);
  }

  lemma RuneShown(s: Screen, p: Page, c: Rune)
    requires Shows(s, p) && Fits(p, s.width) && c >= SPACE
    ensures Shows(Type(s, c), Add(p, s.width, c))
  {
    assert Type(s, c) == PutRune(s, c);
    if s.wrap {
      WrapShown(s, p, c);
    } else {
      PlainShown(s, p, c);
    }
  }

  lemma {:induction false} PrintShown(width: int, text: seq<Rune>)
    requires width >= 1 && Text(text)
    ensures Shows(Print(width, text), Layout(text, width)) && Print(width, text).width == width
  {
    if text != [] {
      var before, c := text[..|text| - 1], text[|text| - 1];
      PrintShown(width, before);
      LayoutRoundTrip(before, width);
      if c == LF {
        LineBreakShown(Print(width, before), Layout(before, width));
      } else {
        RuneShown(Print(width, before), Layout(before, width), c);
      }
    }
  }

  /** For every width and text: the screen holds the last rows of the layout, as many as the scrollback
      allows, `dropped` counts the others, and when none was dropped the rows read back as the text. */
  lemma PrintedTextReadsBack(width: int, text: seq<Rune>)
    requires width >= 1 && Text(text)
    ensures var s, p := Print(width, text), Layout(text, width);
            && Rejoin(p.lines, p.soft) == text
            && s.dropped == Excess(p) && s.lines == p.lines[s.dropped..] && s.soft == p.soft[s.dropped..]
            && |s.lines| + s.dropped == |p.lines| && |s.lines| <= SCROLLBACK
            && (s.dropped == 0 ==> Rejoin(s.lines, s.soft) == text)
  {
    PrintShown(width, text);
    LayoutRoundTrip(text, width);
    var p := Layout(text, width);
    assert p.lines[0..] == p.lines && p.soft[0..] == p.soft;
  }
}
