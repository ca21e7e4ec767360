/** What printing, tabs and erasing do to the cells of the screen. */
module ScreenCells {
  import opened Screen

  /** The cell at a column, blank where the row has not reached. */
  function Cell(line: seq<Rune>, column: nat): Rune {
    if column < |line| then line[column] else SPACE
  }

  lemma {:induction false} RepeatIs<T>(x: T, count: nat, i: nat)
    ensures |Repeat(x, count)| == count && (i < count ==> Repeat(x, count)[i] == x)
  {
    if count > 0 {
      RepeatIs(x, count - 1, i);
    }
  }

  lemma WriteIs(line: seq<Rune>, column: nat, c: Rune, i: nat)
    ensures |Write(line, column, c)| == if |line| <= column then column + 1 else |line|
    ensures Cell(Write(line, column, c), i) == if i == column then c else Cell(line, i)
  {
    ReachSize(line, column, SPACE);
    if |line| <= column {
      RepeatIs(SPACE, column + 1 - |line|, if i < |line| then 0 else i - |line|);
    }
  }

  /** The same rows but for one. */
  predicate SameBut(s: Screen, r: Screen, row: int) {
    && |r.lines| == |s.lines| && r.soft == s.soft && r.dropped == s.dropped
    && forall i :: 0 <= i < |s.lines| && i != row ==> r.lines[i] == s.lines[i]
  }

  /** A rune put at the cursor, and nothing else. */
  predicate Placed(s: Screen, r: Screen, c: Rune, i: nat)
    requires Valid(s) && Valid(r)
  {
    && SameBut(s, r, s.row) && r.row == s.row && r.width == s.width
    && Cell(r.lines[s.row], i) == (if i == s.column then c else Cell(s.lines[s.row], i))
    && (if s.column + 1 >= s.width then r.wrap && r.column == s.width - 1 else !r.wrap && r.column == s.column + 1)
  }

  /** The same of every column. */
  ghost predicate PlacedAlone(s: Screen, r: Screen, c: Rune)
    requires Valid(s) && Valid(r)
  {
    forall i: nat :: Placed(s, r, c, i)
  }

  lemma RunePlaced(s: Screen, c: Rune, i: nat)
    requires Valid(s) && !s.wrap
    ensures Placed(s, PutRune(s, c), c, i)
  {
    assert EnsureRow(Broken(s)) == s;
    WriteIs(s.lines[s.row], s.column, c, i);
  }

  /** With no wrap pending, a rune changes one cell, the cursor's, and moves the cursor right; in the last
      column it leaves it there with a wrap pending. */
  lemma RuneChangesOneCell(s: Screen, c: Rune)
    requires Valid(s) && !s.wrap && c >= SPACE
    ensures PlacedAlone(s, Put(s, c), c)
  {
    forall i: nat
      ensures Placed(s, Put(s, c), c, i)
    {
      RunePlaced(s, c, i);
    }
  }

  /** `count` cells from the cursor on are blank, the cursor is behind them, and nothing else has changed. */
  predicate Blanked(s: Screen, r: Screen, count: nat, i: nat)
    requires Valid(s) && Valid(r)
  {
    && SameBut(s, r, s.row) && r.row == s.row && !r.wrap && r.column == s.column + count && r.width == s.width
    && Cell(r.lines[s.row], i) == if s.column <= i < s.column + count then SPACE else Cell(s.lines[s.row], i)
  }

  lemma OneMoreBlank(s: Screen, p: Screen, r: Screen, count: nat, i: nat)
    requires Valid(s) && Valid(p) && Valid(r) && Blanked(s, p, count, i) && s.column + count + 1 < s.width && Placed(p, r, SPACE, i)
    ensures Blanked(s, r, count + 1, i)
  {
  }

  lemma NoneBlanked(s: Screen, i: nat)
    requires Valid(s) && !s.wrap
    ensures Blanked(s, s, 0, i)
  {
  }

  lemma SpaceBlanks(s: Screen, p: Screen, r: Screen, count: nat, i: nat)
    requires Valid(s) && Valid(p) && Valid(r) && count > 0 && Blanked(s, p, count - 1, i) && s.column + count < s.width && r == PutRune(p, SPACE)
    ensures Blanked(s, r, count, i)
  {
    RunePlaced(p, SPACE, i);
    OneMoreBlank(s, p, r, count - 1, i);
  }

  lemma OneMoreSpace(s: Screen, count: nat)
    requires Valid(s) && count > 0
    ensures PutSpaces(s, count) == PutRune(PutSpaces(s, count - 1), SPACE)
  {
  }

  lemma {:induction false} SpacesBlank(s: Screen, r: Screen, count: nat, i: nat)
    requires Valid(s) && Valid(r) && !s.wrap && s.column + count < s.width && r == PutSpaces(s, count)
    ensures Blanked(s, r, count, i)
    decreases count
  {
    if count == 0 {
      NoneBlanked(s, i);
    } else {
      var p := PutSpaces(s, count - 1);
      SpacesBlank(s, p, count - 1, i);
      OneMoreSpace(s, count);
      SpaceBlanks(s, p, r, count, i);
    }
  }

  ghost predicate BlankedAlone(s: Screen, r: Screen, count: nat)
    requires Valid(s) && Valid(r)
  {
    forall i: nat :: Blanked(s, r, count, i)
  }

  /** The next multiple of eight columns. */
  predicate NextStop(column: int, stop: int) {
    column < stop <= column + 8 && stop % 8 == 0
  }

  /** A tab within the row blanks up to the next multiple of eight columns and goes there. */
  lemma TabReachesStop(s: Screen, stop: nat)
    requires Valid(s) && !s.wrap && NextStop(s.column, stop) && stop < s.width
    ensures BlankedAlone(s, Put(s, TAB), stop - s.column)
  {
    StopIs(s.column, stop);
    var count := stop - s.column;
    var r := PutSpaces(s, count);
    forall i: nat
      ensures Blanked(s, r, count, i)
    {
      SpacesBlank(s, r, count, i);
    }
  }

  lemma StopIs(column: nat, stop: nat)
    requires NextStop(column, stop)
    ensures 8 - column % 8 == stop - column
  {
  }

  /** The cursor's row is cut there and ends, the cursor stays, and the rows before are as they were. */
  predicate CutHere(s: Screen, r: Screen)
    requires Valid(s) && Valid(r)
  {
    var line := s.lines[s.row];
    && r.row == s.row && r.column == s.column && !r.soft[s.row]
    && r.lines[..s.row] == s.lines[..s.row] && r.soft[..s.row] == s.soft[..s.row]
    && r.lines[s.row] == line[..Min(|line|, s.column)]
  }

  /** Erasing from the cursor on: what is before it stays, and nothing is left after it in the row, or below. */
  lemma ErasedHere(s: Screen)
    requires Valid(s)
    ensures CutHere(s, EraseBelow(s)) && |EraseBelow(s).lines| == s.row + 1
    ensures CutHere(s, EraseRow(s)) && EraseRow(s).lines[s.row + 1..] == s.lines[s.row + 1..]
  {
    assert EnsureRow(s) == s;
    assert EnsureRow(Cut(s)) == Cut(s);
    assert EnsureRow(Trim(Cut(s))) == Trim(Cut(s));
  }

  /** As a control sequence. The whole display is erased by 2 alone, and styling changes nothing. */
  lemma ErasedFromCursor(s: Screen, numbers: seq<int>)
    requires Valid(s) && |numbers| > 0
    ensures var r := Control(s, numbers, false, 'J'); CutHere(s, r) && |r.lines| == s.row + 1
    ensures var r := Control(s, numbers, false, 'K'); CutHere(s, r) && r.lines[s.row + 1..] == s.lines[s.row + 1..]
    ensures Control(s, numbers, true, 'J') == Screen([[]], [false], 0, 0, s.width, false, 0)
    ensures Control(s, numbers, false, 'm') == s.(wrap := false)
  {
    ErasedHere(s.(wrap := false));
    assert EnsureRow(NewScreen(s.width)) == NewScreen(s.width);
    assert Moved(s, numbers, 'm') == s.(wrap := false);
  }

  // ----- Where the cursor goes --------------------------------------------------------------------

  /** The rows there were, with empty ones added as far as `row` and the oldest beyond 4096 dropped; the cursor is in that row. */
  predicate RowsTo(s: Screen, r: Screen, row: nat) {
    var rows := Max(|s.lines|, row + 1);
    var drop := Max(0, rows - 4096);
    && |r.lines| == |r.soft| == rows - drop && r.dropped == s.dropped + drop && r.row == row - drop
    && (forall i :: 0 <= i < |r.lines| ==> r.lines[i] == if i + drop < |s.lines| then s.lines[i + drop] else [])
    && (forall i :: 0 <= i < |r.soft| ==> r.soft[i] == if i + drop < |s.soft| then s.soft[i + drop] else false)
  }

  lemma ReachIs<T>(s: seq<T>, at: nat, x: T)
    ensures var r := Reach(s, at, x);
            |r| == Max(|s|, at + 1) && forall i :: 0 <= i < |r| ==> r[i] == if i < |s| then s[i] else x
  {
    ReachSize(s, at, x);
    forall i | |s| <= i < |Reach(s, at, x)|
      ensures Reach(s, at, x)[i] == x
    {
      RepeatIs(x, at + 1 - |s|, i - |s|);
    }
  }

  lemma EnsuredRows(s: Screen, r: Screen)
    requires Loose(s) && r == EnsureRow(s)
    ensures RowsTo(s, r, s.row)
  {
    ReachIs(s.lines, s.row, []);
    ReachIs(s.soft, s.row, false);
  }

  /** It matters where the cursor is to go, not where it was. */
  lemma RowsToFrom(s: Screen, t: Screen, r: Screen, row: nat)
    requires s.lines == t.lines && s.soft == t.soft && s.dropped == t.dropped && RowsTo(t, r, row)
    ensures RowsTo(s, r, row)
  {
  }

  lemma MovedRows(s: Screen, t: Screen, r: Screen)
    requires Loose(t) && s.lines == t.lines && s.soft == t.soft && s.dropped == t.dropped && r == EnsureRow(t)
    ensures RowsTo(s, r, t.row) && r.column == t.column && r.wrap == t.wrap
  {
    EnsuredRows(t, r);
    RowsToFrom(s, t, r, t.row);
  }

  /** Up, right and left, at least one step and within the display. */
  lemma CursorSteps(s: Screen, numbers: seq<int>, steps: int, two: bool)
    requires Valid(s) && |numbers| > 0 && steps == if numbers[0] < 1 then 1 else numbers[0]
    ensures Control(s, numbers, two, 'A') == s.(row := if steps > s.row then 0 else s.row - steps, wrap := false)
    ensures Control(s, numbers, two, 'C') == s.(column := if s.column + steps > s.width - 1 then s.width - 1 else s.column + steps, wrap := false)
    ensures Control(s, numbers, two, 'D') == s.(column := if steps > s.column then 0 else s.column - steps, wrap := false)
  {
    assert EnsureRow(Moved(s, numbers, 'A')) == Moved(s, numbers, 'A');
    assert EnsureRow(Moved(s, numbers, 'C')) == Moved(s, numbers, 'C');
    assert EnsureRow(Moved(s, numbers, 'D')) == Moved(s, numbers, 'D');
  }

  /** Down without an end, in the same column. */
  lemma CursorFalls(s: Screen, numbers: seq<int>, two: bool, command: char, row: nat, r: Screen)
    requires Valid(s) && |numbers| > 0 && command == 'B' && r == Control(s, numbers, two, command)
    requires row == s.row + if numbers[0] < 1 then 1 else numbers[0]
    ensures RowsTo(s, r, row) && r.column == s.column && !r.wrap
  {
    var t := Moved(s, numbers, command);
    assert t == s.(row := row, wrap := false);
    MovedRows(s, t, r);
  }

  /** To a row and column counted from 1, the first column if none is given. */
  lemma CursorPlaced(s: Screen, numbers: seq<int>, two: bool, command: char, row: nat, r: Screen)
    requires Valid(s) && |numbers| > 0 && (command == 'H' || command == 'f') && r == Control(s, numbers, two, command)
    requires row == if numbers[0] < 1 then 0 else numbers[0] - 1
    ensures RowsTo(s, r, row) && !r.wrap && r.column == if |numbers| == 1 || numbers[1] < 1 then 0 else numbers[1] - 1
  {
    var t := Moved(s, numbers, command);
    assert t == s.(row := row, column := if |numbers| == 1 || numbers[1] < 1 then 0 else numbers[1] - 1, wrap := false);
    MovedRows(s, t, r);
  }

  /** A line feed goes to the same column of the next row. */
  lemma FeedGoesDown(s: Screen, c: Rune, r: Screen)
    requires Valid(s) && c == 10 && r == Put(s, c)
    ensures RowsTo(s.(soft := s.soft[s.row := false]), r, s.row + 1) && r.column == s.column && !r.wrap
  {
    MovedRows(s.(soft := s.soft[s.row := false]), Lowered(s), r);
  }

  /** A return goes to the row's start, a backspace one column left, and no other control character but the tab
      and the line feed does anything. */
  lemma ControlCharacters(s: Screen, c: Rune)
    requires Valid(s) && c < 32 && c != 9 && c != 10
    ensures Put(s, c) == if c == 13 then s.(column := 0, wrap := false)
                         else if c == 8 then s.(column := if s.column == 0 then 0 else s.column - 1)
                         else s
  {
  }

  /** Going down and up again by the same number comes back, as long as nothing has to be dropped; rows
      already there are left alone. */
  lemma DownAndUp(s: Screen, n: int)
    requires Valid(s) && n >= 1 && s.row + n < SCROLLBACK
    ensures var down := Control(s, [n], false, 'B');
            var r := Control(down, [n], false, 'A');
            && down.row == s.row + n && r.row == s.row && r.column == s.column && r.dropped == s.dropped
            && s.lines <= r.lines && s.soft <= r.soft
  {
    var moved := Moved(s, [n], 'B');
    ReachSize(moved.lines, moved.row, []);
    ReachSize(moved.soft, moved.row, false);
    var down := Control(s, [n], false, 'B');
    assert EnsureRow(Moved(down, [n], 'A')) == Moved(down, [n], 'A');
  }
}
