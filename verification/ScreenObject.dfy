/** The screen updated in place. A row is an object of its own, written through wherever it is shared, so
    that whether a detached draft is affected by later output is a question about objects.
 */
module ScreenObject {
  import opened S = Screen
  import ControlText
  import ScreenCells

  class Row {
    var cells: seq<Rune>

    constructor (cells: seq<Rune>)
      ensures this.cells == cells
    {
      this.cells := cells;
    }

    /** Pads the row up to the column and writes there. */
    method Write(column: nat, c: Rune)
      modifies this
      ensures cells == S.Write(old(cells), column, c)
    {
      ghost var count := 0;
      while |cells| <= column
        invariant |cells| == |old(cells)| + count && (count > 0 ==> |cells| <= column + 1)
        invariant cells == old(cells) + Repeat(SPACE, count)
      {
        RepeatMore(old(cells), SPACE, count);
        cells := cells + [SPACE];
        count := count + 1;
      }
      cells := cells[column := c];
    }
  }

  lemma RepeatMore<T>(s: seq<T>, x: T, count: nat)
    ensures (s + Repeat(x, count)) + [x] == s + Repeat(x, count + 1)
  {
  }

  lemma OneMoreSpace(s: Screen, count: nat)
    requires Valid(s)
    ensures PutSpaces(s, count + 1) == PutRune(PutSpaces(s, count), SPACE)
  {
  }

  lemma PutAllMore(s: Screen, text: seq<Rune>, k: nat)
    requires Valid(s) && k < |text|
    ensures S.PutAll(s, text[..k + 1]) == S.Put(S.PutAll(s, text[..k]), text[k])
  {
    assert text[..k + 1][..k] == text[..k];
  }

  class WorkspaceScreen {
    var lines: seq<Row>
    var soft: seq<bool>
    var row: int
    var column: int
    var width: int
    var wrap: bool
    var dropped: int
    ghost var value: Screen
    ghost var rows: set<Row>

    /** The screen shows `value`, and no two of its rows are the same object. */
    ghost predicate Rep()
      reads this, rows
    {
      && value == Screen(value.lines, soft, row, column, width, wrap, dropped)
      && |lines| == |value.lines|
      && (forall i :: 0 <= i < |lines| ==> lines[i] in rows && lines[i].cells == value.lines[i])
      && (forall i, j :: 0 <= i < j < |lines| ==> lines[i] != lines[j])
    }

    constructor (width: int)
      ensures Rep() && value == NewScreen(width) && fresh(rows)
    {
      var first := new Row([]);
      lines, soft := [first], [false];
      row, column, wrap, dropped := 0, 0, false, 0;
      this.width := if width < 1 then 1 else width;
      rows := {first};
      value := NewScreen(width);
    }

    /** A screen made of given rows. */
    constructor Of(lines: seq<Row>, soft: seq<bool>, row: int, column: int, width: int, wrap: bool, dropped: int, ghost cells: seq<seq<Rune>>)
      requires |cells| == |lines| && forall i :: 0 <= i < |lines| ==> lines[i].cells == cells[i]
      requires forall i, j :: 0 <= i < j < |lines| ==> lines[i] != lines[j]
      ensures Rep() && value == Screen(cells, soft, row, column, width, wrap, dropped)
      ensures rows == set r | r in lines
    {
      this.lines, this.soft := lines, soft;
      this.row, this.column, this.width, this.wrap, this.dropped := row, column, width, wrap, dropped;
      this.value := Screen(cells, soft, row, column, width, wrap, dropped);
      this.rows := set r | r in lines;
    }

    method AddRow()
      requires Rep()
      modifies this`lines, this`soft, this`rows, this`value
      ensures Rep() && fresh(rows - old(rows))
      ensures value == old(value).(lines := old(value).lines + [[]], soft := old(value).soft + [false])
    {
      var below := new Row([]);
      lines := lines + [below];
      soft := soft + [false];
      rows := rows + {below};
      value := value.(lines := value.lines + [[]], soft := soft);
    }

    method AddRows()
      requires Rep() && Loose(value)
      modifies this`lines, this`soft, this`rows, this`value
      ensures Rep() && fresh(rows - old(rows))
      ensures value == old(value).(lines := Reach(old(value).lines, row, []), soft := Reach(old(value).soft, row, false))
    {
      ghost var count := 0;
      while |lines| <= row
        invariant Rep() && fresh(rows - old(rows))
        invariant |lines| == |old(lines)| + count && (count > 0 ==> |lines| <= row + 1)
        invariant value == old(value).(lines := old(value).lines + Repeat([], count), soft := old(value).soft + Repeat(false, count))
        decreases row - |lines|
      {
        AddRow();
        RepeatMore(old(value).lines, [], count);
        RepeatMore(old(value).soft, false, count);
        count := count + 1;
      }
    }

    method DropRows()
      requires Rep() && |value.lines| == |value.soft|
      modifies this`lines, this`soft, this`row, this`dropped, this`value
      ensures Rep() && value == Drop(old(value))
    {
      if |lines| > SCROLLBACK {
        var drop := |lines| - SCROLLBACK;
        lines := lines[drop..];
        soft := soft[drop..];
        row := row - drop;
        dropped := dropped + drop;
        value := Drop(value);
      }
    }

    /** Rows are added up to the cursor; the oldest are let go beyond the scrollback. */
    method EnsureRow()
      requires Rep() && Loose(value)
      modifies this`lines, this`soft, this`row, this`dropped, this`rows, this`value
      ensures Rep() && fresh(rows - old(rows))
      ensures value == S.EnsureRow(old(value))
    {
      AddRows();
      ReachSize(old(value).lines, row, []);
      ReachSize(old(value).soft, row, false);
      DropRows();
    }

    // ----- Printing -------------------------------------------------------------------------------

    method WriteCell(c: Rune)
      requires Rep() && Valid(value)
      modifies this`column, this`wrap, this`value, rows
      ensures Rep() && value == WriteAt(old(value), c)
    {
      lines[row].Write(column, c);
      value := WriteAt(value, c);
      column := column + 1;
      if column >= width {
        column, wrap := width - 1, true;
      }
    }

    method PutPrintable(c: Rune)
      requires Rep() && Valid(value)
      modifies this, rows
      ensures Rep() && fresh(rows - old(rows)) && value == PutRune(old(value), c)
    {
      value := Broken(value);
      if wrap {
        soft := soft[row := true];
        row := row + 1;
        column, wrap := 0, false;
      }
      EnsureRow();
      WriteCell(c);
    }

    method Spaces(count: nat)
      requires Rep() && Valid(value)
      modifies this, rows
      ensures Rep() && fresh(rows - old(rows)) && value == PutSpaces(old(value), count)
    {
      for k := 0 to count
        invariant Rep() && fresh(rows - old(rows)) && value == PutSpaces(old(value), k)
      {
        OneMoreSpace(old(value), k);
        PutPrintable(SPACE);
      }
    }

    method LineFeed()
      requires Rep() && Valid(value)
      modifies this`lines, this`soft, this`row, this`wrap, this`dropped, this`rows, this`value
      ensures Rep() && fresh(rows - old(rows)) && value == S.EnsureRow(Lowered(old(value)))
    {
      soft := soft[row := false];
      row := row + 1;
      wrap := false;
      value := Lowered(value);
      EnsureRow();
    }

    method Put(c: Rune)
      requires Rep() && Valid(value)
      modifies this, rows
      ensures Rep() && fresh(rows - old(rows)) && value == S.Put(old(value), c)
      ensures !old(value).wrap && c >= SPACE ==> ScreenCells.PlacedAlone(old(value), value, c)
    {
      if c == LF {
        LineFeed();
      } else if c == TAB {
        Spaces(8 - column % 8);
      } else if c >= SPACE {
        PutPrintable(c);
        if !old(value).wrap {
          ScreenCells.RuneChangesOneCell(old(value), c);
        }
      } else {
        if c == CR {
          column, wrap := 0, false;
        } else if c == BS {
          column := if column < 1 then 0 else column - 1;
        }
        value := S.Put(value, c);
      }
    }

    method PutAll(text: seq<Rune>)
      requires Rep() && Valid(value)
      modifies this, rows
      ensures Rep() && fresh(rows - old(rows)) && value == S.PutAll(old(value), text)
    {
      for k := 0 to |text|
        invariant Rep() && fresh(rows - old(rows)) && value == S.PutAll(old(value), text[..k])
      {
        PutAllMore(old(value), text, k);
        Put(text[k]);
      }
      assert text[..|text|] == text;
    }

    // ----- Control sequences ----------------------------------------------------------------------

    method CutRow()
      requires Rep() && Valid(value)
      modifies this`soft, this`value, rows
      ensures Rep() && value == Cut(old(value))
    {
      lines[row].cells := lines[row].cells[..Min(|lines[row].cells|, column)];
      soft := soft[row := false];
      value := Cut(value);
    }

    method CutRowsBelow()
      requires Rep() && Valid(value)
      modifies this`lines, this`soft, this`value
      ensures Rep() && value == Trim(old(value))
    {
      lines := lines[..row + 1];
      soft := soft[..row + 1];
      value := Trim(value);
    }

    method Clear()
      requires Rep() && Valid(value)
      modifies this
      ensures Rep() && fresh(rows - old(rows)) && value == NewScreen(old(value).width)
    {
      var first := new Row([]);
      lines, soft := [first], [false];
      row, column, wrap, dropped := 0, 0, false, 0;
      rows := {first};
      value := NewScreen(width);
    }

    method Unwrap()
      requires Rep() && Valid(value)
      modifies this`wrap, this`value
      ensures Rep() && value == old(value).(wrap := false)
    {
      wrap := false;
      value := value.(wrap := false);
    }

    method EraseRow()
      requires Rep() && Valid(value)
      modifies this, rows
      ensures Rep() && fresh(rows - old(rows)) && value == S.EraseRow(old(value))
      ensures ScreenCells.CutHere(old(value), value) && value.lines[value.row + 1..] == old(value).lines[value.row + 1..]
    {
      ScreenCells.ErasedHere(value);
      EnsureRow();
      CutRow();
      EnsureRow();
    }

    method EraseBelow()
      requires Rep() && Valid(value)
      modifies this, rows
      ensures Rep() && fresh(rows - old(rows)) && value == S.EraseBelow(old(value))
      ensures ScreenCells.CutHere(old(value), value) && |value.lines| == value.row + 1
    {
      ScreenCells.ErasedHere(value);
      EnsureRow();
      CutRow();
      CutRowsBelow();
      EnsureRow();
    }

    method EraseDisplay(two: bool)
      requires Rep() && Valid(value)
      modifies this, rows
      ensures Rep() && fresh(rows - old(rows))
      ensures value == S.EraseDisplay(old(value), two)
    {
      if two {
        Clear();
        EnsureRow();
      } else {
        EraseBelow();
      }
    }

    method CursorTarget(numbers: seq<int>, command: char) returns (r: int, c: int)
      requires Rep() && Valid(value) && |numbers| > 0
      ensures (r, c) == Target(value, numbers, command)
    {
      var amount := Max(1, numbers[0]);
      r, c := row, column;
      match command {
        case 'A' => r := Max(0, row - amount);
        case 'B' => r := row + amount;
        case 'C' => c := Min(width - 1, column + amount);
        case 'D' => c := Max(0, column - amount);
        case 'H' => r, c := amount - 1, if |numbers| > 1 then Max(0, numbers[1] - 1) else 0;
        case 'f' => r, c := amount - 1, if |numbers| > 1 then Max(0, numbers[1] - 1) else 0;
        case _ =>
      }
    }

    method MoveCursor(numbers: seq<int>, command: char)
      requires Rep() && Valid(value) && |numbers| > 0
      modifies this`lines, this`soft, this`row, this`column, this`wrap, this`dropped, this`rows, this`value
      ensures Rep() && fresh(rows - old(rows)) && value == S.EnsureRow(Moved(old(value), numbers, command))
    {
      var r, c := CursorTarget(numbers, command);
      row, column, wrap := r, c, false;
      value := Moved(value, numbers, command);
      EnsureRow();
    }

    method Control(numbers: seq<int>, two: bool, command: char) returns (supported: bool)
      requires Rep() && Valid(value) && |numbers| > 0
      modifies this, rows
      ensures Rep() && fresh(rows - old(rows))
      ensures value == S.Control(old(value), numbers, two, command) && supported == Supported(command)
    {
      supported := Supported(command);
      if supported && command != 'K' && command != 'J' {
        MoveCursor(numbers, command);
        return;
      }
      Unwrap();
      if command == 'K' {
        EraseRow();
      } else if command == 'J' {
        EraseDisplay(two);
      }
    }

    /** A control sequence as the editor writes it: refused before anything changes if a parameter is no number. */
    method ControlSequence(parameters: string, command: char) returns (ok: bool)
      requires Rep() && Valid(value)
      modifies this, rows
      ensures Rep() && Valid(value) && fresh(rows - old(rows))
      ensures ok <==> ControlText.Parameters(parameters).Some? && Supported(command)
      ensures value == if ControlText.Parameters(parameters).None? then old(value)
                       else S.Control(old(value), ControlText.Parameters(parameters).value, parameters == "2", command)
    {
      var numbers;
      numbers, ok := ControlText.ParseParameters(parameters);
      if ok {
        ok := Control(numbers, parameters == "2", command);
      }
    }

    // ----- Cutting --------------------------------------------------------------------------------

    /** A screen of the rows from `start` on, the first from `column` on; that row is copied. */
    method SplitOff(start: nat, column: nat) returns (tail: WorkspaceScreen)
      requires Rep() && |value.lines| == |value.soft| && start < |lines| && column <= |lines[start].cells|
      ensures tail.Rep() && fresh(tail)
      ensures forall r :: r in tail.rows ==> fresh(r) || r in lines[start + 1..]
      ensures tail.value == value.(lines := [value.lines[start][column..]] + value.lines[start + 1..], soft := value.soft[start..],
                                   row := row - start, column := if row == start then this.column - column else this.column)
    {
      var first := new Row(lines[start].cells[column..]);
      tail := new WorkspaceScreen.Of([first] + lines[start + 1..], soft[start..], row - start,
                                     if row == start then this.column - column else this.column, width, wrap, dropped,
                                     [value.lines[start][column..]] + value.lines[start + 1..]);
    }

    /** Keeps the rows before `start`, and of row `start` a copy of what is before `column`. */
    method Truncate(start: nat, column: nat)
      requires Rep() && |value.lines| == |value.soft| && start < |lines| && column <= |lines[start].cells|
      modifies this`lines, this`soft, this`rows, this`value, this`row, this`column, this`wrap
      ensures Rep() && forall r :: r in rows ==> fresh(r) || r in old(lines)[..start]
      ensures value == old(value).(lines := old(value).lines[..start] + [old(value).lines[start][..column]], soft := old(value).soft[..start + 1],
                                   row := start, column := column, wrap := false)
    {
      var kept := new Row(lines[start].cells[..column]);
      lines := lines[..start] + [kept];
      soft := soft[..start + 1];
      this.row, this.column, this.wrap := start, column, false;
      rows := set r | r in lines;
      value := value.(lines := value.lines[..start] + [value.lines[start][..column]], soft := soft, row := start, column := column, wrap := false);
    }

    /** The rows of the other screen but the first are added. */
    method TakeOver(other: WorkspaceScreen)
      requires Rep() && other.Rep() && other != this && rows !! other.rows
      requires |other.value.lines| == |other.value.soft| > 0
      modifies this`lines, this`soft, this`rows, this`value
      ensures Rep() && rows == old(rows) + other.rows
      ensures value == old(value).(lines := old(value).lines + other.value.lines[1..], soft := old(value).soft + other.value.soft[1..])
    {
      lines := lines + other.lines[1..];
      soft := soft + other.soft[1..];
      rows := rows + other.rows;
      value := value.(lines := value.lines + other.value.lines[1..], soft := soft);
    }

    /** The other screen's first row is joined on at the cursor, and its other rows are taken over. */
    method Join(other: WorkspaceScreen)
      requires Rep() && other.Rep() && other != this && rows !! other.rows
      requires |value.lines| == |value.soft| && 0 <= row < |lines| && |other.value.lines| == |other.value.soft| > 0
      modifies this, rows
      ensures Rep() && rows == old(rows) + other.rows
      ensures var o, d := old(value), other.value;
              value == o.(lines := o.lines[o.row := o.lines[o.row] + d.lines[0]] + d.lines[1..], soft := o.soft[o.row := d.soft[0]] + d.soft[1..],
                          row := o.row + d.row, wrap := d.wrap, column := if d.row == 0 then d.column + o.column else d.column)
    {
      lines[row].cells := lines[row].cells + other.lines[0].cells;
      soft := soft[row := other.soft[0]];
      value := value.(lines := value.lines[row := value.lines[row] + other.value.lines[0]], soft := soft);
      assert Rep();
      TakeOver(other);
      column := if other.row == 0 then other.column + column else other.column;
      row, wrap := row + other.row, other.wrap;
      value := value.(row := row, column := column, wrap := wrap);
    }
  }
}
