/** The display surface of the line editor: rows of runes with a cursor, soft wraps and bounded scrollback. */
module Screen {
  type Rune = int

  const CR: Rune := 13
  const LF: Rune := 10
  const BS: Rune := 8
  const TAB: Rune := 9
  const SPACE: Rune := 32

  const SCROLLBACK: nat := 4096

  /** `soft[i]` says that row `i` continues on the next; `wrap` that the next rune starts a new row. */
  datatype Screen = Screen(lines: seq<seq<Rune>>, soft: seq<bool>, row: int, column: int, width: int, wrap: bool, dropped: int)

  function NewScreen(width: int): Screen {
    Screen([[]], [false], 0, 0, if width < 1 then 1 else width, false, 0)
  }

  /** Before the cursor's row is ensured it may lie below the last row. */
  predicate Loose(s: Screen) {
    && |s.lines| == |s.soft| <= SCROLLBACK
    && 0 <= s.row && 0 <= s.column && 1 <= s.width
  }

  predicate Valid(s: Screen) {
    Loose(s) && s.row < |s.lines|
  }

  function Repeat<T>(x: T, count: nat): seq<T> {
    if count == 0 then [] else Repeat(x, count - 1) + [x]
  }

  /** As many `x` as are missing for position `at` to exist. */
  function Reach<T>(s: seq<T>, at: nat, x: T): seq<T> {
    if |s| <= at then s + Repeat(x, at + 1 - |s|) else s
  }

  lemma {:induction false} RepeatSize<T>(x: T, count: nat)
    ensures |Repeat(x, count)| == count
  {
    if count > 0 {
      RepeatSize(x, count - 1);
    }
  }

  lemma ReachSize<T>(s: seq<T>, at: nat, x: T)
    ensures |Reach(s, at, x)| == if |s| <= at then at + 1 else |s|
  {
    if |s| <= at {
      RepeatSize(x, at + 1 - |s|);
    }
  }

  /** The oldest rows beyond the scrollback are dropped, and counted. */
  function Drop(s: Screen): Screen {
    if |s.lines| > SCROLLBACK && |s.lines| == |s.soft| then
      var drop := |s.lines| - SCROLLBACK;
      s.(lines := s.lines[drop..], soft := s.soft[drop..], row := s.row - drop, dropped := s.dropped + drop)
    else s
  }

  function EnsureRow(s: Screen): (r: Screen)
    requires Loose(s)
    ensures Valid(r) && r.column == s.column && r.width == s.width && r.wrap == s.wrap
    ensures r.row + r.dropped == s.row + s.dropped
  {
    ReachSize(s.lines, s.row, []);
    ReachSize(s.soft, s.row, false);
    Drop(s.(lines := Reach(s.lines, s.row, []), soft := Reach(s.soft, s.row, false)))
  }

  /** A rune written at the cursor, over what is there. */
  function Write(line: seq<Rune>, column: nat, c: Rune): seq<Rune> {
    ReachSize(line, column, SPACE);
    Reach(line, column, SPACE)[column := c]
  }

  /** A full row is left for the next one. */
  function Broken(s: Screen): (r: Screen)
    requires Valid(s)
    ensures Loose(r) && r.width == s.width
  {
    if s.wrap then s.(soft := s.soft[s.row := true], row := s.row + 1, column := 0, wrap := false) else s
  }

  function WriteAt(e: Screen, c: Rune): (r: Screen)
    requires Valid(e)
    ensures Valid(r) && r.width == e.width
  {
    var written := e.(lines := e.lines[e.row := Write(e.lines[e.row], e.column, c)]);
    if e.column + 1 >= e.width then written.(column := e.width - 1, wrap := true) else written.(column := e.column + 1)
  }

  function PutRune(s: Screen, c: Rune): (r: Screen)
    requires Valid(s)
    ensures Valid(r) && r.width == s.width
  {
    WriteAt(EnsureRow(Broken(s)), c)
  }

  function PutSpaces(s: Screen, count: nat): (r: Screen)
    requires Valid(s)
    ensures Valid(r) && r.width == s.width
  {
    if count == 0 then s else PutRune(PutSpaces(s, count - 1), SPACE)
  }

  /** A line feed ends the row and leaves the column. */
  function Lowered(s: Screen): (r: Screen)
    requires Valid(s)
    ensures Loose(r) && r.width == s.width
  {
    s.(soft := s.soft[s.row := false], row := s.row + 1, wrap := false)
  }

  function Put(s: Screen, c: Rune): (r: Screen)
    requires Valid(s)
    ensures Valid(r) && r.width == s.width
  {
    if c == CR then s.(column := 0, wrap := false)
    else if c == LF then EnsureRow(Lowered(s))
    else if c == BS then s.(column := if s.column < 1 then 0 else s.column - 1)
    else if c == TAB then PutSpaces(s, 8 - s.column % 8)
    else if c < SPACE then s
    else PutRune(s, c)
  }

  function PutAll(s: Screen, text: seq<Rune>): (r: Screen)
    requires Valid(s)
    ensures Valid(r) && r.width == s.width
  {
    if text == [] then s else Put(PutAll(s, text[..|text| - 1]), text[|text| - 1])
  }

  // ----- Control sequences ------------------------------------------------------------------------

  function Max(a: int, b: int): int {
    if a < b then b else a
  }

  function Min(a: int, b: int): int {
    if a < b then a else b
  }

  /** The row is cut at the cursor. */
  function Cut(s: Screen): Screen
    requires Valid(s)
  {
    var line := s.lines[s.row];
    s.(lines := s.lines[s.row := line[..Min(|line|, s.column)]], soft := s.soft[s.row := false])
  }

  function Trim(s: Screen): Screen
    requires Valid(s)
  {
    s.(lines := s.lines[..s.row + 1], soft := s.soft[..s.row + 1])
  }

  function EraseRow(s: Screen): (r: Screen)
    requires Valid(s)
    ensures Valid(r) && r.width == s.width
  {
    EnsureRow(Cut(EnsureRow(s)))
  }

  function EraseBelow(s: Screen): (r: Screen)
    requires Valid(s)
    ensures Valid(r) && r.width == s.width
  {
    EnsureRow(Trim(Cut(EnsureRow(s))))
  }

  /** Where a movement takes the cursor. */
  function Target(s: Screen, numbers: seq<int>, command: char): (t: (int, int))
    requires Valid(s) && |numbers| > 0
    ensures t.0 >= 0 && t.1 >= 0
  {
    var amount := Max(1, numbers[0]);
    match command
    case 'A' => (Max(0, s.row - amount), s.column)
    case 'B' => (s.row + amount, s.column)
    case 'C' => (s.row, Min(s.width - 1, s.column + amount))
    case 'D' => (s.row, Max(0, s.column - amount))
    case 'H' => (amount - 1, if |numbers| > 1 then Max(0, numbers[1] - 1) else 0)
    case 'f' => (amount - 1, if |numbers| > 1 then Max(0, numbers[1] - 1) else 0)
    case _ => (s.row, s.column)
  }

  function Moved(s: Screen, numbers: seq<int>, command: char): (r: Screen)
    requires Valid(s) && |numbers| > 0
    ensures Loose(r) && r.width == s.width
  {
    s.(row := Target(s, numbers, command).0, column := Target(s, numbers, command).1, wrap := false)
  }

  function EraseDisplay(s: Screen, two: bool): (r: Screen)
    requires Valid(s)
    ensures Valid(r) && r.width == s.width
  {
    if two then EnsureRow(NewScreen(s.width)) else EraseBelow(s)
  }

  predicate Supported(command: char) {
    command in {'A', 'B', 'C', 'D', 'H', 'f', 'K', 'J', 'm'}
  }

  /** A control sequence with its numbers, an empty one counted as 1; `two` says that it read exactly "2". */
  function Control(s: Screen, numbers: seq<int>, two: bool, command: char): (r: Screen)
    requires Valid(s) && |numbers| > 0
    ensures Valid(r) && r.width == s.width
  {
    if command == 'K' then EraseRow(s.(wrap := false))
    else if command == 'J' then EraseDisplay(s.(wrap := false), two)
    else if Supported(command) then EnsureRow(Moved(s, numbers, command))
    else s.(wrap := false)
  }
}
