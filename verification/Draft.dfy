/** The draft being typed, cut out of the shared screen when an editor is left and put back when it is
    taken up again.
 */
module Draft {
  import opened Screen

  /** The screen, and where on it the draft began: a row as of when `draftDropped` rows had been dropped. */
  datatype View = View(screen: Screen, draftRow: int, draftColumn: int, draftDropped: int)

  /** Rows and flags are paired, and the cursor is on one of them. */
  predicate Sound(s: Screen) {
    |s.lines| == |s.soft| && 0 <= s.row < |s.lines|
  }

  /** A draft has a row; its cursor may lie above it. */
  predicate Drafted(d: Screen) {
    |d.lines| == |d.soft| > 0
  }

  /** The mark, clamped to the rows and the row that are there. */
  function MarkRow(v: View): int
    requires Sound(v.screen)
  {
    Min(|v.screen.lines| - 1, Max(0, v.draftRow - (v.screen.dropped - v.draftDropped)))
  }

  function MarkColumn(v: View): int
    requires Sound(v.screen)
  {
    Min(|v.screen.lines[MarkRow(v)]|, Max(0, v.draftColumn))
  }

  /** What lies behind the mark. */
  function DraftOf(v: View): (d: Screen)
    requires Sound(v.screen)
    ensures Drafted(d)
  {
    var s, start, column := v.screen, MarkRow(v), MarkColumn(v);
    s.(lines := [s.lines[start][column..]] + s.lines[start + 1..], soft := s.soft[start..], row := s.row - start,
       column := if s.row == start then s.column - column else s.column)
  }

  /** What lies before the mark, with the cursor there. */
  function Detach(v: View): (r: View)
    requires Sound(v.screen)
    ensures Sound(r.screen)
  {
    var s, start, column := v.screen, MarkRow(v), MarkColumn(v);
    v.(screen := s.(lines := s.lines[..start] + [s.lines[start][..column]], soft := s.soft[..start + 1],
                    row := start, column := column, wrap := false))
  }

  function Attach(v: View, d: Screen): View
    requires Sound(v.screen) && Drafted(d)
  {
    var s := v.screen;
    var lines := s.lines[s.row := s.lines[s.row] + d.lines[0]] + d.lines[1..];
    var soft := s.soft[s.row := d.soft[0]] + d.soft[1..];
    View(s.(lines := lines, soft := soft, row := s.row + d.row, wrap := d.wrap,
            column := if d.row == 0 then d.column + s.column else d.column),
         s.row, s.column, s.dropped)
  }

  /** Detaching a draft and attaching it again leaves the screen as it was, wherever the mark is. */
  lemma DetachAttach(v: View)
    requires Sound(v.screen)
    ensures Attach(Detach(v), DraftOf(v)).screen == v.screen
    ensures var w := Attach(Detach(v), DraftOf(v)); w.draftRow == MarkRow(v) && w.draftColumn == MarkColumn(v) && w.draftDropped == v.screen.dropped
  {
    var s, start, column := v.screen, MarkRow(v), MarkColumn(v);
    var d, r := DraftOf(v), Detach(v).screen;
    assert d.lines[1..] == s.lines[start + 1..];
    assert s.lines[start] == s.lines[start][..column] + s.lines[start][column..];
    assert r.lines[start := s.lines[start]] + s.lines[start + 1..] == s.lines;
    assert r.soft[start := d.soft[0]] + d.soft[1..] == s.soft;
  }

  /** Two drafts that show the same rows with the same cursor. */
  predicate Same(a: Screen, b: Screen) {
    a.lines == b.lines && a.soft == b.soft && a.row == b.row && a.column == b.column && a.wrap == b.wrap
  }

  /** Where the draft's first row was joined on. */
  predicate AtEnd(s: Screen, d: Screen)
    requires Sound(s) && Drafted(d)
  {
    && s.row == |s.lines| - 1
    && (s.column == |s.lines[s.row]| || (s.column > |s.lines[s.row]| && d.lines[0] == [] && d.row != 0))
  }

  lemma AttachedMark(v: View, d: Screen)
    requires Sound(v.screen) && Drafted(d) && 0 <= v.screen.row + d.row < |v.screen.lines| + |d.lines| - 1 && v.screen.column >= 0
    ensures var w := Attach(v, d);
            && Sound(w.screen) && MarkRow(w) == v.screen.row
            && MarkColumn(w) == Min(|v.screen.lines[v.screen.row]| + |d.lines[0]|, v.screen.column)
  {
  }

  /** Attaching a draft and detaching it again gives the draft back exactly when it was attached at the
      end of the last row. */
  lemma AttachDetach(v: View, d: Screen)
    requires Sound(v.screen) && Drafted(d) && 0 <= v.screen.row + d.row < |v.screen.lines| + |d.lines| - 1 && v.screen.column >= 0
    ensures Sound(Attach(v, d).screen)
    ensures Same(DraftOf(Attach(v, d)), d) <==> AtEnd(v.screen, d)
  {
    AttachedMark(v, d);
    var s, w := v.screen, Attach(v, d);
    var e, line, column := DraftOf(w), s.lines[s.row], MarkColumn(w);
    assert e.lines[0] == (line + d.lines[0])[column..];
    assert |e.lines| == |d.lines| <==> s.row == |s.lines| - 1;
    if s.row == |s.lines| - 1 {
      assert e.lines[1..] == d.lines[1..];
      assert d.lines == [d.lines[0]] + d.lines[1..];
      assert e.lines == [e.lines[0]] + e.lines[1..];
      assert e.soft == [d.soft[0]] + d.soft[1..] == d.soft;
      if column == |line| {
        assert e.lines[0] == d.lines[0];
      } else {
        assert |e.lines[0]| != |d.lines[0]|;
      }
    }
  }

  /** The screen without its oldest rows. */
  function Scrolled(s: Screen, rows: nat): Screen
    requires Sound(s) && rows <= s.row
  {
    s.(lines := s.lines[rows..], soft := s.soft[rows..], row := s.row - rows, dropped := s.dropped + rows)
  }

  /** When output drops the oldest rows, the draft is still found exactly as long as the row it began in is there. */
  lemma DraftFoundIff(v: View, rows: nat)
    requires Sound(v.screen) && rows <= v.screen.row && 0 <= v.draftRow + v.draftDropped - v.screen.dropped < |v.screen.lines|
    ensures Same(DraftOf(v.(screen := Scrolled(v.screen, rows))), DraftOf(v))
            <==> rows <= v.draftRow + v.draftDropped - v.screen.dropped
  {
    var mark := v.draftRow + v.draftDropped - v.screen.dropped;
    var w := v.(screen := Scrolled(v.screen, rows));
    if rows <= mark {
      assert MarkRow(w) == mark - rows && w.screen.lines[mark - rows] == v.screen.lines[mark];
      assert w.screen.lines[mark - rows + 1..] == v.screen.lines[mark + 1..];
      assert w.screen.soft[mark - rows..] == v.screen.soft[mark..];
    } else {
      assert |DraftOf(w).lines| == |v.screen.lines| - rows;
    }
  }

  lemma FirstRune(width: int, c: Rune)
    requires width >= 2 && c >= SPACE
    ensures Put(NewScreen(width), c) == Screen([[c]], [false], 0, 1, width, false, 0)
  {
    var s := NewScreen(width);
    assert EnsureRow(Broken(s)) == s;
    assert Repeat(SPACE, 1) == Repeat(SPACE, 0) + [SPACE];
    assert Write([], 0, c) == [c];
  }

  lemma ReturnAfter(s: Screen, c: Rune)
    requires Valid(s) && c != CR
    ensures PutAll(s, [c, CR]) == Put(s, c).(column := 0, wrap := false)
  {
    assert [c, CR][..1] == [c] && [c][..0] == [];
    assert PutAll(s, [c]) == Put(PutAll(s, []), c);
  }

  /** A draft does not always come back: output that ends in a carriage return while the draft is away leaves
      the cursor before what it wrote, and that becomes part of the draft. */
  lemma OutputBecomesDraft(width: int, x: Rune, c: Rune)
    requires width >= 2 && x >= SPACE && c >= SPACE
    ensures var v := View(Put(NewScreen(width), x), 0, 0, 0);
            var away := Detach(v);
            var d, s := DraftOf(v), PutAll(away.screen, [c, CR]);
            && Sound(s) && !AtEnd(s, d) && d.lines == [[x]]
            && Sound(Attach(away.(screen := s), d).screen)
            && DraftOf(Attach(away.(screen := s), d)).lines == [[c, x]]
  {
    FirstRune(width, x);
    var v := View(Put(NewScreen(width), x), 0, 0, 0);
    var away, d := Detach(v), DraftOf(v);
    assert v.screen.lines[0][..0] == [] && v.screen.lines[..0] == [] && v.screen.soft[..1] == [false];
    assert away.screen == NewScreen(width);
    assert d.lines == [[x]];
    ReturnAfter(away.screen, c);
    FirstRune(width, c);
    var s := PutAll(away.screen, [c, CR]);
    assert s == Screen([[c]], [false], 0, 0, width, false, 0);
    var w := Attach(away.(screen := s), d);
    assert s.lines[0] + d.lines[0] == [c, x] && d.lines[1..] == [];
    assert w.screen.lines == [[c, x]];
  }
}
