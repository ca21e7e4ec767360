/** Several sessions draw on one terminal, each sending only the rows that differ from the frame it drew
    last. What the sessions that are not selected send is discarded.
 */
module Redraw {
  // ----- The terminal -----------------------------------------------------------------------------

  datatype Cursor = Hidden | At(row: nat, column: nat)

  datatype Display = Display(rows: seq<string>, cursor: Cursor)

  /** `Line` clears a row and writes it. */
  datatype Command = Hide | Line(index: nat, text: string) | Show(row: nat, column: nat)

  function Apply(d: Display, c: Command): Display {
    match c
    case Hide => d.(cursor := Hidden)
    case Line(i, text) => if i < |d.rows| then d.(rows := d.rows[i := text]) else d
    case Show(row, column) => d.(cursor := At(row, column))
  }

  /** What a command that was cut off left behind: its row in any state, the cursor anywhere. */
  datatype Tear = Tear(text: string, cursor: Cursor)

  function Torn(d: Display, c: Command, tear: Tear): Display {
    Apply(d, if c.Line? then Line(c.index, tear.text) else Hide).(cursor := tear.cursor)
  }

  /** How far a write gets before it fails, if it is longer than that. */
  datatype Write = Write(accepted: nat, tear: Tear)

  function ApplyAll(d: Display, cs: seq<Command>): Display {
    if cs == [] then d else Apply(ApplyAll(d, cs[..|cs| - 1]), cs[|cs| - 1])
  }

  // ----- A session's view -------------------------------------------------------------------------

  /** Where a frame puts the cursor. */
  datatype Spot = Spot(row: nat, column: nat, visible: bool)

  /** The frame drawn last, none if empty. */
  datatype View = View(last: seq<string>, spot: Spot)

  function CursorOf(s: Spot): Cursor {
    if s.visible then At(s.row, s.column) else Hidden
  }

  predicate Same(v: View, frame: seq<string>, i: nat)
    requires i < |frame|
  {
    |v.last| == |frame| && v.last[i] == frame[i]
  }

  /** The rows before `n` that differ from the frame drawn last. */
  function Changed(v: View, frame: seq<string>, n: nat): seq<Command>
    requires n <= |frame|
  {
    if n == 0 then []
    else if Same(v, frame, n - 1) then Changed(v, frame, n - 1)
    else Changed(v, frame, n - 1) + [Line(n - 1, frame[n - 1])]
  }

  function Script(v: View, frame: seq<string>, s: Spot): seq<Command> {
    [Hide] + Changed(v, frame, |frame|) + if s.visible then [Show(s.row, s.column)] else []
  }

  /** Nothing to send. */
  predicate Idle(v: View, frame: seq<string>, s: Spot) {
    Changed(v, frame, |frame|) == [] && s == v.spot
  }

  function Redrawn(frame: seq<string>, s: Spot): Display {
    Display(frame, CursorOf(s))
  }

  datatype Outcome = Outcome(display: Display, view: View, ok: bool)

  /** What is left of commands of which only the first got through whole. */
  function Broken(d: Display, cs: seq<Command>, w: Write): Display
    requires w.accepted < |cs|
  {
    Torn(ApplyAll(d, cs[..w.accepted]), cs[w.accepted], w.tear)
  }

  /** A draw whose write may fail; if the session is not chosen the write succeeds without effect. */
  function DrawOn(d: Display, chosen: bool, v: View, frame: seq<string>, spot: Spot, w: Write): Outcome {
    var script := Script(v, frame, spot);
    if Idle(v, frame, spot) then Outcome(d, v, true)
    else if !chosen then Outcome(d, View(frame, spot), true)
    else if w.accepted < |script| then Outcome(Broken(d, script, w), v, false)
    else Outcome(ApplyAll(d, script), View(frame, spot), true)
  }

  // ----- What a script does -----------------------------------------------------------------------

  lemma {:induction false} ApplyConcat(d: Display, a: seq<Command>, b: seq<Command>)
    ensures ApplyAll(d, a + b) == ApplyAll(ApplyAll(d, a), b)
  {
    if b == [] {
      assert a + b == a;
    } else {
      ApplyConcat(d, a, b[..|b| - 1]);
      assert (a + b)[..|a + b| - 1] == a + b[..|b| - 1];
    }
  }

  lemma ApplyOne(d: Display, c: Command)
    ensures ApplyAll(d, [c]) == Apply(d, c)
  {
    assert [c][..0] == [];
    assert ApplyAll(d, []) == d;
  }

  lemma {:induction false} ChangedApplied(d: Display, v: View, frame: seq<string>, n: nat)
    requires n <= |frame| == |d.rows|
    ensures var e := ApplyAll(d, Changed(v, frame, n));
            && e.cursor == d.cursor && |e.rows| == |d.rows|
            && forall i :: 0 <= i < |frame| ==> e.rows[i] == if i < n && !Same(v, frame, i) then frame[i] else d.rows[i]
  {
    if n > 0 {
      ChangedApplied(d, v, frame, n - 1);
      if !Same(v, frame, n - 1) {
        ApplyConcat(d, Changed(v, frame, n - 1), [Line(n - 1, frame[n - 1])]);
        ApplyOne(ApplyAll(d, Changed(v, frame, n - 1)), Line(n - 1, frame[n - 1]));
      }
    }
  }

  lemma {:induction false} NothingChanged(v: View, frame: seq<string>, n: nat)
    requires n <= |frame|
    ensures Changed(v, frame, n) == [] <==> forall i :: 0 <= i < n ==> Same(v, frame, i)
  {
    if n > 0 {
      NothingChanged(v, frame, n - 1);
    }
  }

  /** The whole script leaves the cursor where the frame has it, changed rows as the frame has them, and
      the others as they were. */
  lemma ScriptApplied(d: Display, v: View, frame: seq<string>, s: Spot)
    requires |frame| == |d.rows|
    ensures var e := ApplyAll(d, Script(v, frame, s));
            && e.cursor == CursorOf(s) && |e.rows| == |frame|
            && forall i :: 0 <= i < |frame| ==> e.rows[i] == if Same(v, frame, i) then d.rows[i] else frame[i]
  {
    var changed := Changed(v, frame, |frame|);
    var hidden := Apply(d, Hide);
    ApplyOne(d, Hide);
    ApplyConcat(d, [Hide], changed);
    ChangedApplied(hidden, v, frame, |frame|);
    if s.visible {
      ApplyConcat(d, [Hide] + changed, [Show(s.row, s.column)]);
      ApplyOne(ApplyAll(d, [Hide] + changed), Show(s.row, s.column));
    } else {
      assert [Hide] + changed + [] == [Hide] + changed;
    }
  }

  /** A script shows the frame exactly when every row it leaves out was showing it already. */
  lemma ScriptIsRedrawIff(d: Display, v: View, frame: seq<string>, s: Spot)
    requires |frame| == |d.rows|
    ensures ApplyAll(d, Script(v, frame, s)) == Redrawn(frame, s)
            <==> forall i :: 0 <= i < |frame| && Same(v, frame, i) ==> d.rows[i] == frame[i]
  {
    ScriptApplied(d, v, frame, s);
    var e := ApplyAll(d, Script(v, frame, s));
    if forall i :: 0 <= i < |frame| && Same(v, frame, i) ==> d.rows[i] == frame[i] {
      assert e.rows == frame;
    }
  }

  /** A draw that succeeds shows its frame and cursor in full if and only if what it did not send was there
      already: the rows it left out, or everything if it sent nothing. */
  lemma DrawIsRedrawIff(d: Display, v: View, frame: seq<string>, s: Spot, w: Write)
    requires |frame| == |d.rows| && DrawOn(d, true, v, frame, s, w).ok
    ensures DrawOn(d, true, v, frame, s, w).display == Redrawn(frame, s)
            <==> if Idle(v, frame, s) then d == Redrawn(frame, s)
                 else forall i :: 0 <= i < |frame| && Same(v, frame, i) ==> d.rows[i] == frame[i]
  {
    ScriptIsRedrawIff(d, v, frame, s);
  }

  /** Every draw that succeeds from a record is a full redraw, whatever the frame. */
  ghost predicate Reliable(d: Display, v: View) {
    forall frame: seq<string>, s: Spot, w: Write :: |frame| == |d.rows| && DrawOn(d, true, v, frame, s, w).ok
      ==> DrawOn(d, true, v, frame, s, w).display == Redrawn(frame, s)
  }

  /** The record is empty or of another height, or it is what the terminal shows. */
  predicate InStep(d: Display, v: View) {
    |v.last| != |d.rows| || d == Redrawn(v.last, v.spot)
  }

  /** A session's draws are full redraws if and only if its record is in step with the terminal. */
  lemma ReliableIff(d: Display, v: View)
    requires |d.rows| > 0
    ensures Reliable(d, v) <==> InStep(d, v)
  {
    if InStep(d, v) {
      forall frame: seq<string>, s: Spot, w: Write | |frame| == |d.rows| && DrawOn(d, true, v, frame, s, w).ok
        ensures DrawOn(d, true, v, frame, s, w).display == Redrawn(frame, s)
      {
        FaithfulDraw(d, v, frame, s, w);
      }
    } else {
      IdleWhenSame(v.last, v.spot);
      var w := Write(0, Tear("", Hidden));
      assert DrawOn(d, true, v, v.last, v.spot, w).display == d;
    }
  }

  /** A complete draw over what the session drew last, or from nothing, is a full redraw. */
  lemma FaithfulDraw(d: Display, v: View, frame: seq<string>, spot: Spot, w: Write)
    requires |frame| == |d.rows| > 0 && InStep(d, v)
    ensures var o := DrawOn(d, true, v, frame, spot, w);
            o.ok ==> o.display == Redrawn(frame, spot) && o.view == View(frame, spot)
  {
    NothingChanged(v, frame, |frame|);
    ScriptIsRedrawIff(d, v, frame, spot);
    if Idle(v, frame, spot) {
      assert Same(v, frame, 0);
      assert v.last == frame by {
        assert forall i :: 0 <= i < |frame| ==> Same(v, frame, i);
      }
    }
  }

  lemma IdleWhenSame(frame: seq<string>, spot: Spot)
    ensures Idle(View(frame, spot), frame, spot)
  {
    NothingChanged(View(frame, spot), frame, |frame|);
  }

  // ----- Sessions sharing the terminal ------------------------------------------------------------

  /** `trusted` says that no switch, and no failed write that changed something, came after the selected
      session's last complete draw from nothing. */
  datatype System = System(display: Display, selected: nat, views: map<nat, View>, trusted: bool)

  const FRESH := View([], Spot(0, 0, false))

  function ViewOf(s: System, id: nat): View {
    if id in s.views then s.views[id] else FRESH
  }

  function Draw(s: System, id: nat, frame: seq<string>, spot: Spot, w: Write): System {
    var v := ViewOf(s, id);
    var o := DrawOn(s.display, id == s.selected, v, frame, spot, w);
    s.(display := o.display, views := s.views[id := o.view],
       trusted := if id != s.selected then s.trusted
                  else if o.ok then s.trusted || v.last == [] else s.trusted && o.display == s.display)
  }

  /** The frame drawn last is forgotten. */
  function Reset(s: System, id: nat): System {
    s.(views := s.views[id := ViewOf(s, id).(last := [])], trusted := s.trusted && id != s.selected)
  }

  datatype Step =
    | Paint(id: nat, frame: seq<string>, spot: Spot, w: Write)
    | Choose(id: nat)
    | Restart(id: nat, frame: seq<string>, spot: Spot, w: Write)

  /** A switch is two steps: another session's step may fall between the choice and the restart. */
  function Take(s: System, a: Step): System {
    match a
    case Paint(id, frame, spot, w) => Draw(s, id, frame, spot, w)
    case Choose(id) => s.(selected := id, trusted := s.trusted && id == s.selected)
    case Restart(id, frame, spot, w) => Draw(Reset(s, id), id, frame, spot, w)
  }

  /** All frames have the terminal's height. */
  predicate Fits(a: Step, height: nat) {
    a.Choose? || |a.frame| == height
  }

  function Run(start: Display, steps: seq<Step>): System {
    if steps == [] then System(start, 0, map[], false) else Take(Run(start, steps[..|steps| - 1]), steps[|steps| - 1])
  }

  predicate Inv(s: System, height: nat) {
    && |s.display.rows| == height
    && (forall id :: id in s.views ==> |s.views[id].last| == 0 || |s.views[id].last| == height)
    && (s.trusted ==> s.display == Redrawn(ViewOf(s, s.selected).last, ViewOf(s, s.selected).spot))
  }

  // ----- Every run --------------------------------------------------------------------------------

  lemma {:induction false} HeightKept(d: Display, cs: seq<Command>)
    ensures |ApplyAll(d, cs).rows| == |d.rows|
  {
    if cs != [] {
      HeightKept(d, cs[..|cs| - 1]);
    }
  }

  lemma DrawKeeps(s: System, height: nat, id: nat, frame: seq<string>, spot: Spot, w: Write)
    requires Inv(s, height) && |frame| == height > 0
    ensures Inv(Draw(s, id, frame, spot, w), height)
  {
    var v := ViewOf(s, id);
    if id == s.selected && (s.trusted || v.last == []) {
      FaithfulDraw(s.display, v, frame, spot, w);
    }
    var script := Script(v, frame, spot);
    HeightKept(s.display, script);
    if w.accepted < |script| {
      HeightKept(s.display, script[..w.accepted]);
    }
  }

  lemma {:induction false} RunKeeps(height: nat, start: Display, steps: seq<Step>)
    requires height == |start.rows| > 0 && forall i :: 0 <= i < |steps| ==> Fits(steps[i], height)
    ensures Inv(Run(start, steps), height)
  {
    if steps != [] {
      RunKeeps(height, start, steps[..|steps| - 1]);
      var s := Run(start, steps[..|steps| - 1]);
      match steps[|steps| - 1]
      case Paint(id, frame, spot, w) => DrawKeeps(s, height, id, frame, spot, w);
      case Choose(id) =>
      case Restart(id, frame, spot, w) => DrawKeeps(Reset(s, id), height, id, frame, spot, w);
    }
  }

  // ----- Trust by history -------------------------------------------------------------------------

  /** A complete draw of the selected session from nothing. */
  predicate FullDraw(s: System, a: Step) {
    match a
    case Paint(id, frame, spot, w) => id == s.selected && ViewOf(s, id).last == [] && DrawOn(s.display, true, ViewOf(s, id), frame, spot, w).ok
    case Choose(_) => false
    case Restart(id, frame, spot, w) => id == s.selected && DrawOn(s.display, true, ViewOf(s, id).(last := []), frame, spot, w).ok
  }

  /** Neither a switch to another session, nor a failed write that changed something. */
  predicate Harmless(s: System, a: Step) {
    match a
    case Paint(id, frame, spot, w) =>
      var o := DrawOn(s.display, true, ViewOf(s, id), frame, spot, w);
      id == s.selected ==> o.ok || o.display == s.display
    case Choose(id) => id == s.selected
    case Restart(id, _, _, _) => id != s.selected
  }

  lemma TakeTrusts(s: System, a: Step)
    ensures Take(s, a).trusted <==> FullDraw(s, a) || (s.trusted && Harmless(s, a))
  {
  }

  /** Nothing but harmless steps since the selected session's complete draw from nothing at step `i`. */
  predicate Since(start: Display, steps: seq<Step>, i: nat)
    requires i < |steps|
  {
    var n := |steps| - 1;
    if i == n then FullDraw(Run(start, steps[..n]), steps[n])
    else Since(start, steps[..n], i) && Harmless(Run(start, steps[..n]), steps[n])
  }

  /** The history holds a complete draw from nothing with nothing but harmless steps since. */
  ghost predicate Undisturbed(start: Display, steps: seq<Step>) {
    exists i :: 0 <= i < |steps| && SinceAt(start, steps, i)
  }

  predicate SinceAt(start: Display, steps: seq<Step>, i: int) {
    0 <= i < |steps| && Since(start, steps, i)
  }

  lemma {:induction false} SinceTrusts(start: Display, steps: seq<Step>, i: nat)
    requires i < |steps| && Since(start, steps, i)
    ensures Run(start, steps).trusted
  {
    var n := |steps| - 1;
    TakeTrusts(Run(start, steps[..n]), steps[n]);
    if i < n {
      SinceTrusts(start, steps[..n], i);
    }
  }

  lemma {:induction false} TrustedSince(start: Display, steps: seq<Step>) returns (i: nat)
    requires Run(start, steps).trusted
    ensures i < |steps| && Since(start, steps, i)
  {
    var n := |steps| - 1;
    TakeTrusts(Run(start, steps[..n]), steps[n]);
    if FullDraw(Run(start, steps[..n]), steps[n]) {
      i := n;
    } else {
      i := TrustedSince(start, steps[..n]);
    }
  }

  /** The selected session is trusted if and only if the history says so. */
  lemma TrustedIff(start: Display, steps: seq<Step>)
    ensures Run(start, steps).trusted <==> Undisturbed(start, steps)
  {
    if Run(start, steps).trusted {
      var i := TrustedSince(start, steps);
      assert SinceAt(start, steps, i);
    }
    if Undisturbed(start, steps) {
      var i :| 0 <= i < |steps| && SinceAt(start, steps, i);
      SinceTrusts(start, steps, i);
    }
  }

  /** After any run with neither a switch nor a failed write that changed something since the selected session's
      last complete draw from nothing, all its draws are full redraws; and so is the end of every switch to a session that is still
      selected then. */
  lemma SelectedIsShown(height: nat, start: Display, steps: seq<Step>, frame: seq<string>, spot: Spot, w: Write)
    requires height == |start.rows| > 0 && (forall i :: 0 <= i < |steps| ==> Fits(steps[i], height)) && |frame| == height
    ensures var s := Run(start, steps);
            var v := ViewOf(s, s.selected);
            && (Undisturbed(start, steps) ==> Reliable(s.display, v))
            && (w.accepted >= |Script(v.(last := []), frame, spot)|
                ==> Take(s, Restart(s.selected, frame, spot, w)).display == Redrawn(frame, spot)
                    && Undisturbed(start, steps + [Restart(s.selected, frame, spot, w)]))
  {
    RunKeeps(height, start, steps);
    TrustedIff(start, steps);
    var s := Run(start, steps);
    var v := ViewOf(s, s.selected);
    if s.trusted {
      ReliableIff(s.display, v);
    }
    if w.accepted >= |Script(v.(last := []), frame, spot)| {
      FaithfulDraw(s.display, v.(last := []), frame, spot, w);
      RestartTrusts(start, steps, frame, spot, w);
    }
  }

  lemma RestartTrusts(start: Display, steps: seq<Step>, frame: seq<string>, spot: Spot, w: Write)
    requires var s := Run(start, steps); w.accepted >= |Script(ViewOf(s, s.selected).(last := []), frame, spot)|
    ensures Undisturbed(start, steps + [Restart(Run(start, steps).selected, frame, spot, w)])
  {
    var s := Run(start, steps);
    var more := steps + [Restart(s.selected, frame, spot, w)];
    assert more[..|steps|] == steps;
    TakeTrusts(s, more[|steps|]);
    TrustedIff(start, more);
  }

  /** When a trusted session is left for another, the other's draws are full redraws, before its restart, if
      and only if it has no record or its record is the same as that of the session it replaces. */
  lemma ChoiceIsReliableIff(s: System, height: nat, id: nat)
    requires Inv(s, height) && height > 0 && s.trusted
    ensures var v, shown := ViewOf(s, id), ViewOf(s, s.selected);
            Reliable(Take(s, Choose(id)).display, v) <==> v.last == [] || (v.last == shown.last && CursorOf(v.spot) == CursorOf(shown.spot))
  {
    ReliableIff(s.display, ViewOf(s, id));
  }

  /** After a write of a trusted session failed, its draws are full redraws if and only if what got through
      changed nothing. */
  lemma FailureIsReliableIff(s: System, height: nat, frame: seq<string>, spot: Spot, w: Write)
    requires Inv(s, height) && |frame| == height > 0 && s.trusted && !DrawOn(s.display, true, ViewOf(s, s.selected), frame, spot, w).ok
    ensures var failed := Draw(s, s.selected, frame, spot, w);
            Reliable(failed.display, ViewOf(failed, s.selected)) <==> failed.display == s.display
  {
    var failed := Draw(s, s.selected, frame, spot, w);
    DrawKeeps(s, height, s.selected, frame, spot, w);
    ReliableIff(failed.display, ViewOf(failed, s.selected));
  }

  /** What other sessions draw never reaches the terminal. */
  lemma OthersAreDiscarded(s: System, id: nat, frame: seq<string>, spot: Spot, w: Write)
    requires id != s.selected
    ensures Draw(s, id, frame, spot, w).display == s.display && Draw(s, id, frame, spot, w).trusted == s.trusted
    ensures ViewOf(Draw(s, id, frame, spot, w), s.selected) == ViewOf(s, s.selected)
  {
  }

  // ----- Where a draw is not a redraw -------------------------------------------------------------

  const HOME := Spot(0, 0, true)
  const WHOLE := Write(9, Tear("", Hidden))

  /** Between the choice of a session and its restart, a draw compares with a frame that was discarded:
      here it sends nothing, succeeds, and leaves the other session's rows. */
  lemma StaleBetweenChoiceAndRestart(id: nat, frame: seq<string>, other: seq<string>)
    requires id != 0 && frame != other
    ensures var drawn := Draw(System(Display(other, Hidden), 0, map[], false), id, frame, HOME, WHOLE);
            var chosen := Take(drawn, Choose(id));
            && DrawOn(chosen.display, true, ViewOf(chosen, id), frame, HOME, WHOLE).ok
            && Draw(chosen, id, frame, HOME, WHOLE).display.rows == other != frame
  {
    IdleWhenSame(frame, HOME);
  }

  /** A write that failed after some rows is forgotten: the next draw may take them for unchanged. */
  lemma StaleAfterFailedWrite(s: System, before: string, after: string)
    requires before != after && s.display == Redrawn([before], HOME) && ViewOf(s, s.selected) == View([before], HOME)
    ensures var failed := Draw(s, s.selected, [after], HOME, Write(2, Tear("", Hidden)));
            && DrawOn(failed.display, true, ViewOf(failed, s.selected), [before], HOME, WHOLE).ok
            && Draw(failed, s.selected, [before], HOME, WHOLE).display.rows == [after] != [before]
  {
    var v := View([before], HOME);
    var script := Script(v, [after], HOME);
    assert Changed(v, [after], 0) == [];
    assert Changed(v, [after], 1) == [Line(0, after)];
    assert script == [Hide, Line(0, after), Show(0, 0)];
    assert script[..2] == [Hide] + [Line(0, after)];
    ApplyConcat(s.display, [Hide], [Line(0, after)]);
    ApplyOne(s.display, Hide);
    ApplyOne(Apply(s.display, Hide), Line(0, after));
    IdleWhenSame([before], HOME);
  }

  // ----- In place ---------------------------------------------------------------------------------

  class Terminal {
    var display: Display
    var selected: nat

    constructor (display: Display)
      ensures this.display == display && selected == 0
    {
      this.display, selected := display, 0;
    }

    /** A write of the selected session takes effect up to where it fails; any other is discarded. */
    method Send(id: nat, commands: seq<Command>, w: Write) returns (ok: bool)
      modifies this`display
      ensures ok <==> id != selected || w.accepted >= |commands|
      ensures display == if id != selected then old(display) else if ok then ApplyAll(old(display), commands) else Broken(old(display), commands, w)
    {
      if selected != id {
        return true;
      }
      ghost var start := display;
      var k := 0;
      while k < |commands|
        invariant 0 <= k <= |commands| && k <= w.accepted && selected == old(selected)
        invariant display == ApplyAll(start, commands[..k])
      {
        if k == w.accepted {
          display := Torn(display, commands[k], w.tear);
          return false;
        }
        assert commands[..k + 1][..k] == commands[..k];
        display := Apply(display, commands[k]);
        k := k + 1;
      }
      assert commands[..k] == commands;
      return true;
    }
  }

  class ChatView {
    const id: nat
    var last: seq<string>
    var spot: Spot

    constructor (id: nat)
      ensures this.id == id && View(last, spot) == FRESH
    {
      this.id, last, spot := id, [], Spot(0, 0, false);
    }

    /** Sends the rows that differ from the frame drawn last. */
    method DrawFrame(terminal: Terminal, frame: seq<string>, at: Spot, w: Write) returns (ok: bool)
      modifies this, terminal`display
      ensures Outcome(terminal.display, View(last, spot), ok)
              == DrawOn(old(terminal.display), id == terminal.selected, old(View(last, spot)), frame, at, w)
    {
      ghost var v := View(last, spot);
      var lines: seq<Command> := [];
      for i := 0 to |frame|
        invariant lines == Changed(v, frame, i) && last == v.last
      {
        if |last| != |frame| || last[i] != frame[i] {
          lines := lines + [Line(i, frame[i])];
        }
      }
      if lines == [] && at == spot {
        return true;
      }
      var output := [Hide] + lines;
      if at.visible {
        output := output + [Show(at.row, at.column)];
      } else {
        assert output + [] == output;
      }
      ok := terminal.Send(id, output, w);
      if ok {
        last, spot := frame, at;
      }
    }

    /** The switch to this session: it is selected, and drawn from nothing. */
    method SelectConsole(terminal: Terminal, frame: seq<string>, at: Spot, w: Write) returns (ok: bool)
      requires |frame| == |terminal.display.rows| > 0
      modifies this, terminal
      ensures terminal.selected == id && (ok ==> terminal.display == Redrawn(frame, at) && View(last, spot) == View(frame, at))
    {
      terminal.selected := id;
      last := [];
      FaithfulDraw(terminal.display, View(last, spot), frame, at, w);
      ok := DrawFrame(terminal, frame, at, w);
    }
  }
}
