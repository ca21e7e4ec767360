/** Sliding snapshot windows over an append-only history.

    The server keeps a history that only grows; a snapshot shows its last `window` entries and says
    whether older ones were cut off. The client knows the entries of the last snapshot, refuses one that
    does not overlap them, and shows the entries it has not seen.
 */
module Windows {
  type Entry = string

  // ----- Continuity -------------------------------------------------------------------------------

  /** A full snapshot must hold everything known; a truncated one must overlap it. */
  predicate Continuous<K>(known: set<K>, current: set<K>, truncated: bool) {
    known == {} || if truncated then known * current != {} else known <= current
  }

  method RequireHistoryContinuity<K, V>(known: map<K, V>, current: set<K>, truncated: bool) returns (ok: bool)
    ensures ok <==> Continuous(known.Keys, current, truncated)
  {
    if |known| == 0 {
      return true;
    }
    var overlap := false;
    var rest := known.Keys;
    while rest != {}
      invariant rest <= known.Keys
      invariant overlap <==> (known.Keys - rest) * current != {}
      invariant !truncated ==> known.Keys - rest <= current
      decreases rest
    {
      var key :| key in rest;
      ghost var seen := known.Keys - rest;
      assert known.Keys - (rest - {key}) == seen + {key};
      if key in current {
        assert key in (seen + {key}) * current;
        overlap := true;
      } else {
        assert (seen + {key}) * current == seen * current;
        if !truncated {
          return false;
        }
      }
      rest := rest - {key};
    }
    assert known.Keys - rest == known.Keys;
    return !truncated || overlap;
  }

  // ----- Reading a window -------------------------------------------------------------------------

  /** Where a window over `n` entries begins. */
  function Start(n: nat, window: nat): nat {
    if n > window then n - window else 0
  }

  /** Entries `from` to `upto` of the history. */
  function Slice(log: seq<Entry>, from: nat, upto: nat): map<nat, Entry>
    requires upto <= |log|
  {
    map k: nat | from <= k < upto :: log[k]
  }

  /** The snapshot of a history: its last entries. */
  function Window(log: seq<Entry>, window: nat): map<nat, Entry> {
    Slice(log, Start(|log|, window), |log|)
  }

  function Span(from: nat, upto: nat): seq<nat>
    decreases upto
  {
    if upto <= from then [] else Span(from, upto - 1) + [upto - 1]
  }

  /** What a reading of entries one by one leaves: what is known, what was new, and whether one changed. */
  datatype Reading = Reading(known: map<nat, Entry>, fresher: seq<nat>, changed: bool)

  function ReadEntries(known: map<nat, Entry>, log: seq<Entry>, from: nat, upto: nat): Reading
    requires from <= upto <= |log|
    decreases upto
  {
    if from == upto then Reading(known, [], false)
    else
      var r := ReadEntries(known, log, from, upto - 1);
      var k := upto - 1;
      if r.changed then r
      else if k in known && known[k] != log[k] then r.(changed := true)
      else Reading(r.known[k := log[k]], if k in known then r.fresher else r.fresher + [k], false)
  }

  /** How far the display of the new entries gets, and whether the rest of the reconciliation succeeds. */
  datatype Display = Display(rendered: nat, reconciled: bool)

  datatype View = View(known: map<nat, Entry>, shown: seq<nat>)

  function Look(v: View, log: seq<Entry>, window: nat, d: Display): View {
    var from := Start(|log|, window);
    if !Continuous(v.known.Keys, Window(log, window).Keys, |log| > window) then v
    else
      var r := ReadEntries(v.known, log, from, |log|);
      if r.changed then v.(known := r.known)
      else if d.rendered < |r.fresher| then View(r.known, v.shown + r.fresher[..d.rendered])
      else View(if d.reconciled then Window(log, window) else r.known, v.shown + r.fresher)
  }

  // ----- Runs -------------------------------------------------------------------------------------

  /** `from` to `upto` is what the client knows; `lost` counts the entries before `upto` never shown. */
  datatype World = World(log: seq<Entry>, view: View, from: nat, upto: nat, lost: int)

  datatype Step = Append(entry: Entry) | Refresh(display: Display)

  predicate Refused(w: World, window: nat) {
    !Continuous(w.view.known.Keys, Window(w.log, window).Keys, |w.log| > window)
  }

  /** The first entry that a refresh finds new. */
  function FirstNew(w: World, window: nat): nat {
    if w.view.known == map[] then Start(|w.log|, window) else w.upto
  }

  /** The entries a refresh passes over: those before the first window, and those the display fails on. */
  function Skipped(w: World, window: nat, d: Display): int {
    FirstNew(w, window) - w.upto + (if d.rendered < |w.log| - FirstNew(w, window) then |w.log| - FirstNew(w, window) - d.rendered else 0)
  }

  function Take(w: World, window: nat, s: Step): World {
    match s
    case Append(e) => w.(log := w.log + [e])
    case Refresh(d) =>
      if Refused(w, window) then w
      else
        var n := |w.log|;
        var adopted := d.reconciled && d.rendered >= n - FirstNew(w, window);
        var from := if adopted || w.view.known == map[] then Start(n, window) else w.from;
        var skipped := Skipped(w, window, d);
        World(w.log, Look(w.view, w.log, window, d), from, n, w.lost + skipped)
  }

  const EMPTY := World([], View(map[], []), 0, 0, 0)

  function Run(window: nat, steps: seq<Step>): World {
    if steps == [] then EMPTY else Take(Run(window, steps[..|steps| - 1]), window, steps[|steps| - 1])
  }

  predicate Increasing(s: seq<nat>) {
    forall i, j :: 0 <= i < j < |s| ==> s[i] < s[j]
  }

  predicate Below(s: seq<nat>, n: nat) {
    forall i :: 0 <= i < |s| ==> s[i] < n
  }

  predicate Inv(w: World, window: nat) {
    && w.from <= w.upto <= |w.log| && w.from <= Start(|w.log|, window)
    && w.view.known == Slice(w.log, w.from, w.upto)
    && (w.upto > 0 ==> w.from < w.upto)
    && Increasing(w.view.shown) && Below(w.view.shown, w.upto)
    && |w.view.shown| + w.lost == w.upto && w.lost >= 0
  }

  // ----- Reading ----------------------------------------------------------------------------------

  /** The history agrees with what is known of it. */
  predicate Agrees(known: map<nat, Entry>, log: seq<Entry>) {
    forall k :: k in known ==> k < |log| && known[k] == log[k]
  }

  /** Reading entries of a history that never changes finds no change and learns them all. */
  lemma {:induction false} ReadsAll(known: map<nat, Entry>, log: seq<Entry>, from: nat, upto: nat)
    requires from <= upto <= |log| && Agrees(known, log)
    ensures var r := ReadEntries(known, log, from, upto);
            && !r.changed && Agrees(r.known, log)
            && (forall k :: k in r.known <==> k in known || from <= k < upto)
    decreases upto
  {
    if from < upto {
      ReadsAll(known, log, from, upto - 1);
    }
  }

  /** What is new of the entries read starts at `first`, if what is known ends there. */
  lemma {:induction false} ReadsNew(known: map<nat, Entry>, log: seq<Entry>, from: nat, upto: nat, first: nat)
    requires from <= upto <= |log| && Agrees(known, log) && from <= first
    requires forall k :: from <= k < |log| ==> (k in known <==> k < first)
    ensures ReadEntries(known, log, from, upto).fresher == Span(first, upto)
    decreases upto
  {
    if from < upto {
      ReadsNew(known, log, from, upto - 1, first);
      ReadsAll(known, log, from, upto - 1);
    }
  }

  lemma {:induction false} SpanAt(from: nat, upto: nat, i: nat)
    requires from <= upto
    ensures |Span(from, upto)| == upto - from && (i < upto - from ==> Span(from, upto)[i] == from + i)
    decreases upto
  {
    if from < upto {
      SpanAt(from, upto - 1, i);
    }
  }

  // ----- Steps ------------------------------------------------------------------------------------

  /** A refresh is refused exactly when the window has moved wholly past what is known. */
  lemma RefusedIff(w: World, window: nat)
    requires Inv(w, window) && window > 0
    ensures Refused(w, window) <==> w.upto > 0 && |w.log| >= w.upto + window
  {
    var known := w.view.known.Keys;
    var current := Window(w.log, window).Keys;
    if w.upto > 0 {
      assert w.upto - 1 in known;
      if |w.log| > window {
        if w.upto - 1 >= Start(|w.log|, window) {
          assert w.upto - 1 in known * current;
        } else {
          assert known * current == {};
        }
      }
    } else {
      assert known == {};
    }
  }

  /** Showing the entries of a span after those below it keeps them in order, and below its end. */
  lemma ShowsInOrder(shown: seq<nat>, upto: nat, first: nat, n: nat, count: nat)
    requires Increasing(shown) && Below(shown, upto) && upto <= first <= n && count <= n - first
    ensures |Span(first, n)| == n - first
    ensures Increasing(shown + Span(first, n)[..count]) && Below(shown + Span(first, n)[..count], n)
  {
    SpanAt(first, n, 0);
    forall i: nat | i < n - first
      ensures Span(first, n)[i] == first + i
    {
      SpanAt(first, n, i);
    }
  }

  lemma NothingKnown(w: World, window: nat)
    requires Inv(w, window)
    ensures w.view.known == map[] <==> w.upto == 0
  {
    if w.upto > 0 {
      assert w.from in w.view.known;
    }
  }

  /** What a refresh that is not refused reads. */
  lemma RefreshReads(w: World, window: nat)
    requires Inv(w, window) && window > 0 && !Refused(w, window)
    ensures var from := Start(|w.log|, window);
            var r := ReadEntries(w.view.known, w.log, from, |w.log|);
            && w.upto <= FirstNew(w, window) <= |w.log|
            && !r.changed && r.fresher == Span(FirstNew(w, window), |w.log|)
            && r.known == Slice(w.log, if w.view.known == map[] then from else w.from, |w.log|)
  {
    RefusedIff(w, window);
    var from := Start(|w.log|, window);
    ReadsAll(w.view.known, w.log, from, |w.log|);
    NothingKnown(w, window);
    ReadsNew(w.view.known, w.log, from, |w.log|, FirstNew(w, window));
  }

  lemma RefreshKeeps(w: World, window: nat, d: Display)
    requires Inv(w, window) && window > 0
    ensures Inv(Take(w, window, Refresh(d)), window)
    ensures !Refused(w, window) ==> Skipped(w, window, d) >= 0
  {
    if !Refused(w, window) {
      RefreshReads(w, window);
      var first, n := FirstNew(w, window), |w.log|;
      SpanAt(first, n, 0);
      var count := if d.rendered < n - first then d.rendered else n - first;
      ShowsInOrder(w.view.shown, w.upto, first, n, count);
      assert Span(first, n)[..n - first] == Span(first, n);
    }
  }

  lemma AppendKeeps(w: World, window: nat, e: Entry)
    requires Inv(w, window)
    ensures Inv(Take(w, window, Append(e)), window)
  {
  }

  lemma {:induction false} RunKeeps(window: nat, steps: seq<Step>)
    requires window > 0
    ensures Inv(Run(window, steps), window)
  {
    if steps != [] {
      RunKeeps(window, steps[..|steps| - 1]);
      var w := Run(window, steps[..|steps| - 1]);
      match steps[|steps| - 1]
      case Append(e) => AppendKeeps(w, window, e);
      case Refresh(d) => RefreshKeeps(w, window, d);
    }
  }

  // ----- Theorems ---------------------------------------------------------------------------------

  /** As many increasing numbers below `n` as there are are all of them. */
  lemma {:induction false} AllBelow(s: seq<nat>, n: nat)
    requires Increasing(s) && Below(s, n)
    ensures |s| <= n && (|s| == n <==> s == Span(0, n))
  {
    SpanAt(0, n, 0);
    if |s| > 0 {
      var last := |s| - 1;
      AllBelow(s[..last], s[last]);
      if n > 0 && |s| == n {
        assert s == s[..last] + [s[last]];
      }
    }
  }

  /** In every run each entry is shown at most once and in order, and the entries up to the last refresh
      are all shown if and only if none was passed over. */
  lemma ShownOnceAndAllUnlessSkipped(window: nat, steps: seq<Step>)
    requires window > 0
    ensures var w := Run(window, steps);
            && Increasing(w.view.shown) && Below(w.view.shown, w.upto)
            && |w.view.shown| + w.lost == w.upto
            && (w.view.shown == Span(0, w.upto) <==> w.lost == 0)
  {
    RunKeeps(window, steps);
    var w := Run(window, steps);
    AllBelow(w.view.shown, w.upto);
    SpanAt(0, w.upto, 0);
  }

  /** A refresh passes entries over only if nothing was known and the history was already longer than the
      window, or if the display failed before the last new entry. */
  lemma SkipsIff(w: World, window: nat, d: Display)
    requires Inv(w, window) && window > 0 && !Refused(w, window)
    ensures Take(w, window, Refresh(d)).lost != w.lost
            <==> (w.view.known == map[] && |w.log| > window) || d.rendered < |w.log| - FirstNew(w, window)
  {
    RefreshReads(w, window);
    NothingKnown(w, window);
  }

  /** Nothing known: a history longer than the window is entered at the window, without a refusal. */
  lemma EmptyKnownSkips(w: World, window: nat, d: Display)
    requires Inv(w, window) && window > 0 && w.view.known == map[] && |w.log| > window && d.rendered >= window
    ensures !Refused(w, window)
    ensures var after := Take(w, window, Refresh(d));
            after.lost == w.lost + |w.log| - window && after.view.shown == w.view.shown + Span(|w.log| - window, |w.log|)
  {
    NothingKnown(w, window);
    RefusedIff(w, window);
    RefreshReads(w, window);
    SpanAt(FirstNew(w, window), |w.log|, 0);
  }

  /** And that does happen, in a run. */
  lemma EmptyKnownHappens()
    ensures var w := Run(1, [Append("a"), Append("b")]); w.view.known == map[] && |w.log| > 1 && Inv(w, 1)
  {
    var steps := [Append("a"), Append("b")];
    assert steps[..1] == [Append("a")];
    assert steps[..1][..0] == [];
    RunKeeps(1, steps);
  }

  /** So does a display that fails: what it failed on is known afterwards, and not shown by later refreshes. */
  lemma FailedDisplaySkips(d: Display)
    ensures var steps := [Append("a"), Refresh(Display(0, false)), Refresh(d)];
            var w := Run(1, steps);
            w.upto == |w.log| == 1 && w.lost == 1 && w.view.shown == []
  {
    var one := [Append("a")];
    var two := one + [Refresh(Display(0, false))];
    var w := Run(1, two);
    OneEntry();
    RunMore(1, one, Refresh(Display(0, false)));
    RunMore(1, two, Refresh(d));
    assert two + [Refresh(d)] == [Append("a"), Refresh(Display(0, false)), Refresh(d)];
    RunKeeps(1, one);
    RunKeeps(1, two);
    FailedDisplay(Run(1, one), w);
    NothingNew(w, 1, d);
  }

  lemma RunMore(window: nat, steps: seq<Step>, step: Step)
    ensures Run(window, steps + [step]) == Take(Run(window, steps), window, step)
  {
    assert (steps + [step])[..|steps|] == steps;
  }

  lemma OneEntry()
    ensures Run(1, [Append("a")]) == World(["a"], View(map[], []), 0, 0, 0)
  {
    RunMore(1, [], Append("a"));
    assert [] + [Append("a")] == [Append("a")];
  }

  lemma FailedDisplay(one: World, two: World)
    requires Inv(one, 1) && one == World(["a"], View(map[], []), 0, 0, 0) && two == Take(one, 1, Refresh(Display(0, false)))
    ensures two.log == one.log && two.upto == 1 && two.lost == 1 && two.view.shown == []
  {
    RefusedIff(one, 1);
    RefreshReads(one, 1);
    SpanAt(0, 1, 0);
  }

  /** A refresh that finds nothing new shows nothing and passes nothing over. */
  lemma NothingNew(w: World, window: nat, d: Display)
    requires Inv(w, window) && window > 0 && w.upto == |w.log| > 0
    ensures var after := Take(w, window, Refresh(d)); after.log == w.log && after.upto == w.upto && after.lost == w.lost && after.view.shown == w.view.shown
  {
    RefusedIff(w, window);
    NothingKnown(w, window);
    RefreshReads(w, window);
    SpanAt(|w.log|, |w.log|, 0);
  }

  /** Once the window has moved past what is known, no later refresh is ever accepted. */
  lemma {:induction false} RefusedForever(window: nat, w: World, steps: seq<Step>)
    requires window > 0 && Inv(w, window) && Refused(w, window)
    ensures var after := From(w, window, steps); Inv(after, window) && Refused(after, window) && after.view == w.view
  {
    if steps != [] {
      RefusedForever(window, w, steps[..|steps| - 1]);
      var before := From(w, window, steps[..|steps| - 1]);
      RefusedIff(before, window);
      match steps[|steps| - 1]
      case Append(e) =>
        AppendKeeps(before, window, e);
        RefusedIff(Take(before, window, Append(e)), window);
      case Refresh(_) =>
    }
  }

  function From(w: World, window: nat, steps: seq<Step>): World {
    if steps == [] then w else Take(From(w, window, steps[..|steps| - 1]), window, steps[|steps| - 1])
  }

  /** After a refresh that ends well the client holds no more than a window of entries. */
  lemma KnownIsBounded(w: World, window: nat, d: Display)
    requires Inv(w, window) && window > 0 && !Refused(w, window) && d.reconciled && d.rendered >= |w.log| - FirstNew(w, window)
    ensures var after := Take(w, window, Refresh(d));
            after.view.known == Window(w.log, window) && |after.view.known.Keys| <= window
  {
    RefreshReads(w, window);
    SpanAt(FirstNew(w, window), |w.log|, 0);
    SpanSize(w.log, Start(|w.log|, window), |w.log|);
  }

  lemma {:induction false} SpanSize(log: seq<Entry>, from: nat, upto: nat)
    requires from <= upto <= |log|
    ensures |Slice(log, from, upto).Keys| == upto - from
    decreases upto
  {
    if from < upto {
      SpanSize(log, from, upto - 1);
      assert Slice(log, from, upto).Keys == Slice(log, from, upto - 1).Keys + {upto - 1};
    } else {
      assert Slice(log, from, upto).Keys == {};
    }
  }

  // ----- In place ---------------------------------------------------------------------------------

  /** The client's part of one history: it merges the entries as it reads them, shows the new ones, and
      keeps only the snapshot once all went well. */
  class History {
    var known: map<nat, Entry>
    var shown: seq<nat>

    ghost function Value(): View
      reads this
    {
      View(known, shown)
    }

    constructor ()
      ensures Value() == View(map[], [])
    {
      known, shown := map[], [];
    }

    /** Reads entries from `from` on until one turns out changed. */
    method ReadAll(log: seq<Entry>, from: nat) returns (found: seq<nat>, changed: bool)
      requires from <= |log|
      modifies this`known
      ensures Reading(known, found, changed) == ReadEntries(old(known), log, from, |log|)
    {
      found := [];
      var k := from;
      while k < |log|
        invariant from <= k <= |log|
        invariant Reading(known, found, false) == ReadEntries(old(known), log, from, k)
        invariant forall i :: k <= i < |log| ==> (i in known <==> i in old(known))
        invariant forall i :: k <= i < |log| && i in known ==> known[i] == old(known)[i]
      {
        if k in known && known[k] != log[k] {
          ChangedStays(old(known), log, from, k + 1, |log|);
          return found, true;
        }
        if k !in known {
          found := found + [k];
        }
        known := known[k := log[k]];
        k := k + 1;
      }
      changed := false;
    }

    /** Shows entries until the display fails. */
    method ShowAll(found: seq<nat>, rendered: nat) returns (ok: bool)
      modifies this`shown
      ensures ok <==> rendered >= |found|
      ensures shown == old(shown) + (if ok then found else found[..rendered])
    {
      var k := 0;
      while k < |found|
        invariant 0 <= k <= |found| && k <= rendered
        invariant shown == old(shown) + found[..k]
      {
        if k == rendered {
          return false;
        }
        shown := shown + [found[k]];
        k := k + 1;
      }
      assert found[..|found|] == found;
      return true;
    }

    method Reconcile(log: seq<Entry>, window: nat, display: Display) returns (ok: bool)
      modifies this
      ensures Value() == Look(old(Value()), log, window, display)
    {
      var snapshot := Window(log, window);
      ok := RequireHistoryContinuity(known, snapshot.Keys, |log| > window);
      if !ok {
        return;
      }
      var found, changed := ReadAll(log, Start(|log|, window));
      if changed {
        return false;
      }
      ok := ShowAll(found, display.rendered);
      if ok {
        ok := display.reconciled;
        if ok {
          known := snapshot;
        }
      }
    }
  }

  lemma {:induction false} ChangedStays(known: map<nat, Entry>, log: seq<Entry>, from: nat, at: nat, upto: nat)
    requires from <= at <= upto <= |log| && ReadEntries(known, log, from, at).changed
    ensures ReadEntries(known, log, from, upto) == ReadEntries(known, log, from, at)
    decreases upto
  {
    if at < upto {
      ChangedStays(known, log, from, at, upto - 1);
    }
  }
}
