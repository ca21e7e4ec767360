/** The session's three histories, messages, turns and controls, refreshed together: a snapshot is refused
    for all of them if one does not overlap, and adopted for all of them only if everything was shown.
 */
module Histories {
  import opened Windows

  datatype Kind = Messages | Turns | Controls

  datatype Sizes = Sizes(messages: nat, turns: nat, controls: nat)

  datatype Worlds = Worlds(messages: World, turns: World, controls: World)

  /** How far the display of each history's new entries gets, and whether the rest succeeds. */
  datatype Outcome = Outcome(messages: nat, turns: nat, controls: nat, reconciled: bool)

  datatype Event = Grow(kind: Kind, entry: Entry) | RefreshAll(outcome: Outcome)

  predicate Positive(z: Sizes) {
    z.messages > 0 && z.turns > 0 && z.controls > 0
  }

  predicate AnyRefused(w: Worlds, z: Sizes) {
    Refused(w.messages, z.messages) || Refused(w.turns, z.turns) || Refused(w.controls, z.controls)
  }

  predicate Shows(w: World, window: nat, rendered: nat) {
    rendered >= |w.log| - FirstNew(w, window)
  }

  predicate ShowsAll(w: Worlds, z: Sizes, d: Outcome) {
    Shows(w.messages, z.messages, d.messages) && Shows(w.turns, z.turns, d.turns) && Shows(w.controls, z.controls, d.controls)
  }

  function Accepted(w: Worlds, z: Sizes, d: Outcome): Worlds {
    var adopted := d.reconciled && ShowsAll(w, z, d);
    Worlds(Take(w.messages, z.messages, Refresh(Display(d.messages, adopted))),
           Take(w.turns, z.turns, Refresh(Display(d.turns, adopted))),
           Take(w.controls, z.controls, Refresh(Display(d.controls, adopted))))
  }

  function Happen(w: Worlds, z: Sizes, e: Event): Worlds {
    match e
    case Grow(Messages, entry) => w.(messages := Take(w.messages, z.messages, Append(entry)))
    case Grow(Turns, entry) => w.(turns := Take(w.turns, z.turns, Append(entry)))
    case Grow(Controls, entry) => w.(controls := Take(w.controls, z.controls, Append(entry)))
    case RefreshAll(d) => if AnyRefused(w, z) then w else Accepted(w, z, d)
  }

  function Course(w: Worlds, z: Sizes, events: seq<Event>): Worlds {
    if events == [] then w else Happen(Course(w, z, events[..|events| - 1]), z, events[|events| - 1])
  }

  const NOTHING := Worlds(EMPTY, EMPTY, EMPTY)

  predicate AllKept(w: Worlds, z: Sizes) {
    Inv(w.messages, z.messages) && Inv(w.turns, z.turns) && Inv(w.controls, z.controls)
  }

  // ----- Every course -----------------------------------------------------------------------------

  lemma HappenKeeps(w: Worlds, z: Sizes, e: Event)
    requires Positive(z) && AllKept(w, z)
    ensures AllKept(Happen(w, z, e), z)
  {
    match e
    case Grow(Messages, entry) => AppendKeeps(w.messages, z.messages, entry);
    case Grow(Turns, entry) => AppendKeeps(w.turns, z.turns, entry);
    case Grow(Controls, entry) => AppendKeeps(w.controls, z.controls, entry);
    case RefreshAll(d) =>
      var adopted := d.reconciled && ShowsAll(w, z, d);
      RefreshKeeps(w.messages, z.messages, Display(d.messages, adopted));
      RefreshKeeps(w.turns, z.turns, Display(d.turns, adopted));
      RefreshKeeps(w.controls, z.controls, Display(d.controls, adopted));
  }

  lemma {:induction false} CourseKeeps(w: Worlds, z: Sizes, events: seq<Event>)
    requires Positive(z) && AllKept(w, z)
    ensures AllKept(Course(w, z, events), z)
  {
    if events != [] {
      CourseKeeps(w, z, events[..|events| - 1]);
      HappenKeeps(Course(w, z, events[..|events| - 1]), z, events[|events| - 1]);
    }
  }

  /** The window of a history has moved wholly past what the client knows of it. */
  predicate Overtaken(w: World, window: nat) {
    w.upto > 0 && |w.log| >= w.upto + window
  }

  /** A snapshot is refused exactly when one of the three histories has been overtaken. */
  lemma AnyRefusedIff(w: Worlds, z: Sizes)
    requires Positive(z) && AllKept(w, z)
    ensures AnyRefused(w, z) <==> Overtaken(w.messages, z.messages) || Overtaken(w.turns, z.turns) || Overtaken(w.controls, z.controls)
  {
    RefusedIff(w.messages, z.messages);
    RefusedIff(w.turns, z.turns);
    RefusedIff(w.controls, z.controls);
  }

  predicate SameViews(a: Worlds, b: Worlds) {
    a.messages.view == b.messages.view && a.turns.view == b.turns.view && a.controls.view == b.controls.view
  }

  lemma StaysStopped(w: Worlds, z: Sizes, e: Event)
    requires Positive(z) && AllKept(w, z) && AnyRefused(w, z)
    ensures var after := Happen(w, z, e); AllKept(after, z) && AnyRefused(after, z) && SameViews(after, w)
  {
    if e.Grow? {
      HappenKeeps(w, z, e);
      AnyRefusedIff(w, z);
      AnyRefusedIff(Happen(w, z, e), z);
    }
  }

  /** One history overtaken stops all three for good: no later snapshot is accepted, and nothing more is shown,
      of the other two either. */
  lemma {:induction false} OneOvertakenStopsAll(w: Worlds, z: Sizes, events: seq<Event>)
    requires Positive(z) && AllKept(w, z) && AnyRefused(w, z)
    ensures var after := Course(w, z, events); AllKept(after, z) && AnyRefused(after, z) && SameViews(after, w)
  {
    if events != [] {
      OneOvertakenStopsAll(w, z, events[..|events| - 1]);
      StaysStopped(Course(w, z, events[..|events| - 1]), z, events[|events| - 1]);
    }
  }

  lemma ShownIff(w: World, window: nat)
    requires Inv(w, window)
    ensures w.view.shown == Span(0, w.upto) <==> w.lost == 0
  {
    AllBelow(w.view.shown, w.upto);
    SpanAt(0, w.upto, 0);
  }

  /** In every course each history is shown in order and without repetition, and wholly up to its last refresh
      exactly if none of its entries was passed over. */
  lemma EachShownOnce(z: Sizes, events: seq<Event>)
    requires Positive(z)
    ensures var w := Course(NOTHING, z, events);
            && AllKept(w, z)
            && (w.messages.view.shown == Span(0, w.messages.upto) <==> w.messages.lost == 0)
            && (w.turns.view.shown == Span(0, w.turns.upto) <==> w.turns.lost == 0)
            && (w.controls.view.shown == Span(0, w.controls.upto) <==> w.controls.lost == 0)
  {
    CourseKeeps(NOTHING, z, events);
    var w := Course(NOTHING, z, events);
    ShownIff(w.messages, z.messages);
    ShownIff(w.turns, z.turns);
    ShownIff(w.controls, z.controls);
  }

  // ----- What is remembered -----------------------------------------------------------------------

  /** After a refresh that ends well the client remembers a window of each history at most. */
  lemma AdoptedIsBounded(w: Worlds, z: Sizes, d: Outcome)
    requires Positive(z) && AllKept(w, z) && !AnyRefused(w, z) && d.reconciled && ShowsAll(w, z, d)
    ensures var after := Happen(w, z, RefreshAll(d));
            |after.messages.view.known.Keys| <= z.messages && |after.turns.view.known.Keys| <= z.turns && |after.controls.view.known.Keys| <= z.controls
  {
    KnownIsBounded(w.messages, z.messages, Display(d.messages, true));
    KnownIsBounded(w.turns, z.turns, Display(d.turns, true));
    KnownIsBounded(w.controls, z.controls, Display(d.controls, true));
  }

  /** What is remembered is everything from the last refresh that ended well. */
  lemma RememberedIs(w: World, window: nat)
    requires Inv(w, window)
    ensures |w.view.known.Keys| == w.upto - w.from
  {
    SpanSize(w.log, w.from, w.upto);
  }

  /** A refresh that fails after the entries were merged forgets nothing: what is remembered grows by all that
      is new. */
  lemma FailedRefreshGrows(w: World, window: nat, d: Display)
    requires Inv(w, window) && window > 0 && !Refused(w, window) && w.view.known != map[] && !(d.reconciled && Shows(w, window, d.rendered))
    ensures |Take(w, window, Refresh(d)).view.known.Keys| == |w.view.known.Keys| + |w.log| - w.upto
  {
    RefreshKeeps(w, window, d);
    RememberedIs(w, window);
    RememberedIs(Take(w, window, Refresh(d)), window);
  }

  /** A refresh leaves no more than a window remembered if and only if it ends well, enters the history, or there is
      room for all that is new beside what was remembered. */
  lemma RememberedFitsIff(w: World, window: nat, d: Display)
    requires Inv(w, window) && window > 0 && !Refused(w, window)
    ensures |Take(w, window, Refresh(d)).view.known.Keys| <= window
            <==> (d.reconciled && Shows(w, window, d.rendered)) || w.view.known == map[] || |w.view.known.Keys| + |w.log| - w.upto <= window
  {
    RefreshKeeps(w, window, d);
    RememberedIs(w, window);
    RememberedIs(Take(w, window, Refresh(d)), window);
  }

  /** The entries that come one at a time, each followed by a refresh that shows it and then fails. */
  function Failing(count: nat): seq<Step> {
    if count == 0 then [] else Failing(count - 1) + [Append("x"), Refresh(Display(1, false))]
  }

  lemma {:induction false} FailingIs(window: nat, count: nat)
    requires window > 1
    ensures var w := Run(window, Failing(count)); |w.log| == count && w.upto == count && w.from == 0 && w.lost == 0
  {
    if count > 0 {
      FailingIs(window, count - 1);
      RunKeeps(window, Failing(count - 1));
      RunTwo(window, Failing(count - 1), Append("x"), Refresh(Display(1, false)));
      FailingStep(Run(window, Failing(count - 1)), window, count - 1);
    }
  }

  /** So nothing bounds it: with every refresh failing after its entries are shown, the client remembers the
      whole history, whatever the window. */
  lemma RememberedIsUnbounded(window: nat, count: nat)
    requires window > 1
    ensures var w := Run(window, Failing(count)); |w.log| == count == w.upto && w.lost == 0 && |w.view.known.Keys| == count
  {
    FailingIs(window, count);
    RunKeeps(window, Failing(count));
    RememberedIs(Run(window, Failing(count)), window);
  }

  lemma RunTwo(window: nat, steps: seq<Step>, one: Step, other: Step)
    ensures Run(window, steps + [one, other]) == Take(Take(Run(window, steps), window, one), window, other)
  {
    var both := steps + [one, other];
    assert both[..|both| - 1] == steps + [one];
    assert (steps + [one])[..|steps|] == steps;
  }

  lemma FailingStep(w: World, window: nat, count: nat)
    requires Inv(w, window) && window > 1 && |w.log| == count && w.upto == count && w.from == 0 && w.lost == 0
    ensures var after := Take(Take(w, window, Append("x")), window, Refresh(Display(1, false)));
            |after.log| == count + 1 && after.upto == count + 1 && after.from == 0 && after.lost == 0
  {
    var grown := Take(w, window, Append("x"));
    AppendKeeps(w, window, "x");
    RefusedIff(grown, window);
    NothingKnown(grown, window);
    RefreshReads(grown, window);
  }
}
