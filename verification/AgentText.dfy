/** The bounded store of unfinished agent output. Deltas for many items arrive interleaved; whole lines,
    and pieces of overlong ones, are written out, and the rest is held until more comes.
 */
module AgentText {
  import opened Basics
  import opened Utf8

  const MAX_ITEMS: nat := 16
  const MAX_BYTES: nat := 2048
  const NEWLINE: Byte := 10
  const NATIVE := "native"

  datatype Kind = Message | ReasoningSummary | CommandOutput | Command | File

  datatype Verbosity = Quiet | Normal | Verbose | Debug

  /** Whether pieces of a kind reach the console. */
  predicate Visible(kind: Kind, v: Verbosity) {
    (kind != ReasoningSummary && kind != CommandOutput) || v == Verbose || v == Debug
  }

  datatype Key = Key(source: string, task: string, check: string, thread: string, turn: string, item: string, kind: Kind)

  datatype Item = Item(pending: Bytes, order: nat)

  /** Why a piece was let go: its newline came, it grew too long, its item was finished or evicted, or the
      quiet verbosity discarded it. */
  datatype Reason = Line | Overlong | Flushed | Cleared

  /** A piece of text, and whether it was written to the console. */
  datatype Segment = Segment(key: Key, text: Bytes, reason: Reason, shown: bool)

  // ----- Rune boundaries --------------------------------------------------------------------------

  lemma InsideCharacter(p: Bytes, i: nat)
    requires Valid(p)
    ensures 0 < i < |p| && i < Width(p[0]) ==> Continuation(p[i])
  {
    if 0 < i < |p| && i < Width(p[0]) {
      assert p[..Width(p[0])][i] == p[i];
    }
  }

  /** Valid text may be cut before any byte that is not a continuation. */
  lemma {:induction false} CutsValid(p: Bytes, i: nat)
    requires Valid(p) && i <= |p| && (i < |p| ==> !Continuation(p[i]))
    ensures Valid(p[..i]) && Valid(p[i..])
  {
    if i > 0 {
      var w := Width(p[0]);
      InsideCharacter(p, i);
      CutsValid(p[w..], i - w);
      assert p[..i][..w] == p[..w] && p[..i][w..] == p[w..][..i - w];
      assert p[i..] == p[w..][i - w..];
    } else {
      assert p[i..] == p;
    }
  }

  /** A character begins at most three bytes before any byte of valid text. */
  lemma {:induction false} CharacterStart(p: Bytes, i: nat) returns (j: nat)
    requires Valid(p) && i < |p|
    ensures i - 3 <= j <= i && !Continuation(p[j])
  {
    var w := Width(p[0]);
    if i < w {
      j := 0;
    } else {
      j := CharacterStart(p[w..], i - w);
      j := j + w;
    }
  }

  // ----- Conservation -----------------------------------------------------------------------------

  /** What a piece stands for in the text: a line's newline is not part of the piece. */
  function Meaning(s: Segment): Bytes {
    if s.reason == Line then s.text + [NEWLINE] else s.text
  }

  /** The text let go for one key, written out or not. */
  function Settled(log: seq<Segment>, k: Key): Bytes {
    if log == [] then []
    else Settled(log[..|log| - 1], k) + if log[|log| - 1].key == k then Meaning(log[|log| - 1]) else []
  }

  /** The text written to the console for one key. */
  function Written(log: seq<Segment>, k: Key): Bytes {
    if log == [] then []
    else Written(log[..|log| - 1], k) + if log[|log| - 1].key == k && log[|log| - 1].shown then Meaning(log[|log| - 1]) else []
  }

  /** Everything let go for a key was written. */
  predicate Lossless(log: seq<Segment>, k: Key) {
    forall i :: 0 <= i < |log| && log[i].key == k ==> log[i].shown
  }

  /** Then the console has all of it; otherwise it has less. */
  lemma {:induction false} WrittenIffLossless(log: seq<Segment>, k: Key)
    requires forall i :: 0 <= i < |log| ==> Meaning(log[i]) != []
    ensures |Written(log, k)| <= |Settled(log, k)|
    ensures Written(log, k) == Settled(log, k) <==> Lossless(log, k)
  {
    if log != [] {
      var front, last := log[..|log| - 1], log[|log| - 1];
      WrittenIffLossless(front, k);
      LosslessStep(log, k);
      if last.key == k && !last.shown {
        assert |Written(log, k)| < |Settled(log, k)|;
      } else {
        SameFront(Written(front, k), Settled(front, k), if last.key == k then Meaning(last) else []);
      }
    }
  }

  lemma LosslessStep(log: seq<Segment>, k: Key)
    requires log != []
    ensures var last := log[|log| - 1]; Lossless(log, k) <==> Lossless(log[..|log| - 1], k) && (last.key == k ==> last.shown)
  {
    var front := log[..|log| - 1];
    assert forall i :: 0 <= i < |front| ==> front[i] == log[i];
  }

  lemma SameFront(a: Bytes, b: Bytes, c: Bytes)
    ensures a + c == b + c <==> a == b
  {
    if a + c == b + c {
      assert |a| == |b|;
      assert a == (a + c)[..|a|] && b == (b + c)[..|b|];
    }
  }

  /** What the console was given. */
  function Shown(log: seq<Segment>): seq<Segment> {
    if log == [] then [] else Shown(log[..|log| - 1]) + if log[|log| - 1].shown then [log[|log| - 1]] else []
  }

  lemma ShownAppend(log: seq<Segment>, s: Segment)
    ensures Shown(log + [s]) == Shown(log) + if s.shown then [s] else []
  {
    assert (log + [s])[..|log|] == log;
  }

  /** Every piece from the `n`-th on was written. */
  predicate AllShown(log: seq<Segment>, n: nat) {
    forall i :: n <= i < |log| ==> log[i].shown
  }

  function Pending(items: map<Key, Item>, k: Key): Bytes {
    if k in items then items[k].pending else []
  }

  function Received(received: map<Key, Bytes>, k: Key): Bytes {
    if k in received then received[k] else []
  }

  /** All text received for every key was let go or is pending, in order. */
  ghost predicate Conserved(received: map<Key, Bytes>, items: map<Key, Item>, log: seq<Segment>) {
    forall k :: Received(received, k) == Settled(log, k) + Pending(items, k)
  }

  lemma SettledAppend(log: seq<Segment>, s: Segment, k: Key)
    ensures Settled(log + [s], k) == Settled(log, k) + if s.key == k then Meaning(s) else []
  {
    assert (log + [s])[..|log|] == log;
  }

  /** Writing out the front of what is pending conserves. */
  lemma WriteConserves(received: map<Key, Bytes>, items: map<Key, Item>, log: seq<Segment>, s: Segment, rest: Bytes)
    requires Conserved(received, items, log) && s.key in items && items[s.key].pending == Meaning(s) + rest
    ensures Conserved(received, items[s.key := Item(rest, items[s.key].order)], log + [s])
  {
    var next := items[s.key := Item(rest, items[s.key].order)];
    forall k
      ensures Received(received, k) == Settled(log + [s], k) + Pending(next, k)
    {
      SettledAppend(log, s, k);
      Associates(Settled(log, k), Meaning(s), rest);
      assert Received(received, k) == Settled(log, k) + Pending(items, k);
    }
  }

  /** Letting go of an item with nothing pending conserves. */
  lemma DropConserves(received: map<Key, Bytes>, items: map<Key, Item>, log: seq<Segment>, key: Key)
    requires Conserved(received, items, log) && Pending(items, key) == []
    ensures Conserved(received, items - {key}, log)
  {
    forall k
      ensures Received(received, k) == Settled(log, k) + Pending(items - {key}, k)
    {
      assert Received(received, k) == Settled(log, k) + Pending(items, k);
    }
  }

  /** So does adding a delta to what is pending, and to what was received. */
  lemma ReceiveConserves(received: map<Key, Bytes>, items: map<Key, Item>, log: seq<Segment>, key: Key, text: Bytes)
    requires Conserved(received, items, log) && key in items
    ensures Conserved(received[key := Received(received, key) + text], items[key := Item(items[key].pending + text, items[key].order)], log)
  {
    forall k
      ensures Received(received[key := Received(received, key) + text], k)
              == Settled(log, k) + Pending(items[key := Item(items[key].pending + text, items[key].order)], k)
    {
      assert Received(received, k) == Settled(log, k) + Pending(items, k);
      assert Received(received, key) == Settled(log, key) + Pending(items, key);
      Associates(Settled(log, key), items[key].pending, text);
    }
  }

  /** And a new item with nothing pending. */
  lemma OpenConserves(received: map<Key, Bytes>, items: map<Key, Item>, log: seq<Segment>, key: Key, order: nat)
    requires Conserved(received, items, log) && key !in items
    ensures Conserved(received, items[key := Item([], order)], log)
  {
    forall k
      ensures Received(received, k) == Settled(log, k) + Pending(items[key := Item([], order)], k)
    {
      assert Received(received, k) == Settled(log, k) + Pending(items, k);
    }
  }

  // ----- The store --------------------------------------------------------------------------------

  /** What an item may hold between calls. */
  predicate Held(pending: Bytes) {
    NEWLINE !in pending && |pending| <= 2048 && Valid(pending)
  }

  /** Pieces are valid text without newlines; an overlong one is as long as whole characters allow. */
  predicate Piece(s: Segment) {
    && NEWLINE !in s.text && Valid(s.text)
    && (s.reason == Overlong ==> 2045 <= |s.text| <= 2048)
    && (s.reason in {Flushed, Cleared} ==> 0 < |s.text| <= 2048)
    && (s.key.kind == Message && s.reason != Cleared ==> s.shown)
  }

  predicate Pieces(log: seq<Segment>) {
    forall i :: 0 <= i < |log| ==> Piece(log[i])
  }

  /** Items are few, and numbered from 1 as they were opened. */
  ghost predicate Numbered(items: map<Key, Item>, next: nat) {
    && |items.Keys| <= 16
    && (forall k :: k in items ==> 0 < items[k].order <= next)
  }

  /** No item but those in `open` holds more than it may. */
  ghost predicate Calm(items: map<Key, Item>, open: set<Key>) {
    forall k :: k in items && k !in open ==> Held(items[k].pending)
  }

  lemma NumberedDrop(items: map<Key, Item>, next: nat, key: Key)
    requires Numbered(items, next) && key in items
    ensures Numbered(items - {key}, next) && |(items - {key}).Keys| < |items.Keys|
  {
    assert (items - {key}).Keys == items.Keys - {key};
  }

  lemma NumberedAdd(items: map<Key, Item>, next: nat, key: Key)
    requires Numbered(items, next) && key !in items && |items.Keys| < MAX_ITEMS
    ensures Numbered(items[key := Item([], next + 1)], next + 1)
  {
    assert items[key := Item([], next + 1)].Keys == items.Keys + {key};
  }

  lemma NumberedChange(items: map<Key, Item>, next: nat, key: Key, pending: Bytes)
    requires Numbered(items, next) && key in items
    ensures Numbered(items[key := Item(pending, items[key].order)], next)
  {
    assert items[key := Item(pending, items[key].order)].Keys == items.Keys;
  }

  lemma CalmChange(items: map<Key, Item>, key: Key, item: Item)
    requires Calm(items, {key}) && Held(item.pending)
    ensures Calm(items[key := item], {})
  {
  }

  lemma Removes<K, V>(m: map<K, V>, k: K, v: V)
    ensures m[k := v] - {k} == m - {k}
  {
  }

  lemma EmptyStore(next: nat)
    ensures Numbered(map[], next) && Calm(map[], {})
  {
    var none: map<Key, Item> := map[];
    assert none.Keys == {};
  }

  lemma HeldNothing()
    ensures Held([])
  {
  }

  lemma Overwrites<K, V>(m: map<K, V>, k: K, first: V, second: V)
    ensures m[k := first][k := second] == m[k := second]
  {
  }

  datatype Eviction = Nobody | Evicted(key: Key)

  function Without(items: map<Key, Item>, e: Eviction): map<Key, Item> {
    if e.Nobody? then items else items - {e.key}
  }

  /** Only a new key that finds no room evicts, and then the oldest item. */
  ghost predicate Evicts(items: map<Key, Item>, key: Key, e: Eviction) {
    if key in items || |items.Keys| < 16 then e.Nobody? else e.Evicted? && Oldest(items, e.key)
  }

  /** No other item is older. */
  ghost predicate Oldest(items: map<Key, Item>, key: Key) {
    key in items && forall k :: k in items ==> items[key].order <= items[k].order
  }

  /** An item of another turn of the same native thread. */
  predicate Stale(k: Key, source: string, thread: string, turn: string) {
    source == NATIVE && k.source == NATIVE && k.thread == thread && k.turn != turn
  }

  /** What is left without them. */
  function Retired(items: map<Key, Item>, source: string, thread: string, turn: string): map<Key, Item> {
    map k | k in items && !(source == "native" && k.source == "native" && k.thread == thread && k.turn != turn) :: items[k]
  }

  lemma RetiredIs(items: map<Key, Item>, source: string, thread: string, turn: string, after: map<Key, Item>)
    requires forall k :: k in after <==> k in items && !Stale(k, source, thread, turn)
    requires forall k :: k in after ==> after[k] == items[k]
    ensures after == Retired(items, source, thread, turn)
  {
    assert forall k :: k in after <==> k in Retired(items, source, thread, turn);
  }

  lemma RetiredWas(items: map<Key, Item>, source: string, thread: string, turn: string, after: map<Key, Item>)
    requires after == Retired(items, source, thread, turn)
    ensures forall k :: k in after ==> k in items && after[k] == items[k]
    ensures forall k :: k in items && k !in after ==> k.source == "native" && k.thread == thread && k.turn != turn
  {
  }

  /** What happens to an agent's item. A command's output is finished by the command's own activity. */
  datatype Status = Started | Updated | Completed | Failed | Declined

  datatype Activity = Activity(key: Key, text: Bytes, status: Status)

  /** The item can be finished without losing text. */
  predicate Spared(items: map<Key, Item>, k: Key, v: Verbosity)
    requires k in items
  {
    items[k].pending == [] || k.kind in {Message, Command, File} || v in {Verbose, Debug}
  }

  /** Every item that is gone could be finished without losing text. */
  ghost predicate AllSpared(before: map<Key, Item>, after: map<Key, Item>, v: Verbosity) {
    forall k :: k in before && k !in after ==> Spared(before, k, v)
  }

  lemma ShownTwice(first: seq<Segment>, second: seq<Segment>, third: seq<Segment>)
    requires first <= second <= third
    ensures AllShown(third, |first|) <==> AllShown(second, |first|) && AllShown(third, |second|)
  {
    assert forall i :: 0 <= i < |second| ==> third[i] == second[i];
  }

  ghost predicate AccountedFor(received: map<Key, Bytes>, items: map<Key, Item>, log: seq<Segment>, console: seq<Segment>) {
    Pieces(log) && Conserved(received, items, log) && console == Shown(log)
  }

  lemma WriteAccounts(received: map<Key, Bytes>, items: map<Key, Item>, log: seq<Segment>, console: seq<Segment>, s: Segment, rest: Bytes)
    requires AccountedFor(received, items, log, console) && Piece(s) && s.key in items && items[s.key].pending == Meaning(s) + rest
    ensures AccountedFor(received, items[s.key := Item(rest, items[s.key].order)], log + [s], console + if s.shown then [s] else [])
  {
    WriteConserves(received, items, log, s, rest);
    ShownAppend(log, s);
  }

  class AgentStream {
    var items: map<Key, Item>
    var next: nat
    var verbosity: Verbosity
    ghost var log: seq<Segment>
    var console: seq<Segment>
    ghost var received: map<Key, Bytes>

    /** All text is accounted for, and the console has what was shown. */
    ghost predicate Accounted()
      reads this`items, this`log, this`received, this`console
    {
      AccountedFor(received, items, log, console)
    }

    ghost predicate Inv()
      reads this`items, this`log, this`received, this`next, this`console
    {
      Accounted() && Numbered(items, next) && Calm(items, {})
    }

    constructor ()
      ensures Inv() && items == map[] && log == [] && received == map[] && verbosity == Normal
    {
      items, next, verbosity, console := map[], 0, Normal, [];
      log, received := [], map[];
    }

    /** The verbosity may change at any time; nothing is written out for it. */
    method SetVerbosity(v: Verbosity)
      modifies this`verbosity
      ensures verbosity == v
    {
      verbosity := v;
    }

    /** A piece leaves its item; it is written only if its kind is visible. */
    method WriteSegment(s: Segment, rest: Bytes)
      requires Accounted() && Piece(s) && s.shown == Visible(s.key.kind, verbosity)
      requires s.key in items && items[s.key].pending == Meaning(s) + rest
      modifies this`items, this`log, this`console
      ensures Accounted() && items == old(items)[s.key := Item(rest, old(items)[s.key].order)] && log == old(log) + [s]
    {
      WriteAccounts(received, items, log, console, s, rest);
      console := console + if s.shown then [s] else [];
      items := items[s.key := Item(rest, items[s.key].order)];
      log := log + [s];
    }

    /** Lets go of whatever the item holds. */
    method Flush(key: Key)
      requires Accounted() && key in items && Held(items[key].pending)
      modifies this`items, this`log, this`console
      ensures Accounted() && items == old(items)[key := Item([], old(items)[key].order)]
      ensures log == old(log) + FlushedPiece(key, old(items)[key].pending, verbosity)
    {
      if items[key].pending != [] {
        ghost var text := items[key].pending;
        assert text + [] == text;
        WriteSegment(Segment(key, items[key].pending, Flushed, Visible(key.kind, verbosity)), []);
      }
    }

    /** An item is let go, and what it held with it. */
    method LetGo(key: Key)
      requires Inv() && key in items
      modifies this`items, this`log, this`console
      ensures Inv() && items == old(items) - {key}
      ensures log == old(log) + FlushedPiece(key, old(items)[key].pending, verbosity)
    {
      Flush(key);
      DropConserves(received, items, log, key);
      NumberedDrop(old(items), next, key);
      assert items - {key} == old(items) - {key};
      items := items - {key};
    }

    /** What it held is written exactly if its kind is visible. */
    method Retire(key: Key)
      requires Inv() && key in items
      modifies this`items, this`log, this`console
      ensures Inv() && items == old(items) - {key} && old(log) <= log
      ensures AllShown(log, |old(log)|) <==> Spared(old(items), key, verbosity)
      ensures Settled(log, key) == Received(received, key)
    {
      LetGo(key);
      FlushedShown(old(log), key, old(items)[key].pending, verbosity);
      assert Received(received, key) == Settled(log, key) + Pending(items, key);
    }

    /** The item with the least order; 0 stands for none yet. */
    method FindOldest() returns (oldest: Key)
      requires Inv() && items != map[]
      ensures Oldest(items, oldest)
    {
      var rest, order := items.Keys, 0;
      oldest :| oldest in rest;
      while rest != {}
        invariant rest <= items.Keys && oldest in items
        invariant if order == 0 then rest == items.Keys else items[oldest].order == order
        invariant order > 0 ==> forall k :: k in items && k !in rest ==> order <= items[k].order
        decreases rest
      {
        var candidate :| candidate in rest;
        if order == 0 || items[candidate].order < order {
          oldest, order := candidate, items[candidate].order;
        }
        rest := rest - {candidate};
      }
    }

    /** Room for a key is made by evicting the oldest item, and only when there is none. */
    method MakeRoom(key: Key) returns (ghost evicted: Eviction)
      requires Inv()
      modifies this`items, this`log, this`console
      ensures Inv() && old(log) <= log && items == Without(old(items), evicted) && (key in items || |items.Keys| < MAX_ITEMS)
      ensures Evicts(old(items), key, evicted)
      ensures AllShown(log, |old(log)|) <==> evicted.Nobody? || Spared(old(items), evicted.key, verbosity)
    {
      evicted := Nobody;
      if key !in items && |items.Keys| == MAX_ITEMS {
        var oldest := FindOldest();
        Retire(oldest);
        evicted := Evicted(oldest);
        NumberedDrop(old(items), next, oldest);
      }
    }

    method OpenItem(key: Key)
      requires Inv() && (key in items || |items.Keys| < MAX_ITEMS)
      modifies this`items, this`next
      ensures Inv() && key in items
      ensures items == if key in old(items) then old(items) else old(items)[key := Item([], next)]
    {
      if key !in items {
        OpenConserves(received, items, log, key, next + 1);
        NumberedAdd(items, next, key);
        HeldNothing();
        CalmChange(items, key, Item([], next + 1));
        next := next + 1;
        items := items[key := Item([], next)];
      }
    }

    /** The delta is added to its item. */
    method Append(key: Key, text: Bytes)
      requires Accounted() && key in items
      modifies this`items, this`received
      ensures Accounted() && items == old(items)[key := Item(old(items)[key].pending + text, old(items)[key].order)]
      ensures received == old(received)[key := Received(old(received), key) + text]
    {
      ReceiveConserves(received, items, log, key, text);
      items := items[key := Item(items[key].pending + text, items[key].order)];
      received := received[key := Received(received, key) + text];
    }

    /** Lets go of a first piece that is visible. */
    method Cut(key: Key, text: Bytes, reason: Reason, rest: Bytes)
      requires Accounted() && key in items && Visible(key.kind, verbosity) && Piece(Segment(key, text, reason, true))
      requires items[key].pending == Meaning(Segment(key, text, reason, true)) + rest && |rest| < |items[key].pending|
      modifies this`items, this`log, this`console
      ensures Accounted() && old(log) <= log && AllShown(log, |old(log)|)
      ensures items == old(items)[key := Item(rest, old(items)[key].order)]
    {
      WriteSegment(Segment(key, text, reason, true), rest);
    }

    /** Lets go of the next line or overlong piece, if there is one. */
    method SplitOnce(key: Key) returns (more: bool)
      requires Accounted() && key in items && Valid(items[key].pending) && Visible(key.kind, verbosity)
      modifies this`items, this`log, this`console
      ensures Accounted() && old(log) <= log && AllShown(log, |old(log)|) && more == !Held(old(items)[key].pending) && key in items
      ensures if more then |items[key].pending| < |old(items)[key].pending| && Valid(items[key].pending) else items == old(items) && log == old(log)
      ensures items == old(items)[key := Item(items[key].pending, old(items)[key].order)]
    {
      var pending := items[key].pending;
      var end := IndexOf(pending);
      if end < |pending| {
        LineCut(pending, end);
        Cut(key, pending[..end], Line, pending[end + 1..]);
        return true;
      }
      assert pending[..end] == pending;
      if |pending| <= MAX_BYTES {
        return false;
      }
      CutOverlong(key);
      return true;
    }

    method CutOverlong(key: Key)
      requires Accounted() && key in items && Valid(items[key].pending) && Visible(key.kind, verbosity)
      requires NEWLINE !in items[key].pending && |items[key].pending| > MAX_BYTES
      modifies this`items, this`log, this`console
      ensures Accounted() && old(log) <= log && AllShown(log, |old(log)|) && key in items
      ensures |items[key].pending| < |old(items)[key].pending| && Valid(items[key].pending)
      ensures items == old(items)[key := Item(items[key].pending, old(items)[key].order)]
    {
      var pending := items[key].pending;
      var end := CutBefore(pending);
      CutsValid(pending, end);
      assert pending == pending[..end] + pending[end..];
      Cut(key, pending[..end], Overlong, pending[end..]);
    }

    /** Splits what is pending at newlines, and where it is too long. */
    method Split(key: Key)
      requires Accounted() && key in items && Valid(items[key].pending) && Visible(key.kind, verbosity)
      modifies this`items, this`log, this`console
      ensures Accounted() && old(log) <= log && AllShown(log, |old(log)|) && key in items && Held(items[key].pending)
      ensures items == old(items)[key := Item(items[key].pending, old(items)[key].order)]
      ensures Held(old(items)[key].pending) ==> items == old(items) && log == old(log)
    {
      var more := true;
      while more
        invariant Accounted() && old(log) <= log && AllShown(log, |old(log)|) && key in items && Valid(items[key].pending)
        invariant items == old(items)[key := Item(items[key].pending, old(items)[key].order)]
        invariant !more ==> Held(items[key].pending)
        invariant Held(old(items)[key].pending) ==> items == old(items) && log == old(log)
        decreases if key in items then |items[key].pending| else 0, more
      {
        ghost var before := log;
        more := SplitOnce(key);
        ShownTwice(old(log), before, log);
      }
    }

    /** The delta is added and split. */
    method AppendAndSplit(key: Key, text: Bytes)
      requires Inv() && key in items && Valid(text) && Visible(key.kind, verbosity)
      modifies this`items, this`received, this`log, this`console
      ensures Inv() && old(log) <= log && AllShown(log, |old(log)|)
      ensures key in items && items == old(items)[key := Item(items[key].pending, old(items)[key].order)]
      ensures Held(old(items)[key].pending + text) ==> log == old(log) && items[key].pending == old(items)[key].pending + text
      ensures received == old(received)[key := Received(old(received), key) + text]
    {
      ghost var before := items;
      assert Valid(items[key].pending + text) by {
        ValidConcat(items[key].pending, text);
      }
      Append(key, text);
      Split(key);
      ghost var after := Item(items[key].pending, before[key].order);
      Overwrites(before, key, Item(before[key].pending + text, before[key].order), after);
      NumberedChange(before, next, key, after.pending);
      CalmChange(before, key, after);
    }

    /** The delta is added to the item of its key, opened if need be. */
    method Receive(key: Key, text: Bytes)
      requires Inv() && Valid(text) && (key in items || |items.Keys| < MAX_ITEMS) && Visible(key.kind, verbosity)
      modifies this`items, this`next, this`received, this`log, this`console
      ensures Inv() && old(log) <= log && AllShown(log, |old(log)|) && key in items && items == old(items)[key := items[key]]
      ensures Held(Pending(old(items), key) + text) ==> log == old(log) && items[key].pending == Pending(old(items), key) + text
      ensures received == old(received)[key := Received(old(received), key) + text]
    {
      ghost var before := items;
      OpenItem(key);
      ghost var item := items[key];
      AppendAndSplit(key, text);
      Overwrites(before, key, item, items[key]);
    }

    /** One delta of a visible kind. An item is evicted only for a new key when there is no room, and then the
        oldest; a completed item is let go. The delta's own text is never lost, and nothing is unless the
        evicted item was holding text of a kind that is no longer visible. */
    method AgentText(key: Key, text: Bytes, completed: bool) returns (ghost evicted: Eviction)
      requires Inv() && Valid(text) && Visible(key.kind, verbosity)
      modifies this`items, this`next, this`received, this`log, this`console
      ensures Inv() && old(log) <= log
      ensures received == old(received)[key := Received(old(received), key) + text]
      ensures Evicts(old(items), key, evicted)
      ensures if completed then items == Without(old(items), evicted) - {key} && Settled(log, key) == Received(received, key)
              else key in items && items == Without(old(items), evicted)[key := items[key]]
      ensures AllShown(log, |old(log)|) <==> evicted.Nobody? || Spared(old(items), evicted.key, verbosity)
    {
      evicted := MakeRoom(key);
      ghost var first := log;
      TakeIn(key, text, completed);
      ShownTwice(old(log), first, log);
    }

    /** The delta is received, and its item let go if it is complete. */
    method TakeIn(key: Key, text: Bytes, completed: bool)
      requires Inv() && Valid(text) && (key in items || |items.Keys| < MAX_ITEMS) && Visible(key.kind, verbosity)
      modifies this`items, this`next, this`received, this`log, this`console
      ensures Inv() && old(log) <= log && AllShown(log, |old(log)|)
      ensures received == old(received)[key := Received(old(received), key) + text]
      ensures if completed then items == old(items) - {key} && Settled(log, key) == Received(received, key)
              else key in items && items == old(items)[key := items[key]]
    {
      ghost var before := items;
      Receive(key, text);
      ghost var first := log;
      if completed {
        Removes(before, key, items[key]);
        RetireVisible(key);
        ShownTwice(old(log), first, log);
      }
    }

    method RetireVisible(key: Key)
      requires Inv() && key in items && Visible(key.kind, verbosity)
      modifies this`items, this`log, this`console
      ensures Inv() && items == old(items) - {key} && old(log) <= log && AllShown(log, |old(log)|)
      ensures Settled(log, key) == Received(received, key)
    {
      Retire(key);
    }

    /** A command's output ends with the command. */
    method FinishOutput(key: Key, started: bool)
      requires Inv()
      modifies this`items, this`log, this`console
      ensures Inv() && old(log) <= log && items == (if started then old(items) else old(items) - {key})
      ensures !started && key in old(items) ==> log == old(log) + FlushedPiece(key, old(items)[key].pending, verbosity)
      ensures AllShown(log, |old(log)|) <==> started || key !in old(items) || Spared(old(items), key, verbosity)
    {
      if !started && key in items {
        LetGo(key);
        FlushedShown(old(log), key, old(items)[key].pending, verbosity);
      } else if !started {
        assert items - {key} == items;
      }
    }

    /** A new turn of a thread ends the items of its earlier turns. */
    method RetireTurn(source: string, thread: string, turn: string)
      requires Inv()
      modifies this`items, this`log, this`console
      ensures Inv() && old(log) <= log && items == Retired(old(items), source, thread, turn)
      ensures AllShown(log, |old(log)|) <==> AllSpared(old(items), items, verbosity)
    {
      ghost var before := items;
      RetireStale(source, thread, turn);
      RetiredIs(before, source, thread, turn, items);
    }

    method RetireStale(source: string, thread: string, turn: string)
      requires Inv()
      modifies this`items, this`log, this`console
      ensures Inv() && old(log) <= log
      ensures forall k :: k in items <==> k in old(items) && !Stale(k, source, thread, turn)
      ensures forall k :: k in items ==> items[k] == old(items)[k]
      ensures AllShown(log, |old(log)|) <==> AllSpared(old(items), items, verbosity)
    {
      var rest := items.Keys;
      while rest != {}
        invariant Inv() && old(log) <= log && rest <= items.Keys
        invariant forall k :: k in items <==> k in old(items) && (k in rest || !Stale(k, source, thread, turn))
        invariant forall k :: k in items ==> items[k] == old(items)[k]
        invariant AllShown(log, |old(log)|) <==> AllSpared(old(items), items, verbosity)
        decreases rest
      {
        var key :| key in rest;
        rest := rest - {key};
        if Stale(key, source, thread, turn) {
          ghost var before, was := log, items;
          Retire(key);
          ShownTwice(old(log), before, log);
          SparedOneMore(old(items), was, key, verbosity);
        }
      }
    }

    /** The quiet verbosity discards everything unfinished, whatever its kind. */
    method Clear()
      requires Inv()
      modifies this`items, this`log
      ensures Inv() && items == map[] && old(log) <= log && received == old(received)
      ensures AllShown(log, |old(log)|) <==> NoneHeld(old(items))
    {
      ghost var after := DiscardAll(received, items, log, console);
      EmptyStore(next);
      Empty(after);
    }

    method Empty(ghost after: seq<Segment>)
      requires AccountedFor(received, map[], after, console) && Numbered(map[], next) && Calm(map[], {})
      modifies this`items, this`log
      ensures Inv() && items == map[] && log == after
    {
      items := map[];
      log := after;
    }

    /** One activity, at the verbosity of the moment. It ends the items of the thread's other turns; then a command
        that is not just started ends its output, and a delta that is taken in is added to its item, for which
        the oldest may be evicted, and ends it if it completes it. Text is lost exactly when an item that is let
        go was holding text of a kind that is not visible, or, at the quiet verbosity, any text. */
    method NativeActivity(a: Activity) returns (ghost evicted: Eviction)
      requires Inv() && Valid(a.text)
      modifies this`items, this`next, this`received, this`log, this`console
      ensures Inv() && old(log) <= log
      ensures verbosity != Quiet ==> (AllShown(log, |old(log)|) <==> AllSpared(old(items), items, verbosity))
      ensures verbosity == Quiet ==> items == map[] && (AllShown(log, |old(log)|) <==> NoneHeld(old(items)))
      ensures received == if TakenIn(a.key.kind, verbosity) then old(received)[a.key := Received(old(received), a.key) + a.text] else old(received)
      ensures verbosity != Quiet ==> Follows(Retired(old(items), a.key.source, a.key.thread, a.key.turn), a, verbosity, items, evicted)
      ensures TakenIn(a.key.kind, verbosity) && a.status == Completed ==> Settled(log, a.key) == Received(received, a.key)
    {
      evicted := Nobody;
      if verbosity == Quiet {
        Clear();
        if a.key.kind != Command || (a.status != Failed && a.status != Declined) {
          return;
        }
      }
      evicted := Proceed(a);
    }

    /** What follows when the activity is not passed over. */
    method Proceed(a: Activity) returns (ghost evicted: Eviction)
      requires Inv() && Valid(a.text) && (verbosity == Quiet ==> items == map[] && a.key.kind == Command)
      modifies this`items, this`next, this`received, this`log, this`console
      ensures Inv() && old(log) <= log && (AllShown(log, |old(log)|) <==> AllSpared(old(items), items, verbosity))
      ensures verbosity == Quiet ==> items == map[]
      ensures received == if TakenIn(a.key.kind, verbosity) then old(received)[a.key := Received(old(received), a.key) + a.text] else old(received)
      ensures Follows(Retired(old(items), a.key.source, a.key.thread, a.key.turn), a, verbosity, items, evicted)
      ensures TakenIn(a.key.kind, verbosity) && a.status == Completed ==> Settled(log, a.key) == Received(received, a.key)
    {
      ghost var before := items;
      RetireTurn(a.key.source, a.key.thread, a.key.turn);
      ghost var first, mid := log, items;
      evicted := Handle(a);
      RetiredWas(before, a.key.source, a.key.thread, a.key.turn, mid);
      FollowsOnly(mid, a, verbosity, items, evicted);
      SparedTwice(before, mid, items, verbosity);
      ShownTwice(old(log), first, log);
    }

    method Handle(a: Activity) returns (ghost evicted: Eviction)
      requires Inv() && Valid(a.text)
      modifies this`items, this`next, this`received, this`log, this`console
      ensures Inv() && old(log) <= log && (AllShown(log, |old(log)|) <==> AllSpared(old(items), items, verbosity))
      ensures received == if TakenIn(a.key.kind, verbosity) then old(received)[a.key := Received(old(received), a.key) + a.text] else old(received)
      ensures Follows(old(items), a, verbosity, items, evicted)
      ensures TakenIn(a.key.kind, verbosity) && a.status == Completed ==> Settled(log, a.key) == Received(received, a.key)
    {
      evicted := Nobody;
      if a.key.kind == Command {
        EndCommand(a.key.(kind := CommandOutput), a.status == Started);
      } else if Takes(a.key.kind, verbosity) {
        evicted := TakeDelta(a.key, a.text, a.status == Completed);
      }
    }

    method EndCommand(key: Key, started: bool)
      requires Inv()
      modifies this`items, this`log, this`console
      ensures Inv() && old(log) <= log && items == (if started then old(items) else old(items) - {key})
      ensures AllShown(log, |old(log)|) <==> AllSpared(old(items), items, verbosity)
    {
      if key in items {
        SparedOneMore(items, items, key, verbosity);
      } else {
        assert items - {key} == items;
      }
      FinishOutput(key, started);
    }

    method TakeDelta(key: Key, text: Bytes, completed: bool) returns (ghost evicted: Eviction)
      requires Inv() && Valid(text) && Visible(key.kind, verbosity)
      modifies this`items, this`next, this`received, this`log, this`console
      ensures Inv() && old(log) <= log
      ensures received == old(received)[key := Received(old(received), key) + text]
      ensures AllShown(log, |old(log)|) <==> AllSpared(old(items), items, verbosity)
      ensures Evicts(old(items), key, evicted) && Joined(old(items), key, completed, items, evicted)
      ensures completed ==> Settled(log, key) == Received(received, key)
    {
      evicted := AgentText(key, text, completed);
      SparedByDelta(old(items), old(items), key, evicted, items, verbosity);
    }
  }

  /** Whether an activity's text is taken in. */
  predicate TakenIn(kind: Kind, v: Verbosity) {
    (kind == Message && v != Quiet) || (kind in {ReasoningSummary, CommandOutput} && v in {Verbose, Debug})
  }

  /** The items after a delta: its own is there unless it is completed, and no other is gone but the evicted one. */
  ghost predicate Joined(mid: map<Key, Item>, key: Key, completed: bool, after: map<Key, Item>, evicted: Eviction) {
    if completed then after == Without(mid, evicted) - {key} else key in after && after == Without(mid, evicted)[key := after[key]]
  }

  /** The items after an activity. */
  ghost predicate Follows(mid: map<Key, Item>, a: Activity, v: Verbosity, after: map<Key, Item>, evicted: Eviction) {
    if a.key.kind == Command then after == if a.status == Started then mid else mid - {a.key.(kind := CommandOutput)}
    else if TakenIn(a.key.kind, v) then Evicts(mid, a.key, evicted) && Joined(mid, a.key, a.status == Completed, after, evicted)
    else after == mid
  }

  lemma FollowsOnly(mid: map<Key, Item>, a: Activity, v: Verbosity, after: map<Key, Item>, evicted: Eviction)
    requires Follows(mid, a, v, after, evicted)
    ensures forall k :: k in after ==> k in mid || k == a.key
    ensures mid == map[] && a.key.kind == Command ==> after == map[]
  {
    if mid == map[] && a.key.kind == Command {
      assert mid - {a.key.(kind := CommandOutput)} == mid;
    }
  }

  /** Letting go in two steps, when nothing that went comes back. */
  lemma SparedTwice(before: map<Key, Item>, mid: map<Key, Item>, after: map<Key, Item>, v: Verbosity)
    requires forall k :: k in mid ==> k in before && mid[k] == before[k]
    requires forall k :: k in before && k !in mid ==> k !in after
    ensures AllSpared(before, after, v) <==> AllSpared(before, mid, v) && AllSpared(mid, after, v)
  {
  }

  /** All text of a message is written or pending, whatever the verbosity was and was changed to, unless the
      quiet verbosity discarded some of it. */
  lemma MessagesAreConserved(received: map<Key, Bytes>, items: map<Key, Item>, log: seq<Segment>, console: seq<Segment>, k: Key)
    requires AccountedFor(received, items, log, console) && k.kind == Message
    requires forall i :: 0 <= i < |log| && log[i].key == k ==> log[i].reason != Cleared
    ensures Received(received, k) == Written(log, k) + Pending(items, k)
  {
    PiecesMean(log);
    WrittenIffLossless(log, k);
  }

  lemma PiecesMean(log: seq<Segment>)
    requires Pieces(log)
    ensures forall i :: 0 <= i < |log| ==> Meaning(log[i]) != []
  {
  }

  /** Of any key, all text is written or pending if and only if every piece of it was shown. */
  lemma ConservedIffShown(received: map<Key, Bytes>, items: map<Key, Item>, log: seq<Segment>, console: seq<Segment>, k: Key)
    requires AccountedFor(received, items, log, console)
    ensures Received(received, k) == Written(log, k) + Pending(items, k) <==> Lossless(log, k)
  {
    PiecesMean(log);
    WrittenIffLossless(log, k);
    SameFront(Written(log, k), Settled(log, k), Pending(items, k));
  }

  /** Output that is taken in while it is visible and finished when it no longer is, is lost: one letter of a
      command's output without a newline, then the normal verbosity, then the end of the command. */
  method LoweredVerbosityLosesOutput(key: Key) returns (stream: AgentStream)
    requires key.kind == CommandOutput
    ensures stream.Inv() && stream.items == map[] && stream.console == []
    ensures Received(stream.received, key) == LETTER && Written(stream.log, key) + Pending(stream.items, key) == []
  {
    stream := new AgentStream();
    stream.SetVerbosity(Verbose);
    OneLetter();
    stream.Receive(key, LETTER);
    stream.SetVerbosity(Normal);
    stream.FinishOutput(key, false);
    LostLetter(key);
  }

  const LETTER: Bytes := [0x61]

  lemma OneLetter()
    ensures Valid(LETTER) && Held(LETTER) && [] + LETTER == LETTER
  {
    CharacterIsValid(LETTER);
  }

  lemma LostLetter(key: Key)
    requires key.kind == CommandOutput
    ensures var log := [] + FlushedPiece(key, LETTER, Normal); Shown(log) == [] && Written(log, key) == []
  {
    var log := [] + FlushedPiece(key, LETTER, Normal);
    assert log[..0] == [];
  }

  /** Which activities carry text that is taken in at a verbosity. */
  predicate Takes(kind: Kind, v: Verbosity) {
    v != Quiet && (kind == Message || ((kind == ReasoningSummary || kind == CommandOutput) && Visible(kind, v)))
  }

  lemma DiscardAccounts(received: map<Key, Bytes>, items: map<Key, Item>, log: seq<Segment>, console: seq<Segment>, key: Key)
    requires AccountedFor(received, items, log, console) && key in items && Held(items[key].pending)
    ensures AccountedFor(received, items - {key}, log + ClearedPiece(key, items[key].pending), console)
  {
    var pending := items[key].pending;
    if pending == [] {
      DropConserves(received, items, log, key);
      assert log + [] == log;
    } else {
      assert pending + [] == pending;
      WriteAccounts(received, items, log, console, Segment(key, pending, Cleared, false), []);
      assert console + [] == console;
      var emptied := items[key := Item([], items[key].order)];
      DropConserves(received, emptied, log + [Segment(key, pending, Cleared, false)], key);
      assert emptied - {key} == items - {key};
    }
  }

  lemma DiscardedShown(log: seq<Segment>, key: Key, pending: Bytes)
    ensures AllShown(log + ClearedPiece(key, pending), |log|) <==> pending == []
  {
    if pending != [] {
      assert !(log + ClearedPiece(key, pending))[|log|].shown;
    }
  }

  /** The record of what a finished item was holding. */
  function FlushedPiece(key: Key, pending: Bytes, v: Verbosity): seq<Segment> {
    if pending == [] then [] else [Segment(key, pending, Flushed, Visible(key.kind, v))]
  }

  lemma FlushedShown(log: seq<Segment>, key: Key, pending: Bytes, v: Verbosity)
    ensures AllShown(log + FlushedPiece(key, pending, v), |log|) <==> pending == [] || key.kind in {Message, Command, File} || v in {Verbose, Debug}
  {
    if pending != [] {
      assert (log + FlushedPiece(key, pending, v))[|log|].shown == Visible(key.kind, v);
    }
  }

  /** The record of text that is discarded unseen. */
  function ClearedPiece(key: Key, pending: Bytes): seq<Segment> {
    if pending == [] then [] else [Segment(key, pending, Cleared, false)]
  }

  /** No item has anything pending. */
  ghost predicate NoneHeld(items: map<Key, Item>) {
    forall k :: k in items ==> items[k].pending == []
  }

  lemma NoneHeldOneMore(items: map<Key, Item>, key: Key)
    requires key in items
    ensures NoneHeld(items) <==> NoneHeld(items - {key}) && items[key].pending == []
  {
    assert forall k :: k in items && k != key ==> k in items - {key} && (items - {key})[k] == items[k];
  }

  /** What the items hold is let go unseen, in whatever order. */
  lemma {:induction false} DiscardAll(received: map<Key, Bytes>, items: map<Key, Item>, log: seq<Segment>, console: seq<Segment>)
    returns (after: seq<Segment>)
    requires AccountedFor(received, items, log, console) && Calm(items, {})
    ensures AccountedFor(received, map[], after, console) && log <= after && (AllShown(after, |log|) <==> NoneHeld(items))
    decreases items.Keys
  {
    if items == map[] {
      after := log;
    } else {
      var key :| key in items;
      var more := log + ClearedPiece(key, items[key].pending);
      DiscardAccounts(received, items, log, console, key);
      after := DiscardAll(received, items - {key}, more, console);
      ShownTwice(log, more, after);
      DiscardedShown(log, key, items[key].pending);
      NoneHeldOneMore(items, key);
    }
  }

  /** A delta of a visible kind lets go of no hidden item but the evicted one. */
  lemma SparedByDelta(before: map<Key, Item>, mid: map<Key, Item>, key: Key, e: Eviction, after: map<Key, Item>, v: Verbosity)
    requires (forall k :: k in mid ==> k in before && mid[k] == before[k]) && (key in before ==> key in mid)
    requires Visible(key.kind, v) && Evicts(mid, key, e)
    requires after == Without(mid, e) - {key} || (key in after && after == Without(mid, e)[key := after[key]])
    ensures AllSpared(before, after, v) <==> AllSpared(before, mid, v) && (e.Nobody? || Spared(mid, e.key, v))
  {
    var room := Without(mid, e);
    if e.Evicted? {
      SparedOneMore(before, mid, e.key, v);
    }
    assert AllSpared(before, room, v) <==> AllSpared(before, mid, v) && (e.Nobody? || Spared(mid, e.key, v));
    forall k
      ensures k in before && k != key ==> (k in after <==> k in room)
    {
    }
  }

  lemma SparedOneMore(before: map<Key, Item>, was: map<Key, Item>, key: Key, v: Verbosity)
    requires key in was && key in before && was[key] == before[key]
    ensures AllSpared(before, was - {key}, v) <==> AllSpared(before, was, v) && Spared(was, key, v)
  {
  }

  /** A newline is a character of its own. */
  lemma AfterNewline(tail: Bytes)
    requires Valid(tail) && |tail| > 0 && tail[0] == NEWLINE
    ensures Valid(tail[1..])
  {
  }

  lemma LineCut(pending: Bytes, end: nat)
    requires Valid(pending) && end < |pending| && pending[end] == NEWLINE
    ensures Valid(pending[..end]) && Valid(pending[end + 1..])
    ensures pending == (pending[..end] + [NEWLINE]) + pending[end + 1..]
  {
    CutsValid(pending, end);
    AfterNewline(pending[end..]);
    TailOf(pending, end);
  }

  lemma TailOf(s: Bytes, end: nat)
    requires end < |s|
    ensures s[end..][1..] == s[end + 1..] && s == (s[..end] + [s[end]]) + s[end + 1..]
  {
  }

  /** The first newline, or the length if there is none. */
  method IndexOf(text: Bytes) returns (end: nat)
    ensures end <= |text| && NEWLINE !in text[..end] && (end < |text| ==> text[end] == NEWLINE)
  {
    end := 0;
    while end < |text| && text[end] != NEWLINE
      invariant end <= |text| && NEWLINE !in text[..end]
    {
      end := end + 1;
    }
  }

  /** The last character start within the limit; there is one close to it. */
  method CutBefore(text: Bytes) returns (end: nat)
    requires Valid(text) && |text| > MAX_BYTES
    ensures MAX_BYTES - 3 <= end <= MAX_BYTES && !Continuation(text[end])
    ensures forall i :: end < i <= MAX_BYTES ==> Continuation(text[i])
  {
    ghost var start := CharacterStart(text, MAX_BYTES);
    end := MAX_BYTES;
    while Continuation(text[end])
      invariant start <= end <= MAX_BYTES
      decreases end
      invariant forall i :: end < i <= MAX_BYTES ==> Continuation(text[i])
    {
      end := end - 1;
    }
  }
}
