/** Which keys the bytes typed in review are. */
module RouterKeys {
  import opened Utf8
  import opened InputAuthority
  import opened RouterModel
  import opened RouterRuns

  /** How a reading of bytes ends: still in review; with the Note key, the rest waiting for the note; or with the
      end-of-input key, the rest going to the editor. */
  datatype End = Goes | Notes(rest: Bytes) | Leaves(rest: Bytes)

  datatype Reading = Reading(keys: seq<Key>, end: End)

  function Then(key: seq<Key>, rest: Reading): Reading {
    Reading(key + rest.keys, rest.end)
  }

  /** ESC [ or ESC O and a letter: A is Up and B is Down. */
  function Arrow(b: Byte): seq<Key> {
    if b == 0x41 then [UpKey] else if b == 0x42 then [DownKey] else []
  }

  /** A space is Toggle and a line feed is Enter. */
  function Plain(b: Byte): seq<Key> {
    if b == 0x20 then [ToggleKey] else if b == 0x0A then [EnterKey] else []
  }

  /** The keys in some bytes, read from the front. A carriage return is Enter, and takes a line feed with it. */
  function Keys(v: Bytes): Reading {
    if v == [] then Reading([], Goes)
    else if v[0] == 0x1B then
      if |v| == 1 then Reading([], Goes)
      else if v[1] != 0x5B && v[1] != 0x4F then Keys(v[2..])
      else if |v| == 2 then Reading([], Goes)
      else Then(Arrow(v[2]), Keys(v[3..]))
    else if v[0] == 0x0D then Then([EnterKey], if |v| > 1 && v[1] == 0x0A then Keys(v[2..]) else Keys(v[1..]))
    else if v[0] == 0x6E || v[0] == 0x4E then Reading([NoteKey], Notes(v[1..]))
    else if v[0] == 0x04 then Reading([EOFKey], Leaves(v[1..]))
    else Then(Plain(v[0]), Keys(v[1..]))
  }

  /** Keys as they are queued, under the generation of the review. */
  function Events(keys: seq<Key>, generation: nat): seq<KeyEvent> {
    if keys == [] then [] else Events(keys[..|keys| - 1], generation) + [KeyEvent(keys[|keys| - 1], generation)]
  }

  lemma {:induction false} EventsConcat(a: seq<Key>, b: seq<Key>, generation: nat)
    ensures Events(a + b, generation) == Events(a, generation) + Events(b, generation)
  {
    if b == [] {
      assert a + b == a;
    } else {
      assert (a + b)[..|a + b| - 1] == a + b[..|b| - 1];
      EventsConcat(a, b[..|b| - 1], generation);
    }
  }

  lemma EventsOne(key: Key, generation: nat)
    ensures Events([key], generation) == [KeyEvent(key, generation)]
  {
    assert [key][..0] == [];
  }

  /** In review, with nothing half-read and no note pending. */
  predicate Ready(r: Router) {
    Coherent(r) && r.review && r.decoder == Idle && !r.noteTransition && !r.dropLeadingLF
  }

  /** A router has gone on from another by some keys and nothing else that can be seen. */
  predicate Follows(r: Router, next: Router, keys: seq<Key>) {
    && next.keys == r.keys + Events(keys, r.modeGeneration)
    && next.review && !next.noteTransition && next.modeGeneration == r.modeGeneration
    && next.lineBytes == r.lineBytes && next.noteBytes == r.noteBytes
  }

  /** A router has read bytes to the end: the keys are queued, the editor has what follows the end-of-input key and
      nothing else, and what follows the Note key waits. */
  predicate HasRead(r: Router, next: Router, reading: Reading) {
    && next.keys == r.keys + Events(reading.keys, r.modeGeneration)
    && match reading.end
       case Goes => Follows(r, next, reading.keys)
       case Notes(rest) =>
         && next.review && next.noteTransition && next.modeGeneration == r.modeGeneration
         && next.lineBytes == r.lineBytes && next.noteBytes == r.noteBytes + rest
       case Leaves(rest) => !next.review && next.lineBytes == r.lineBytes + rest && next.modeGeneration == r.modeGeneration + 1
  }

  lemma ReadOn(r: Router, mid: Router, next: Router, keys: seq<Key>, rest: Reading)
    requires Follows(r, mid, keys) && HasRead(mid, next, rest)
    ensures HasRead(r, next, Then(keys, rest))
  {
    var g := r.modeGeneration;
    EventsConcat(keys, rest.keys, g);
    assert (r.keys + Events(keys, g)) + Events(rest.keys, g) == r.keys + (Events(keys, g) + Events(rest.keys, g));
  }

  // ----- One key at a time ------------------------------------------------------------------------

  lemma PlainByte(r: Router, b: Byte)
    requires Ready(r) && b != 0x1B && b != 0x0D && b != 0x6E && b != 0x4E && b != 0x04
    ensures Ready(RouteByte(r, b)) && Follows(r, RouteByte(r, b), Plain(b))
  {
    ByteKeeps(r, b);
    assert r.(dropLeadingLF := false) == r;
    EventsOne(ToggleKey, r.modeGeneration);
    EventsOne(EnterKey, r.modeGeneration);
    assert r.keys + [] == r.keys;
  }

  lemma ReturnByte(r: Router)
    requires Ready(r)
    ensures var next := RouteByte(r, 0x0D);
            && next.dropLeadingLF && Ready(next.(dropLeadingLF := false))
            && Follows(r, next, [EnterKey]) && Follows(r, next.(dropLeadingLF := false), [EnterKey])
  {
    ByteKeeps(r, 0x0D);
    assert r.(dropLeadingLF := false) == r;
    EventsOne(EnterKey, r.modeGeneration);
  }

  /** Waiting for the line feed after a return makes no difference to anything else. */
  lemma WaitingIsReady(r: Router, v: Bytes)
    requires r.dropLeadingLF && Ready(r.(dropLeadingLF := false)) && v != []
    ensures v[0] == 0x0A ==> Route(r, v) == Route(r.(dropLeadingLF := false), v[1..])
    ensures v[0] != 0x0A ==> Route(r, v) == Route(r.(dropLeadingLF := false), v)
  {
    RouteFirst(r, v);
    RouteFirst(r.(dropLeadingLF := false), v);
  }

  lemma EscapeByte(r: Router)
    requires Ready(r)
    ensures var next := RouteByte(r, 0x1B);
            Coherent(next) && next.decoder == Escape && !next.dropLeadingLF && Follows(r, next, [])
  {
    ByteKeeps(r, 0x1B);
    assert r.(dropLeadingLF := false) == r;
    assert r.keys + [] == r.keys;
  }

  lemma AfterEscape(r: Router, b: Byte)
    requires Coherent(r) && r.review && !r.noteTransition && !r.dropLeadingLF && r.decoder == Escape
    ensures var next := RouteByte(r, b);
            && Coherent(next) && !next.dropLeadingLF && Follows(r, next, [])
            && if b == 0x5B || b == 0x4F then next.decoder == CSI || next.decoder == SS3 else Ready(next)
  {
    ByteKeeps(r, b);
    assert r.(dropLeadingLF := false) == r;
    assert r.keys + [] == r.keys;
  }

  lemma LastOfSequence(r: Router, b: Byte)
    requires Coherent(r) && r.review && !r.noteTransition && !r.dropLeadingLF && (r.decoder == CSI || r.decoder == SS3)
    ensures Ready(RouteByte(r, b)) && Follows(r, RouteByte(r, b), Arrow(b))
  {
    ByteKeeps(r, b);
    assert r.(dropLeadingLF := false) == r;
    EventsOne(UpKey, r.modeGeneration);
    EventsOne(DownKey, r.modeGeneration);
    assert r.keys + [] == r.keys;
  }

  lemma FollowsTwice(a: Router, b: Router, c: Router, keys: seq<Key>)
    requires Follows(a, b, []) && Follows(b, c, keys)
    ensures Follows(a, c, keys)
  {
    assert a.keys + [] == a.keys;
  }

  // ----- The ends ---------------------------------------------------------------------------------

  lemma {:induction false} NoteWaits(r: Router, v: Bytes)
    requires r.noteTransition && !r.dropLeadingLF
    ensures Route(r, v) == r.(noteBytes := r.noteBytes + v)
  {
    if v == [] {
      assert r.noteBytes + v == r.noteBytes;
    } else {
      var front, b := v[..|v| - 1], v[|v| - 1];
      NoteWaits(r, front);
      assert (r.noteBytes + front) + [b] == r.noteBytes + v;
    }
  }

  lemma NoteByte(r: Router, v: Bytes)
    requires Ready(r) && v != [] && (v[0] == 0x6E || v[0] == 0x4E)
    ensures HasRead(r, Route(r, v), Reading([NoteKey], Notes(v[1..])))
  {
    RouteFirst(r, v);
    assert r.(dropLeadingLF := false) == r;
    var next := RouteByte(r, v[0]);
    assert next == AppendKey(r, NoteKey).(noteTransition := true);
    NoteWaits(next, v[1..]);
    EventsOne(NoteKey, r.modeGeneration);
  }

  lemma EndByte(r: Router, v: Bytes)
    requires Ready(r) && v != [] && v[0] == 0x04
    ensures HasRead(r, Route(r, v), Reading([EOFKey], Leaves(v[1..])))
  {
    RouteFirst(r, v);
    ByteKeeps(r, 0x04);
    assert r.(dropLeadingLF := false) == r;
    var next := RouteByte(r, 0x04);
    assert next == Disable(AppendKey(r, EOFKey), false);
    PassThrough(next, v[1..]);
    EventsOne(EOFKey, r.modeGeneration);
    assert v[1..] == [] ==> r.lineBytes + v[1..] == r.lineBytes;
  }

  // ----- All bytes --------------------------------------------------------------------------------

  lemma Sequence(r: Router, v: Bytes, rest: Router)
    requires Ready(r) && |v| >= 3 && v[0] == 0x1B && (v[1] == 0x5B || v[1] == 0x4F)
    requires rest == RouteByte(RouteByte(RouteByte(r, v[0]), v[1]), v[2])
    ensures Ready(rest) && Follows(r, rest, Arrow(v[2]))
  {
    EscapeByte(r);
    var one := RouteByte(r, v[0]);
    AfterEscape(one, v[1]);
    var two := RouteByte(one, v[1]);
    LastOfSequence(two, v[2]);
    FollowsTwice(one, two, rest, Arrow(v[2]));
    FollowsTwice(r, one, rest, Arrow(v[2]));
  }

  /** The keys that bytes read in review queue are exactly those in them, in order and under that review. */
  lemma {:induction false} KeysExactly(r: Router, v: Bytes)
    requires Ready(r)
    ensures HasRead(r, Route(r, v), Keys(v))
    decreases |v|
  {
    if v == [] {
      assert r.keys + [] == r.keys;
    } else {
      RouteFirst(r, v);
      if v[0] == 0x1B {
        EscapeKeys(r, v);
      } else if v[0] == 0x0D {
        ReturnKeys(r, v);
      } else if v[0] == 0x6E || v[0] == 0x4E {
        NoteByte(r, v);
      } else if v[0] == 0x04 {
        EndByte(r, v);
      } else {
        PlainByte(r, v[0]);
        KeysExactly(RouteByte(r, v[0]), v[1..]);
        ReadOn(r, RouteByte(r, v[0]), Route(r, v), Plain(v[0]), Keys(v[1..]));
      }
    }
  }

  lemma {:induction false} ReturnKeys(r: Router, v: Bytes)
    requires Ready(r) && v != [] && v[0] == 0x0D
    ensures HasRead(r, Route(r, v), Keys(v))
    decreases |v|, 0
  {
    RouteFirst(r, v);
    ReturnByte(r);
    var next, rest := RouteByte(r, 0x0D), v[1..];
    var ready := next.(dropLeadingLF := false);
    if rest == [] {
      assert [EnterKey] + [] == [EnterKey];
    } else {
      WaitingIsReady(next, rest);
      var tail := if rest[0] == 0x0A then v[2..] else rest;
      assert rest[1..] == v[2..];
      KeysExactly(ready, tail);
      ReadOn(r, ready, Route(r, v), [EnterKey], Keys(tail));
    }
  }

  lemma {:induction false} EscapeKeys(r: Router, v: Bytes)
    requires Ready(r) && v != [] && v[0] == 0x1B
    ensures HasRead(r, Route(r, v), Keys(v))
    decreases |v|, 0
  {
    RouteFirst(r, v);
    EscapeByte(r);
    var one := RouteByte(r, v[0]);
    if |v| > 1 {
      RouteFirst(one, v[1..]);
      AfterEscape(one, v[1]);
      var two := RouteByte(one, v[1]);
      FollowsTwice(r, one, two, []);
      assert v[1..][1..] == v[2..];
      if v[1] != 0x5B && v[1] != 0x4F {
        KeysExactly(two, v[2..]);
        ReadOn(r, two, Route(r, v), [], Keys(v[2..]));
        assert [] + Keys(v[2..]).keys == Keys(v[2..]).keys;
      } else if |v| > 2 {
        RouteFirst(two, v[2..]);
        assert v[2..][1..] == v[3..];
        var three := RouteByte(two, v[2]);
        Sequence(r, v, three);
        KeysExactly(three, v[3..]);
        ReadOn(r, three, Route(r, v), Arrow(v[2]), Keys(v[3..]));
      }
    }
  }

  /** And so they are however the bytes are cut into chunks. */
  lemma KeysOfChunks(r: Router, a: Bytes, b: Bytes)
    requires Ready(r)
    ensures HasRead(r, Route(Route(r, a), b), Keys(a + b))
  {
    RouteConcat(r, a, b);
    KeysExactly(r, a + b);
  }
}
