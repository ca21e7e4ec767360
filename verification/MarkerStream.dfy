/** Streaming search for a marker: bytes that cannot start it are passed on as text at once, bytes that
    could are held back until they are decided. `f` is whatever reads the text.
 */
module MarkerStream {
  import opened Utf8

  const ESC: Byte := 0x1B

  function Fold<S>(f: (S, Byte) -> S, s: S, t: Bytes): S {
    if t == [] then s else f(Fold(f, s, t[..|t| - 1]), t[|t| - 1])
  }

  /** Gives up leading candidate bytes as text until what is left could still become the marker. */
  function Settle<S>(f: (S, Byte) -> S, s: S, candidate: Bytes, marker: Bytes): (S, Bytes)
    decreases |candidate|
  {
    if candidate == [] || candidate <= marker then (s, candidate)
    else Settle(f, f(s, candidate[0]), candidate[1..], marker)
  }

  /** A marker is found by its escape, which occurs nowhere else in it. */
  predicate MarkerLike(marker: Bytes) {
    |marker| > 0 && marker[0] == ESC && forall i :: 0 < i < |marker| ==> marker[i] != ESC
  }

  /** How much of the marker the last bytes could still be the start of. */
  function Held(t: Bytes, marker: Bytes): (k: nat)
    requires |marker| > 0
    ensures k <= |t| && k <= |marker|
  {
    if t == [] then 0
    else
      var k := Held(t[..|t| - 1], marker);
      if k < |marker| && t[|t| - 1] == marker[k] then k + 1 else if t[|t| - 1] == ESC then 1 else 0
  }

  predicate MarkerAt(t: Bytes, i: nat, marker: Bytes) {
    i + |marker| <= |t| && forall j :: 0 <= j < |marker| ==> t[i + j] == marker[j]
  }

  /** The marker occurs nowhere in some bytes. */
  ghost predicate Free(t: Bytes, marker: Bytes) {
    forall i: nat :: !MarkerAt(t, i, marker)
  }

  lemma {:induction false} HeldIsTail(t: Bytes, marker: Bytes)
    requires MarkerLike(marker)
    ensures forall j :: 0 <= j < Held(t, marker) ==> t[|t| - Held(t, marker) + j] == marker[j]
  {
    if t != [] {
      HeldIsTail(t[..|t| - 1], marker);
    }
  }

  lemma HeldIsProper(t: Bytes, marker: Bytes)
    requires MarkerLike(marker) && Free(t, marker)
    ensures Held(t, marker) < |marker|
  {
    HeldIsTail(t, marker);
    assert !MarkerAt(t, if |t| >= |marker| then |t| - |marker| else 0, marker);
  }

  lemma FreePrefix(t: Bytes, n: nat, marker: Bytes)
    requires Free(t, marker) && n <= |t|
    ensures Free(t[..n], marker)
  {
    forall i: nat
      ensures !MarkerAt(t[..n], i, marker)
    {
      assert !MarkerAt(t, i, marker);
    }
  }

  /** A marker that follows marker-free bytes is found where it starts: before its last byte there is none. */
  lemma FreeUntilMarker(t: Bytes, marker: Bytes, k: nat)
    requires MarkerLike(marker) && Free(t, marker) && k < |marker|
    ensures Free(t + marker[..k], marker)
  {
    forall i: nat
      ensures !MarkerAt(t + marker[..k], i, marker)
    {
      NotBeforeMarker(t, marker, k, i);
    }
  }

  lemma NotBeforeMarker(t: Bytes, marker: Bytes, k: nat, i: nat)
    requires MarkerLike(marker) && Free(t, marker) && k < |marker|
    ensures !MarkerAt(t + marker[..k], i, marker)
  {
    var s := t + marker[..k];
    if i + |marker| <= |t| {
      assert !MarkerAt(t, i, marker);
      var j :| 0 <= j < |marker| && t[i + j] != marker[j];
      assert s[i + j] == t[i + j];
    } else if i + |marker| <= |s| {
      var j := |t| - i;
      assert 0 < j < |marker| && s[i + j] == marker[..k][0] == ESC;
      assert s[i + j] != marker[j];
    }
  }

  lemma {:induction false} HeldMarker(t: Bytes, marker: Bytes, k: nat)
    requires MarkerLike(marker) && 1 <= k <= |marker|
    ensures Held(t + marker[..k], marker) == k
  {
    var s := t + marker[..k];
    assert s[|s| - 1] == marker[k - 1];
    if k == 1 {
      assert s[..|s| - 1] == t;
    } else {
      HeldMarker(t, marker, k - 1);
      assert s[..|s| - 1] == t + marker[..k - 1];
    }
  }

  lemma {:induction false} FoldConcat<S>(f: (S, Byte) -> S, s: S, a: Bytes, b: Bytes)
    ensures Fold(f, s, a + b) == Fold(f, Fold(f, s, a), b)
  {
    if b == [] {
      assert a + b == a;
    } else {
      assert (a + b)[..|a + b| - 1] == a + b[..|b| - 1];
      FoldConcat(f, s, a, b[..|b| - 1]);
    }
  }

  lemma FoldCons<S>(f: (S, Byte) -> S, s: S, b: Byte, t: Bytes)
    ensures Fold(f, s, [b] + t) == Fold(f, f(s, b), t)
  {
    FoldConcat(f, s, [b], t);
    assert [b][..0] == [];
    assert Fold(f, s, [b]) == f(Fold(f, s, [b][..0]), b);
  }

  /** One more byte extends a marker prefix exactly when it is the marker's next byte. */
  lemma PrefixGrows(marker: Bytes, k: nat, b: Byte)
    requires k < |marker|
    ensures marker[..k] + [b] <= marker <==> b == marker[k]
    ensures b == marker[k] ==> marker[..k] + [b] == marker[..k + 1]
  {
    assert (marker[..k] + [b])[k] == b;
  }

  /** Bytes without an escape are given up one by one. */
  lemma {:induction false} SettleText<S>(f: (S, Byte) -> S, s: S, t: Bytes, b: Byte, marker: Bytes)
    requires MarkerLike(marker) && ESC !in t
    ensures Settle(f, s, t + [b], marker) == if b == ESC then (Fold(f, s, t), [ESC]) else (Fold(f, s, t + [b]), [])
    decreases |t|
  {
    if t == [] {
      assert t + [b] == [b];
      SettleByte(f, s, b, marker);
    } else {
      SettleText(f, f(s, t[0]), t[1..], b, marker);
      SettleFirst(f, s, t[0], t[1..] + [b], marker);
      FoldCons(f, s, t[0], t[1..]);
      FoldCons(f, s, t[0], t[1..] + [b]);
      assert t == [t[0]] + t[1..] && t + [b] == [t[0]] + (t[1..] + [b]);
    }
  }

  lemma SettleByte<S>(f: (S, Byte) -> S, s: S, b: Byte, marker: Bytes)
    requires MarkerLike(marker)
    ensures Settle(f, s, [b], marker) == if b == ESC then (s, [ESC]) else (Fold(f, s, [b]), [])
  {
    assert [b][1..] == [] && [b][..0] == [];
    assert [b] <= marker <==> b == ESC;
    assert Fold(f, s, [b]) == f(Fold(f, s, [b][..0]), b);
  }

  lemma SettleFirst<S>(f: (S, Byte) -> S, s: S, b: Byte, rest: Bytes, marker: Bytes)
    requires MarkerLike(marker) && b != ESC
    ensures Settle(f, s, [b] + rest, marker) == Settle(f, f(s, b), rest, marker)
  {
    assert ([b] + rest)[0] == b && ([b] + rest)[1..] == rest;
  }

  /** A byte that breaks a candidate gives up everything before it, and itself unless it is an escape. */
  lemma SettleBroken<S>(f: (S, Byte) -> S, s: S, k: nat, b: Byte, marker: Bytes)
    requires MarkerLike(marker) && k < |marker| && b != marker[k]
    ensures var c := marker[..k];
            Settle(f, s, c + [b], marker) == if b == ESC then (Fold(f, s, c), [ESC]) else (Fold(f, s, c + [b]), [])
  {
    var c := marker[..k];
    PrefixGrows(marker, k, b);
    if k == 0 {
      SettleText(f, s, c, b, marker);
    } else {
      var rest := c[1..];
      assert ESC !in rest;
      assert (c + [b])[0] == c[0] && (c + [b])[1..] == rest + [b];
      SettleText(f, f(s, c[0]), rest, b, marker);
      FoldCons(f, s, c[0], rest);
      FoldCons(f, s, c[0], rest + [b]);
      assert c == [c[0]] + rest && c + [b] == [c[0]] + (rest + [b]);
    }
  }

  /** Marker-free bytes so far have been read as text but for the held-back start of a marker; one more
      byte keeps it so. */
  lemma ScanStep<S>(f: (S, Byte) -> S, s: S, front: Bytes, b: Byte, marker: Bytes)
    requires MarkerLike(marker) && Held(front, marker) < |marker|
    ensures var k, next := Held(front, marker), Held(front + [b], marker);
            Settle(f, Fold(f, s, front[..|front| - k]), marker[..k] + [b], marker) ==
              (Fold(f, s, (front + [b])[..|front| + 1 - next]), marker[..next])
  {
    var k, next := Held(front, marker), Held(front + [b], marker);
    var text := front[..|front| - k];
    HeldSplits(front, b, marker);
    PrefixGrows(marker, k, b);
    if b != marker[k] {
      ScanBroken(f, s, text, k, b, marker);
    }
  }

  lemma ScanBroken<S>(f: (S, Byte) -> S, s: S, text: Bytes, k: nat, b: Byte, marker: Bytes)
    requires MarkerLike(marker) && k < |marker| && b != marker[k]
    ensures var c := marker[..k];
            Settle(f, Fold(f, s, text), c + [b], marker) ==
              if b == ESC then (Fold(f, s, text + c), marker[..1]) else (Fold(f, s, text + (c + [b])), marker[..0])
  {
    SettleBroken(f, Fold(f, s, text), k, b, marker);
    FoldConcat(f, s, text, marker[..k]);
    FoldConcat(f, s, text, marker[..k] + [b]);
    assert marker[..1] == [ESC] && marker[..0] == [];
  }

  /** The held-back tail and the text before it, one byte later. */
  lemma HeldSplits(front: Bytes, b: Byte, marker: Bytes)
    requires MarkerLike(marker) && Held(front, marker) < |marker|
    ensures var k, next := Held(front, marker), Held(front + [b], marker);
            var text, after := front[..|front| - k], (front + [b])[..|front| + 1 - next];
            && (b == marker[k] ==> next == k + 1 && after == text)
            && (b != marker[k] && b == ESC ==> next == 1 && after == text + marker[..k])
            && (b != marker[k] && b != ESC ==> next == 0 && after == text + (marker[..k] + [b]))
  {
    var k := Held(front, marker);
    var text, c := front[..|front| - k], marker[..k];
    HeldIsTail(front, marker);
    assert front == text + c by {
      assert front == front[..|front| - k] + front[|front| - k..];
    }
    HeldNext(front, b, marker);
    Slices(text, c, b);
  }

  /** What is held after one more byte. */
  lemma HeldNext(front: Bytes, b: Byte, marker: Bytes)
    requires MarkerLike(marker) && Held(front, marker) < |marker|
    ensures var k := Held(front, marker);
            Held(front + [b], marker) == if b == marker[k] then k + 1 else if b == ESC then 1 else 0
  {
    assert (front + [b])[..|front|] == front;
  }

  lemma Slices(text: Bytes, c: Bytes, b: Byte)
    ensures var s := (text + c) + [b];
            s[..|text|] == text && s[..|s| - 1] == text + c && s[..|s|] == text + (c + [b])
  {
  }
}
