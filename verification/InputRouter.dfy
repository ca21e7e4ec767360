/** The router as the object its mutex guards. Its chunk loop hands whole tails to a buffer at once; it is
    proved to do exactly what a byte-by-byte router would.
 */
module InputRouter {
  import opened Utf8
  import opened InputAuthority
  import opened RouterModel
  import RouterRuns

  datatype Found = TheKey(key: Key) | Inactive | SourceFailed | Nothing

  class PlanReviewInputRouter {
    var review: bool
    var noteTransition: bool
    var noteInput: bool
    var dropLeadingLF: bool
    var failed: bool
    var decoderState: Decoder
    var decoderGeneration: nat
    var escapeTimer: bool
    var modeGeneration: nat
    var polling: bool
    var lineBytes: Bytes
    var lineAuthority: Authority
    var noteBytes: Bytes
    var reviewKeys: seq<KeyEvent>

    function Value(): Router
      reads this
    {
      Router(review, noteTransition, noteInput, dropLeadingLF, failed, decoderState, decoderGeneration, escapeTimer,
             modeGeneration, polling, lineBytes, lineAuthority, noteBytes, reviewKeys)
    }

    predicate Coherent()
      reads this
    {
      RouterRuns.Coherent(Value())
    }

    /** What every run keeps, the bound on the key queue included. */
    predicate Valid()
      reads this
    {
      Coherent() && RouterRuns.Roomy(Value()) && RouterRuns.Bounded(Value())
    }

    constructor ()
      ensures Value() == FRESH_ROUTER && Valid()
    {
      review, noteTransition, noteInput, dropLeadingLF, failed := false, false, false, false, false;
      decoderState, decoderGeneration, escapeTimer, modeGeneration, polling := Idle, 0, false, 0, false;
      lineBytes, lineAuthority, noteBytes, reviewKeys := [], UNSET, [], [];
    }

    function CurrentLineAuthority(): (authority: Authority)
      reads this
      ensures authority == CurrentAuthority(Value())
    {
      var mode := if review then PlanReview else if noteInput then PlanNote else Ordinary;
      Authority(modeGeneration, mode)
    }

    method AppendReviewKey(key: Key)
      modifies this`reviewKeys
      ensures Value() == AppendKey(old(Value()), key)
    {
      reviewKeys := reviewKeys + [KeyEvent(key, modeGeneration)];
    }

    method ArmDecoderTimer()
      modifies this`decoderGeneration, this`escapeTimer
      ensures Value() == Arm(old(Value()))
    {
      decoderGeneration := decoderGeneration + 1;
      escapeTimer := true;
    }

    method StopDecoderTimer()
      modifies this`decoderGeneration, this`escapeTimer
      ensures Value() == Stop(old(Value()))
    {
      decoderGeneration := decoderGeneration + 1;
      escapeTimer := false;
    }

    method ResetDecoder()
      modifies this`decoderGeneration, this`escapeTimer, this`decoderState
      ensures Value() == Reset(old(Value()))
    {
      StopDecoderTimer();
      decoderState := Idle;
    }

    method DisableReviewLocked(clearKeys: bool)
      modifies this
      ensures Value() == Disable(old(Value()), clearKeys)
    {
      if decoderState == Idle {
        ResetDecoder();
      }
      if clearKeys {
        reviewKeys := [];
      }
      LeaveReview();
    }

    method LeaveReview()
      modifies this`noteBytes, this`noteTransition, this`noteInput, this`modeGeneration, this`review
      ensures Value() == old(Value()).(noteBytes := [], noteTransition := false, noteInput := false,
                                       modeGeneration := old(modeGeneration) + 1, review := false)
    {
      noteBytes := [];
      noteTransition := false;
      noteInput := false;
      modeGeneration := modeGeneration + 1;
      review := false;
    }

    method ConsumeReviewByte(value: Byte)
      modifies this
      ensures Value() == ReviewByte(old(Value()), value)
    {
      match decoderState
      case Idle =>
        ConsumeKeyByte(value);
      case Escape =>
        StopDecoderTimer();
        if value == 0x5B {
          decoderState := CSI;
          ArmDecoderTimer();
        } else if value == 0x4F {
          decoderState := SS3;
          ArmDecoderTimer();
        } else {
          decoderState := Idle;
        }
      case _ =>
        StopDecoderTimer();
        decoderState := Idle;
        if value == 0x41 {
          AppendReviewKey(UpKey);
        } else if value == 0x42 {
          AppendReviewKey(DownKey);
        }
    }

    /** A byte outside any sequence. */
    method ConsumeKeyByte(value: Byte)
      requires decoderState == Idle
      modifies this
      ensures Value() == ReviewByte(old(Value()), value)
    {
      if value == 0x1B {
        decoderState := Escape;
        ArmDecoderTimer();
      } else if value == 0x20 {
        AppendReviewKey(ToggleKey);
      } else if value == 0x0D {
        dropLeadingLF := true;
        AppendReviewKey(EnterKey);
      } else if value == 0x0A {
        AppendReviewKey(EnterKey);
      } else if value == 0x6E || value == 0x4E {
        AppendReviewKey(NoteKey);
        noteTransition := true;
      } else if value == 0x04 {
        AppendReviewKey(EOFKey);
        DisableReviewLocked(false);
      }
    }

    /** The idle decoder never comes here; the original panics if it does. */
    method ConsumeDisabledSequenceByte(value: Byte)
      requires decoderState != Idle
      modifies this`decoderGeneration, this`escapeTimer, this`decoderState
      ensures Value() == DisabledByte(old(Value()), value)
    {
      if decoderState == Escape {
        StopDecoderTimer();
        if value == 0x5B {
          decoderState := CSI;
          ArmDecoderTimer();
          return;
        }
        if value == 0x4F {
          decoderState := SS3;
          ArmDecoderTimer();
          return;
        }
        decoderState := Idle;
      } else {
        ResetDecoder();
      }
    }

    method AppendLineBytes(values: Bytes, authority: Authority)
      modifies this`lineBytes, this`lineAuthority
      ensures Value() == AppendLine(old(Value()), values, authority)
    {
      if |values| == 0 {
        return;
      }
      if |lineBytes| == 0 {
        lineAuthority := authority;
      } else if lineAuthority != authority {
        lineAuthority := Authority(authority.generation, Mixed);
      }
      lineBytes := lineBytes + values;
    }

    /** The rest of a chunk belongs to a note that is about to open. */
    method KeepForNote(rest: Bytes)
      requires Coherent() && noteTransition && !dropLeadingLF
      modifies this`noteBytes
      ensures Value() == Route(old(Value()), rest) && Coherent()
    {
      NoteTail(Value(), rest);
      RouterRuns.RouteKeeps(Value(), rest);
      noteBytes := noteBytes + rest;
    }

    /** The rest of a chunk goes to the line editor. */
    method PassOn(rest: Bytes)
      requires Coherent() && !noteTransition && !dropLeadingLF && !review && decoderState == Idle
      modifies this`lineBytes, this`lineAuthority
      ensures Value() == Route(old(Value()), rest) && Coherent()
    {
      RouterRuns.PassThrough(Value(), rest);
      RouterRuns.RouteKeeps(Value(), rest);
      AppendLineBytes(rest, CurrentLineAuthority());
    }

    /** The line feed after a return in review is dropped; anything else ends the wait for it. */
    method TakeLineFeed(value: Byte) returns (taken: bool)
      requires Coherent()
      modifies this`dropLeadingLF
      ensures Coherent() && (taken ==> Value() == RouteByte(old(Value()), value))
      ensures !taken ==> !dropLeadingLF && forall rest: Bytes :: rest != [] && rest[0] == value ==> Route(Value(), rest) == Route(old(Value()), rest)
    {
      ghost var before := Value();
      taken := dropLeadingLF && value == 0x0A;
      dropLeadingLF := false;
      if !taken {
        forall rest: Bytes | rest != [] && rest[0] == value
          ensures Route(Value(), rest) == Route(before, rest)
        {
          ReadyRoutes(before, Value(), rest);
        }
      }
    }

    /** The rest of a chunk is routed one byte first. */
    lemma RouteRest(values: Bytes, index: nat)
      requires Coherent() && index < |values|
      ensures Route(Value(), values[index..]) == Route(RouteByte(Value(), values[index]), values[index + 1..])
      ensures RouterRuns.Coherent(RouteByte(Value(), values[index]))
    {
      RouterRuns.RouteFirst(Value(), values[index..]);
      RouterRuns.ByteKeeps(Value(), values[index]);
      assert values[index..][1..] == values[index + 1..];
    }

    /** Routes a chunk. */
    method RouteBytes(values: Bytes)
      requires Coherent()
      modifies this
      ensures Value() == Route(old(Value()), values) && Coherent()
    {
      var index := 0;
      while index < |values|
        invariant index <= |values| && Coherent()
        invariant Route(Value(), values[index..]) == Route(old(Value()), values)
      {
        RouteRest(values, index);
        var taken := TakeLineFeed(values[index]);
        if taken {
          index := index + 1;
          continue;
        }
        if noteTransition {
          KeepForNote(values[index..]);
          return;
        }
        if !review && decoderState == Idle {
          PassOn(values[index..]);
          return;
        }
        RouteRest(values, index);
        DecodeByte(values[index]);
        index := index + 1;
      }
    }

    /** One byte for the escape decoder, in review or after it. */
    method DecodeByte(value: Byte)
      requires !noteTransition && !dropLeadingLF && (review || decoderState != Idle)
      modifies this
      ensures Value() == RouteByte(old(Value()), value)
    {
      assert Value().(dropLeadingLF := false) == Value();
      if !review {
        ConsumeDisabledSequenceByte(value);
      } else {
        ConsumeReviewByte(value);
      }
    }

    /** A read of the source begins only if the router has failed nowhere and has room for it. */
    method BeginRead() returns (ok: bool)
      requires Valid() && !polling
      modifies this`polling
      ensures Valid() && ok == (!failed && HasCapacity(Value()))
      ensures Value() == if ok then Poll(old(Value())) else old(Value())
    {
      ok := !failed && InputCapacityAvailable();
      polling := ok;
    }

    predicate InputCapacityAvailable()
      reads this
      ensures InputCapacityAvailable() == HasCapacity(Value())
    {
      if review && noteTransition then |reviewKeys| == 0 && |noteBytes| == 0
      else if review then |reviewKeys| == 0
      else |lineBytes| == 0
    }

    /** What was read, at most one buffer and possibly nothing, is routed. The key queue holds no more than a
        buffer of keys and one, and no more than a buffer if it was empty or fewer bytes were read. */
    method FinishRead(values: Bytes)
      requires Valid() && polling && |values| <= CHUNK
      modifies this
      ensures Valid() && Value() == Deliver(old(Value()), values)
      ensures |reviewKeys| <= CHUNK + 1
      ensures old(review) && |old(reviewKeys)| + |values| <= CHUNK ==> |reviewKeys| <= CHUNK
    {
      RouterRuns.DeliverKeeps(Value(), values);
      RouteBytes(values);
      polling := false;
    }

    /** Opening review over the note editor is a caller's error; the original panics. The source's lock keeps
        this, like every change of mode, apart from a read. */
    method EnableReview()
      requires Valid() && !polling && (review || !noteInput)
      modifies this
      ensures Value() == Enable(old(Value())) && Valid()
    {
      if review {
        return;
      }
      OpenReview();
    }

    method OpenReview()
      modifies this
      ensures Value() == Reset(old(Value())).(keys := [], noteBytes := [], noteTransition := false, noteInput := false,
                                              modeGeneration := old(Value()).modeGeneration + 1, review := true)
    {
      ResetDecoder();
      reviewKeys, noteBytes := [], [];
      noteTransition := false;
      noteInput := false;
      modeGeneration := modeGeneration + 1;
      review := true;
    }

    method DisableReview()
      requires Valid() && !polling
      modifies this
      ensures Value() == Disable(old(Value()), true) && Valid()
    {
      DisableReviewLocked(true);
    }

    method OpenNote()
      modifies this`reviewKeys, this`noteBytes, this`noteTransition, this`noteInput, this`modeGeneration, this`review
      ensures Value() == old(Value()).(keys := [], noteBytes := [], noteTransition := false, noteInput := true,
                                       modeGeneration := old(Value()).modeGeneration + 1, review := false)
    {
      reviewKeys, noteBytes := [], [];
      noteTransition := false;
      noteInput := true;
      modeGeneration := modeGeneration + 1;
      review := false;
    }

    /** Opens the note editor, or refuses. The bytes typed after the Note key become its first input. */
    method BeginNoteInput() returns (ok: bool, authority: Authority)
      requires Valid() && !polling
      modifies this
      ensures Valid() && ok == MayBeginNote(old(Value()))
      ensures ok ==> Value() == BeginNote(old(Value())) && authority == CurrentAuthority(Value()) && authority.mode == PlanNote
      ensures !ok ==> Value() == old(Value())
    {
      if noteInput || (review && !noteTransition) {
        return false, UNSET;
      }
      var pending := noteBytes;
      ResetDecoder();
      OpenNote();
      authority := CurrentLineAuthority();
      AppendLineBytes(pending, authority);
      ok := true;
    }

    /** Closes the note editor that an authority opened, and no other. */
    method EndNoteInput(authority: Authority) returns (ok: bool)
      requires Valid() && !polling
      modifies this`noteInput, this`modeGeneration
      ensures Valid() && ok == MayEndNote(old(Value()), authority)
      ensures Value() == if ok then EndNote(old(Value())) else old(Value())
    {
      if !noteInput || CurrentLineAuthority() != authority || authority.mode != PlanNote {
        return false;
      }
      noteInput := false;
      modeGeneration := modeGeneration + 1;
      return true;
    }

    /** The editor's read: the front of the buffer, with the authority of the whole buffer. With no room or
        nothing buffered there is nothing to return; with nothing buffered the original waits, or returns the
        error that ended the source. */
    method ReadWithAuthority(size: nat) returns (bytes: Bytes, authority: Authority, err: bool)
      requires Valid()
      modifies this`lineBytes, this`lineAuthority
      ensures Valid() && bytes <= old(lineBytes) && |bytes| == (if |old(lineBytes)| < size then |old(lineBytes)| else size)
      ensures err <==> size > 0 && old(lineBytes) == [] && failed
      ensures if bytes == [] then Value() == old(Value()) && authority == UNSET
              else Value() == TakeLineBytes(old(Value()), |bytes|) && authority == old(lineAuthority)
    {
      bytes, authority, err := [], UNSET, false;
      if size == 0 {
        return;
      }
      if |lineBytes| > 0 {
        authority := lineAuthority;
        var count := if |lineBytes| < size then |lineBytes| else size;
        bytes := lineBytes[..count];
        lineBytes := lineBytes[count..];
        if |lineBytes| == 0 {
          lineAuthority := UNSET;
        }
        return;
      }
      err := failed;
    }

    /** What a reader of one mode period finds: its next key, that its period is over, the source's error, or
        nothing yet. A key typed in another period is never returned, except the EOF key that ended the
        period before the reader's. */
    method NextReviewKey(generation: nat) returns (found: Found)
      requires Valid()
      modifies this`reviewKeys
      ensures Valid()
      ensures found.TheKey? ==>
                && old(reviewKeys) != [] && found.key == old(reviewKeys)[0].key && Value() == TakeKey(old(Value()))
                && (|| old(reviewKeys)[0].generation == generation
                    || (found.key == EOFKey && old(reviewKeys)[0].generation + 1 == generation == modeGeneration && !review))
      ensures !found.TheKey? ==> Value() == old(Value())
      ensures found == Inactive ==> old(reviewKeys) != [] || !review || modeGeneration != generation
      ensures found == Nothing ==> reviewKeys == [] && review && modeGeneration == generation && !failed
    {
      if |reviewKeys| > 0 {
        var event := reviewKeys[0];
        var eofAfterDisable := event.key == EOFKey && event.generation + 1 == generation && !review && modeGeneration == generation;
        if event.generation != generation && !eofAfterDisable {
          return Inactive;
        }
        reviewKeys := reviewKeys[1..];
        return TheKey(event.key);
      }
      if !review || modeGeneration != generation {
        return Inactive;
      }
      if failed {
        return SourceFailed;
      }
      return Nothing;
    }

    method ExpireDecoder(generation: nat)
      requires Valid()
      modifies this`escapeTimer, this`decoderState, this`reviewKeys
      ensures Valid() && Value() == Expire(old(Value()), generation)
    {
      if generation != decoderGeneration || decoderState == Idle {
        return;
      }
      var state := decoderState;
      escapeTimer := false;
      decoderState := Idle;
      if state == Escape && review {
        AppendReviewKey(EscapeKey);
      }
    }

    method FinishSource()
      requires Valid()
      modifies this`decoderGeneration, this`escapeTimer, this`decoderState, this`reviewKeys, this`failed, this`polling
      ensures Valid() && Value() == Finish(old(Value()))
    {
      var state := decoderState;
      ResetDecoder();
      if state == Escape && review {
        AppendReviewKey(EscapeKey);
      }
      failed, polling := true, false;
    }
  }

  /** Clearing the pending line feed in front of another byte changes nothing. */
  lemma ReadyRoutes(before: Router, ready: Router, rest: Bytes)
    requires rest != [] && ready == before.(dropLeadingLF := false) && !(before.dropLeadingLF && rest[0] == 0x0A)
    ensures RouteByte(before, rest[0]) == RouteByte(ready, rest[0])
    ensures Route(before, rest) == Route(ready, rest)
  {
    RouterRuns.RouteFirst(before, rest);
    RouterRuns.RouteFirst(ready, rest);
  }

  /** While a note is pending every byte waits with it. */
  lemma {:induction false} NoteTail(r: Router, values: Bytes)
    requires r.noteTransition && !r.dropLeadingLF
    ensures Route(r, values) == r.(noteBytes := r.noteBytes + values)
  {
    if values == [] {
      assert r.noteBytes + values == r.noteBytes;
    } else {
      var front, b := values[..|values| - 1], values[|values| - 1];
      NoteTail(r, front);
      assert (r.noteBytes + front) + [b] == r.noteBytes + values;
    }
  }
}
