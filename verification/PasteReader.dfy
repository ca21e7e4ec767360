/** The bracketed-paste reader as the object the line editor reads from. Bytes arrive from the source in
    chunks of any size and leave in buffers of any size.

    The source returns either bytes or an error, as the input router does.
 */
module PasteReader {
  import opened Basics
  import opened Utf8
  import opened MarkerStream
  import opened PasteModel
  import opened InputAuthority

  datatype Chunk = Chunk(bytes: Bytes, authority: Authority)

  function Flatten(chunks: seq<Chunk>): Bytes {
    if chunks == [] then [] else chunks[0].bytes + Flatten(chunks[1..])
  }

  /** Whether a byte of some input ends an editor line. */
  predicate Ends(u: Terminal, m: Machine, s: Bytes, k: nat)
    requires k < |s|
  {
    Consume(u, Feed(u, m, s[..k]), s[k]).1
  }

  /** No editor line ends in some input. */
  ghost predicate Open(u: Terminal, m: Machine, s: Bytes) {
    forall k: nat {:trigger Ends(u, m, s, k)} :: k < |s| ==> !Ends(u, m, s, k)
  }

  /** Where the first editor line of some input ends: the number of bytes through its last one. */
  ghost predicate LineAt(u: Terminal, m: Machine, s: Bytes, n: nat) {
    0 < n <= |s| && Ends(u, m, s, n - 1) && Open(u, m, s[..n - 1])
  }

  /** At the end of input a candidate can no longer become a marker. */
  function Flush(cf: Category, m: Machine): Machine {
    Fold(Reader(cf), m.(candidate := []), m.candidate)
  }

  /** The machine of a line is what its bytes make of the machine it started from; unless they ended the
      line, none of them did. If reading went on past the end of a line whose state was not taken, the next
      line's bytes are counted to it and its end is no longer looked for. */
  ghost predicate Lawful(cf: Category, start: Machine, fed: Bytes, whole: Machine, flushed: bool, done: bool, past: bool) {
    && whole == (if flushed then Flush(cf, Feed(Bracketed(cf), start, fed)) else Feed(Bracketed(cf), start, fed))
    && (done ==> !flushed)
    && (!past ==> if done then LineAt(Bracketed(cf), start, fed, |fed|) else Open(Bracketed(cf), start, fed))
  }

  /** The line's law is looked at where something asks for it, and not wherever the reader is valid. */
  predicate Asked(ask: bool) {
    true
  }

  class BracketedPasteReader {
    const cf: Category
    var source: seq<Chunk>
    var paste: bool
    var linePasted: bool
    var invalidUTF8: bool
    var unsafeText: bool
    var pasteRune: Bytes
    var typedRune: Bytes
    var candidate: Bytes
    var queued: Bytes
    var rawQueued: Bytes
    var rawAuthority: Authority
    var lineAuthority: Authority
    var lineAuthoritySet: bool
    var skipLineLF: bool
    var pendingErr: bool

    constructor (cf: Category, source: seq<Chunk>)
      ensures Valid() && !done && !past && this.cf == cf && start == FRESH && fed == [] && handed == [] && Stream() == Flatten(source)
    {
      this.cf, this.source := cf, source;
      paste, linePasted, invalidUTF8, unsafeText := false, false, false, false;
      pasteRune, typedRune, candidate, queued, rawQueued := [], [], [], [], [];
      rawAuthority, lineAuthority, lineAuthoritySet, skipLineLF, pendingErr := UNSET, UNSET, false, false, false;
      start, fed, tags, handed, flushed, done, past := FRESH, [], [], [], false, false, false;
    }

    function Value(): Machine
      reads this`paste, this`linePasted, this`invalidUTF8, this`unsafeText, this`typedRune, this`pasteRune,
            this`queued, this`candidate, this`skipLineLF
    {
      Machine(paste, linePasted, invalidUTF8, unsafeText, skipLineLF, pasteRune, typedRune, candidate, queued)
    }

    method FinishTypedRune()
      modifies this`invalidUTF8, this`typedRune
      ensures Value() == FinishTyped(old(Value()))
    {
      if |typedRune| == 0 {
        return;
      }
      invalidUTF8 := true;
      typedRune := [];
    }

    method FinishPastePayload()
      modifies this`invalidUTF8, this`pasteRune
      ensures Value() == FinishPaste(old(Value()))
    {
      if |pasteRune| > 0 {
        invalidUTF8 := true;
        pasteRune := [];
      }
    }

    method ConsumeTypedByte(value: Byte)
      modifies this`invalidUTF8, this`unsafeText, this`typedRune, this`queued
      ensures Value() == TypedByte(cf, old(Value()), value)
    {
      if value < 0x80 {
        FinishTypedRune();
        queued := queued + [value];
        return;
      }
      typedRune := typedRune + [value];
      if !FullRune(typedRune) {
        return;
      }
      var (character, size) := DecodeRune(typedRune);
      if character == RUNE_ERROR && size == 1 {
        invalidUTF8 := true;
        typedRune := [];
        return;
      }
      if UnsafeRune(cf, character) {
        unsafeText := true;
        typedRune := [];
        return;
      }
      queued := queued + typedRune[..size];
      typedRune := [];
    }

    method ConsumePasteByte(value: Byte)
      modifies this`invalidUTF8, this`unsafeText, this`pasteRune, this`queued
      ensures Value() == PasteByte(cf, old(Value()), value)
    {
      pasteRune := pasteRune + [value];
      if !FullRune(pasteRune) {
        return;
      }
      var (character, size) := DecodeRune(pasteRune);
      if character == RUNE_ERROR && size == 1 {
        invalidUTF8 := true;
        pasteRune := [];
        return;
      }
      pasteRune := pasteRune[size..];
      if UnsafeRune(cf, character) && character != 0x0D && character != 0x0A && character != 0x09 {
        unsafeText := true;
        return;
      }
      queued := queued + EncodeRune(ProjectRune(character));
    }

    method ConsumeLiteral(value: Byte)
      modifies this`invalidUTF8, this`unsafeText, this`typedRune, this`pasteRune, this`queued
      ensures Value() == Literal(cf, old(Value()), value)
    {
      if !paste {
        ConsumeTypedByte(value);
      } else {
        ConsumePasteByte(value);
      }
    }

    /** Gives up candidate bytes until the rest could still become the marker. */
    method SettleCandidate(value: Byte, expected: Bytes)
      modifies this`invalidUTF8, this`unsafeText, this`typedRune, this`pasteRune, this`queued, this`candidate
      ensures Value() == Settled(Reader(cf), old(Value()), value, expected)
    {
      candidate := candidate + [value];
      ghost var begun := Settle(Reader(cf), old(Value()).(candidate := []), candidate, expected);
      while |candidate| > 0 && !(candidate <= expected)
        invariant Settle(Reader(cf), Value().(candidate := []), candidate, expected) == begun
        decreases |candidate|
      {
        SettleOne(cf, Value(), candidate, expected);
        ConsumeLiteral(candidate[0]);
        candidate := candidate[1..];
      }
    }

    // The line being read, for the record: the machine it started from, the bytes consumed and the
    // authority each came under, what has been handed to the editor, whether an error flushed it, whether its
    // last byte has been read, and whether reading went on past that.
    ghost var start: Machine
    ghost var fed: Bytes
    ghost var tags: seq<Authority>
    ghost var handed: Bytes
    ghost var flushed: bool
    ghost var done: bool
    ghost var past: bool

    ghost function Stream(): Bytes
      reads this`rawQueued, this`source
    {
      rawQueued + Flatten(source)
    }

    /** The machine with everything the line has produced so far. */
    ghost function Whole(): Machine
      reads this`paste, this`linePasted, this`invalidUTF8, this`unsafeText, this`typedRune, this`pasteRune,
            this`queued, this`candidate, this`skipLineLF, this`handed
    {
      After(handed, Value())
    }

    /** What the line's bytes make of its starting point, and whether the last of them ended it. Said under
        a name, so that a proof looks at it only where it asks. */
    ghost predicate LineOk()
      reads this`paste, this`linePasted, this`invalidUTF8, this`unsafeText, this`typedRune, this`pasteRune,
            this`queued, this`candidate, this`skipLineLF, this`handed, this`start, this`fed, this`flushed, this`done, this`past
    {
      forall ask: bool {:trigger Asked(ask)} :: Asked(ask) ==> Lawful(cf, start, fed, Whole(), flushed, done, past)
    }

    /** The line's law, for a caller. */
    lemma Law()
      requires Valid()
      ensures Lawful(cf, start, fed, Whole(), flushed, done, past)
    {
      assert Asked(true);
    }

    ghost predicate TagsOk()
      reads this`tags, this`fed, this`lineAuthority, this`lineAuthoritySet
    {
      |tags| == |fed| && if lineAuthoritySet then Vouches(lineAuthority, tags) else fed == []
    }

    ghost predicate Valid()
      reads this
    {
      && LineOk() && TagsOk()
      && (flushed ==> source == [] && rawQueued == [])
      && (pendingErr ==> flushed)
    }

    /** One byte of input, noted under the authority it came with. */
    method ConsumeByte(value: Byte, ghost authority: Authority) returns (lineEnd: bool)
      requires Valid() && !flushed && !done && lineAuthoritySet && Vouches(lineAuthority, [authority])
      modifies this`paste, this`linePasted, this`invalidUTF8, this`unsafeText, this`typedRune, this`pasteRune,
               this`queued, this`candidate, this`skipLineLF, this`fed, this`tags, this`done
      ensures Valid() && fed == old(fed) + [value] && tags == old(tags) + [authority]
      ensures lineEnd == done && (lineEnd ==> queued != [])
    {
      ByteLaw(value);
      lineEnd := ConsumeRaw(value);
      Record(value, authority, lineEnd);
    }

    /** The law after one more byte. */
    lemma ByteLaw(value: Byte)
      requires Valid() && !flushed && !done
      ensures var (next, ended) := Consume(Bracketed(cf), Value(), value);
              Lawful(cf, start, fed + [value], After(handed, next), false, ended, past) && (ended ==> next.queued != [])
    {
      Law();
      LawGrows(cf, start, fed, Value(), value, handed, past);
    }

    /** The byte is put on the line's record. */
    ghost method Record(value: Byte, authority: Authority, lineEnd: bool)
      requires TagsOk() && lineAuthoritySet && Vouches(lineAuthority, [authority]) && !flushed && !pendingErr
      requires Lawful(cf, start, fed + [value], Whole(), false, lineEnd, past)
      modifies this`fed, this`tags, this`done
      ensures Valid() && fed == old(fed) + [value] && tags == old(tags) + [authority] && done == lineEnd
    {
      fed, tags, done := fed + [value], tags + [authority], lineEnd;
    }

    method ConsumeRaw(value: Byte) returns (lineEnd: bool)
      modifies this`paste, this`linePasted, this`invalidUTF8, this`unsafeText, this`typedRune, this`pasteRune,
               this`queued, this`candidate, this`skipLineLF
      ensures (Value(), lineEnd) == Consume(Bracketed(cf), old(Value()), value)
    {
      if !paste && skipLineLF {
        skipLineLF := false;
        if value == LF {
          return false;
        }
      }
      var expected := PASTE_START;
      if paste {
        expected := PASTE_END;
      }
      SettleCandidate(value, expected);
      lineEnd := ConcludeByte(value, expected);
    }

    method ConcludeByte(value: Byte, expected: Bytes) returns (lineEnd: bool)
      modifies this`paste, this`linePasted, this`invalidUTF8, this`typedRune, this`pasteRune, this`queued, this`candidate, this`skipLineLF
      ensures (Value(), lineEnd) == Conclude(old(Value()), value, expected)
    {
      if candidate == expected {
        ToggleMode();
      }
      lineEnd := !paste && (value == CR || value == LF) && |candidate| == 0;
      if lineEnd {
        skipLineLF := value == CR;
      }
    }

    /** The candidate is a marker: it is passed on, and typing or the paste is over. */
    method ToggleMode()
      modifies this`paste, this`linePasted, this`invalidUTF8, this`typedRune, this`pasteRune, this`queued, this`candidate
      ensures Value() == Toggle(old(Value()))
    {
      if !paste {
        FinishTypedRune();
      }
      if paste {
        FinishPastePayload();
      }
      queued := queued + candidate;
      candidate := [];
      paste := !paste;
      if paste {
        linePasted := true;
      }
    }

    method FlushCandidate()
      modifies this`invalidUTF8, this`unsafeText, this`typedRune, this`pasteRune, this`queued, this`candidate
      ensures Value() == Flush(cf, old(Value()))
    {
      var rest := candidate;
      ghost var flushing := Flush(cf, Value());
      candidate := [];
      while rest != []
        invariant candidate == [] && Fold(Reader(cf), Value(), rest) == flushing
        decreases |rest|
      {
        FoldCons(Reader(cf), Value(), rest[0], rest[1..]);
        CandidateIrrelevant(cf, Value(), rest[0], []);
        assert rest == [rest[0]] + rest[1..];
        ConsumeLiteral(rest[0]);
        rest := rest[1..];
      }
    }

    /** The line's authority after one more batch of bytes. */
    method MergeLineAuthority(authority: Authority)
      requires Valid()
      modifies this`lineAuthority, this`lineAuthoritySet
      ensures Valid() && lineAuthoritySet && Vouches(lineAuthority, [authority])
      ensures lineAuthority == if old(lineAuthoritySet) then Combine(old(lineAuthority), authority) else authority
    {
      if !lineAuthoritySet {
        lineAuthority := authority;
        lineAuthoritySet := true;
        return;
      }
      if lineAuthority != authority {
        lineAuthority := Authority(authority.generation, Mixed);
      }
    }

    /** Reads bytes up to the end of the line. */
    method ConsumeRun(values: Bytes, ghost authority: Authority) returns (used: nat)
      requires Valid() && !flushed && !done && lineAuthoritySet && Vouches(lineAuthority, [authority]) && queued == []
      modifies this`paste, this`linePasted, this`invalidUTF8, this`unsafeText, this`typedRune, this`pasteRune,
               this`queued, this`candidate, this`skipLineLF, this`fed, this`tags, this`done
      ensures Valid() && used <= |values| && fed == old(fed) + values[..used] && (values != [] ==> used > 0)
      ensures done ==> queued != []
      ensures !done ==> used == |values|
    {
      used := 0;
      while used < |values|
        invariant used <= |values| && Valid() && !done
        invariant fed == old(fed) + values[..used]
      {
        var lineEnd := ConsumeByte(values[used], authority);
        used := used + 1;
        assert values[..used - 1] + [values[used - 1]] == values[..used];
        if lineEnd {
          return;
        }
      }
    }

    /** Reads a batch; what follows the end of the line waits for the next line. */
    method ConsumeValues(values: Bytes, authority: Authority)
      requires Valid() && !flushed && !done && lineAuthoritySet && Vouches(lineAuthority, [authority])
      requires rawQueued == [] && queued == []
      modifies this`paste, this`linePasted, this`invalidUTF8, this`unsafeText, this`typedRune, this`pasteRune,
               this`queued, this`candidate, this`skipLineLF, this`fed, this`tags, this`done, this`rawQueued, this`rawAuthority
      ensures Valid() && fed + rawQueued == old(fed) + values && old(fed) <= fed
      ensures done ==> queued != []
      ensures !done ==> rawQueued == []
      ensures rawQueued != [] ==> rawAuthority == authority
      ensures |rawQueued| < |values| || values == []
    {
      var used := ConsumeRun(values, authority);
      if used < |values| {
        rawQueued := values[used..];
        rawAuthority := authority;
      }
      assert values == values[..used] + values[used..];
      Associates(old(fed), values[..used], values[used..]);
    }

    /** The source has ended: what was held back is text after all. */
    method FinishLine()
      requires Valid() && !done && source == [] && rawQueued == []
      modifies this`invalidUTF8, this`unsafeText, this`typedRune, this`pasteRune, this`queued, this`candidate, this`flushed
      ensures Valid() && flushed
    {
      FlushLaw();
      FlushCandidate();
      RecordFlush();
    }

    lemma FlushLaw()
      requires Valid() && !done
      ensures Lawful(cf, start, fed, After(handed, Flush(cf, Value())), true, false, past)
    {
      Law();
      LawFlushes(cf, start, fed, Value(), flushed, handed, past);
    }

    ghost method RecordFlush()
      requires TagsOk() && !done && source == [] && rawQueued == [] && Lawful(cf, start, fed, Whole(), true, false, past)
      modifies this`flushed
      ensures Valid() && flushed
    {
      flushed := true;
    }

    /** What is left of the last read of the source, or else the next read. */
    method NextValues() returns (values: Bytes, authority: Authority, err: bool)
      requires Valid() && !(pendingErr && rawQueued == [])
      modifies this`rawQueued, this`rawAuthority, this`source
      ensures Valid() && rawQueued == [] && values + Flatten(source) == old(Stream())
      ensures err ==> source == [] && values == []
      ensures |source| <= old(|source|) && (|source| == old(|source|) ==> values == old(rawQueued) && (err || values != []))
      ensures values != [] ==> !flushed
    {
      values, authority, err := rawQueued, rawAuthority, false;
      rawQueued, rawAuthority := [], UNSET;
      if |values| == 0 {
        if |source| == 0 {
          err := true;
        } else {
          values, authority := source[0].bytes, source[0].authority;
          source := source[1..];
        }
      }
    }

    /** A batch joins the line under its authority. */
    method Absorb(values: Bytes, authority: Authority)
      requires Valid() && !flushed && !done && rawQueued == [] && queued == [] && values != []
      modifies this`paste, this`linePasted, this`invalidUTF8, this`unsafeText, this`typedRune, this`pasteRune,
               this`queued, this`candidate, this`skipLineLF, this`fed, this`tags, this`done, this`rawQueued, this`rawAuthority,
               this`lineAuthority, this`lineAuthoritySet
      ensures Valid() && old(fed) <= fed && fed + Stream() == old(fed) + (values + Flatten(source))
      ensures done ==> queued != []
      ensures |rawQueued| < |values| && (!done ==> rawQueued == [])
    {
      MergeLineAuthority(authority);
      ConsumeValues(values, authority);
      Associates(fed, rawQueued, Flatten(source));
      Associates(old(fed), values, Flatten(source));
    }

    /** One read of the source, or of what is left of the last one. */
    method FillOnce() returns (ended: bool)
      requires Valid() && !done && queued == [] && !(pendingErr && rawQueued == [])
      modifies this`paste, this`linePasted, this`invalidUTF8, this`unsafeText, this`typedRune, this`pasteRune,
               this`queued, this`candidate, this`skipLineLF, this`fed, this`tags, this`done, this`rawQueued, this`rawAuthority,
               this`lineAuthority, this`lineAuthoritySet, this`source, this`pendingErr, this`flushed
      ensures Valid() && old(fed) <= fed && fed + Stream() == old(fed + Stream())
      ensures ended ==> queued == [] && flushed && !done
      ensures done ==> queued != []
      ensures !ended && queued == [] ==> |source| < old(|source|) || (|source| == old(|source|) && |rawQueued| < old(|rawQueued|))
      ensures |source| <= old(|source|) && (|source| == old(|source|) ==> |rawQueued| <= old(|rawQueued|))
    {
      ended := false;
      var values, authority, err := NextValues();
      if |values| > 0 {
        Absorb(values, authority);
      }
      if err {
        ended := EndSource();
      }
    }

    /** The source's error: at once if nothing is queued, otherwise after what is. */
    method EndSource() returns (ended: bool)
      requires Valid() && !done && source == [] && rawQueued == []
      modifies this`invalidUTF8, this`unsafeText, this`typedRune, this`pasteRune, this`queued, this`candidate, this`flushed, this`pendingErr
      ensures Valid() && flushed && (ended <==> queued == [])
    {
      FinishLine();
      if |queued| == 0 {
        return true;
      }
      pendingErr := true;
      return false;
    }

    /** Fills the queue until there is something for the editor or the source ends. */
    method FillQueue() returns (err: bool)
      requires Valid() && !(done && queued == [])
      modifies this`paste, this`linePasted, this`invalidUTF8, this`unsafeText, this`typedRune, this`pasteRune,
               this`queued, this`candidate, this`skipLineLF, this`fed, this`tags, this`done, this`rawQueued, this`rawAuthority,
               this`lineAuthority, this`lineAuthoritySet, this`source, this`pendingErr, this`flushed
      ensures Valid() && old(fed) <= fed && fed + Stream() == old(fed + Stream())
      ensures err <==> queued == []
      ensures err ==> flushed && !done
      ensures old(queued) != [] ==> fed == old(fed) && queued == old(queued)
    {
      while |queued| == 0
        invariant Valid() && !(done && queued == []) && old(fed) <= fed && fed + Stream() == old(fed + Stream())
        invariant old(queued) != [] ==> fed == old(fed) && queued == old(queued)
        decreases |source|, |rawQueued|, if |queued| == 0 then 1 else 0
      {
        if pendingErr && |rawQueued| == 0 {
          pendingErr := false;
          return true;
        }
        var ended := FillOnce();
        if ended {
          return true;
        }
      }
      return false;
    }

    /** The editor reads on although the line has ended and its state has not been taken. */
    ghost method GoOn()
      requires Valid() && !flushed
      modifies this`done, this`past
      ensures Valid() && !done && past
    {
      Law();
      done, past := false, true;
    }

    /** The editor's read. What it is given is the next part of what the line's bytes produce. */
    method Read(size: nat) returns (bytes: Bytes, err: bool)
      requires Valid()
      modifies this
      ensures Valid() && start == old(start) && old(fed) <= fed && fed + Stream() == old(fed + Stream())
      ensures handed == old(handed) + bytes && |bytes| <= size
      ensures size > 0 && !err ==> |bytes| > 0
      ensures size == 0 ==> !err && fed == old(fed)
      ensures err ==> flushed && queued == [] && !done
      ensures past <==> old(past) || (size > 0 && old(done && queued == []))
    {
      if size == 0 {
        bytes, err := [], false;
        assert handed == old(handed) + bytes;
        return;
      }
      if done && queued == [] {
        DoneIsNotFlushed();
        GoOn();
      }
      err := FillQueue();
      if err {
        bytes := [];
        assert handed == old(handed) + bytes;
        return;
      }
      bytes := Hand(if |queued| < size then |queued| else size);
    }

    lemma DoneIsNotFlushed()
      requires Valid() && done
      ensures !flushed
    {
      Law();
    }

    /** The front of the queue is handed out. */
    method Hand(count: nat) returns (bytes: Bytes)
      requires Valid() && count <= |queued|
      modifies this`queued, this`handed
      ensures Valid() && |bytes| == count && handed == old(handed) + bytes
    {
      bytes := queued[..count];
      ghost var was := queued;
      ghost var whole := Whole();
      Law();
      handed := handed + bytes;
      queued := queued[count..];
      assert was == bytes + queued;
      Associates(old(handed), bytes, queued);
      assert Whole() == whole;
    }

    method TakeFlags() returns (line: Line)
      modifies this`linePasted, this`invalidUTF8, this`unsafeText, this`typedRune, this`pasteRune
      ensures (Value(), line) == TakeLine(old(Value()))
    {
      FinishTypedRune();
      line := Line(linePasted, invalidUTF8, unsafeText);
      linePasted, invalidUTF8, unsafeText := false, false, false;
      pasteRune, typedRune := [], [];
    }

    /** The bookkeeping of a new line. What is still queued goes to the editor first. */
    ghost method BeginLine()
      requires !lineAuthoritySet && (flushed ==> candidate == []) && (flushed ==> source == [] && rawQueued == []) && (pendingErr ==> flushed)
      modifies this`start, this`fed, this`tags, this`handed, this`done, this`past
      ensures Valid() && start == Value() && fed == [] && handed == [] && !done && !past
    {
      LawBegins(cf, Value(), flushed);
      RecordStart(Value(), []);
    }

    ghost method RecordStart(m: Machine, nothing: Bytes)
      requires !lineAuthoritySet && (flushed ==> source == [] && rawQueued == []) && (pendingErr ==> flushed)
      requires m == Value() && |nothing| == 0 && Lawful(cf, m, nothing, After(nothing, m), flushed, false, false)
      modifies this`start, this`fed, this`tags, this`handed, this`done, this`past
      ensures Valid() && start == m && fed == nothing && handed == nothing && !done && !past
    {
      start, fed, tags, handed := m, nothing, [], nothing;
      RecordOpen();
    }

    ghost method RecordOpen()
      requires TagsOk() && (flushed ==> source == [] && rawQueued == []) && (pendingErr ==> flushed)
      requires Lawful(cf, start, fed, Whole(), flushed, false, false)
      modifies this`done, this`past
      ensures Valid() && !done && !past
    {
      done, past := false, false;
    }

    /** The console takes the line's flags and authority, whether the line was finished, the source failed or
        the draft was cleared halfway; what follows starts afresh, behind what is still queued. */
    method ConsumeLineState() returns (line: Line, authority: Authority)
      requires Valid()
      modifies this
      ensures Valid() && Stream() == old(Stream())
      ensures line == TakeLine(old(Whole())).1
      ensures start == TakeLine(old(Whole())).0.(queued := old(queued))
      ensures fed == [] && handed == [] && queued == old(queued) && !done && !past
      ensures authority == old(lineAuthority)
    {
      FlushedHoldsNothing();
      TakeLineAfter(Value(), handed);
      line := TakeFlags();
      authority := lineAuthority;
      lineAuthority, lineAuthoritySet := UNSET, false;
      BeginLine();
    }

    lemma FlushedHoldsNothing()
      requires Valid()
      ensures flushed ==> candidate == []
    {
      Law();
      FlushOnce(cf, Feed(Bracketed(cf), start, fed));
    }
  }

  lemma TypedIgnoresCandidate(m: Machine, d: Decoded, c: Bytes)
    requires d.size <= |d.grown|
    ensures TypedCharacter(m.(candidate := c), d) == TypedCharacter(m, d).(candidate := c)
    ensures TypedCharacter(m, d).candidate == m.candidate
  {
  }

  lemma PasteIgnoresCandidate(m: Machine, d: Decoded, projected: Bytes, c: Bytes)
    requires d.size <= |d.grown|
    ensures PasteCharacter(m.(candidate := c), d, projected) == PasteCharacter(m, d, projected).(candidate := c)
    ensures PasteCharacter(m, d, projected).candidate == m.candidate
  {
  }

  lemma CandidateIrrelevant(cf: Category, m: Machine, b: Byte, c: Bytes)
    ensures Literal(cf, m.(candidate := c), b) == Literal(cf, m, b).(candidate := c)
    ensures Literal(cf, m, b).candidate == m.candidate
  {
    if m.paste {
      var d := Decode(cf, m.pasteRune + [b]);
      PasteIgnoresCandidate(m, d, EncodeRune(ProjectRune(d.rune)), c);
    } else {
      TypedIgnoresCandidate(m, Decode(cf, m.typedRune + [b]), c);
    }
  }

  lemma SettleOne(cf: Category, m: Machine, c: Bytes, marker: Bytes)
    requires c != [] && !(c <= marker)
    ensures Settle(Reader(cf), m.(candidate := []), c, marker) ==
            Settle(Reader(cf), Literal(cf, m, c[0]).(candidate := []), c[1..], marker)
  {
    CandidateIrrelevant(cf, m, c[0], []);
  }

  // ----- Line ends --------------------------------------------------------------------------------

  lemma FeedGrows(u: Terminal, m: Machine, s: Bytes, b: Byte)
    ensures Feed(u, m, s + [b]) == Consume(u, Feed(u, m, s), b).0
  {
    assert (s + [b])[..|s|] == s;
  }

  /** One more byte leaves the line open, or ends it there. */
  lemma OpenGrows(u: Terminal, m: Machine, s: Bytes, b: Byte)
    requires Open(u, m, s)
    ensures if Consume(u, Feed(u, m, s), b).1 then LineAt(u, m, s + [b], |s| + 1) else Open(u, m, s + [b])
  {
    var t := s + [b];
    assert t[..|s|] == s;
    forall k: nat | k < |s|
      ensures !Ends(u, m, t, k)
    {
      assert t[..k] == s[..k];
      assert !Ends(u, m, s, k);
    }
  }

  /** A byte given up last was read as text last. */
  lemma {:induction false} SettleEmpties<S>(f: (S, Byte) -> S, s: S, c: Bytes, b: Byte, marker: Bytes)
    requires Settle(f, s, c + [b], marker).1 == []
    ensures exists x :: Settle(f, s, c + [b], marker).0 == f(x, b)
    decreases |c|
  {
    var t := c + [b];
    if c == [] {
      assert t[1..] == [] && t[0] == b;
      assert Settle(f, s, t, marker).0 == f(s, b);
    } else {
      assert t[0] == c[0] && t[1..] == c[1..] + [b];
      SettleEmpties(f, f(s, c[0]), c[1..], b, marker);
    }
  }

  lemma {:induction false} SettleKeepsTail<S>(f: (S, Byte) -> S, s: S, c: Bytes, b: Byte, marker: Bytes)
    ensures var rest := Settle(f, s, c + [b], marker).1; rest != [] ==> rest[|rest| - 1] == b
    decreases |c|
  {
    var t := c + [b];
    if c != [] {
      assert t[0] == c[0] && t[1..] == c[1..] + [b];
      SettleKeepsTail(f, f(s, c[0]), c[1..], b, marker);
    } else {
      assert t[1..] == [];
    }
  }

  /** The byte that ends a line is on its way to the editor. */
  lemma LineEndIsQueued(cf: Category, m: Machine, b: Byte)
    requires Consume(Bracketed(cf), m, b).1
    ensures Consume(Bracketed(cf), m, b).0.queued != []
  {
    var ready := m.(skipLF := if m.paste then m.skipLF else false);
    var marker := Marker(m.paste);
    LineEndQueues(cf, ready, b, marker);
  }

  lemma LineEndQueues(cf: Category, m: Machine, b: Byte, marker: Bytes)
    requires marker == Marker(m.paste) && ConsumeExpecting(Reader(cf), m, b, marker).1
    ensures ConsumeExpecting(Reader(cf), m, b, marker).0.queued != []
  {
    var start := m.(candidate := []);
    var (text, rest) := Settle(Reader(cf), start, m.candidate + [b], marker);
    SettleKeepsTail(Reader(cf), start, m.candidate, b, marker);
    assert rest != marker by {
      assert marker[5] == 0x7E;
    }
    SettleEmpties(Reader(cf), start, m.candidate, b, marker);
    var x :| text == Reader(cf)(x, b);
    assert text == Literal(cf, x, b);
    AsciiQueues(cf, x, b);
  }

  lemma AsciiQueues(cf: Category, x: Machine, b: Byte)
    requires b < 0x80 && !Literal(cf, x, b).paste
    ensures Literal(cf, x, b).queued != []
  {
  }

  // ----- What was handed out earlier does not matter -------------------------------------------------

  /** A machine whose earlier output is remembered in front. */
  function After(earlier: Bytes, m: Machine): Machine {
    m.(queued := earlier + m.queued)
  }

  lemma CharacterAfter(m: Machine, d: Decoded, projected: Bytes, earlier: Bytes)
    requires d.size <= |d.grown|
    ensures TypedCharacter(After(earlier, m), d) == After(earlier, TypedCharacter(m, d))
    ensures PasteCharacter(After(earlier, m), d, projected) == After(earlier, PasteCharacter(m, d, projected))
  {
    Associates(earlier, m.queued, d.grown[..d.size]);
    Associates(earlier, m.queued, projected);
  }

  lemma LiteralAfter(cf: Category, m: Machine, b: Byte, earlier: Bytes)
    ensures Literal(cf, After(earlier, m), b) == After(earlier, Literal(cf, m, b))
  {
    var d := Decode(cf, (if m.paste then m.pasteRune else m.typedRune) + [b]);
    CharacterAfter(m, d, EncodeRune(ProjectRune(d.rune)), earlier);
    Associates(earlier, m.queued, [b]);
  }

  lemma {:induction false} SettleAfter(cf: Category, m: Machine, c: Bytes, marker: Bytes, earlier: Bytes)
    ensures var (text, rest) := Settle(Reader(cf), m, c, marker);
            Settle(Reader(cf), After(earlier, m), c, marker) == (After(earlier, text), rest)
    decreases |c|
  {
    if c != [] && !(c <= marker) {
      LiteralAfter(cf, m, c[0], earlier);
      SettleAfter(cf, Literal(cf, m, c[0]), c[1..], marker, earlier);
    }
  }

  lemma HandedIrrelevant(cf: Category, m: Machine, b: Byte, earlier: Bytes)
    ensures var (next, ended) := Consume(Bracketed(cf), m, b);
            Consume(Bracketed(cf), After(earlier, m), b) == (After(earlier, next), ended)
  {
    if m.paste {
      ExpectingAfter(cf, m, b, PASTE_END, earlier);
    } else {
      ExpectingAfter(cf, m.(skipLF := false), b, PASTE_START, earlier);
    }
  }

  lemma SettledAfter(cf: Category, m: Machine, b: Byte, marker: Bytes, earlier: Bytes)
    ensures Settled(Reader(cf), After(earlier, m), b, marker) == After(earlier, Settled(Reader(cf), m, b, marker))
  {
    SettleAfter(cf, m.(candidate := []), m.candidate + [b], marker, earlier);
    assert After(earlier, m).(candidate := []) == After(earlier, m.(candidate := []));
  }

  lemma ToggleAfter(m: Machine, earlier: Bytes)
    ensures Toggle(After(earlier, m)) == After(earlier, Toggle(m))
  {
    Associates(earlier, m.queued, m.candidate);
  }

  lemma ExpectingAfter(cf: Category, m: Machine, b: Byte, marker: Bytes, earlier: Bytes)
    ensures var (next, ended) := ConsumeExpecting(Reader(cf), m, b, marker);
            ConsumeExpecting(Reader(cf), After(earlier, m), b, marker) == (After(earlier, next), ended)
  {
    SettledAfter(cf, m, b, marker, earlier);
    ToggleAfter(Settled(Reader(cf), m, b, marker), earlier);
    ConcludeAfter(Settled(Reader(cf), m, b, marker), b, marker, earlier);
  }

  lemma ConcludeAfter(settled: Machine, b: Byte, marker: Bytes, earlier: Bytes)
    ensures Conclude(After(earlier, settled), b, marker) ==
            (After(earlier, Conclude(settled, b, marker).0), Conclude(settled, b, marker).1)
  {
    ToggleAfter(settled, earlier);
  }

  /** Everything a line has produced grows by what one more byte produces. */
  lemma WholeGrows(cf: Category, start: Machine, fed: Bytes, before: Machine, b: Byte, earlier: Bytes)
    requires After(earlier, before) == Feed(Bracketed(cf), start, fed)
    ensures After(earlier, Consume(Bracketed(cf), before, b).0) == Feed(Bracketed(cf), start, fed + [b])
    ensures Consume(Bracketed(cf), before, b).1 == Consume(Bracketed(cf), Feed(Bracketed(cf), start, fed), b).1
  {
    HandedIrrelevant(cf, before, b, earlier);
    FeedGrows(Bracketed(cf), start, fed, b);
  }

  lemma {:induction false} FoldClear(cf: Category, m: Machine, t: Bytes, c: Bytes)
    requires m.candidate == []
    ensures Fold(Reader(cf), m, t).candidate == []
  {
    if t != [] {
      FoldClear(cf, m, t[..|t| - 1], c);
      CandidateIrrelevant(cf, Fold(Reader(cf), m, t[..|t| - 1]), t[|t| - 1], c);
    }
  }

  /** Flushing leaves nothing to flush. */
  lemma FlushOnce(cf: Category, m: Machine)
    ensures Flush(cf, m).candidate == [] && Flush(cf, Flush(cf, m)) == Flush(cf, m)
  {
    FoldClear(cf, m.(candidate := []), m.candidate, []);
    var flushed := Flush(cf, m);
    assert flushed.(candidate := []) == flushed;
  }

  lemma {:induction false} FoldAfter(cf: Category, m: Machine, t: Bytes, earlier: Bytes)
    ensures Fold(Reader(cf), After(earlier, m), t) == After(earlier, Fold(Reader(cf), m, t))
  {
    if t != [] {
      FoldAfter(cf, m, t[..|t| - 1], earlier);
      LiteralAfter(cf, Fold(Reader(cf), m, t[..|t| - 1]), t[|t| - 1], earlier);
    }
  }

  lemma FlushAfter(cf: Category, m: Machine, earlier: Bytes)
    ensures Flush(cf, After(earlier, m)) == After(earlier, Flush(cf, m))
  {
    FoldAfter(cf, m.(candidate := []), m.candidate, earlier);
    assert After(earlier, m).(candidate := []) == After(earlier, m.(candidate := []));
  }

  lemma TakeLineAfter(m: Machine, earlier: Bytes)
    ensures TakeLine(After(earlier, m)).0.(queued := m.queued) == TakeLine(m).0
    ensures TakeLine(After(earlier, m)).1 == TakeLine(m).1
  {
  }

  /** One more byte under the law. */
  lemma LawGrows(cf: Category, start: Machine, fed: Bytes, before: Machine, b: Byte, earlier: Bytes, past: bool)
    requires Lawful(cf, start, fed, After(earlier, before), false, false, past)
    ensures var (next, ended) := Consume(Bracketed(cf), before, b);
            Lawful(cf, start, fed + [b], After(earlier, next), false, ended, past) && (ended ==> next.queued != [])
  {
    WholeGrows(cf, start, fed, before, b, earlier);
    if !past {
      OpenGrows(Bracketed(cf), start, fed, b);
    }
    if Consume(Bracketed(cf), before, b).1 {
      LineEndIsQueued(cf, before, b);
    }
  }

  lemma LawFlushes(cf: Category, start: Machine, fed: Bytes, before: Machine, flushed: bool, earlier: Bytes, past: bool)
    requires Lawful(cf, start, fed, After(earlier, before), flushed, false, past)
    ensures Lawful(cf, start, fed, After(earlier, Flush(cf, before)), true, false, past)
  {
    FlushAfter(cf, before, earlier);
    FlushOnce(cf, Feed(Bracketed(cf), start, fed));
  }

  lemma LawBegins(cf: Category, start: Machine, flushed: bool)
    requires flushed ==> start.candidate == []
    ensures Lawful(cf, start, [], After([], start), flushed, false, false)
  {
    assert [] + start.queued == start.queued;
    assert flushed ==> start.(candidate := []) == start;
  }

  // ----- Lines depend on the bytes alone --------------------------------------------------------------

  /** However a stream was cut into reads, the line read from it is the same stretch of the stream: no two
      positions both end the first line. */
  lemma SameLine(u: Terminal, start: Machine, stream: Bytes, one: Bytes, other: Bytes)
    requires one <= stream && other <= stream
    requires LineAt(u, start, one, |one|) && LineAt(u, start, other, |other|)
    ensures one == other
  {
    if |one| < |other| {
      EndsInside(u, start, one, other);
    } else if |other| < |one| {
      EndsInside(u, start, other, one);
    }
  }

  lemma EndsInside(u: Terminal, start: Machine, short: Bytes, long: Bytes)
    requires short < long && |short| > 0
    ensures !(Ends(u, start, short, |short| - 1) && Open(u, start, long[..|long| - 1]))
  {
    var front := long[..|long| - 1];
    var k := |short| - 1;
    assert front[..k] == short[..k] && front[k] == short[k];
    assert Ends(u, start, front, k) == Ends(u, start, short, k);
  }

  lemma EndsNowhere(u: Terminal, start: Machine, short: Bytes, long: Bytes)
    requires short <= long && LineAt(u, start, short, |short|)
    ensures !Open(u, start, long)
  {
    var k := |short| - 1;
    assert long[..k] == short[..k] && long[k] == short[k];
    assert Ends(u, start, long, k) == Ends(u, start, short, k);
  }

  /** A reader has no more to hand over for its line: the line is finished, or the source is. */
  ghost predicate Drained(r: BracketedPasteReader)
    reads r
  {
    r.Valid() && !r.past && r.queued == [] && (r.done || r.flushed)
  }

  lemma SameBytes(u: Terminal, start: Machine, total: Bytes, one: Bytes, oneDone: bool, other: Bytes, otherDone: bool)
    requires one <= total && other <= total
    requires if oneDone then LineAt(u, start, one, |one|) else Open(u, start, one) && one == total
    requires if otherDone then LineAt(u, start, other, |other|) else Open(u, start, other) && other == total
    ensures one == other && oneDone == otherDone
  {
    if oneDone && otherDone {
      SameLine(u, start, total, one, other);
    } else if oneDone {
      EndsNowhere(u, start, one, other);
    } else if otherDone {
      EndsNowhere(u, start, other, one);
    }
  }

  lemma DrainedLaw(r: BracketedPasteReader, total: Bytes)
    requires Drained(r) && total == r.fed + r.Stream()
    ensures r.fed <= total
    ensures var u := Bracketed(r.cf);
            && (if r.done then LineAt(u, r.start, r.fed, |r.fed|) && !r.flushed else Open(u, r.start, r.fed) && r.fed == total && r.flushed)
            && r.Whole() == (if r.done then Feed(u, r.start, r.fed) else Flush(r.cf, Feed(u, r.start, r.fed)))
            && r.Whole() == r.Value().(queued := r.handed)
  {
    r.Law();
    assert r.handed + r.queued == r.handed;
    if !r.done {
      assert r.Stream() == [] && r.fed + [] == r.fed;
    }
  }

  /** Two readers that begin a line alike and are to read the same bytes, in whatever pieces each gets them from
      its source and hands them to its editor, hand over the same bytes, give the line the same state, and leave
      the same for the next line. */
  lemma SameForBoth(a: BracketedPasteReader, b: BracketedPasteReader)
    requires Drained(a) && Drained(b) && a.cf == b.cf && a.start == b.start && a.fed + a.Stream() == b.fed + b.Stream()
    ensures a.handed == b.handed && a.done == b.done
    ensures a.Value() == b.Value() && TakeLine(a.Whole()) == TakeLine(b.Whole())
    ensures a.Stream() == b.Stream()
  {
    var total := a.fed + a.Stream();
    DrainedLaw(a, total);
    DrainedLaw(b, total);
    SameBytes(Bracketed(a.cf), a.start, total, a.fed, a.done, b.fed, b.done);
    assert a.Whole() == b.Whole();
    assert a.Stream() == total[|a.fed|..] == b.Stream();
    assert a.Value() == a.Whole().(queued := []);
    assert b.Value() == b.Whole().(queued := []);
  }

  /** Once a finished line is taken nothing of it is left: the next line starts like the first, knowing only
      whether to drop a line feed. So a line's flags come from its own bytes. */
  lemma NextLineIsFresh(u: Terminal, start: Machine, s: Bytes)
    requires LineAt(u, start, s, |s|)
    ensures TakeLine(Feed(u, start, s)).0.(queued := []) == FRESH.(skipLF := s[|s| - 1] == CR)
  {
    var before := Feed(u, start, s[..|s| - 1]);
    assert Consume(u, before, s[|s| - 1]).1;
    EndedMachine(u, before, s[|s| - 1]);
  }

  lemma EndedMachine(u: Terminal, m: Machine, b: Byte)
    requires Consume(u, m, b).1
    ensures var next := Consume(u, m, b).0; !next.paste && next.candidate == [] && next.skipLF == (b == CR)
  {
  }
}
