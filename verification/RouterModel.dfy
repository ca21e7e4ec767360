/** The plan-review input router as a value. Outside review its source bytes go to the line editor; in
    review they are decoded into review keys; after the Note key they wait, private, until the session
    opens the note editor.

    One editor is modelled, so the research and ledger editors' bypass does not appear.
 */
module RouterModel {
  import opened Utf8
  import opened InputAuthority

  datatype Decoder = Idle | Escape | CSI | SS3

  datatype Key = UpKey | DownKey | ToggleKey | EnterKey | EscapeKey | NoteKey | EOFKey

  datatype KeyEvent = KeyEvent(key: Key, generation: nat)

  /** `timerArmed` says an escape timer is running; it carries `timerGeneration` as it was when armed.
      `polling` says that the source is being read: its lock is held, but not the router's. */
  datatype Router = Router(
    review: bool, noteTransition: bool, noteInput: bool, dropLeadingLF: bool, failed: bool,
    decoder: Decoder, timerGeneration: nat, timerArmed: bool, modeGeneration: nat, polling: bool,
    lineBytes: Bytes, lineAuthority: Authority, noteBytes: Bytes, keys: seq<KeyEvent>)

  const CHUNK: nat := 64

  const FRESH_ROUTER := Router(false, false, false, false, false, Idle, 0, false, 0, false, [], UNSET, [], [])

  function CurrentMode(r: Router): Mode {
    if r.review then PlanReview else if r.noteInput then PlanNote else Ordinary
  }

  function CurrentAuthority(r: Router): Authority {
    Authority(r.modeGeneration, CurrentMode(r))
  }

  function AppendLine(r: Router, values: Bytes, authority: Authority): Router {
    if values == [] then r
    else r.(lineAuthority := if r.lineBytes == [] then authority else Combine(r.lineAuthority, authority),
            lineBytes := r.lineBytes + values)
  }

  function AppendKey(r: Router, key: Key): Router {
    r.(keys := r.keys + [KeyEvent(key, r.modeGeneration)])
  }

  function Arm(r: Router): Router {
    r.(timerGeneration := r.timerGeneration + 1, timerArmed := true)
  }

  function Stop(r: Router): Router {
    r.(timerGeneration := r.timerGeneration + 1, timerArmed := false)
  }

  function Reset(r: Router): Router {
    Stop(r).(decoder := Idle)
  }

  /** Leaving review. A half-read escape sequence is left to be swallowed. */
  function Disable(r: Router, clearKeys: bool): Router {
    var calm := if r.decoder == Idle then Reset(r) else r;
    calm.(keys := if clearKeys then [] else calm.keys, noteBytes := [], noteTransition := false, noteInput := false,
          modeGeneration := calm.modeGeneration + 1, review := false)
  }

  function ReviewByte(r: Router, b: Byte): Router {
    match r.decoder
    case Idle =>
      if b == 0x1B then Arm(r.(decoder := Escape))
      else if b == 0x20 then AppendKey(r, ToggleKey)
      else if b == 0x0D then AppendKey(r.(dropLeadingLF := true), EnterKey)
      else if b == 0x0A then AppendKey(r, EnterKey)
      else if b == 0x6E || b == 0x4E then AppendKey(r, NoteKey).(noteTransition := true)
      else if b == 0x04 then Disable(AppendKey(r, EOFKey), false)
      else r
    case Escape =>
      if b == 0x5B then Arm(Stop(r).(decoder := CSI))
      else if b == 0x4F then Arm(Stop(r).(decoder := SS3))
      else Stop(r).(decoder := Idle)
    case _ =>
      var done := Stop(r).(decoder := Idle);
      if b == 0x41 then AppendKey(done, UpKey) else if b == 0x42 then AppendKey(done, DownKey) else done
  }

  /** The rest of an escape sequence that was being read when review ended. */
  function DisabledByte(r: Router, b: Byte): Router
    requires r.decoder != Idle
  {
    if r.decoder == Escape then
      if b == 0x5B then Arm(Stop(r).(decoder := CSI))
      else if b == 0x4F then Arm(Stop(r).(decoder := SS3))
      else Stop(r).(decoder := Idle)
    else Reset(r)
  }

  /** One source byte. */
  function RouteByte(r: Router, b: Byte): Router {
    var ready := r.(dropLeadingLF := false);
    if r.dropLeadingLF && b == 0x0A then ready
    else if r.noteTransition then ready.(noteBytes := r.noteBytes + [b])
    else if !r.review && r.decoder != Idle then DisabledByte(ready, b)
    else if !r.review then AppendLine(ready, [b], CurrentAuthority(ready))
    else ReviewByte(ready, b)
  }

  function Route(r: Router, values: Bytes): Router {
    if values == [] then r else RouteByte(Route(r, values[..|values| - 1]), values[|values| - 1])
  }

  /** Whether the router may read another chunk. */
  predicate HasCapacity(r: Router) {
    if r.review && r.noteTransition then r.keys == [] && r.noteBytes == []
    else if r.review then r.keys == []
    else r.lineBytes == []
  }

  /** A read of the source begins: there is room, and the source's lock is taken. */
  function Poll(r: Router): Router {
    r.(polling := true)
  }

  /** And ends: whatever was read, possibly nothing, is routed and the lock is released. */
  function Deliver(r: Router, values: Bytes): Router {
    Route(r, values).(polling := false)
  }

  function Enable(r: Router): Router {
    if r.review then r
    else Reset(r).(keys := [], noteBytes := [], noteTransition := false, noteInput := false,
                   modeGeneration := r.modeGeneration + 1, review := true)
  }

  /** Opening the note editor: refused unless ordinary input, or the Note key, leads to it. */
  predicate MayBeginNote(r: Router) {
    !(r.noteInput || (r.review && !r.noteTransition))
  }

  function BeginNote(r: Router): Router
    requires MayBeginNote(r)
  {
    var begun := Reset(r).(keys := [], noteBytes := [], noteTransition := false, noteInput := true,
                            modeGeneration := r.modeGeneration + 1, review := false);
    AppendLine(begun, r.noteBytes, CurrentAuthority(begun))
  }

  predicate MayEndNote(r: Router, authority: Authority) {
    r.noteInput && CurrentAuthority(r) == authority && authority.mode == PlanNote
  }

  function EndNote(r: Router): Router {
    r.(noteInput := false, modeGeneration := r.modeGeneration + 1)
  }

  /** A timer fires with the generation it was armed with. */
  function Expire(r: Router, generation: nat): Router {
    if generation != r.timerGeneration || r.decoder == Idle then r
    else
      var calm := r.(timerArmed := false, decoder := Idle);
      if r.decoder == Escape && r.review then AppendKey(calm, EscapeKey) else calm
  }

  /** The source has ended: a pending escape is a key. */
  function Finish(r: Router): Router {
    var calm := Reset(r);
    (if r.decoder == Escape && r.review then AppendKey(calm, EscapeKey) else calm).(failed := true, polling := false)
  }

  /** The editor takes bytes, with the authority of the buffer they came from. */
  function TakeLineBytes(r: Router, n: nat): Router
    requires n <= |r.lineBytes|
  {
    r.(lineBytes := r.lineBytes[n..], lineAuthority := if n == |r.lineBytes| then UNSET else r.lineAuthority)
  }

  function TakeKey(r: Router): Router {
    if r.keys == [] then r else r.(keys := r.keys[1..])
  }
}
