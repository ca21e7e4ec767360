/** The bracketed-paste reader as a machine over bytes. It matches the paste markers as they stream in,
    decodes typed and pasted text rune by rune, and replaces line breaks and tabs inside a paste by runes
    that typed text may not contain.

    `cf` stands for the Unicode category of format characters, about which nothing is assumed.
 */
module PasteModel {
  import opened Utf8
  import opened MarkerStream

  type Category = int -> bool

  const CR: Byte := 0x0D
  const LF: Byte := 0x0A
  const TAB: Byte := 0x09

  /** ESC [ 2 0 0 ~ and ESC [ 2 0 1 ~ */
  const PASTE_START: Bytes := [0x1B, 0x5B, 0x32, 0x30, 0x30, 0x7E]
  const PASTE_END: Bytes := [0x1B, 0x5B, 0x32, 0x30, 0x31, 0x7E]

  const PASTE_LINE_FEED: int := 0x2028
  const PASTE_CARRIAGE_RETURN: int := 0x2029
  const PASTE_TAB: int := 0x85

  function ProjectRune(r: int): int {
    if r == 0x0A then PASTE_LINE_FEED else if r == 0x0D then PASTE_CARRIAGE_RETURN else if r == 0x09 then PASTE_TAB else r
  }

  predicate UnsafeRune(cf: Category, r: int) {
    r < 0x20 || r == 0x7F || 0x80 <= r <= 0x9F || cf(r) || r == 0x2028 || r == 0x2029
  }

  /** What the editor line's replacer puts for the start of some text, and how many bytes it replaces. */
  function Replacement(s: Bytes): (r: (Byte, nat))
    requires s != []
    ensures 0 < r.1 <= |s|
  {
    if |s| >= 3 && s[0] == 0xE2 && s[1] == 0x80 && s[2] == 0xA8 then (LF, 3)
    else if |s| >= 3 && s[0] == 0xE2 && s[1] == 0x80 && s[2] == 0xA9 then (CR, 3)
    else if |s| >= 2 && s[0] == 0xC2 && s[1] == 0x85 then (TAB, 2)
    else (s[0], 1)
  }

  /** The replacer: at each position the stand-in found there, if any, is put back. */
  function Restore(s: Bytes): Bytes {
    if s == [] then [] else [Replacement(s).0] + Restore(s[Replacement(s).1..])
  }

  datatype Machine = Machine(
    paste: bool, linePasted: bool, invalid: bool, unsafe: bool, skipLF: bool,
    pasteRune: Bytes, typedRune: Bytes, candidate: Bytes, queued: Bytes)

  const FRESH := Machine(false, false, false, false, false, [], [], [], [])

  function FinishTyped(m: Machine): Machine {
    if m.typedRune == [] then m else m.(invalid := true, typedRune := [])
  }

  function FinishPaste(m: Machine): Machine {
    if m.pasteRune == [] then m else m.(invalid := true, pasteRune := [])
  }

  /** What the bytes of one character come to: whether they decide a rune, which, and how many they take. */
  datatype Decoded = Decoded(grown: Bytes, full: bool, rune: int, size: nat, unsafe: bool)

  function Decode(cf: Category, grown: Bytes): (d: Decoded)
    ensures d.grown == grown && d.size <= |grown|
  {
    var (r, size) := DecodeRune(grown);
    Decoded(grown, FullRune(grown), r, size, UnsafeRune(cf, r))
  }

  function TypedCharacter(m: Machine, d: Decoded): Machine
    requires d.size <= |d.grown|
  {
    if !d.full then m.(typedRune := d.grown)
    else if d.rune == RUNE_ERROR && d.size == 1 then m.(invalid := true, typedRune := [])
    else if d.unsafe then m.(unsafe := true, typedRune := [])
    else m.(queued := m.queued + d.grown[..d.size], typedRune := [])
  }

  function TypedByte(cf: Category, m: Machine, b: Byte): Machine {
    if b < 0x80 then
      var done := FinishTyped(m);
      done.(queued := done.queued + [b])
    else TypedCharacter(m, Decode(cf, m.typedRune + [b]))
  }

  function PasteCharacter(m: Machine, d: Decoded, projected: Bytes): Machine
    requires d.size <= |d.grown|
  {
    if !d.full then m.(pasteRune := d.grown)
    else if d.rune == RUNE_ERROR && d.size == 1 then m.(invalid := true, pasteRune := [])
    else if d.unsafe && d.rune != 0x0D && d.rune != 0x0A && d.rune != 0x09
    then m.(unsafe := true, pasteRune := d.grown[d.size..])
    else m.(queued := m.queued + projected, pasteRune := d.grown[d.size..])
  }

  function PasteByte(cf: Category, m: Machine, b: Byte): Machine {
    var d := Decode(cf, m.pasteRune + [b]);
    PasteCharacter(m, d, EncodeRune(ProjectRune(d.rune)))
  }

  function Literal(cf: Category, m: Machine, b: Byte): Machine {
    if m.paste then PasteByte(cf, m, b) else TypedByte(cf, m, b)
  }

  /** Whatever reads the text outside the markers. */
  type TextReader = (Machine, Byte) -> Machine

  function Reader(cf: Category): TextReader {
    (m: Machine, b: Byte) => Literal(cf, m, b)
  }

  function Marker(paste: bool): Bytes {
    if paste then PASTE_END else PASTE_START
  }

  /** One more byte against the marker being looked for. */
  function Settled(read: TextReader, m: Machine, b: Byte, marker: Bytes): Machine {
    var (text, candidate) := Settle(read, m.(candidate := []), m.candidate + [b], marker);
    text.(candidate := candidate)
  }

  function Toggle(m: Machine): Machine {
    var done := if m.paste then FinishPaste(m) else FinishTyped(m);
    done.(queued := done.queued + done.candidate, candidate := [], paste := !m.paste,
          linePasted := done.linePasted || !m.paste)
  }

  predicate EndsLine(m: Machine, b: Byte) {
    !m.paste && (b == CR || b == LF) && m.candidate == []
  }

  /** The end of a byte's handling, given what the marker search left; the flag says that it ended an
      editor line. */
  function Conclude(settled: Machine, b: Byte, expected: Bytes): (r: (Machine, bool)) {
    var next := if settled.candidate == expected then Toggle(settled) else settled;
    if EndsLine(next, b) then (next.(skipLF := b == CR), true) else (next, false)
  }

  /** One byte of input against the expected marker. */
  function ConsumeExpecting(read: TextReader, m: Machine, b: Byte, expected: Bytes): (r: (Machine, bool)) {
    Conclude(Settled(read, m, b, expected), b, expected)
  }

  /** A terminal input: how its text is read, and the marker that ends typing or a paste. */
  datatype Terminal = Terminal(read: TextReader, markers: bool -> Bytes)

  function Bracketed(cf: Category): Terminal {
    Terminal(Reader(cf), Marker)
  }

  /** One byte of input. A line feed right after the carriage return that ended a line is dropped. */
  function Consume(u: Terminal, m: Machine, b: Byte): (r: (Machine, bool)) {
    if m.paste then ConsumeExpecting(u.read, m, b, u.markers(true))
    else if m.skipLF && b == LF then (m.(skipLF := false), false)
    else ConsumeExpecting(u.read, m.(skipLF := false), b, u.markers(false))
  }

  function Feed(u: Terminal, m: Machine, s: Bytes): Machine {
    if s == [] then m else Consume(u, Feed(u, m, s[..|s| - 1]), s[|s| - 1]).0
  }

  /** What the console is told about a finished line, and the machine ready for the next. */
  datatype Line = Line(pasted: bool, invalid: bool, unsafe: bool)

  function TakeLine(m: Machine): (r: (Machine, Line)) {
    var done := FinishTyped(m);
    (done.(linePasted := false, invalid := false, unsafe := false, pasteRune := [], typedRune := []),
     Line(done.linePasted, done.invalid, done.unsafe))
  }
}
