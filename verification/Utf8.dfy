/** UTF-8 as the terminal reader meets it: byte by byte. `Valid` is the grammar of section 4 of RFC 3629;
    `FullRune`, `DecodeRune` and `EncodeRune` are the incremental operations of the Go library.
 */
module Utf8 {
  type Byte = b: int | 0 <= b < 256
  type Bytes = seq<Byte>

  const RUNE_ERROR: int := 0xFFFD

  predicate Continuation(b: Byte) {
    0x80 <= b <= 0xBF
  }

  /** The length a first byte announces; 0 for a byte that starts nothing. */
  function Width(lead: Byte): nat {
    if lead < 0x80 then 1
    else if 0xC2 <= lead <= 0xDF then 2
    else if 0xE0 <= lead <= 0xEF then 3
    else if 0xF0 <= lead <= 0xF4 then 4
    else 0
  }

  /** The second bytes a first byte admits. */
  predicate Admits(lead: Byte, second: Byte) {
    if lead == 0xE0 then 0xA0 <= second <= 0xBF
    else if lead == 0xED then 0x80 <= second <= 0x9F
    else if lead == 0xF0 then 0x90 <= second <= 0xBF
    else if lead == 0xF4 then 0x80 <= second <= 0x8F
    else Continuation(second)
  }

  /** One well-formed character. */
  predicate Character(u: Bytes) {
    && |u| > 0 && |u| == Width(u[0])
    && (|u| > 1 ==> Admits(u[0], u[1]))
    && (|u| > 2 ==> Continuation(u[2]))
    && (|u| > 3 ==> Continuation(u[3]))
  }

  predicate Valid(s: Bytes) {
    s == [] || (0 < Width(s[0]) <= |s| && Character(s[..Width(s[0])]) && Valid(s[Width(s[0])..]))
  }

  /** Bytes that some continuation could still turn into a character. */
  predicate Partial(p: Bytes) {
    && (|p| > 0 ==> |p| < Width(p[0]))
    && (|p| > 1 ==> Admits(p[0], p[1]))
    && (|p| > 2 ==> Continuation(p[2]))
  }

  /** Whether bytes already decide their first rune, validly or not. */
  predicate FullRune(p: Bytes) {
    && |p| > 0
    && (|| |p| >= Width(p[0])
        || (|p| > 1 && !Admits(p[0], p[1]))
        || (|p| > 2 && !Continuation(p[2])))
  }

  /** The first rune and the bytes it takes; an undecodable start takes one byte. */
  function DecodeRune(p: Bytes): (r: (int, nat))
    ensures r.1 <= |p|
  {
    if p == [] then (RUNE_ERROR, 0)
    else
      var width := Width(p[0]);
      if width == 0 || |p| < width then (RUNE_ERROR, 1)
      else if width == 1 then (p[0], 1)
      else if !Admits(p[0], p[1]) then (RUNE_ERROR, 1)
      else if width == 2 then ((p[0] as int - 0xC0) * 0x40 + (p[1] as int - 0x80), 2)
      else if !Continuation(p[2]) then (RUNE_ERROR, 1)
      else if width == 3 then ((p[0] as int - 0xE0) * 0x1000 + (p[1] as int - 0x80) * 0x40 + (p[2] as int - 0x80), 3)
      else if !Continuation(p[3]) then (RUNE_ERROR, 1)
      else ((p[0] as int - 0xF0) * 0x40000 + (p[1] as int - 0x80) * 0x1000 + (p[2] as int - 0x80) * 0x40 + (p[3] as int - 0x80), 4)
  }

  /** Encodes a rune; surrogates and values out of range become the replacement character. */
  function EncodeRune(r: int): Bytes {
    if 0 <= r < 0x80 then [r]
    else if 0x80 <= r < 0x800 then [0xC0 + r / 0x40, 0x80 + r % 0x40]
    else if r < 0 || 0xD800 <= r <= 0xDFFF || r > 0x10FFFF then [0xEF, 0xBF, 0xBD]
    else if r < 0x10000 then [0xE0 + r / 0x1000, 0x80 + r / 0x40 % 0x40, 0x80 + r % 0x40]
    else [0xF0 + r / 0x40000, 0x80 + r / 0x1000 % 0x40, 0x80 + r / 0x40 % 0x40, 0x80 + r % 0x40]
  }

  // ----- Characters -----------------------------------------------------------------------------

  lemma Split2(hi: int, lo: int)
    requires 0 <= lo < 0x40 && 0 <= hi
    ensures (hi * 0x40 + lo) / 0x40 == hi && (hi * 0x40 + lo) % 0x40 == lo
  {
  }

  lemma Decode2(u: Bytes)
    requires Character(u) && |u| == 2
    ensures EncodeRune(DecodeRune(u).0) == u
  {
    Split2(u[0] as int - 0xC0, u[1] as int - 0x80);
  }

  lemma Decode3(u: Bytes)
    requires Character(u) && |u| == 3
    ensures EncodeRune(DecodeRune(u).0) == u
  {
    var a, b, c := u[0] as int - 0xE0, u[1] as int - 0x80, u[2] as int - 0x80;
    var r := DecodeRune(u).0;
    assert r == (a * 0x40 + b) * 0x40 + c;
    Split2(a * 0x40 + b, c);
    Split2(a, b);
    assert r / 0x1000 == a;
  }

  lemma Decode4(u: Bytes)
    requires Character(u) && |u| == 4
    ensures EncodeRune(DecodeRune(u).0) == u
  {
    var a, b, c, d := u[0] as int - 0xF0, u[1] as int - 0x80, u[2] as int - 0x80, u[3] as int - 0x80;
    var r := DecodeRune(u).0;
    assert r == ((a * 0x40 + b) * 0x40 + c) * 0x40 + d;
    Split2((a * 0x40 + b) * 0x40 + c, d);
    Split2(a * 0x40 + b, c);
    Split2(a, b);
    assert r / 0x1000 == a * 0x40 + b && r / 0x40000 == a;
  }

  /** Decoding a well-formed character takes all of it and re-encodes to the same bytes. */
  lemma DecodeCharacter(u: Bytes)
    requires Character(u)
    ensures DecodeRune(u).1 == |u|
    ensures EncodeRune(DecodeRune(u).0) == u
  {
    if |u| == 2 {
      Decode2(u);
    } else if |u| == 3 {
      Decode3(u);
    } else if |u| == 4 {
      Decode4(u);
    }
  }

  /** One more byte after a partial character: still partial, complete, or beyond repair. */
  lemma PartialGrows(p: Bytes, b: Byte)
    requires Partial(p)
    ensures FullRune(p + [b]) <==> !Partial(p + [b])
    ensures FullRune(p + [b]) ==> (Character(p + [b]) <==> !(DecodeRune(p + [b]) == (RUNE_ERROR, 1)))
  {
    var q := p + [b];
    if FullRune(q) && Character(q) {
      DecodeCharacter(q);
    }
  }

  // ----- Streams --------------------------------------------------------------------------------

  lemma CharacterIsValid(u: Bytes)
    requires Character(u)
    ensures Valid(u)
  {
    assert u[..|u|] == u && u[|u|..] == [];
  }

  lemma {:induction false} ValidConcat(s: Bytes, t: Bytes)
    requires Valid(s)
    ensures Valid(s + t) <==> Valid(t)
  {
    if s == [] {
      assert s + t == t;
    } else {
      var w := Width(s[0]);
      assert (s + t)[..w] == s[..w] && (s + t)[w..] == s[w..] + t;
      ValidConcat(s[w..], t);
    }
  }

  /** A non-empty partial character alone is not valid text. */
  lemma PartialIsNotValid(p: Bytes)
    requires Partial(p) && p != []
    ensures !Valid(p)
  {
  }

  /** Bytes that decide on an error stay invalid whatever follows. */
  lemma RuinedStaysInvalid(p: Bytes, t: Bytes)
    requires FullRune(p) && !Character(p) && (|p| == 1 || Partial(p[..|p| - 1]))
    ensures !Valid(p + t)
  {
  }
}
