/** A strict UTF-8 decoder, byte by byte. */
module Utf8 {
  type byte = x: int | 0 <= x < 256

  type Bytes = seq<byte>

  /** What a strict decoder expects: `need` more bytes of the current character, the next within `lo..hi`. */
  datatype Decoder = Expects(need: nat, lo: int, hi: int) | Broken

  const Boundary := Expects(0, 0, 0)

  function Lead(b: byte): Decoder
  {
    if b < 0x80 then Boundary
    else if 0xC2 <= b <= 0xDF then Expects(1, 0x80, 0xBF)
    else if b == 0xE0 then Expects(2, 0xA0, 0xBF)
    else if b == 0xED then Expects(2, 0x80, 0x9F)
    else if 0xE1 <= b <= 0xEF then Expects(2, 0x80, 0xBF)
    else if b == 0xF0 then Expects(3, 0x90, 0xBF)
    else if 0xF1 <= b <= 0xF3 then Expects(3, 0x80, 0xBF)
    else if b == 0xF4 then Expects(3, 0x80, 0x8F)
    else Broken
  }

  function Feed(d: Decoder, b: byte): Decoder
  {
    if d.Broken? then Broken
    else if d.need == 0 then Lead(b)
    else if !(d.lo <= b <= d.hi) then Broken
    else if d.need == 1 then Boundary
    else Expects(d.need - 1, 0x80, 0xBF)
  }

  function Decode(d: Decoder, text: Bytes): Decoder
  {
    if text == [] then d else Feed(Decode(d, text[..|text| - 1]), text[|text| - 1])
  }

  /** A whole number of characters. */
  predicate Decodes(text: Bytes) { Decode(Boundary, text) == Boundary }

  lemma {:induction false} DecodeAppend(d: Decoder, a: Bytes, b: Bytes)
    ensures Decode(d, a + b) == Decode(Decode(d, a), b)
    decreases |b|
  {
    if b == [] {
      assert a + b == a;
    } else {
      DecodeAppend(d, a, b[..|b| - 1]);
      assert (a + b)[..|a + b| - 1] == a + b[..|b| - 1];
    }
  }

  lemma {:induction false} BrokenStays(text: Bytes)
    ensures Decode(Broken, text) == Broken
  {
    if text != [] { BrokenStays(text[..|text| - 1]); }
  }

  /** Off a character boundary, a byte below 0x80 breaks the text for good. */
  lemma NeverMended(d: Decoder, text: Bytes)
    requires d == Broken || (d.need > 0 && d.lo >= 0x80)
    requires text != [] && text[0] < 0x80
    ensures Decode(d, text) == Broken
  {
    assert text == [text[0]] + text[1..];
    assert [text[0]][..0] == [];
    DecodeAppend(d, [text[0]], text[1..]);
    BrokenStays(text[1..]);
  }

  lemma {:induction false} DecodeShape(text: Bytes)
    ensures var d := Decode(Boundary, text); d == Broken || d == Boundary || (d.need > 0 && d.lo >= 0x80)
  {
    if text != [] { DecodeShape(text[..|text| - 1]); }
  }
}
