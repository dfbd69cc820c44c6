// UTF-8 (section 3 of RFC 3629), and why the byte bounds of the delivery count encoded bytes.
module Utf8 {
  import opened Wrappers
  import opened Lexicographic
  import opened CanonicalJson
  import opened SignedChunks

  type Byte = b: int | 0 <= b < 0x100

  predicate Continues(b: Byte) { 0x80 <= b < 0xC0 }

  // One code point, and how many bytes it takes.
  function ReadPoint(bytes: seq<Byte>): (r: Option<(int, nat)>)
    ensures r.Some? ==> 0 <= r.value.0 < 0x200000 && 0 < r.value.1 <= |bytes|
  {
    if bytes == [] then None
    else if bytes[0] < 0x80 then Some((bytes[0], 1))
    else if 0xC0 <= bytes[0] < 0xE0 && |bytes| >= 2 && Continues(bytes[1]) then
      Some(((bytes[0] as int - 0xC0) * 0x40 + (bytes[1] as int - 0x80), 2))
    else if 0xE0 <= bytes[0] < 0xF0 && |bytes| >= 3 && Continues(bytes[1]) && Continues(bytes[2]) then
      Some(((bytes[0] as int - 0xE0) * 0x1000 + (bytes[1] as int - 0x80) * 0x40 + (bytes[2] as int - 0x80), 3))
    else if 0xF0 <= bytes[0] < 0xF8 && |bytes| >= 4 && Continues(bytes[1]) && Continues(bytes[2]) && Continues(bytes[3]) then
      Some(((bytes[0] as int - 0xF0) * 0x40000 + (bytes[1] as int - 0x80) * 0x1000 + (bytes[2] as int - 0x80) * 0x40 + (bytes[3] as int - 0x80), 4))
    else None
  }

  // The UTF-16 code units of a code point.
  function Units(point: int): Option<Text> {
    if 0 <= point < 0x10000 then Some([point])
    else if 0x10000 <= point < 0x110000 then
      Some([0xD800 + (point - 0x10000) / 0x400, 0xDC00 + (point - 0x10000) % 0x400])
    else None
  }

  function Decode(bytes: seq<Byte>): Option<Text>
    decreases |bytes|
  {
    if bytes == [] then Some([]) else
    var point := ReadPoint(bytes);
    if point.None? || Units(point.value.0).None? then None else
    var rest := Decode(bytes[point.value.1..]);
    if rest.None? then None else Some(Units(point.value.0).value + rest.value)
  }

  function PointOf(high: CodeUnit, low: CodeUnit): int
    requires High(high) && Low(low)
  {
    0x10000 + (high - 0xD800) * 0x400 + (low - 0xDC00)
  }

  // The bytes of one code point, in the shortest form; a surrogate is written as U+FFFD.
  function WritePoint(point: int): (bytes: seq<Byte>)
    requires 0 <= point < 0x110000
  {
    if point < 0x80 then [point]
    else if point < 0x800 then [0xC0 + point / 0x40, 0x80 + point % 0x40]
    else if 0xD800 <= point < 0xE000 then [0xEF, 0xBF, 0xBD]
    else if point < 0x10000 then [0xE0 + point / 0x1000, 0x80 + point / 0x40 % 0x40, 0x80 + point % 0x40]
    else [0xF0 + point / 0x40000, 0x80 + point / 0x1000 % 0x40, 0x80 + point / 0x40 % 0x40, 0x80 + point % 0x40]
  }

  function Encode(t: Text): seq<Byte> {
    if t == [] then []
    else if |t| > 1 && High(t[0]) && Low(t[1]) then WritePoint(PointOf(t[0], t[1])) + Encode(t[2..])
    else WritePoint(t[0]) + Encode(t[1..])
  }

  lemma {:induction false} SplitPoint(point: nat)
    ensures point / 0x40 * 0x40 + point % 0x40 == point
    ensures point / 0x1000 * 0x1000 + point / 0x40 % 0x40 * 0x40 + point % 0x40 == point
    ensures point / 0x40000 * 0x40000 + point / 0x1000 % 0x40 * 0x1000 + point / 0x40 % 0x40 * 0x40 + point % 0x40 == point
  {
    assert point / 0x40 / 0x40 == point / 0x1000 && point / 0x1000 / 0x40 == point / 0x40000;
    assert point / 0x40 == point / 0x1000 * 0x40 + point / 0x40 % 0x40;
    assert point / 0x1000 == point / 0x40000 * 0x40 + point / 0x1000 % 0x40;
  }

  lemma {:induction false} PointReads(point: int, rest: seq<Byte>)
    requires 0 <= point < 0x110000 && !(0xD800 <= point < 0xE000)
    ensures ReadPoint(WritePoint(point) + rest) == Some((point, |WritePoint(point)|))
  {
    SplitPoint(point);
  }

  lemma {:induction false} PairUnits(high: CodeUnit, low: CodeUnit)
    requires High(high) && Low(low)
    ensures 0x10000 <= PointOf(high, low) < 0x110000 && Units(PointOf(high, low)) == Some([high, low])
  {}

  // A text whose surrogates are paired reads back from its bytes.
  lemma {:induction false} DecodeEncode(t: Text)
    requires Paired(t)
    ensures Decode(Encode(t)) == Some(t)
    decreases |t|
  {
    if t != [] {
      var pair := |t| > 1 && High(t[0]) && Low(t[1]);
      var n := if pair then 2 else 1;
      var point := if pair then PointOf(t[0], t[1]) else t[0];
      if pair { PairUnits(t[0], t[1]); }
      DecodeEncode(t[n..]);
      PointReads(point, Encode(t[n..]));
      assert Encode(t)[|WritePoint(point)|..] == Encode(t[n..]);
      assert t == t[..n] + t[n..] && Units(point).value == t[..n];
    }
  }

  // The byte bounds count the bytes of the encoded text.
  lemma {:induction false} LengthIsEncoded(t: Text)
    ensures |Encode(t)| == Utf8Length(t)
    decreases |t|
  {
    if t != [] {
      if |t| > 1 && High(t[0]) && Low(t[1]) {
        LengthIsEncoded(t[2..]);
      } else {
        LengthIsEncoded(t[1..]);
      }
    }
  }
}
