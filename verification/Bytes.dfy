/** Byte strings, little-endian integers, Base 128 varints and hexadecimal text. */
module Bytes {
  import opened Wrappers

  type Byte = x: int | 0 <= x < 256

  /** The bytes s stand at position pos of data. */
  ghost predicate At(data: seq<Byte>, pos: nat, s: seq<Byte>) {
    pos + |s| <= |data| && forall i {:trigger s[i]} :: 0 <= i < |s| ==> data[pos + i] == s[i]
  }

  lemma AtSplit(data: seq<Byte>, pos: nat, a: seq<Byte>, b: seq<Byte>)
    requires At(data, pos, a + b)
    ensures At(data, pos, a) && At(data, pos + |a|, b)
  {
    forall i | 0 <= i < |a| ensures data[pos + i] == a[i] {
      assert (a + b)[i] == a[i];
    }
    forall i | 0 <= i < |b| ensures data[pos + |a| + i] == b[i] {
      assert (a + b)[|a| + i] == b[i];
    }
  }

  lemma AtStart(data: seq<Byte>)
    ensures At(data, 0, data)
  {
  }

  lemma AtFits(data: seq<Byte>, pos: nat, s: seq<Byte>)
    requires At(data, pos, s)
    ensures pos + |s| <= |data|
  {
  }

  lemma AtSlice(data: seq<Byte>, pos: nat, s: seq<Byte>)
    requires At(data, pos, s)
    ensures data[pos..pos + |s|] == s
  {
  }

  // ----- Little-endian integers -----

  function DecodeLE(data: seq<Byte>, pos: nat, width: nat): (v: nat)
    requires pos + width <= |data|
    decreases width
  {
    if width == 0 then 0 else data[pos] + 256 * DecodeLE(data, pos + 1, width - 1)
  }

  function EncodeLE(v: nat, width: nat): (s: seq<Byte>)
    ensures |s| == width
  {
    if width == 0 then [] else [v % 256] + EncodeLE(v / 256, width - 1)
  }

  function Power256(width: nat): (p: nat)
    ensures p > 0
  {
    if width == 0 then 1 else 256 * Power256(width - 1)
  }

  /** Reading back a fixed-width little-endian integer gives the integer. */
  lemma {:induction false} LittleEndianRoundTrip(data: seq<Byte>, pos: nat, v: nat, width: nat)
    requires v < Power256(width) && At(data, pos, EncodeLE(v, width))
    ensures DecodeLE(data, pos, width) == v
    decreases width
  {
    if width > 0 {
      AtSplit(data, pos, [v % 256], EncodeLE(v / 256, width - 1));
      assert EncodeLE(v, width)[0] == v % 256;
      LittleEndianRoundTrip(data, pos + 1, v / 256, width - 1);
    }
  }

  // ----- Base 128 varints, as encoding/binary writes and reads them -----

  /** One past the largest value whose groups fit from byte i of a ten-byte varint on: 2 to the 64 - 7i. */
  function VarintRoom(i: nat): (room: nat)
    requires i <= 9
    ensures room >= 2
    decreases 9 - i
  {
    if i == 9 then 2 else 128 * VarintRoom(i + 1)
  }

  function EncodeUvarint(v: nat): (s: seq<Byte>)
    ensures |s| > 0
  {
    if v < 128 then [v] else [128 + v % 128] + EncodeUvarint(v / 128)
  }

  datatype Uvarint = Uvarint(value: nat, size: nat)

  /** Byte i of a varint stands at pos. None is the reader's n <= 0: the input ends, or the value exceeds 64 bits. */
  function DecodeUvarint(data: seq<Byte>, pos: nat, i: nat): (r: Option<Uvarint>)
    requires i <= 10
    ensures r.Some? ==> i <= 9 && r.value.value < VarintRoom(i) && 0 < r.value.size <= |data| - pos
    decreases |data| - pos
  {
    if pos >= |data| || i == 10 then None
    else if data[pos] < 128 then
      if i == 9 && data[pos] > 1 then None else Some(Uvarint(data[pos], 1))
    else
      var rest := DecodeUvarint(data, pos + 1, i + 1);
      if rest.None? then None
      else Some(Uvarint(data[pos] - 128 + 128 * rest.value.value, rest.value.size + 1))
  }

  lemma VarintRoomIs64Bits()
    ensures VarintRoom(0) == 0x1_0000_0000_0000_0000
  {
    assert VarintRoom(5) == 0x2000_0000;
  }

  /** A value that fits in the remaining groups is read back, with exactly the bytes it was written in. */
  lemma {:induction false} VarintRoundTrip(data: seq<Byte>, pos: nat, i: nat, v: nat)
    requires i <= 9 && v < VarintRoom(i) && At(data, pos, EncodeUvarint(v))
    ensures DecodeUvarint(data, pos, i) == Some(Uvarint(v, |EncodeUvarint(v)|))
    decreases v
  {
    assert EncodeUvarint(v)[0] == data[pos + 0];
    if v >= 128 {
      AtSplit(data, pos, [128 + v % 128], EncodeUvarint(v / 128));
      VarintRoundTrip(data, pos + 1, i + 1, v / 128);
    }
  }

  lemma {:induction false} VarintFits(i: nat, v: nat)
    requires i <= 9 && v < VarintRoom(i)
    ensures |EncodeUvarint(v)| <= 10 - i
    decreases v
  {
    if v >= 128 {
      VarintFits(i + 1, v / 128);
    }
  }

  // ----- Two's complement int64, the width of Go's int -----

  const TWO_63 := 0x8000_0000_0000_0000
  const TWO_64 := 0x1_0000_0000_0000_0000

  function ToInt64(x: int): (r: int)
    ensures -TWO_63 <= r < TWO_63
    ensures -TWO_63 <= x < TWO_63 ==> r == x
    ensures TWO_63 <= x < TWO_64 ==> r == x - TWO_64
  {
    var m := x % TWO_64;
    if m < TWO_63 then m else m - TWO_64
  }

  // ----- Hexadecimal text -----

  function HexChar(d: nat): (c: char)
    requires d < 16
  {
    if d < 10 then '0' + d as char else 'a' + (d - 10) as char
  }

  function HexEncode(s: seq<Byte>): (t: string)
    ensures |t| == 2 * |s|
  {
    if s == [] then "" else [HexChar(s[0] / 16), HexChar(s[0] % 16)] + HexEncode(s[1..])
  }

  /** The byte at position i is spelled by the characters at 2i and 2i + 1. */
  lemma {:induction false} HexEncodeAt(s: seq<Byte>, i: nat)
    requires i < |s|
    ensures HexEncode(s)[2 * i] == HexChar(s[i] / 16) && HexEncode(s)[2 * i + 1] == HexChar(s[i] % 16)
  {
    if i > 0 {
      HexEncodeAt(s[1..], i - 1);
    }
  }

  lemma HexByteInjective(x: Byte, y: Byte)
    requires HexChar(x / 16) == HexChar(y / 16) && HexChar(x % 16) == HexChar(y % 16)
    ensures x == y
  {
    assert x == 16 * (x / 16) + x % 16 && y == 16 * (y / 16) + y % 16;
  }

  /** Different byte strings have different hexadecimal texts. */
  lemma HexEncodeInjective(a: seq<Byte>, b: seq<Byte>)
    requires HexEncode(a) == HexEncode(b)
    ensures a == b
  {
    assert |a| == |b|;
    forall i | 0 <= i < |a| ensures a[i] == b[i] {
      HexEncodeAt(a, i);
      HexEncodeAt(b, i);
      HexByteInjective(a[i], b[i]);
    }
  }
}
