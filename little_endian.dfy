/** Byte-level view of an ArrayBuffer as DataView sees it with littleEndian = true. */
module LittleEndian {

  /** One octet of an ArrayBuffer. */
  type Byte = b: int | 0 <= b < 0x100

  const Two15: int := 0x8000
  const Two16: int := 0x1_0000
  const Two32: int := 0x1_0000_0000

  /** The 16-bit unsigned value stored little-endian at b[offset], b[offset + 1]. */
  function ReadUint16(b: seq<Byte>, offset: nat): (v: int)
    requires offset + 2 <= |b|
    ensures 0 <= v < Two16
  {
    b[offset] as int + 0x100 * b[offset + 1] as int
  }

  /** The 32-bit unsigned value stored little-endian at b[offset], ..., b[offset + 3]. */
  function ReadUint32(b: seq<Byte>, offset: nat): (v: int)
    requires offset + 4 <= |b|
    ensures 0 <= v < Two32
  {
    var b0, b1, b2, b3: int := b[offset], b[offset + 1], b[offset + 2], b[offset + 3];
    b0 + 0x100 * b1 + 0x1_0000 * b2 + 0x100_0000 * b3
  }

  /** The 16-bit two's-complement value stored little-endian at b[offset], b[offset + 1]. */
  function ReadInt16(b: seq<Byte>, offset: nat): (v: int)
    requires offset + 2 <= |b|
    ensures -Two15 <= v < Two15
    ensures v % Two16 == ReadUint16(b, offset)
  {
    var u := ReadUint16(b, offset);
    if u >= Two15 then u - Two16 else u
  }

  /** The bytes DataView.setUint16(offset, v, true) stores: v is first reduced modulo 2^16
      (ECMAScript ToUint16), then written low byte first. */
  function Uint16Bytes(v: int): (r: seq<Byte>)
    ensures |r| == 2
    ensures ReadUint16(r, 0) == v % Two16
  {
    var u := v % Two16;
    [u % 0x100, u / 0x100]
  }

  /** The bytes DataView.setUint32(offset, v, true) stores: v is first reduced modulo 2^32
      (ECMAScript ToUint32), then written low byte first. */
  function Uint32Bytes(v: int): (r: seq<Byte>)
    ensures |r| == 4
    ensures ReadUint32(r, 0) == v % Two32
  {
    var u := v % Two32;
    var r: seq<Byte> := [u % 0x100, (u / 0x100) % 0x100, (u / 0x1_0000) % 0x100, u / 0x100_0000];
    assert ReadUint32(r, 0) == u by { SplitUint32(u); }
    r
  }

  /** Splitting a 32-bit value into its four base-256 digits and putting them back together. */
  lemma SplitUint32(u: int)
    requires 0 <= u < Two32
    ensures u % 0x100 + 0x100 * ((u / 0x100) % 0x100) + 0x1_0000 * ((u / 0x1_0000) % 0x100)
            + 0x100_0000 * (u / 0x100_0000) == u
    ensures 0 <= u / 0x100_0000 < 0x100
  {
    var q1 := u / 0x100;
    var q2 := q1 / 0x100;
    var q3 := q2 / 0x100;
    assert u == u % 0x100 + 0x100 * q1;
    assert q1 == q1 % 0x100 + 0x100 * q2;
    assert q2 == q2 % 0x100 + 0x100 * q3;
    assert u / 0x1_0000 == q2;
    assert u / 0x100_0000 == q3;
  }

  /** Conversely, any two bytes are what setUint16 writes for the value they encode. */
  lemma Uint16Inverse(b: seq<Byte>, offset: nat)
    requires offset + 2 <= |b|
    ensures Uint16Bytes(ReadUint16(b, offset)) == b[offset..offset + 2]
  {
    var u := ReadUint16(b, offset);
    assert u % Two16 == u;
    assert u % 0x100 == b[offset] && u / 0x100 == b[offset + 1];
  }

  /** Conversely, any four bytes are what setUint32 writes for the value they encode. */
  lemma Uint32Inverse(b: seq<Byte>, offset: nat)
    requires offset + 4 <= |b|
    ensures Uint32Bytes(ReadUint32(b, offset)) == b[offset..offset + 4]
  {
    var b0, b1, b2, b3: int := b[offset], b[offset + 1], b[offset + 2], b[offset + 3];
    var u := ReadUint32(b, offset);
    assert u % Two32 == u;
    var hi := b1 + 0x100 * b2 + 0x1_0000 * b3;
    assert u == b0 + 0x100 * hi;
    assert u % 0x100 == b0 && u / 0x100 == hi;
    assert hi % 0x100 == b1 && (hi / 0x100) == b2 + 0x100 * b3;
    assert u / 0x1_0000 == hi / 0x100;
    assert u / 0x100_0000 == b3;
  }

  /** The 16-bit field at offset determines its two bytes: this is what makes a header
      described field by field unique. */
  lemma Uint16Determines(b: seq<Byte>, offset: nat, v: int)
    requires offset + 2 <= |b|
    requires ReadUint16(b, offset) == v % Two16
    ensures b[offset..offset + 2] == Uint16Bytes(v)
  {
    Uint16Inverse(b, offset);
    assert Uint16Bytes(v) == Uint16Bytes(v % Two16);
  }

  /** The 32-bit field at offset determines its four bytes. */
  lemma Uint32Determines(b: seq<Byte>, offset: nat, v: int)
    requires offset + 4 <= |b|
    requires ReadUint32(b, offset) == v % Two32
    ensures b[offset..offset + 4] == Uint32Bytes(v)
  {
    Uint32Inverse(b, offset);
    assert Uint32Bytes(v) == Uint32Bytes(v % Two32);
  }
}
