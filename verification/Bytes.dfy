/** Fixed-width integers and the byte orders used on the wire. */
module Bytes {

  type Bit = x: int | 0 <= x < 2
  type Byte = x: int | 0 <= x < 0x100
  type Half = x: int | 0 <= x < 0x1_0000
  type Word = x: int | 0 <= x < 0x1_0000_0000

  /** zlib's crc32, left uninterpreted: any function from bytes to 32-bit words. */
  type Checksum = seq<Byte> -> Word

  function Min(a: int, b: int): int {
    if a < b then a else b
  }

  /** htons */
  function Big16(x: Half): (b: seq<Byte>)
    ensures |b| == 2
  {
    [x / 0x100, x % 0x100]
  }

  /** ntohs */
  function FromBig16(b: seq<Byte>): Half
    requires |b| == 2
  {
    var hi: int := b[0];
    hi * 0x100 + b[1]
  }

  /** htonl */
  function Big32(x: Word): (b: seq<Byte>)
    ensures |b| == 4
  {
    Big16(x / 0x1_0000) + Big16(x % 0x1_0000)
  }

  /** ntohl */
  function FromBig32(b: seq<Byte>): Word
    requires |b| == 4
  {
    var hi: int := FromBig16(b[..2]);
    hi * 0x1_0000 + FromBig16(b[2..])
  }

  /** A 32-bit word copied without conversion by a little-endian host. */
  function Little32(x: Word): (b: seq<Byte>)
    ensures |b| == 4
  {
    var b := Big32(x);
    [b[3], b[2], b[1], b[0]]
  }

  function FromLittle32(b: seq<Byte>): Word
    requires |b| == 4
  {
    FromBig32([b[3], b[2], b[1], b[0]])
  }

  lemma Big16RoundTrip(x: Half)
    ensures FromBig16(Big16(x)) == x
  {
  }

  lemma Big16Canonical(b: seq<Byte>)
    requires |b| == 2
    ensures Big16(FromBig16(b)) == b
  {
  }

  lemma Big32RoundTrip(x: Word)
    ensures FromBig32(Big32(x)) == x
  {
    var hi, lo := Big16(x / 0x1_0000), Big16(x % 0x1_0000);
    assert (hi + lo)[..2] == hi && (hi + lo)[2..] == lo;
  }

  lemma Big32Canonical(b: seq<Byte>)
    requires |b| == 4
    ensures Big32(FromBig32(b)) == b
  {
    Big16Canonical(b[..2]);
    Big16Canonical(b[2..]);
    assert b == b[..2] + b[2..];
  }

  lemma Little32RoundTrip(x: Word)
    ensures FromLittle32(Little32(x)) == x
  {
    var b, l := Big32(x), Little32(x);
    assert [l[3], l[2], l[1], l[0]] == b;
    Big32RoundTrip(x);
  }

  lemma Little32Canonical(b: seq<Byte>)
    requires |b| == 4
    ensures Little32(FromLittle32(b)) == b
  {
    Big32Canonical([b[3], b[2], b[1], b[0]]);
  }
}
