/**
 * The big-endian helpers of Go's encoding/binary package that the identifier
 * codecs use: `PutUint32`, `Uint32` and `PutUint64`. Each written byte is the
 * value shifted right and truncated to 8 bits, most significant byte first.
 */
module BigEndian {

  import opened GoInts

  const TWO_TO_16: int := 0x1_0000
  const TWO_TO_24: int := 0x100_0000
  const TWO_TO_40: int := 0x100_0000_0000
  const TWO_TO_48: int := 0x1_0000_0000_0000
  const TWO_TO_56: int := 0x100_0000_0000_0000

  /** `binary.BigEndian.PutUint32`: the four bytes of `v`, most significant first. */
  function PutUint32(v: uint32): (b: seq<byte>)
    ensures |b| == 4
  {
    [(v / TWO_TO_24) % TWO_TO_8, (v / TWO_TO_16) % TWO_TO_8, (v / TWO_TO_8) % TWO_TO_8, v % TWO_TO_8]
  }

  /** `binary.BigEndian.Uint32`: reads four bytes, most significant first.
      The library ORs the shifted bytes together; their bit ranges are
      disjoint, so the sum below is the same number. */
  function Uint32(b: seq<byte>): (v: uint32)
    requires |b| == 4
  {
    b[0] * TWO_TO_24 + b[1] * TWO_TO_16 + b[2] * TWO_TO_8 + b[3]
  }

  /** `binary.BigEndian.PutUint64`: the eight bytes of `v`, most significant first. */
  function PutUint64(v: uint64): (b: seq<byte>)
    ensures |b| == 8
  {
    [ (v / TWO_TO_56) % TWO_TO_8, (v / TWO_TO_48) % TWO_TO_8,
      (v / TWO_TO_40) % TWO_TO_8, (v / TWO_TO_32) % TWO_TO_8,
      (v / TWO_TO_24) % TWO_TO_8, (v / TWO_TO_16) % TWO_TO_8,
      (v / TWO_TO_8) % TWO_TO_8, v % TWO_TO_8 ]
  }

  /** Reading back four written bytes yields the value written. */
  lemma ReadAfterPut(v: uint32)
    ensures Uint32(PutUint32(v)) == v
  {
  }

  /** Writing a value read from four bytes reproduces those bytes. */
  lemma PutAfterRead(b: seq<byte>)
    requires |b| == 4
    ensures PutUint32(Uint32(b)) == b
  {
    var v := Uint32(b);
    DivModUnique(v, TWO_TO_24, b[0], b[1] * TWO_TO_16 + b[2] * TWO_TO_8 + b[3]);
    DivModUnique(v, TWO_TO_16, b[0] * TWO_TO_8 + b[1], b[2] * TWO_TO_8 + b[3]);
    DivModUnique(b[0] * TWO_TO_8 + b[1], TWO_TO_8, b[0], b[1]);
    DivModUnique(v, TWO_TO_8, b[0] * TWO_TO_16 + b[1] * TWO_TO_8 + b[2], b[3]);
    DivModUnique(b[0] * TWO_TO_16 + b[1] * TWO_TO_8 + b[2], TWO_TO_8, b[0] * TWO_TO_8 + b[1], b[2]);
  }

  /** The eight bytes of a 64-bit value are the four bytes of its high half
      followed by the four bytes of its low half. */
  lemma PutUint64Halves(v: uint64)
    ensures PutUint64(v)[..4] == PutUint32(v / TWO_TO_32)
    ensures PutUint64(v)[4..] == PutUint32(v % TWO_TO_32)
  {
    var hi, lo := v / TWO_TO_32, v % TWO_TO_32;
    // High bytes: shifting v right by 32 + s bits is shifting hi right by s bits.
    DivModUnique(v, TWO_TO_56, hi / TWO_TO_24, (hi % TWO_TO_24) * TWO_TO_32 + lo);
    DivModUnique(v, TWO_TO_48, hi / TWO_TO_16, (hi % TWO_TO_16) * TWO_TO_32 + lo);
    DivModUnique(v, TWO_TO_40, hi / TWO_TO_8, (hi % TWO_TO_8) * TWO_TO_32 + lo);
    // Low bytes: the high half contributes whole multiples of 256.
    LowByte(hi, lo, TWO_TO_24, TWO_TO_8);
    LowByte(hi, lo, TWO_TO_16, TWO_TO_16);
    LowByte(hi, lo, TWO_TO_8, TWO_TO_24);
    LowByte(hi, lo, 1, TWO_TO_32);
  }

  /** With `v == hi * 2^32 + lo` and `s * m == 2^32`, `m >= 256`, the byte of
      `v` at shift `s` is the byte of `lo` at shift `s`. */
  lemma LowByte(hi: nat, lo: nat, s: int, m: int)
    requires s > 0 && m >= TWO_TO_8 && m % TWO_TO_8 == 0 && s * m == TWO_TO_32 && lo < TWO_TO_32
    ensures ((hi * TWO_TO_32 + lo) / s) % TWO_TO_8 == (lo / s) % TWO_TO_8
  {
    var v := hi * TWO_TO_32 + lo;
    assert v == (hi * m + lo / s) * s + lo % s by {
      assert lo == (lo / s) * s + lo % s;
      assert hi * TWO_TO_32 == (hi * m) * s;
    }
    DivModUnique(v, s, hi * m + lo / s, lo % s);
    var k := m / TWO_TO_8;
    assert hi * m == (hi * k) * TWO_TO_8;
    var t := lo / s;
    DivModUnique(hi * m + t, TWO_TO_8, hi * k + t / TWO_TO_8, t % TWO_TO_8);
  }
}
