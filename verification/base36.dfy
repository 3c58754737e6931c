/**
 * The base-36 text codec the identifier delegates to (`base36.Encode` and
 * `base36.DecodeToBytes`). Its implementation is not part of this model: the
 * pair is a parameter, and what the round trips rely on is stated once, as
 * the predicate `Conforms`. Its clause on the alphabet is needed only by the
 * JSON round trip, where the text must need no JSON escaping; nothing in the
 * identifier's own code depends on the alphabet.
 */
module Base36 {

  import opened GoInts
  import BigEndian

  /** Longest text the codec produces for a 64-bit value (36^12 < 2^64 <= 36^13). */
  const MAX_ENCODED_LENGTH: nat := 13

  /** `Encode(uint64) string` and `DecodeToBytes(string) []byte`; Go strings are byte sequences. */
  datatype Codec = Codec(encode: uint64 -> seq<byte>, decodeToBytes: seq<byte> -> seq<byte>)

  /** The base-36 alphabet: ASCII digits and lower-case letters. */
  predicate IsDigit(b: byte)
  {
    '0' as int <= b <= '9' as int || 'a' as int <= b <= 'z' as int
  }

  /** The encoding of `u` is at most 13 base-36 digits and decodes to the
      eight big-endian bytes of `u`. */
  ghost predicate EncodesFaithfully(c: Codec, u: uint64)
  {
    var s := c.encode(u);
    && |s| <= MAX_ENCODED_LENGTH
    && (forall i :: 0 <= i < |s| ==> IsDigit(s[i]))
    && c.decodeToBytes(s) == BigEndian.PutUint64(u)
  }

  /** The hypothesis about the codec: every 64-bit value is encoded faithfully. */
  ghost predicate Conforms(c: Codec)
  {
    forall u: uint64 :: EncodesFaithfully(c, u)
  }
}
