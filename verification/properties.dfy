/**
 * Properties of the identifier's representations: binary layout and round
 * trips, numeric composition and ordering, construction, and the text, JSON
 * and database-scalar round trips under the codec and parser hypotheses.
 */
module IdiotaProperties {

  import opened GoInts
  import opened Wrappers
  import BigEndian
  import Bits
  import Base36
  import Json
  import opened Idiota

  // ---------------------------------------------------------------- binary

  /** Bytes 0..3 are the timestamp and bytes 4..7 the random field, big-endian,
      and they read back as the high and low halves of the numeric form. */
  lemma BinaryLayout(id: Id)
    ensures MarshalBinary(id)[0..4] == BigEndian.PutUint32(id.ts)
    ensures MarshalBinary(id)[4..8] == BigEndian.PutUint32(id.rand)
    ensures BigEndian.Uint32(MarshalBinary(id)[0..4]) == UInt64(id) / TWO_TO_32
    ensures BigEndian.Uint32(MarshalBinary(id)[4..8]) == UInt64(id) % TWO_TO_32
  {
  }

  /** Unmarshalling a marshalled identifier succeeds, whatever the receiver held. */
  lemma BinaryRoundTrip(id: Id, receiver: Id)
    ensures UnmarshalBinary(receiver, MarshalBinary(id)) == Unmarshalled(id, Ok)
  {
  }

  /** Every 8-byte sequence unmarshals, and re-marshals to itself. */
  lemma BytesRoundTrip(receiver: Id, b: seq<byte>)
    requires |b| == BINARY_LENGTH
    ensures UnmarshalBinary(receiver, b).status == Ok
    ensures MarshalBinary(UnmarshalBinary(receiver, b).receiver) == b
  {
  }

  /** Distinct identifiers have distinct binary forms. */
  lemma MarshalBinaryInjective(a: Id, b: Id)
    requires MarshalBinary(a) == MarshalBinary(b)
    ensures a == b
  {
  }

  /** The binary form is the numeric form written as a big-endian uint64. */
  lemma BinaryIsBigEndianUInt64(id: Id)
    ensures MarshalBinary(id) == BigEndian.PutUint64(UInt64(id))
  {
    var u := UInt64(id);
    BigEndian.PutUint64Halves(u);
    UInt64Halves(id);
    BinaryLayout(id);
    var p := BigEndian.PutUint64(u);
    assert p == p[..4] + p[4..];
    var m := MarshalBinary(id);
    assert m == m[0..4] + m[4..8];
  }

  // --------------------------------------------------------------- numeric

  /** The high and low 32 bits of the numeric form are the two fields. */
  lemma UInt64Halves(id: Id)
    ensures UInt64(id) / TWO_TO_32 == id.ts
    ensures UInt64(id) % TWO_TO_32 == id.rand
  {
  }

  /** `uint64(ts) << 32` loses no bits, `+ uint64(rand)` does not wrap, and the
      sum used by the text forms is the OR used by `UInt64`. */
  lemma SumAndOrAgree(id: Id)
    ensures ShiftLeft32(id.ts) == id.ts * TWO_TO_32
    ensures ShiftLeft32(id.ts) + id.rand < TWO_TO_64
    ensures Add64(ShiftLeft32(id.ts), id.rand) == Bits.Or(ShiftLeft32(id.ts), id.rand)
  {
    ShiftOrIsSum(id);
  }

  /** Distinct identifiers have distinct numeric forms. */
  lemma UInt64Injective(a: Id, b: Id)
    requires UInt64(a) == UInt64(b)
    ensures a == b
  {
  }

  /** Numeric order is timestamp-major, random-minor. */
  lemma UInt64Order(a: Id, b: Id)
    ensures UInt64(a) < UInt64(b) <==> a.ts < b.ts || (a.ts == b.ts && a.rand < b.rand)
  {
  }

  /** `FromUint64` inverts `UInt64`. */
  lemma FromUint64RoundTrip(id: Id)
    ensures FromUint64(UInt64(id)) == Unmarshalled(id, Ok)
  {
  }

  // ----------------------------------------------------------- construction

  /** With explicit inputs, `NewId` ignores the clock and the random source:
      the timestamp is the seconds truncated to 32 bits and the random field
      is the given value, so they are the halves of the numeric form. */
  lemma NewIdExplicit(seconds: int64, random: uint32, now: int64, drawn: uint32)
    ensures NewId(Some(seconds), Some(random), now, drawn) == Id(Truncate32(seconds), random)
    ensures UInt64(NewId(Some(seconds), Some(random), now, drawn)) / TWO_TO_32 == Truncate32(seconds)
    ensures UInt64(NewId(Some(seconds), Some(random), now, drawn)) % TWO_TO_32 == random
  {
  }

  /** Each input decides its own field, whatever the other input is: a given
      time fixes the high half of the numeric form and the clock is ignored;
      a given random value fixes the low half and the draw is ignored. */
  lemma NewIdPerArgument(inputTime: Option<int64>, inputRandom: Option<uint32>, now: int64, drawn: uint32)
    ensures inputTime.Some? ==> UInt64(NewId(inputTime, inputRandom, now, drawn)) / TWO_TO_32 == Truncate32(inputTime.value)
    ensures inputTime.None? ==> UInt64(NewId(inputTime, inputRandom, now, drawn)) / TWO_TO_32 == Truncate32(now)
    ensures inputRandom.Some? ==> UInt64(NewId(inputTime, inputRandom, now, drawn)) % TWO_TO_32 == inputRandom.value
    ensures inputRandom.None? ==> UInt64(NewId(inputTime, inputRandom, now, drawn)) % TWO_TO_32 == drawn
  {
  }

  /** Without inputs, `NewId` uses the clock reading and the random draw. */
  lemma NewIdDefaults(now: int64, drawn: uint32)
    ensures NewId(None, None, now, drawn) == Id(Truncate32(now), drawn)
  {
  }

  /** `Time` recovers the construction time exactly when it lies in
      [0, 2^32); otherwise it recovers it modulo 2^32. */
  lemma TimeRecoversSeconds(seconds: int64, random: uint32, now: int64, drawn: uint32)
    ensures Time(NewId(Some(seconds), Some(random), now, drawn)) == seconds <==> 0 <= seconds < TWO_TO_32
    ensures (Time(NewId(Some(seconds), Some(random), now, drawn)) - seconds) % TWO_TO_32 == 0
  {
  }

  /** A worked example: time 1700000000 and random 123456789. */
  lemma NewIdExample(now: int64, drawn: uint32)
    ensures UInt64(NewId(Some(1700000000), Some(123456789), now, drawn)) == 1700000000 * TWO_TO_32 + 123456789
    ensures Time(NewId(Some(1700000000), Some(123456789), now, drawn)) == 1700000000
  {
  }

  // ------------------------------------------------------------------ text

  /** Under the codec hypothesis the text form has at most 13 base-36 digits. */
  lemma TextLength(c: Base36.Codec, id: Id)
    requires Base36.Conforms(c)
    ensures |MarshalText(c, id)| <= MAX_TEXT_LENGTH
    ensures forall i :: 0 <= i < |MarshalText(c, id)| ==> Base36.IsDigit(MarshalText(c, id)[i])
  {
    assert Base36.EncodesFaithfully(c, UInt64(id));
  }

  /** Up to 13 bytes, text decoding is binary decoding of the base-36 decoding. */
  lemma TextDelegatesToBinary(c: Base36.Codec, receiver: Id, data: seq<byte>)
    requires |data| <= MAX_TEXT_LENGTH
    ensures UnmarshalText(c, receiver, data) == UnmarshalBinary(receiver, c.decodeToBytes(data))
  {
  }

  /** Under the codec hypothesis, unmarshalling the text form recovers the identifier. */
  lemma TextRoundTrip(c: Base36.Codec, id: Id, receiver: Id)
    requires Base36.Conforms(c)
    ensures UnmarshalText(c, receiver, MarshalText(c, id)) == Unmarshalled(id, Ok)
  {
    assert Base36.EncodesFaithfully(c, UInt64(id));
    BinaryIsBigEndianUInt64(id);
    var r := UnmarshalText(c, receiver, MarshalText(c, id));
    MarshalBinaryInjective(r.receiver, id);
  }

  // ------------------------------------------------------------------ JSON

  /** Under the codec and parser hypotheses, unmarshalling the JSON form
      recovers the identifier. */
  lemma JsonRoundTrip(c: Base36.Codec, unquote: Json.Unquote, id: Id, receiver: Id)
    requires Base36.Conforms(c)
    requires Json.UnquotesPlain(unquote)
    ensures UnmarshalJSON(c, unquote, receiver, MarshalJSON(c, id)) == Unmarshalled(id, Ok)
  {
    var text := MarshalText(c, id);
    TextLength(c, id);
    assert Json.Plain(text);
    TextRoundTrip(c, id, receiver);
  }

  // ------------------------------------------------------- database scalar

  /** A byte slice of at most 13 bytes scans as `UnmarshalText` does, with
      the error replaced by the scanner's own. */
  lemma ScanBytesIsText(c: Base36.Codec, receiver: Id, b: seq<byte>)
    requires |b| <= MAX_TEXT_LENGTH
    ensures var r := UnmarshalText(c, receiver, b);
      Scan(c, receiver, Bytes(b)) == Returned(r.receiver, if r.status == Ok then Ok else Failed(ScanBytesUnmarshal))
  {
  }

  /** Nil, an over-long byte slice, a uint64 and any unlisted type are all
      rejected with the receiver unchanged. */
  lemma ScanRejects(c: Base36.Codec, receiver: Id, src: DriverValue)
    requires src.Nil? || src.Unsigned64? || src.Other? || (src.Bytes? && |src.bytes| > MAX_TEXT_LENGTH)
    ensures Scan(c, receiver, src).Returned?
    ensures Scan(c, receiver, src).receiver == receiver
    ensures Scan(c, receiver, src).status ==
      if src.Nil? then Failed(ScanNil)
      else if src.Unsigned64? then Failed(ScanUnsupportedType("uint64"))
      else if src.Other? then Failed(ScanUnsupportedType(src.typeName))
      else Failed(ScanBytesTooLong(|src.bytes|))
  {
  }

  /** Under the codec hypothesis, scanning the text form as a byte slice
      recovers the identifier. */
  lemma ScanTextBytesRoundTrip(c: Base36.Codec, id: Id, receiver: Id)
    requires Base36.Conforms(c)
    ensures Scan(c, receiver, Bytes(MarshalText(c, id))) == Returned(id, Ok)
  {
    TextLength(c, id);
    TextRoundTrip(c, id, receiver);
  }

  /** As written, scanning the value `Value` produces panics: `Value` yields
      a string and the string case asserts it is a byte slice. */
  lemma ScanOfValuePanics(c: Base36.Codec, id: Id, receiver: Id)
    ensures Scan(c, receiver, Value(c, id)) == Panicked
  {
  }

  /** With the string case corrected, `Value` and `Scan` round-trip under the
      codec hypothesis. */
  lemma ScanFixedValueRoundTrip(c: Base36.Codec, id: Id, receiver: Id)
    requires Base36.Conforms(c)
    ensures ScanFixed(c, receiver, Value(c, id)) == Returned(id, Ok)
  {
    TextRoundTrip(c, id, receiver);
  }
}
