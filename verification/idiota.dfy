/**
 * The identifier value type of package idiota: a 32-bit Unix timestamp and a
 * 32-bit random field, with its numeric, binary, text, JSON and
 * database-scalar forms.
 *
 * Go methods with a pointer receiver (`UnmarshalBinary`, `UnmarshalText`,
 * `UnmarshalJSON`, `Scan`) are functions from the receiver's value and the
 * input to the receiver's value after the call and the returned error.
 * Go strings and byte slices are both byte sequences here. The clock, the
 * random source, the base-36 codec and the JSON parser are parameters.
 */
module Idiota {

  import opened GoInts
  import opened Wrappers
  import BigEndian
  import Bits
  import Base36
  import Json

  /** Length of the binary form. */
  const BINARY_LENGTH: nat := 8

  /** Longest input the text decoder and the scanner accept: the longest
      base-36 text of a 64-bit value. */
  const MAX_TEXT_LENGTH: nat := Base36.MAX_ENCODED_LENGTH

  /** An identifier: seconds since the Unix epoch (wrapping in 2106) and random bits. */
  datatype Id = Id(ts: uint32, rand: uint32)

  /** The Go zero value `Id{}`, which a freshly declared receiver holds. */
  const Zero: Id := Id(0, 0)

  datatype Error =
    | InvalidByteLength                    // ErrInvalidByteLength
    | JsonError                            // the error json.Unmarshal returned
    | ScanNil                              // "unable to scan nil"
    | ScanBytesTooLong(length: nat)        // "unable to scan []byte of length %d"
    | ScanBytesUnmarshal                   // "unable to scan while unmarshalling []byte"
    | ScanStringUnmarshal                  // "unable to scan while unmarshalling string"
    | ScanUnsupportedType(typeName: string) // "unable to scan type %T"

  /** The `error` a Go method returns: `Ok` is nil. */
  datatype Status = Ok | Failed(error: Error)

  /** The receiver's value after a decoding method, and the error it returned. */
  datatype Unmarshalled = Unmarshalled(receiver: Id, status: Status)

  /** The dynamic value handed to `Scan` or returned by `Value`: nil, a byte
      slice, a string, a uint64, or a value of any other named type. */
  datatype DriverValue =
    | Nil
    | Bytes(bytes: seq<byte>)
    | Str(str: seq<byte>)
    | Unsigned64(u: uint64)
    | Other(typeName: string)  // only types with no case of their own: not nil, []byte, string or uint64

  /** `Scan` either returns, or panics on a failed type assertion. */
  datatype ScanOutcome = Returned(receiver: Id, status: Status) | Panicked

  /** `NewId(inputTime, inputRandom)`. The wall clock (`time.Now().Unix()`) and
      the draw of `RandomFunc` are the parameters `now` and `drawn`; each is
      used only when the corresponding input is nil. */
  function NewId(inputTime: Option<int64>, inputRandom: Option<uint32>, now: int64, drawn: uint32): Id
  {
    var idTime := if inputTime.Some? then inputTime.value else now;
    var idRandom := if inputRandom.Some? then inputRandom.value else drawn;
    Id(Truncate32(idTime), idRandom)
  }

  /** `FromUint64`: writes the value as 8 big-endian bytes into a fresh buffer
      and unmarshals them into a zero `Id`. The buffer always has 8 bytes, so
      the error is always nil. */
  function FromUint64(input: uint64): (r: Unmarshalled)
    ensures r.status == Ok
    ensures UInt64(r.receiver) == input
  {
    var b := BigEndian.PutUint64(input);
    BigEndian.PutUint64Halves(input);
    BigEndian.ReadAfterPut(input / TWO_TO_32);
    BigEndian.ReadAfterPut(input % TWO_TO_32);
    var r := UnmarshalBinary(Zero, b);
    if r.status.Failed? then r else Unmarshalled(r.receiver, Ok)
  }

  /** `MarshalBinary`: the timestamp then the random field, each as 4
      big-endian bytes. Its error is always nil and is not modelled. */
  function MarshalBinary(id: Id): (b: seq<byte>)
    ensures |b| == BINARY_LENGTH
    ensures BigEndian.Uint32(b[0..4]) == id.ts
    ensures BigEndian.Uint32(b[4..8]) == id.rand
  {
    BigEndian.ReadAfterPut(id.ts);
    BigEndian.ReadAfterPut(id.rand);
    var b := BigEndian.PutUint32(id.ts) + BigEndian.PutUint32(id.rand);
    assert b[0..4] == BigEndian.PutUint32(id.ts) && b[4..8] == BigEndian.PutUint32(id.rand);
    b
  }

  /** `UnmarshalBinary`: any length other than 8 is rejected before either
      field is assigned; otherwise both fields are read big-endian. */
  function UnmarshalBinary(id: Id, data: seq<byte>): (r: Unmarshalled)
    ensures r.status.Failed? <==> |data| != BINARY_LENGTH
    ensures r.status.Failed? ==> r == Unmarshalled(id, Failed(InvalidByteLength))
    ensures r.status == Ok ==> MarshalBinary(r.receiver) == data
  {
    if |data| != BINARY_LENGTH then
      Unmarshalled(id, Failed(InvalidByteLength))
    else
      BigEndian.PutAfterRead(data[0..4]);
      BigEndian.PutAfterRead(data[4..8]);
      assert data == data[0..4] + data[4..8];
      Unmarshalled(Id(BigEndian.Uint32(data[0..4]), BigEndian.Uint32(data[4..8])), Ok)
  }

  /** `uint64(ts) << 32 | uint64(rand)` equals `ts * 2^32 + rand`: the shift
      cannot lose bits of a 32-bit value, and the OR of disjoint bit ranges is
      their sum. */
  lemma ShiftOrIsSum(id: Id)
    ensures Bits.Or(ShiftLeft32(id.ts), id.rand) == id.ts * TWO_TO_32 + id.rand
  {
    Bits.Pow2Of32();
    Bits.OrDisjoint(id.ts, id.rand, 32);
  }

  /** `UInt64`: the timestamp in the high 32 bits ORed with the random field. */
  function UInt64(id: Id): (u: uint64)
    ensures u == id.ts * TWO_TO_32 + id.rand
  {
    ShiftOrIsSum(id);
    Bits.Or(ShiftLeft32(id.ts), id.rand)
  }

  /** `MarshalText`: the base-36 encoding of `uint64(ts) << 32 + uint64(rand)`.
      The sum never wraps, so the encoded number is the one `UInt64` builds
      with OR. Its error is always nil and is not modelled. */
  function MarshalText(c: Base36.Codec, id: Id): (text: seq<byte>)
    ensures text == c.encode(UInt64(id))
  {
    c.encode(Add64(ShiftLeft32(id.ts), id.rand))
  }

  /** `String`: the same expression as `MarshalText`, as a Go string. */
  function String(c: Base36.Codec, id: Id): (s: seq<byte>)
    ensures s == MarshalText(c, id)
  {
    c.encode(Add64(ShiftLeft32(id.ts), id.rand))
  }

  /** `Time`: the timestamp read as unsigned seconds since the epoch
      (`time.Unix(int64(ts), 0)`, represented by its second count). */
  function Time(id: Id): (seconds: int64)
    ensures 0 <= seconds < TWO_TO_32
    ensures Truncate32(seconds) == id.ts
  {
    id.ts
  }

  /** `UnmarshalText`: input longer than 13 bytes is rejected before decoding;
      otherwise the base-36 decoding goes through `UnmarshalBinary`, whose
      length check rejects a decoding that is not 8 bytes. */
  function UnmarshalText(c: Base36.Codec, id: Id, data: seq<byte>): (r: Unmarshalled)
    ensures r.status.Failed? ==> r == Unmarshalled(id, Failed(InvalidByteLength))
    ensures r.status == Ok <==> |data| <= MAX_TEXT_LENGTH && |c.decodeToBytes(data)| == BINARY_LENGTH
    ensures r.status == Ok ==> MarshalBinary(r.receiver) == c.decodeToBytes(data)
  {
    if |data| > MAX_TEXT_LENGTH then
      Unmarshalled(id, Failed(InvalidByteLength))
    else
      UnmarshalBinary(id, c.decodeToBytes(data))
  }

  /** `MarshalJSON`: the text form between double quotes. Its error is always
      nil and is not modelled. */
  function MarshalJSON(c: Base36.Codec, id: Id): (j: seq<byte>)
    ensures j == Json.Quote(MarshalText(c, id))
  {
    [Json.QUOTE] + String(c, id) + [Json.QUOTE]
  }

  /** `UnmarshalJSON`: the data must decode as a JSON string, whose bytes then
      go through `UnmarshalText`. */
  function UnmarshalJSON(c: Base36.Codec, unquote: Json.Unquote, id: Id, data: seq<byte>): (r: Unmarshalled)
    ensures unquote(data).None? ==> r == Unmarshalled(id, Failed(JsonError))
    ensures r.status.Failed? ==> r.receiver == id
    ensures r.status == Ok ==> unquote(data).Some? && MarshalBinary(r.receiver) == c.decodeToBytes(unquote(data).value)
    ensures unquote(data).Some? ==> r == UnmarshalText(c, id, unquote(data).value)
    ensures unquote(data).Some? && |unquote(data).value| > MAX_TEXT_LENGTH ==>
      r == Unmarshalled(id, Failed(InvalidByteLength))
  {
    match unquote(data)
    case None => Unmarshalled(id, Failed(JsonError))
    case Some(s) => UnmarshalText(c, id, s)
  }

  /** `Scan`, as written: nil and unlisted types are errors; a byte slice of at
      most 13 bytes goes through `UnmarshalText` with its error replaced; a
      string reaches the type assertion `src.([]byte)`, which panics. There is
      no case for uint64. */
  function Scan(c: Base36.Codec, id: Id, src: DriverValue): (o: ScanOutcome)
    ensures o.Panicked? <==> src.Str?
    ensures o.Returned? && o.status.Failed? ==> o.receiver == id
    ensures o.Returned? && o.status == Ok ==>
      src.Bytes? && |src.bytes| <= MAX_TEXT_LENGTH && MarshalBinary(o.receiver) == c.decodeToBytes(src.bytes)
  {
    match src
    case Nil => Returned(id, Failed(ScanNil))
    case Bytes(b) =>
      if |b| > MAX_TEXT_LENGTH then
        Returned(id, Failed(ScanBytesTooLong(|b|)))
      else
        var r := UnmarshalText(c, id, b);
        if r.status.Failed? then Returned(r.receiver, Failed(ScanBytesUnmarshal)) else Returned(r.receiver, Ok)
    case Str(_) => Panicked
    case Unsigned64(_) => Returned(id, Failed(ScanUnsupportedType("uint64")))
    case Other(name) => Returned(id, Failed(ScanUnsupportedType(name)))
  }

  /** `Scan` as evidently intended: the string case converts the string to
      bytes and goes through `UnmarshalText`, like the byte-slice case. */
  function ScanFixed(c: Base36.Codec, id: Id, src: DriverValue): (o: ScanOutcome)
    ensures o.Returned?
    ensures o.status.Failed? ==> o.receiver == id
    ensures o.status == Ok ==>
      (src.Bytes? || src.Str?) && MarshalBinary(o.receiver) == c.decodeToBytes(if src.Bytes? then src.bytes else src.str)
    ensures src.Str? ==>
      var r := UnmarshalText(c, id, src.str);
      o == Returned(r.receiver, if r.status == Ok then Ok else Failed(ScanStringUnmarshal))
    ensures !src.Str? ==> o == Scan(c, id, src)
  {
    match src
    case Str(s) =>
      var r := UnmarshalText(c, id, s);
      if r.status.Failed? then Returned(r.receiver, Failed(ScanStringUnmarshal)) else Returned(r.receiver, Ok)
    case _ => Scan(c, id, src)
  }

  /** `Value`: the text form, as a string. Its error is always nil and is not modelled. */
  function Value(c: Base36.Codec, id: Id): (v: DriverValue)
    ensures v == Str(MarshalText(c, id))
  {
    Str(String(c, id))
  }
}
