# id-iota identifier: a Dafny model

This project models the identifier value type `Id` of the Go package `idiota`
(`index.go`). An `Id` is a pair of unsigned 32-bit fields: `ts`, Unix seconds
that wrap in 2106, and `rand`, random bits. The model covers the following, and proves how each
external form round-trips and how malformed input is rejected:

- construction (`NewId`);
- the numeric form (`UInt64`, `FromUint64`);
- the 8-byte big-endian binary form (`MarshalBinary`, `UnmarshalBinary`);
- the base-36 text form (`MarshalText`, `String`, `UnmarshalText`);
- the JSON string form (`MarshalJSON`, `UnmarshalJSON`);
- the `database/sql` adapter (`Scan`, `Value`);
- the `Time` accessor.

Files and modules:

- `go_ints.dfy` (`GoInts`): Go's `byte`, `uint32`, `uint64` and `int64` as subsets of `int`.
  It also holds the explicit truncation (`uint32(x)`), the shift (`uint64(x) << 32`) and the wrapping `+`.
- `big_endian.dfy` (`BigEndian`): the `encoding/binary` helpers the code calls, with their byte-level round trips.
- `bits.dfy` (`Bits`): Go's `|` on unsigned integers, bit by bit.
  It also proves that ORing disjoint bit ranges is addition.
- `base36.dfy` (`Base36`): the base-36 codec as a parameter `Codec(encode, decodeToBytes)`.
  `Conforms` is the hypothesis about the codec: every encoding has at most 13 bytes and decodes to the 8 big-endian bytes of the value.
  It also assumes the bytes are lower-case base-36 digits, but only the JSON round trip uses that, because such text needs no JSON escaping.
- `base36_witness.dfy` (`Base36Witness`): a fixed-width 13-digit base-36 codec, with a proof that it satisfies `Base36.Conforms`.
  It shows the hypothesis can be met, so the round trips proved under it are not vacuous.
  It is not the package's implementation, and nothing else in the model uses it.
- `json.dfy` (`Json`): the JSON string parser as a parameter.
  `UnquotesPlain` is the hypothesis about it: a quoted run of printable ASCII with no quote or backslash decodes to itself.
  `StripQuotes` is a parser that meets this hypothesis, which shows the hypothesis is not vacuous.
- `idiota.dfy` (`Idiota`): the `Id` type and every method of `index.go`.
- `properties.dfy` (`IdiotaProperties`): the lemmas relating the forms to one another.

Go methods with a pointer receiver are modelled as functions. Each takes the receiver's value and the input. Each returns an
`Unmarshalled(receiver, status)`: the receiver's value after the call, and the error the method returned (`Ok` stands for nil).
`Scan` returns a `ScanOutcome`, which also has a `Panicked` case.
Length checks and errors follow the code:

- `UnmarshalBinary` rejects every input whose length is not 8, short or long; it does not pad (index.go:72-74).
- Text over 13 bytes fails with `ErrInvalidByteLength`, the same error as a wrong binary length (index.go:87-89).
- `DecodeToBytes` returns no error; a decoding of the wrong length is caught by `UnmarshalBinary` (index.go:91-93).
- `Scan` treats every byte slice of at most 13 bytes as text, including one of 8 bytes (index.go:127-132).

Go strings and byte slices are both `seq<byte>`, because a Go string is a byte sequence. So `string(b)` and `[]byte(s)` are the identity.

## Model

| member | source | states |
|---|---|---|
| GoInts.Truncate32 | index.go:41 | `uint32(idTime)` is congruent to the seconds modulo 2^32, and equals them exactly when they lie in [0, 2^32) |
| Idiota.MarshalBinary | index.go:62-69 | the binary form is exactly 8 bytes; bytes 0..3 read back big-endian as `ts` and bytes 4..7 as `rand` |
| Idiota.UnmarshalBinary | index.go:71-80 | fails exactly when the length is not 8, and then with `InvalidByteLength` and the receiver unchanged; on success the new value re-marshals to the input bytes |
| Idiota.ShiftOrIsSum | index.go:116 | `uint64(ts) << 32` ORed with `uint64(rand)` is `ts * 2^32 + rand` |
| Idiota.UInt64 | index.go:115-117 | the numeric form is `ts * 2^32 + rand` |
| Idiota.FromUint64 | index.go:49-60 | never fails, because its buffer is always 8 bytes; `UInt64` of the result is the input |
| Idiota.MarshalText | index.go:82-84 | the text form is the base-36 encoding of the numeric form that `UInt64` computes with OR, although the code builds it with `+` |
| Idiota.String | index.go:111-113 | `String` produces the same text as `MarshalText` |
| Idiota.Value | index.go:152-154 | `Value` produces that same text, as a string |
| Idiota.Time | index.go:119-121 | the time is the timestamp as unsigned seconds: in [0, 2^32) and truncating back to `ts` |
| Idiota.UnmarshalText | index.go:86-94 | inputs longer than 13 bytes are rejected; it succeeds exactly when the input has at most 13 bytes and decodes to 8 bytes, which then become the new value; every failure is `InvalidByteLength` with the receiver unchanged |
| Idiota.MarshalJSON | index.go:96-98 | the JSON form is the text form between double quotes |
| Idiota.UnmarshalJSON | index.go:100-109 | when the JSON parser returns an error, that error is returned and the receiver is unchanged (JSON `null` is no error: it parses as the empty string); a parsed string goes through `UnmarshalText`, so one over 13 bytes fails with `InvalidByteLength`; every failure leaves the receiver unchanged; success means the string decoded to the new value's 8 bytes |
| Idiota.Scan | index.go:123-150 | it panics exactly for strings; every error leaves the receiver unchanged; it succeeds only for a byte slice of at most 13 bytes whose decoding is the new value's binary form |
| Idiota.ScanFixed | index.go:137-146 | with the string case corrected it never panics; a string scans as `UnmarshalText` of its bytes, with a failure reported as `ScanStringUnmarshal` and the receiver unchanged; every other input scans exactly as `Scan` does |
| IdiotaProperties.BinaryLayout | index.go:62-69 | bytes 0..3 are `PutUint32(ts)` and bytes 4..7 are `PutUint32(rand)`; they read back as the high and low halves of `UInt64` |
| IdiotaProperties.BinaryRoundTrip | index.go:62-80 | unmarshalling the binary form of any `id` into any receiver succeeds and yields `id` |
| IdiotaProperties.BytesRoundTrip | index.go:71-80 | every 8-byte input unmarshals, and the result re-marshals to the same bytes |
| IdiotaProperties.MarshalBinaryInjective | index.go:62-69 | distinct identifiers have distinct binary forms |
| IdiotaProperties.BinaryIsBigEndianUInt64 | index.go:49-69 | the binary form equals `PutUint64` of the numeric form |
| IdiotaProperties.UInt64Halves | index.go:115-117 | the high 32 bits of `UInt64` are `ts` and the low 32 bits are `rand` |
| IdiotaProperties.SumAndOrAgree | index.go:111-117 | the shift loses no bits, `+` does not wrap, and the `+` of the text forms equals the OR of `UInt64` |
| IdiotaProperties.UInt64Injective | index.go:115-117 | distinct identifiers have distinct numeric forms |
| IdiotaProperties.UInt64Order | index.go:115-117 | numeric order is timestamp-major, random-minor, in both directions |
| IdiotaProperties.FromUint64RoundTrip | index.go:49-60 | `FromUint64(UInt64(id))` succeeds with `id` |
| IdiotaProperties.NewIdExplicit | index.go:24-46 | with explicit time and random value, the clock and the random draw are ignored; `ts` is the seconds truncated to 32 bits and `rand` is the given value; these are the high and low halves of `UInt64` |
| IdiotaProperties.NewIdPerArgument | index.go:24-46 | each input decides its own half of `UInt64`, independently of the other: a given time gives the high half as the truncated seconds (else the clock), a given random value gives the low half (else the draw) |
| IdiotaProperties.NewIdDefaults | index.go:24-46 | with neither input, the clock reading and the random draw are used |
| IdiotaProperties.TimeRecoversSeconds | index.go:119-121 | `Time` of a constructed identifier equals the construction seconds exactly when they lie in [0, 2^32), and is always congruent to them modulo 2^32 |
| IdiotaProperties.NewIdExample | index.go:24-46 | time 1700000000 and random 123456789 give `UInt64` = 1700000000 * 2^32 + 123456789 and `Time` = 1700000000 |
| IdiotaProperties.TextLength | index.go:82-84 | under the codec hypothesis, the text form has at most 13 base-36 digits |
| IdiotaProperties.TextDelegatesToBinary | index.go:86-94 | for inputs of at most 13 bytes, text decoding is `UnmarshalBinary` of `DecodeToBytes` |
| IdiotaProperties.TextRoundTrip | index.go:82-94 | under the codec hypothesis, `UnmarshalText(MarshalText(id))` succeeds with `id` for any receiver |
| IdiotaProperties.JsonRoundTrip | index.go:96-109 | under the codec and parser hypotheses, `UnmarshalJSON(MarshalJSON(id))` succeeds with `id` |
| IdiotaProperties.ScanBytesIsText | index.go:127-136 | a byte slice of at most 13 bytes scans like `UnmarshalText`, with the error replaced by the scanner's own |
| IdiotaProperties.ScanRejects | index.go:123-150 | nil, a byte slice over 13 bytes, a uint64 and any unlisted type are rejected with the receiver unchanged, each with its own error |
| IdiotaProperties.ScanTextBytesRoundTrip | index.go:127-136 | under the codec hypothesis, scanning the text form as a byte slice yields the identifier |
| IdiotaProperties.ScanOfValuePanics | index.go:137-146 | scanning what `Value` produces panics, for every identifier |
| IdiotaProperties.ScanFixedValueRoundTrip | index.go:137-146 | under the codec hypothesis, the corrected scanner recovers the identifier from `Value` |

## Left out

- The wall clock (`time.Now()`) and the random source (`RandomFunc`) are not modelled. `NewId` takes their readings as the parameters `now` and `drawn`.
- The base-36 package is not part of this model. Its encoder and decoder are parameters.
  The text, JSON and scanner round trips assume the hypothesis `Base36.Conforms`: every encoding has at most 13 bytes and decodes to the 8 big-endian bytes of the value. The JSON round trip also uses its clause that the bytes are lower-case base-36 digits; nothing in the identifier's code depends on the alphabet.
- IdiotaProperties.TextRoundTrip: proved only under `Base36.Conforms`, because the codec is not part of this model.
- IdiotaProperties.TextLength: states at most 13 digits. The tests also expect exactly 13 digits for current timestamps, which depends on the codec.
- IdiotaProperties.JsonRoundTrip: proved only under `Base36.Conforms` and `Json.UnquotesPlain`, because neither the codec nor `encoding/json` is part of this model.
- IdiotaProperties.ScanTextBytesRoundTrip: proved only under `Base36.Conforms`, for the same reason.
- IdiotaProperties.ScanFixedValueRoundTrip: proved only under `Base36.Conforms`, for the same reason.
- `encoding/json` parsing is a parameter. Its errors are one `JsonError` variant.
- The messages `fmt.Errorf` formats are not modelled. Each error is an `Error` variant that carries only what the message is built from (a length or a type name).
- The always-nil error results of `MarshalBinary`, `MarshalText`, `MarshalJSON` and `Value` are not modelled. These functions return only their value.
- `time.Time` is represented by its count of seconds (`int64`). Location and nanoseconds are not modelled.
- The `src == nil` test inside the string case of `Scan` (index.go:138) is left out. It runs first but is always false for a string, so control always reaches the assertion `src.([]byte)` (index.go:142), which panics.
- A `uint64` passed to `Scan` falls into the unsupported-type case, as the code does. The package's tests expect `Scan` to accept strings and `uint64` values. The code does neither, so those expectations are not modelled as properties.

## Findings

| source | as written | input that shows it | evidently intended | confidence | as-written member | corrected member |
|---|---|---|---|---|---|---|
| index.go:137-146 | the `string` case of `Scan` asserts `src.([]byte)`, which panics for every string | the string `Value` returns for any identifier, e.g. `Scan(id.String())` | convert the string to bytes and unmarshal it as text, as the byte-slice case does | high; not executed | IdiotaProperties.ScanOfValuePanics | IdiotaProperties.ScanFixedValueRoundTrip |
