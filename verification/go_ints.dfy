/**
 * Go's fixed-width integer types as subsets of the mathematical integers.
 * Wrap-around and truncation are never implicit: each place where a Go
 * conversion or operator could wrap writes the reduction out.
 */
module GoInts {

  const TWO_TO_8: int := 0x100
  const TWO_TO_32: int := 0x1_0000_0000
  const TWO_TO_64: int := 0x1_0000_0000_0000_0000

  type byte = x: int | 0 <= x < TWO_TO_8
  type uint32 = x: int | 0 <= x < TWO_TO_32
  type uint64 = x: int | 0 <= x < TWO_TO_64
  type int64 = x: int | -0x8000_0000_0000_0000 <= x < 0x8000_0000_0000_0000

  /** Go's conversion `uint32(x)` of an int64: keeps the low 32 bits of the
      two's-complement representation, which is the Euclidean remainder. */
  function Truncate32(x: int64): (r: uint32)
    ensures (x - r) % TWO_TO_32 == 0
    ensures 0 <= x < TWO_TO_32 <==> r == x
  {
    x % TWO_TO_32
  }

  /** Go's `uint64(x) << 32` for a 32-bit `x`: bits shifted past bit 63 are lost. */
  function ShiftLeft32(x: uint32): (r: uint64)
    ensures r % TWO_TO_32 == 0
    ensures r / TWO_TO_32 == x
  {
    (x * TWO_TO_32) % TWO_TO_64
  }

  /** Go's `+` on uint64: addition modulo 2^64. */
  function Add64(a: uint64, b: uint64): (r: uint64)
    ensures a + b < TWO_TO_64 <==> r == a + b
  {
    (a + b) % TWO_TO_64
  }

  /** Euclidean division is unique: any decomposition `x == q * d + r` with
      `0 <= r < d` is the one Dafny's `/` and `%` compute. */
  lemma DivModUnique(x: int, d: int, q: int, r: int)
    requires d > 0 && x == q * d + r && 0 <= r < d
    ensures x / d == q && x % d == r
  {
    var q', r' := x / d, x % d;
    assert (q - q') * d == r' - r by {
      assert x == q' * d + r';
      assert (q - q') * d == q * d - q' * d;
    }
    if q > q' {
      MulAtLeast(q - q', d);
    } else if q < q' {
      MulAtLeast(q' - q, d);
    }
  }

  lemma MulAtLeast(a: int, d: int)
    requires a >= 1 && d > 0
    ensures a * d >= d
  {
  }
}
