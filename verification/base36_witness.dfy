/**
 * A codec that meets the hypothesis `Base36.Conforms`: every value is written
 * as exactly 13 base-36 digits, most significant first, and read back
 * modulo 2^64. It shows the hypothesis is satisfiable, so the round trips
 * proved under it are not vacuous. It is not the base-36 package.
 */
module Base36Witness {

  import opened GoInts
  import BigEndian
  import Base36

  const WIDTH: nat := Base36.MAX_ENCODED_LENGTH

  function Pow36(n: nat): (p: nat)
    ensures p >= 1
  {
    if n == 0 then 1 else 36 * Pow36(n - 1)
  }

  function DigitChar(d: nat): (b: byte)
    requires d < 36
    ensures Base36.IsDigit(b)
  {
    if d < 10 then '0' as int + d else 'a' as int + (d - 10)
  }

  function DigitValue(b: byte): (d: nat)
    ensures d < 36
  {
    if '0' as int <= b <= '9' as int then b - '0' as int
    else if 'a' as int <= b <= 'z' as int then b - 'a' as int + 10
    else 0
  }

  /** The low `n` base-36 digits of `u`, most significant first. */
  function Digits(u: nat, n: nat): (s: seq<byte>)
    ensures |s| == n
    ensures forall i :: 0 <= i < |s| ==> Base36.IsDigit(s[i])
  {
    if n == 0 then [] else Digits(u / 36, n - 1) + [DigitChar(u % 36)]
  }

  /** The number a string of base-36 digits denotes. */
  function Parse(s: seq<byte>): nat
  {
    if s == [] then 0 else Parse(s[..|s| - 1]) * 36 + DigitValue(s[|s| - 1])
  }

  /** Parsing `n` digits of `u` yields `u` modulo `36^n`. */
  lemma {:induction false} ParseDigits(u: nat, n: nat)
    ensures Parse(Digits(u, n)) == u % Pow36(n)
  {
    if n > 0 {
      var s := Digits(u, n);
      assert s[..|s| - 1] == Digits(u / 36, n - 1);
      assert DigitValue(DigitChar(u % 36)) == u % 36;
      ParseDigits(u / 36, n - 1);
      ModStep(u, Pow36(n - 1));
    }
  }

  /** Taking `u` modulo `36 * p` keeps its last base-36 digit and the rest modulo `p`. */
  lemma ModStep(u: nat, p: nat)
    requires p >= 1
    ensures u % (36 * p) == ((u / 36) % p) * 36 + u % 36
  {
    var q := u / 36;
    var r := (q % p) * 36 + u % 36;
    assert r < 36 * p by {
      assert (q % p) * 36 <= (p - 1) * 36;
    }
    assert u == (q / p) * (36 * p) + r by {
      assert q == (q / p) * p + q % p;
      assert u == q * 36 + u % 36;
      assert q * 36 == ((q / p) * p + q % p) * 36;
      assert ((q / p) * p + q % p) * 36 == (q / p) * (36 * p) + (q % p) * 36;
    }
    DivModUnique(u, 36 * p, q / p, r);
  }

  lemma Pow36OfWidth()
    ensures Pow36(WIDTH) == 170581728179578208256
  {
  }

  /** Every value as exactly 13 digits. */
  function Encode(u: uint64): seq<byte>
  {
    Digits(u, WIDTH)
  }

  /** The 8 big-endian bytes of the parsed number, reduced modulo 2^64. */
  function DecodeToBytes(s: seq<byte>): seq<byte>
  {
    BigEndian.PutUint64(Parse(s) % TWO_TO_64)
  }

  /** The fixed-width codec encodes every value faithfully. */
  lemma WitnessEncodes(u: uint64)
    ensures Base36.EncodesFaithfully(Base36.Codec(Encode, DecodeToBytes), u)
  {
    var s := Encode(u);
    var m := Pow36(WIDTH);
    Pow36OfWidth();
    ParseDigits(u, WIDTH);
    DivModUnique(u, m, 0, u);
    DivModUnique(u, TWO_TO_64, 0, u);
    assert Parse(s) == u;
    assert DecodeToBytes(s) == BigEndian.PutUint64(u);
  }

  /** The fixed-width codec meets the hypothesis the identifier relies on. */
  lemma WitnessConforms()
    ensures Base36.Conforms(Base36.Codec(Encode, DecodeToBytes))
  {
    forall u: uint64
      ensures Base36.EncodesFaithfully(Base36.Codec(Encode, DecodeToBytes), u)
    {
      WitnessEncodes(u);
    }
  }
}
