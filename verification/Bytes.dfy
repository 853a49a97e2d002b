/** Bytes, and the fixed-width fields the binary formats are made of. */
module Bytes {

  type byte = b: int | 0 <= b < 256

  const TWO_16 := 0x1_0000
  const TWO_32 := 0x1_0000_0000

  /** A 16-bit value from its high and low byte. */
  function Word(hi: nat, lo: nat): nat {
    256 * hi + lo
  }

  function Le16(n: nat): (b: seq<byte>)
    requires n < TWO_16
    ensures |b| == 2
  {
    [n % 256, n / 256]
  }

  function Le32(n: nat): (b: seq<byte>)
    requires n < TWO_32
    ensures |b| == 4
  {
    Le16(n % TWO_16) + Le16(n / TWO_16)
  }

  function FromLe16(b: seq<byte>): (n: nat)
    requires |b| == 2
    ensures n < TWO_16
  {
    Word(b[1], b[0])
  }

  function FromLe32(b: seq<byte>): (n: nat)
    requires |b| == 4
    ensures n < TWO_32
  {
    FromLe16(b[0..2]) + TWO_16 * FromLe16(b[2..4])
  }

  /** The least byte comes first. */
  lemma LeastByteFirst(n: nat)
    requires n < TWO_32
    ensures exists a: byte, b: byte, c: byte, d: byte ::
              Le32(n) == [a, b, c, d] && n == a + 256 * b + 65_536 * c + 16_777_216 * d
  {
    var lo, hi := n % TWO_16, n / TWO_16;
    var a: byte, b: byte, c: byte, d: byte := lo % 256, lo / 256, hi % 256, hi / 256;
    assert Le32(n) == [a, b, c, d] && n == a + 256 * b + 65_536 * c + 16_777_216 * d;
  }

  lemma Le16RoundTrip(n: nat)
    requires n < TWO_16
    ensures FromLe16(Le16(n)) == n
  {
  }

  lemma Le32RoundTrip(n: nat)
    requires n < TWO_32
    ensures FromLe32(Le32(n)) == n
  {
    assert Le32(n)[0..2] == Le16(n % TWO_16);
    assert Le32(n)[2..4] == Le16(n / TWO_16);
    Le16RoundTrip(n % TWO_16);
    Le16RoundTrip(n / TWO_16);
  }

  lemma SliceLeft<T>(a: seq<T>, b: seq<T>, lo: nat, hi: nat)
    requires lo <= hi <= |a|
    ensures (a + b)[lo..hi] == a[lo..hi]
  {
  }

  lemma SliceRight<T>(a: seq<T>, b: seq<T>, lo: nat, hi: nat)
    requires lo == |a| && hi == |a| + |b|
    ensures (a + b)[lo..hi] == b
  {
  }
}
