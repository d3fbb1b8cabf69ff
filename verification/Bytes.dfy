/** Byte strings and the fixed-width big-endian encodings the contracts hash and exchange. */
module Bytes {
  type byte = x: int | 0 <= x < 256

  function Zeros(n: nat): (r: seq<byte>)
    ensures |r| == n
    ensures forall i :: 0 <= i < n ==> r[i] == 0
  {
    seq(n, _ => 0)
  }

  /** The low n bytes of x, most significant first. */
  function BigEndian(x: nat, n: nat): (r: seq<byte>)
    ensures |r| == n
  {
    if n == 0 then [] else BigEndian(x / 256, n - 1) + [x % 256]
  }

  function FromBigEndian(b: seq<byte>): nat {
    if b == [] then 0 else 256 * FromBigEndian(b[..|b| - 1]) + b[|b| - 1]
  }

  /** How many values n bytes hold. */
  function Capacity(n: nat): (r: nat)
    ensures r > 0
  {
    if n == 0 then 1 else 256 * Capacity(n - 1)
  }

  lemma {:induction false} DecodeEncode(x: nat, n: nat)
    requires x < Capacity(n)
    ensures FromBigEndian(BigEndian(x, n)) == x
  {
    if n > 0 {
      DecodeEncode(x / 256, n - 1);
      assert BigEndian(x, n)[..n - 1] == BigEndian(x / 256, n - 1);
    }
  }

  lemma {:induction false} EncodeDecode(b: seq<byte>)
    ensures FromBigEndian(b) < Capacity(|b|)
    ensures BigEndian(FromBigEndian(b), |b|) == b
  {
    if b != [] {
      var init := b[..|b| - 1];
      EncodeDecode(init);
      assert b == init + [b[|b| - 1]];
    }
  }

  /** Two's complement: 128-bit signed values in sixteen bytes. */
  const TWO_127: int := 0x8000_0000_0000_0000_0000_0000_0000_0000

  function EncodeI128(x: int): (r: seq<byte>)
    requires -TWO_127 <= x < TWO_127
    ensures |r| == 16
  {
    BigEndian(if x < 0 then x + 2 * TWO_127 else x, 16)
  }

  function DecodeI128(b: seq<byte>): int
    requires |b| == 16
  {
    var n := FromBigEndian(b);
    if n < TWO_127 then n else n - 2 * TWO_127
  }

  lemma Capacities()
    ensures Capacity(4) == 0x1_0000_0000
    ensures Capacity(8) == 0x1_0000_0000_0000_0000
    ensures Capacity(16) == 2 * TWO_127
  {
    assert Capacity(2) == 0x1_0000;
    assert Capacity(4) == 0x1_0000 * Capacity(2);
    assert Capacity(6) == 0x1_0000 * Capacity(4);
    assert Capacity(8) == 0x1_0000 * Capacity(6);
    assert Capacity(10) == 0x1_0000 * Capacity(8);
    assert Capacity(12) == 0x1_0000 * Capacity(10);
    assert Capacity(14) == 0x1_0000 * Capacity(12);
    assert Capacity(16) == 0x1_0000 * Capacity(14);
  }

  /** A numeric detail reads back as the number it was written from, and sixteen bytes always do. */
  lemma I128RoundTrip(x: int, b: seq<byte>)
    requires -TWO_127 <= x < TWO_127 && |b| == 16
    ensures DecodeI128(EncodeI128(x)) == x
    ensures -TWO_127 <= DecodeI128(b) < TWO_127
    ensures EncodeI128(DecodeI128(b)) == b
  {
    Capacities();
    DecodeEncode(if x < 0 then x + 2 * TWO_127 else x, 16);
    EncodeDecode(b);
  }

  /** Equal encodings of equal width come from equal numbers. */
  lemma BigEndianInjective(x: nat, y: nat, n: nat)
    requires x < Capacity(n) && y < Capacity(n) && BigEndian(x, n) == BigEndian(y, n)
    ensures x == y
  {
    DecodeEncode(x, n);
    DecodeEncode(y, n);
  }

  lemma SplitEnd(a: seq<byte>, b: seq<byte>, x: seq<byte>, y: seq<byte>)
    requires |b| == |y| && a + b == x + y
    ensures a == x && b == y
  {
    assert |a| == |x|;
    assert (a + b)[..|a|] == a && (x + y)[..|x|] == x;
    assert (a + b)[|a|..] == b && (x + y)[|x|..] == y;
  }
}
