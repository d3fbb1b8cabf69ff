/** A hash chain over byte strings: what its head pins down, for any hash function. */
module HashChain {
  import opened Bytes

  type Digest = d: seq<byte> | |d| == 32 witness Zeros(32)
  type Hash = seq<byte> -> Digest

  const CHAIN_ORIGIN: Digest := Zeros(32)

  function ChainHash(h: Hash, prev: Digest, payload: seq<byte>): Digest {
    h(prev + payload)
  }

  /** The head of the chain over the payloads, from the origin. */
  function Fold(h: Hash, payloads: seq<seq<byte>>): Digest {
    if payloads == [] then CHAIN_ORIGIN
    else ChainHash(h, Fold(h, payloads[..|payloads| - 1]), payloads[|payloads| - 1])
  }

  /** The bytes hashed at position i: the head so far, then the payload. */
  function Hashed(h: Hash, payloads: seq<seq<byte>>, i: nat): seq<byte>
    requires i < |payloads|
  {
    Fold(h, payloads[..i]) + payloads[i]
  }

  /** Two different byte strings with one digest, each hashed by one of the chains. */
  ghost predicate CollidesAt(h: Hash, a: seq<seq<byte>>, b: seq<seq<byte>>, i: nat)
    requires i < |a| && i < |b|
  {
    Hashed(h, a, i) != Hashed(h, b, i) && h(Hashed(h, a, i)) == h(Hashed(h, b, i))
  }

  /** Chains of one length and head over different payloads exhibit a collision among what they hashed. */
  lemma {:induction false} SameHead(h: Hash, a: seq<seq<byte>>, b: seq<seq<byte>>)
    requires |a| == |b| && Fold(h, a) == Fold(h, b)
    ensures a == b || exists i :: 0 <= i < |a| && CollidesAt(h, a, b, i)
  {
    if a != [] {
      var n := |a| - 1;
      assert a == a[..n] + [a[n]] && b == b[..n] + [b[n]];
      if Hashed(h, a, n) != Hashed(h, b, n) {
        assert CollidesAt(h, a, b, n);
      } else {
        SplitStart(Fold(h, a[..n]), a[n], Fold(h, b[..n]), b[n]);
        SameHead(h, a[..n], b[..n]);
        if i :| 0 <= i < n && CollidesAt(h, a[..n], b[..n], i) {
          assert a[..n][..i] == a[..i] && b[..n][..i] == b[..i];
          assert CollidesAt(h, a, b, i);
        }
      }
    }
  }

  lemma SplitStart(a: seq<byte>, b: seq<byte>, x: seq<byte>, y: seq<byte>)
    requires |a| == |x| && a + b == x + y
    ensures a == x && b == y
  {
    assert (a + b)[..|a|] == a && (x + y)[..|x|] == x;
    assert (a + b)[|a|..] == b && (x + y)[|x|..] == y;
  }
}
