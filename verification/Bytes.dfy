/** Fixed-width little-endian integers. */
module Bytes {
  import opened RaftTypes

  function Pow256(w: nat): (p: nat)
    ensures p > 0
  {
    if w == 0 then 1 else 256 * Pow256(w - 1)
  }

  function LE(n: nat, w: nat): (bs: seq<Byte>)
    ensures |bs| == w
  {
    if w == 0 then [] else [n % 256] + LE(n / 256, w - 1)
  }

  function Unsigned(bs: seq<Byte>): nat { if bs == [] then 0 else bs[0] + 256 * Unsigned(bs[1..]) }

  lemma {:induction false} LERoundTrip(n: nat, w: nat)
    requires n < Pow256(w)
    ensures Unsigned(LE(n, w)) == n
  {
    if w > 0 {
      LERoundTrip(n / 256, w - 1);
      assert LE(n, w)[1..] == LE(n / 256, w - 1);
    }
  }

  /** A value too wide for its field is stored modulo the field's range. */
  lemma {:induction false} UnsignedBound(bs: seq<Byte>)
    ensures Unsigned(bs) < Pow256(|bs|)
  {
    if bs != [] { UnsignedBound(bs[1..]); }
  }

  /** Little-endian fields have one spelling. */
  lemma {:induction false} UnsignedInjective(bs: seq<Byte>)
    ensures LE(Unsigned(bs), |bs|) == bs
  {
    if bs != [] {
      UnsignedInjective(bs[1..]);
      LowByte(bs[0], Unsigned(bs[1..]));
      assert bs == [bs[0]] + bs[1..];
    }
  }

  lemma LowByte(b: Byte, rest: nat)
    ensures (b + 256 * rest) % 256 == b && (b + 256 * rest) / 256 == rest
  {}

  predicate Fits(n: nat, w: nat) { n < Pow256(w) }
}
