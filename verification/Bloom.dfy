/**
 The Bloom filter: seven probes into a bit array, from any pair of hashes. A filter never denies
 a key that was added, before or after it is written out and read back.
 */
module Bloom {
  import opened RaftTypes
  import opened LsmTypes
  import opened Bytes

  const BITS_PER_KEY: nat := 10
  const HASH_COUNT: nat := 7
  const VERSION: Byte := 1
  const HEADER_SIZE: nat := 10
  const WORD: nat := MAX_UINT64 + 1

  /** The two 64-bit hashes of a key. */
  type Hash = Key -> (nat, nat)

  function Pow2(k: nat): (p: nat)
    ensures p > 0
  {
    if k == 0 then 1 else 2 * Pow2(k - 1)
  }

  /** Bit k of a number, counted from the least significant. */
  predicate Bit(b: nat, k: nat) { if k == 0 then b % 2 == 1 else Bit(b / 2, k - 1) }

  predicate BitAt(bits: seq<Byte>, at: nat)
    requires at / 8 < |bits|
  {
    Bit(bits[at / 8], at % 8)
  }

  lemma {:induction false} SetBitBound(b: nat, k: nat, width: nat)
    requires k < width && b < Pow2(width) && !Bit(b, k)
    ensures b + Pow2(k) < Pow2(width)
  {
    var half := Pow2(width - 1);
    assert Pow2(width) == 2 * half && b == 2 * (b / 2) + b % 2;
    if k > 0 {
      SetBitBound(b / 2, k - 1, width - 1);
      assert Pow2(k) == 2 * Pow2(k - 1);
    }
  }

  lemma {:induction false} SetBitAt(b: nat, k: nat, j: nat)
    requires !Bit(b, k)
    ensures Bit(b + Pow2(k), j) <==> Bit(b, j) || j == k
  {
    if k == 0 {
      assert (b + 1) / 2 == b / 2;
    } else if j > 0 {
      assert (b + Pow2(k)) / 2 == b / 2 + Pow2(k - 1);
      SetBitAt(b / 2, k - 1, j - 1);
    }
  }

  /** Setting one bit changes no other, and stays within the byte. */
  lemma SetOneBit(b: Byte, k: nat)
    requires k < 8 && !Bit(b, k)
    ensures b + Pow2(k) < 256 && forall j: nat :: Bit(b + Pow2(k), j) <==> Bit(b, j) || j == k
  {
    hide Bit;
    assert Pow2(8) == 256;
    SetBitBound(b, k, 8);
    forall j: nat ensures Bit(b + Pow2(k), j) <==> Bit(b, j) || j == k { SetBitAt(b, k, j); }
  }

  lemma {:induction false} ZeroBit(k: nat)
    ensures !Bit(0, k)
  {
    if k > 0 { ZeroBit(k - 1); }
  }

  function Probe(hash: Hash, m: nat, key: Key, i: nat): (at: nat)
    requires m > 0
    ensures at < m
  {
    (hash(key).0 + i * hash(key).1) % WORD % m
  }

  function ByteLen(bits: nat): nat { bits / 8 + if bits % 8 != 0 then 1 else 0 }

  predicate Sized(bits: seq<Byte>, m: nat) { m > 0 && |bits| == ByteLen(m) }

  /** The filter does not rule the key out. */
  predicate MayHold(hash: Hash, bits: seq<Byte>, m: nat, key: Key)
    requires Sized(bits, m)
  {
    forall i :: 0 <= i < HASH_COUNT ==> BitAt(bits, Probe(hash, m, key, i))
  }

  /** The number of bits for so many keys; none when it would overflow. */
  function BloomBits(keys: nat): (r: Option<nat>)
    ensures r.Some? ==> r.value >= 8 && r.value >= BITS_PER_KEY * keys && r.value <= MAX_UINT64
    ensures r.None? <==> keys > MAX_UINT64 / BITS_PER_KEY
  {
    if keys > MAX_UINT64 / BITS_PER_KEY then None
    else Some(if keys * BITS_PER_KEY < 8 then 8 else keys * BITS_PER_KEY)
  }

  class BloomFilter {
    const m: nat
    const bits: array<Byte>

    ghost predicate Valid()
      reads this, bits
    {
      Sized(bits[..], m)
    }

    constructor (m: nat)
      requires m > 0
      ensures Valid() && this.m == m && fresh(bits) && forall at :: 0 <= at < m ==> !BitAt(bits[..], at)
    {
      this.m := m;
      bits := new Byte[ByteLen(m)](_ => 0);
      new;
      forall at | 0 <= at < m ensures !BitAt(bits[..], at) { ZeroBit(at % 8); }
    }

    /** Sets exactly the key's seven bits. */
    method Add(hash: Hash, key: Key)
      requires Valid()
      modifies bits
      ensures Valid()
      ensures forall at :: 0 <= at < m ==>
                (BitAt(bits[..], at) <==>
                  old(BitAt(bits[..], at)) || exists i :: 0 <= i < HASH_COUNT && Probe(hash, m, key, i) == at)
    {
      hide Bit, Probe;
      for i := 0 to HASH_COUNT
        invariant forall at :: 0 <= at < m ==>
                    (BitAt(bits[..], at) <==>
                      old(BitAt(bits[..], at)) || exists j :: 0 <= j < i && Probe(hash, m, key, j) == at)
      {
        SetBit(Probe(hash, m, key, i));
      }
    }

    method SetBit(at: nat)
      requires Valid() && at < m
      modifies bits
      ensures Valid() && forall b :: 0 <= b < m ==> (BitAt(bits[..], b) <==> old(BitAt(bits[..], b)) || b == at)
    {
      hide Bit;
      if !Bit(bits[at / 8], at % 8) {
        SetOneBit(bits[at / 8], at % 8);
        bits[at / 8] := bits[at / 8] + Pow2(at % 8);
      }
      forall b | 0 <= b < m ensures BitAt(bits[..], b) <==> old(BitAt(bits[..], b)) || b == at {
        if b / 8 == at / 8 { SameBit(b, at); }
      }
    }

    method MayContain(hash: Hash, key: Key) returns (r: bool)
      requires Valid()
      ensures r == MayHold(hash, bits[..], m, key)
    {
      for i := 0 to HASH_COUNT
        invariant forall j :: 0 <= j < i ==> BitAt(bits[..], Probe(hash, m, key, j))
      {
        var at := Probe(hash, m, key, i);
        if !Bit(bits[at / 8], at % 8) { return false; }
      }
      return true;
    }
  }

  lemma SameBit(a: nat, b: nat)
    requires a / 8 == b / 8
    ensures a % 8 == b % 8 <==> a == b
  {}

  /** An added key is never denied, whatever is added before or after. */
  lemma AddedIsHeld(hash: Hash, before: seq<Byte>, after: seq<Byte>, m: nat, key: Key)
    requires Sized(before, m) && Sized(after, m)
    requires forall at :: 0 <= at < m ==>
               (BitAt(after, at) <==>
                 BitAt(before, at) || exists i :: 0 <= i < HASH_COUNT && Probe(hash, m, key, i) == at)
    ensures MayHold(hash, after, m, key) && forall k :: MayHold(hash, before, m, k) ==> MayHold(hash, after, m, k)
  {
    hide Probe, Bit;
  }

  // ----- What a filter rules out -----

  /** One of the key's seven probes is this bit. */
  ghost predicate Hits(hash: Hash, m: nat, key: Key, at: nat)
    requires m > 0
  {
    exists i :: 0 <= i < HASH_COUNT && Probe(hash, m, key, i) == at
  }

  ghost predicate AnyHits(hash: Hash, m: nat, keys: seq<Key>, at: nat)
    requires m > 0
  {
    exists j :: 0 <= j < |keys| && Hits(hash, m, keys[j], at)
  }

  /** The filter's set bits are exactly those the keys probe. */
  ghost predicate Built(hash: Hash, bits: seq<Byte>, m: nat, keys: seq<Key>) {
    Sized(bits, m) && forall at :: 0 <= at < m ==> (BitAt(bits, at) <==> AnyHits(hash, m, keys, at))
  }

  lemma BuiltOneMore(hash: Hash, before: seq<Byte>, after: seq<Byte>, m: nat, keys: seq<Key>, key: Key)
    requires Built(hash, before, m, keys) && Sized(after, m)
    requires forall at :: 0 <= at < m ==> (BitAt(after, at) <==> BitAt(before, at) || Hits(hash, m, key, at))
    ensures Built(hash, after, m, keys + [key])
  {
    hide Probe, Bit, Hits;
    forall at | 0 <= at < m ensures BitAt(after, at) <==> AnyHits(hash, m, keys + [key], at) {
      assert AnyHits(hash, m, keys + [key], at) <==> AnyHits(hash, m, keys, at) || Hits(hash, m, key, at) by {
        assert (keys + [key])[|keys|] == key;
        assert forall j :: 0 <= j < |keys| ==> (keys + [key])[j] == keys[j];
      }
    }
  }

  /**
   A filter built from some keys lets a key pass exactly when each of its probes is a probe of one
   of them: always for a key that was added, and never for any key when none was.
   */
  lemma PassesIff(hash: Hash, bits: seq<Byte>, m: nat, keys: seq<Key>, key: Key)
    requires Built(hash, bits, m, keys)
    ensures MayHold(hash, bits, m, key) <==>
      forall i :: 0 <= i < HASH_COUNT ==> AnyHits(hash, m, keys, Probe(hash, m, key, i))
    ensures key in keys ==> MayHold(hash, bits, m, key)
    ensures keys == [] ==> !MayHold(hash, bits, m, key)
  {
    hide Probe, Bit, AnyHits;
    if key in keys {
      forall i | 0 <= i < HASH_COUNT ensures AnyHits(hash, m, keys, Probe(hash, m, key, i)) {
        OwnProbe(hash, m, keys, key, i);
      }
    }
    if keys == [] { NoProbe(hash, m, Probe(hash, m, key, 0)); }
  }

  lemma OwnProbe(hash: Hash, m: nat, keys: seq<Key>, key: Key, i: nat)
    requires m > 0 && key in keys && i < HASH_COUNT
    ensures AnyHits(hash, m, keys, Probe(hash, m, key, i))
  {
    hide Probe;
    var j :| 0 <= j < |keys| && keys[j] == key;
    assert Hits(hash, m, keys[j], Probe(hash, m, key, i));
  }

  lemma NoProbe(hash: Hash, m: nat, at: nat)
    requires m > 0
    ensures !AnyHits(hash, m, [], at)
  {}

  function Marshal(bits: seq<Byte>, m: nat): seq<Byte> { [VERSION, HASH_COUNT] + LE(m, 8) + bits }

  function Unmarshal(data: seq<Byte>): (r: Option<(seq<Byte>, nat)>)
    ensures r.Some? ==> Sized(r.value.0, r.value.1)
  {
    if |data| < HEADER_SIZE + 1 || data[0] != VERSION || data[1] != HASH_COUNT then None
    else
      var m := Unsigned(data[2..10]);
      if m == 0 || |data| - HEADER_SIZE != ByteLen(m) then None else Some((data[10..], m))
  }

  lemma BloomRoundTrip(bits: seq<Byte>, m: nat)
    requires Sized(bits, m) && m <= MAX_UINT64
    ensures Unmarshal(Marshal(bits, m)) == Some((bits, m))
  {
    var data := Marshal(bits, m);
    assert data[2..10] == LE(m, 8) && data[10..] == bits;
    assert Pow256(8) == WORD;
    LERoundTrip(m, 8);
  }

  /** Only the encoding of a filter decodes to it. */
  lemma FilterAccepted(data: seq<Byte>)
    requires Unmarshal(data).Some?
    ensures Marshal(Unmarshal(data).value.0, Unmarshal(data).value.1) == data
  {
    UnsignedInjective(data[2..10]);
    hide LE, Unsigned;
    assert data == [data[0], data[1]] + data[2..10] + data[10..];
  }
}
