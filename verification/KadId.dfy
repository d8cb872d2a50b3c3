/** 128-bit Kademlia identifiers: the XOR metric, the bucket of an identifier, and random identifiers
    within a bucket (protocol/kad/types.go, kad_routing.go). */
module KadId {
  import opened Wrappers
  import opened Bits

  const ID_BYTES: nat := 16
  const ID_BITS: nat := 128

  type ID = s: seq<Byte> | |s| == ID_BYTES witness [0, 0, 0, 0, 0, 0, 0, 0, 0, 0, 0, 0, 0, 0, 0, 0]

  const INVALID: ID := [0, 0, 0, 0, 0, 0, 0, 0, 0, 0, 0, 0, 0, 0, 0, 0]

  // ---------------------------------------------------------------- the metric

  function CompareBytes(x: Byte, y: Byte, t: Byte): (c: int)
    ensures c == 0 <==> x == y
  {
    if x ^ t < y ^ t then -1 else if x ^ t > y ^ t then 1 else XorCancels(x, y, t); 0
  }

  lemma XorCancels(x: Byte, y: Byte, t: Byte)
    ensures x ^ t == y ^ t <==> x == y
  {
  }

  /** Bytes from i on decide; -1, 0 and 1 as the source returns them. */
  function CompareFrom(a: ID, b: ID, target: ID, i: nat): int
    requires i <= ID_BYTES
    decreases ID_BYTES - i
  {
    if i == ID_BYTES then 0
    else
      var c := CompareBytes(a[i], b[i], target[i]);
      if c != 0 then c else CompareFrom(a, b, target, i + 1)
  }

  function Compare(a: ID, b: ID, target: ID): int { CompareFrom(a, b, target, 0) }

  method DistanceCompare(a: ID, b: ID, target: ID) returns (r: int)
    ensures r == Compare(a, b, target)
  {
    for i := 0 to ID_BYTES
      invariant CompareFrom(a, b, target, i) == Compare(a, b, target)
    {
      var da, db := a[i] ^ target[i], b[i] ^ target[i];
      if da < db {
        return -1;
      }
      if da > db {
        return 1;
      }
    }
    return 0;
  }

  function ByteDist(x: Byte, t: Byte): (n: nat)
    ensures n < 256
  {
    OctetBound(x ^ t);
    Octet(x ^ t)
  }

  /** The first n bytes of a XOR b, read as one big-endian number. */
  function DistTo(a: ID, b: ID, n: nat): nat
    requires n <= ID_BYTES
  {
    if n == 0 then 0 else 256 * DistTo(a, b, n - 1) + ByteDist(a[n - 1], b[n - 1])
  }

  /** XOR distance as a number below 2^128. */
  function Dist(a: ID, b: ID): nat { DistTo(a, b, ID_BYTES) }

  lemma ByteOrder(x: Byte, y: Byte, t: Byte)
    ensures CompareBytes(x, y, t) < 0 <==> ByteDist(x, t) < ByteDist(y, t)
    ensures CompareBytes(x, y, t) > 0 <==> ByteDist(x, t) > ByteDist(y, t)
  {
    OctetOrder(x ^ t, y ^ t);
    OctetOrder(y ^ t, x ^ t);
  }

  lemma Horner(d: nat, e: nat, x: int, y: int)
    requires 0 <= x < 256 && 0 <= y < 256
    ensures 256 * d + x < 256 * e + y <==> d < e || (d == e && x < y)
  {
  }

  /** The bytes after the first n decide only when the first n are equally far from the target. */
  lemma {:induction false} CompareToIsDist(a: ID, b: ID, target: ID, n: nat)
    requires n <= ID_BYTES
    ensures DistTo(a, target, n) < DistTo(b, target, n) ==> Compare(a, b, target) < 0
    ensures DistTo(a, target, n) > DistTo(b, target, n) ==> Compare(a, b, target) > 0
    ensures DistTo(a, target, n) == DistTo(b, target, n) ==> Compare(a, b, target) == CompareFrom(a, b, target, n)
  {
    if n > 0 {
      CompareToIsDist(a, b, target, n - 1);
      ByteOrder(a[n - 1], b[n - 1], target[n - 1]);
      assert DistTo(a, target, n) == 256 * DistTo(a, target, n - 1) + ByteDist(a[n - 1], target[n - 1]);
      assert DistTo(b, target, n) == 256 * DistTo(b, target, n - 1) + ByteDist(b[n - 1], target[n - 1]);
      Horner(DistTo(a, target, n - 1), DistTo(b, target, n - 1), ByteDist(a[n - 1], target[n - 1]),
             ByteDist(b[n - 1], target[n - 1]));
    }
  }

  lemma {:induction false} CompareFromEqual(a: ID, b: ID, target: ID, i: nat, j: nat)
    requires i <= j < ID_BYTES && CompareFrom(a, b, target, i) == 0
    ensures a[j] == b[j]
    decreases j - i
  {
    if i < j {
      CompareFromEqual(a, b, target, i + 1, j);
    }
  }

  /** The byte-wise comparison is the order of the XOR distances, and only equal identifiers tie. */
  lemma CompareIsDist(a: ID, b: ID, target: ID)
    ensures Compare(a, b, target) < 0 <==> Dist(a, target) < Dist(b, target)
    ensures Compare(a, b, target) > 0 <==> Dist(a, target) > Dist(b, target)
    ensures Compare(a, b, target) == 0 <==> a == b
    ensures Dist(a, target) == Dist(b, target) <==> a == b
  {
    CompareToIsDist(a, b, target, ID_BYTES);
    CompareToIsDist(b, a, target, ID_BYTES);
    if Compare(a, b, target) == 0 {
      forall j | 0 <= j < ID_BYTES
        ensures a[j] == b[j]
      {
        CompareFromEqual(a, b, target, 0, j);
      }
      assert a == b;
    }
  }

  // ---------------------------------------------------------------- buckets

  /** Bit k of an identifier, the most significant first. */
  predicate BitAt(a: ID, k: nat)
    requires k < ID_BITS
  {
    Bit(a[k / 8], k % 8)
  }

  predicate Agree(a: ID, b: ID, from: nat, to: nat)
    requires to <= ID_BITS
  {
    forall k :: from <= k < to ==> BitAt(a, k) == BitAt(b, k)
  }

  function BucketFrom(self: ID, other: ID, k: nat): (r: nat)
    requires k <= ID_BITS
    ensures r < ID_BITS
    ensures k < ID_BITS ==> k <= r && Agree(self, other, k, r)
    ensures k < ID_BITS && BitAt(self, r) == BitAt(other, r) ==> r == 127
    decreases ID_BITS - k
  {
    if k == ID_BITS then 127
    else if BitAt(self, k) != BitAt(other, k) then k
    else BucketFrom(self, other, k + 1)
  }

  /** The first bit in which the identifiers differ; 127 when they are equal. */
  function BucketIndex(self: ID, other: ID): (r: nat)
    ensures r < ID_BITS
  {
    BucketFrom(self, other, 0)
  }

  /** The bucket index is the one position at which the identifiers differ and before which they agree. */
  lemma FirstDifference(self: ID, other: ID, k: nat)
    requires k < ID_BITS && Agree(self, other, 0, k) && BitAt(self, k) != BitAt(other, k)
    ensures BucketIndex(self, other) == k
  {
    var r := BucketIndex(self, other);
    assert Agree(self, other, 0, r);
  }

  method KadBucketIndex(self: ID, other: ID) returns (r: nat)
    ensures r == BucketIndex(self, other)
  {
    for i := 0 to ID_BYTES
      invariant Agree(self, other, 0, i * 8)
    {
      var x := self[i] ^ other[i];
      if x != 0 {
        for bit := 0 to 8
          invariant Agree(self, other, 0, i * 8 + bit)
        {
          XorBit(self[i], other[i], bit);
          assert (i * 8 + bit) / 8 == i && (i * 8 + bit) % 8 == bit;
          if Bit(x, bit) {
            FirstDifference(self, other, i * 8 + bit);
            return i * 8 + bit;
          }
        }
      } else {
        XorCancels(self[i], other[i], other[i]);
        assert self[i] == other[i];
        assert forall k :: i * 8 <= k < (i + 1) * 8 ==> k / 8 == i;
      }
    }
    return 127;
  }

  function Flip(x: Byte, bit: nat): Byte
    requires bit < 8
  {
    (x & !Mask(bit)) | (!x & Mask(bit))
  }

  /** Bits before `index` from self, bit `index` flipped, the rest random, as the byte loop leaves them. */
  function WithinBucket(index: nat, self: ID, hash: ID): ID
    requires index < ID_BITS
  {
    var n := index / 8;
    self[..n] + [Flip(self[n], index % 8)] + hash[n + 1..]
  }

  /** `random` is what the random source gave; None when it failed. */
  method RandomKadIDWithinBucket(index: nat, self: ID, random: Option<ID>) returns (id: ID)
    requires index < ID_BITS
    ensures id == if random.None? then self else WithinBucket(index, self, random.value)
  {
    if random.None? {
      return self;
    }
    id := random.value;
    var byteIndex := index / 8;
    for i := 0 to byteIndex
      invariant forall k :: 0 <= k < ID_BYTES ==> id[k] == if k < i then self[k] else random.value[k]
    {
      id := id[i := self[i]];
    }
    var flipped := Flip(self[byteIndex], index % 8);
    id := id[byteIndex := flipped];
  }

  lemma FlipBit(x: Byte, bit: nat, k: nat)
    requires bit < 8 && k < 8
    ensures Bit(Flip(x, bit), k) == (Bit(x, k) != (k == bit))
  {
    OneBit(bit);
    OneBit(k);
    SameMask(bit, k);
    FlipMask(x, Mask(bit), Mask(k));
  }

  /** Whatever the random bytes, the identifier made for a bucket falls into that bucket. */
  lemma WithinBucketFalls(index: nat, self: ID, hash: ID)
    requires index < ID_BITS
    ensures BucketIndex(self, WithinBucket(index, self, hash)) == index
  {
    var id, n := WithinBucket(index, self, hash), index / 8;
    forall k: nat | k <= index
      ensures BitAt(id, k) == (BitAt(self, k) != (k == index))
    {
      if k / 8 == n {
        FlipBit(self[n], index % 8, k % 8);
      }
    }
    FirstDifference(self, id, index);
  }

  // ---------------------------------------------------------------- buckets and distance

  lemma {:induction false} SkipEqual(a: ID, b: ID, target: ID, i: nat)
    requires i <= ID_BYTES && forall j :: 0 <= j < i ==> a[j] == b[j]
    ensures Compare(a, b, target) == CompareFrom(a, b, target, i)
  {
    if i > 0 {
      SkipEqual(a, b, target, i - 1);
    }
  }

  lemma AgreeBytes(a: ID, b: ID, k: nat, i: nat)
    requires k <= ID_BITS && Agree(a, b, 0, k) && (i + 1) * 8 <= k
    ensures a[i] == b[i]
  {
    forall bit: nat | bit < 8
      ensures Bit(a[i], bit) == Bit(b[i], bit)
    {
      assert BitAt(a, i * 8 + bit) == BitAt(b, i * 8 + bit);
      assert (i * 8 + bit) / 8 == i && (i * 8 + bit) % 8 == bit;
    }
    EqualBytes(a[i], b[i]);
  }

  /** The byte in which the nearer identifier still agrees with self longer. */
  lemma DecidingByte(self: Byte, x: Byte, y: Byte, bit: nat)
    requires bit < 8 && Bit(self, bit) != Bit(y, bit)
    requires forall m: nat :: m <= bit ==> Bit(self, m) == Bit(x, m)
    requires forall m: nat :: m < bit ==> Bit(self, m) == Bit(y, m)
    ensures CompareBytes(x, y, self) < 0
  {
    forall m: nat {:trigger Bit(self, m)} | m <= bit
      ensures !Bit(x ^ self, m)
      ensures Bit(y ^ self, m) == (m == bit)
    {
      XorBit(x, self, m);
      XorBit(y, self, m);
    }
    LaterIsSmaller(x ^ self, y ^ self, bit);
  }

  lemma BitInByte(a: ID, i: nat, m: nat)
    requires i < ID_BYTES && m < 8
    ensures BitAt(a, i * 8 + m) == Bit(a[i], m)
  {
    assert (i * 8 + m) / 8 == i && (i * 8 + m) % 8 == m;
  }

  /** A larger bucket index means a strictly smaller XOR distance to self. */
  lemma LargerIndexIsCloser(self: ID, a: ID, b: ID)
    requires BucketIndex(self, a) > BucketIndex(self, b)
    ensures Dist(a, self) < Dist(b, self)
  {
    var k := BucketIndex(self, b);
    var i, bit := k / 8, k % 8;
    assert Agree(self, a, 0, BucketIndex(self, a)) && Agree(self, b, 0, k);
    assert Agree(self, a, 0, k + 1) && BitAt(self, k) != BitAt(b, k);
    forall j | 0 <= j < i
      ensures a[j] == b[j]
    {
      AgreeBytes(self, a, k + 1, j);
      AgreeBytes(self, b, k, j);
    }
    SkipEqual(a, b, self, i);
    forall m: nat | m <= bit
      ensures Bit(self[i], m) == Bit(a[i], m)
      ensures m < bit ==> Bit(self[i], m) == Bit(b[i], m)
    {
      BitInByte(self, i, m);
      BitInByte(a, i, m);
      BitInByte(b, i, m);
      assert BitAt(self, i * 8 + m) == BitAt(a, i * 8 + m);
    }
    DecidingByte(self[i], a[i], b[i], bit);
    CompareIsDist(a, b, self);
  }
}
