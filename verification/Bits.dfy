/** Single bits of a byte, the most significant first. */
module Bits {
  type Byte = bv8

  /** 0x80 shifted right by `bit`. */
  function Mask(bit: nat): Byte
    requires bit < 8
  {
    if bit == 0 then 0x80 else if bit == 1 then 0x40 else if bit == 2 then 0x20 else if bit == 3 then 0x10
    else if bit == 4 then 8 else if bit == 5 then 4 else if bit == 6 then 2 else 1
  }

  predicate Bit(x: Byte, bit: nat)
    requires bit < 8
  {
    x & Mask(bit) != 0
  }

  lemma XorBit(x: Byte, y: Byte, bit: nat)
    requires bit < 8
    ensures Bit(x ^ y, bit) <==> Bit(x, bit) != Bit(y, bit)
  {
    OneBit(bit);
    XorMask(x, y, Mask(bit));
  }

  predicate PowerOfTwo(m: Byte) {
    m == 0x80 || m == 0x40 || m == 0x20 || m == 0x10 || m == 8 || m == 4 || m == 2 || m == 1
  }

  lemma OneBit(bit: nat)
    requires bit < 8
    ensures PowerOfTwo(Mask(bit))
  {
    assert bit == 0 || bit == 1 || bit == 2 || bit == 3 || bit == 4 || bit == 5 || bit == 6 || bit == 7;
  }

  lemma XorMask(x: Byte, y: Byte, m: Byte)
    requires PowerOfTwo(m)
    ensures (x ^ y) & m != 0 <==> (x & m != 0) != (y & m != 0)
  {
  }

  lemma EqualBytes(x: Byte, y: Byte)
    ensures x == y <==> forall bit: nat :: bit < 8 ==> Bit(x, bit) == Bit(y, bit)
  {
    if forall bit: nat :: bit < 8 ==> Bit(x, bit) == Bit(y, bit) {
      assert Bit(x, 0) == Bit(y, 0) && Bit(x, 1) == Bit(y, 1) && Bit(x, 2) == Bit(y, 2) && Bit(x, 3) == Bit(y, 3);
      assert Bit(x, 4) == Bit(y, 4) && Bit(x, 5) == Bit(y, 5) && Bit(x, 6) == Bit(y, 6) && Bit(x, 7) == Bit(y, 7);
      AllMasks(x, y);
    }
  }

  lemma AllMasks(x: Byte, y: Byte)
    requires (x & 0x80 != 0) == (y & 0x80 != 0) && (x & 0x40 != 0) == (y & 0x40 != 0)
    requires (x & 0x20 != 0) == (y & 0x20 != 0) && (x & 0x10 != 0) == (y & 0x10 != 0)
    requires (x & 8 != 0) == (y & 8 != 0) && (x & 4 != 0) == (y & 4 != 0)
    requires (x & 2 != 0) == (y & 2 != 0) && (x & 1 != 0) == (y & 1 != 0)
    ensures x == y
  {
  }

  lemma SameMask(i: nat, j: nat)
    requires i < 8 && j < 8
    ensures Mask(i) == Mask(j) <==> i == j
  {
    assert i == 0 || i == 1 || i == 2 || i == 3 || i == 4 || i == 5 || i == 6 || i == 7;
    assert j == 0 || j == 1 || j == 2 || j == 3 || j == 4 || j == 5 || j == 6 || j == 7;
  }

  lemma FlipMask(x: Byte, m: Byte, n: Byte)
    requires PowerOfTwo(m) && PowerOfTwo(n)
    ensures (((x & !m) | (!x & m)) & n != 0) == ((x & n != 0) != (m == n))
  {
  }

  /** A byte whose first set bit comes later is smaller. */
  lemma LaterIsSmaller(x: Byte, y: Byte, bit: nat)
    requires bit < 8 && Bit(y, bit)
    requires forall k: nat :: k <= bit ==> !Bit(x, k)
    requires forall k: nat :: k < bit ==> !Bit(y, k)
    ensures x < y
  {
    assert !Bit(x, 0);
    assert bit >= 1 ==> !Bit(x, 1);
    assert bit >= 2 ==> !Bit(x, 2);
    assert bit >= 3 ==> !Bit(x, 3);
    assert bit >= 4 ==> !Bit(x, 4);
    assert bit >= 5 ==> !Bit(x, 5);
    assert bit >= 6 ==> !Bit(x, 6);
    assert bit >= 7 ==> !Bit(x, 7);
  }

  // ---------------------------------------------------------------- bytes and numbers

  /** The number that bits stand for, the most significant first. */
  function Value(bits: seq<bool>): nat {
    if |bits| == 0 then 0 else 2 * Value(bits[..|bits| - 1]) + if bits[|bits| - 1] then 1 else 0
  }

  function Power(base: nat, n: nat): nat { if n == 0 then 1 else base * Power(base, n - 1) }

  function Binary(n: nat, width: nat): (r: seq<bool>)
    ensures |r| == width
  {
    if width == 0 then [] else Binary(n / 2, width - 1) + [n % 2 == 1]
  }

  lemma ValueAppend(bits: seq<bool>, b: bool)
    ensures Value(bits + [b]) == 2 * Value(bits) + if b then 1 else 0
  {
    assert (bits + [b])[..|bits|] == bits;
  }

  lemma {:induction false} ValueOfBinary(n: nat, width: nat)
    requires n < Power(2, width)
    ensures Value(Binary(n, width)) == n
  {
    if width > 0 {
      ValueOfBinary(n / 2, width - 1);
      ValueAppend(Binary(n / 2, width - 1), n % 2 == 1);
    }
  }

  function BitsOf(x: Byte): (r: seq<bool>)
    ensures |r| == 8
  {
    [Bit(x, 0), Bit(x, 1), Bit(x, 2), Bit(x, 3), Bit(x, 4), Bit(x, 5), Bit(x, 6), Bit(x, 7)]
  }

  function One(b: bool, m: Byte): Byte { if b then m else 0 }

  function FromBits(b: seq<bool>): Byte
    requires |b| == 8
  {
    One(b[0], 0x80) | One(b[1], 0x40) | One(b[2], 0x20) | One(b[3], 0x10) | One(b[4], 8) | One(b[5], 4) | One(b[6], 2)
      | One(b[7], 1)
  }

  lemma BitsRoundTrip(b: seq<bool>)
    requires |b| == 8
    ensures BitsOf(FromBits(b)) == b
  {
  }

  /** The number a byte stands for, and the byte that stands for a number below 256. */
  function Octet(x: Byte): nat { Value(BitsOf(x)) }

  function ToByte(n: nat): Byte { FromBits(Binary(n, 8)) }

  lemma OctetRoundTrip(n: nat)
    requires n < 256
    ensures Octet(ToByte(n)) == n
  {
    assert Power(2, 8) == 256;
    ValueOfBinary(n, 8);
    BitsRoundTrip(Binary(n, 8));
  }

  lemma EightBits(k: nat)
    requires k < 8
    ensures k == 0 || k == 1 || k == 2 || k == 3 || k == 4 || k == 5 || k == 6 || k == 7
  {
  }

  lemma {:induction false} ValueBound(bits: seq<bool>)
    ensures Value(bits) < Power(2, |bits|)
  {
    if |bits| > 0 {
      ValueBound(bits[..|bits| - 1]);
    }
  }

  lemma OctetBound(x: Byte)
    ensures Octet(x) < 256
  {
    assert Power(2, 8) == 256;
    ValueBound(BitsOf(x));
  }

  lemma {:induction false} ValueLess(a: seq<bool>, b: seq<bool>, i: nat)
    requires |a| == |b| && i < |a| && a[..i] == b[..i] && !a[i] && b[i]
    ensures Value(a) < Value(b)
  {
    var n := |a| - 1;
    if i == n {
      assert a[..n] == b[..n];
    } else {
      assert a[..n][..i] == a[..i] && b[..n][..i] == b[..i];
      ValueLess(a[..n], b[..n], i);
    }
  }

  predicate SameBits(x: Byte, y: Byte, n: nat) { forall j :: 0 <= j < n && j < 8 ==> Bit(x, j) == Bit(y, j) }

  lemma DifferAt(x: Byte, y: Byte) returns (i: nat)
    requires x != y
    ensures i < 8 && SameBits(x, y, i) && Bit(x, i) != Bit(y, i)
  {
    i := 0;
    while i < 8 && Bit(x, i) == Bit(y, i)
      invariant i <= 8 && SameBits(x, y, i)
    {
      i := i + 1;
    }
    if i == 8 {
      AllSame(x, y);
    }
  }

  lemma AllSame(x: Byte, y: Byte)
    requires SameBits(x, y, 8)
    ensures x == y
  {
    assert Bit(x, 0) == Bit(y, 0) && Bit(x, 1) == Bit(y, 1) && Bit(x, 2) == Bit(y, 2) && Bit(x, 3) == Bit(y, 3);
    assert Bit(x, 4) == Bit(y, 4) && Bit(x, 5) == Bit(y, 5) && Bit(x, 6) == Bit(y, 6) && Bit(x, 7) == Bit(y, 7);
  }

  lemma TopDecides(x: Byte, y: Byte, i: nat)
    requires i < 8 && SameBits(x, y, i) && !Bit(x, i) && Bit(y, i)
    ensures x < y
  {
    if i >= 4 {
      assert Bit(x, 0) == Bit(y, 0) && Bit(x, 1) == Bit(y, 1) && Bit(x, 2) == Bit(y, 2) && Bit(x, 3) == Bit(y, 3);
      assert i > 4 ==> Bit(x, 4) == Bit(y, 4);
      assert i > 5 ==> Bit(x, 5) == Bit(y, 5);
      assert i > 6 ==> Bit(x, 6) == Bit(y, 6);
    } else {
      assert i > 0 ==> Bit(x, 0) == Bit(y, 0);
      assert i > 1 ==> Bit(x, 1) == Bit(y, 1);
      assert i > 2 ==> Bit(x, 2) == Bit(y, 2);
    }
    EightBits(i);
  }

  lemma BitsOfAt(x: Byte, k: nat)
    requires k < 8
    ensures BitsOf(x)[k] == Bit(x, k)
  {
    EightBits(k);
  }

  lemma ValueFirst(a: seq<bool>, b: seq<bool>, i: nat)
    requires |a| == |b| && i < |a| && (forall j :: 0 <= j < i ==> a[j] == b[j]) && !a[i] && b[i]
    ensures Value(a) < Value(b)
  {
    assert a[..i] == b[..i];
    ValueLess(a, b, i);
  }

  lemma OctetLess(x: Byte, y: Byte, i: nat)
    requires i < 8 && SameBits(x, y, i) && !Bit(x, i) && Bit(y, i)
    ensures Octet(x) < Octet(y)
  {
    forall j: nat | j < 8
      ensures BitsOf(x)[j] == Bit(x, j) && BitsOf(y)[j] == Bit(y, j)
    {
      BitsOfAt(x, j);
      BitsOfAt(y, j);
    }
    ValueFirst(BitsOf(x), BitsOf(y), i);
  }

  /** Bytes are ordered as the numbers they stand for. */
  lemma OctetOrder(x: Byte, y: Byte)
    ensures x < y <==> Octet(x) < Octet(y)
  {
    if x != y {
      var i := DifferAt(x, y);
      if Bit(y, i) {
        TopDecides(x, y, i);
        OctetLess(x, y, i);
      } else {
        TopDecides(y, x, i);
        OctetLess(y, x, i);
      }
    }
  }

  /** Little-endian numbers of any width. */
  function Number(s: seq<Byte>): nat {
    if |s| == 0 then 0 else Octet(s[0]) + 256 * Number(s[1..])
  }

  function Digits(n: nat, width: nat): (s: seq<Byte>)
    ensures |s| == width
  {
    if width == 0 then [] else [ToByte(n % 256)] + Digits(n / 256, width - 1)
  }

  lemma NumberCons(x: Byte, s: seq<Byte>, n: nat)
    requires Octet(x) == n % 256 && Number(s) == n / 256
    ensures Number([x] + s) == n
  {
    assert ([x] + s)[1..] == s;
  }

  lemma {:induction false} NumberOfDigits(n: nat, width: nat)
    requires n < Power(256, width)
    ensures Number(Digits(n, width)) == n
  {
    if width > 0 {
      NumberOfDigits(n / 256, width - 1);
      OctetRoundTrip(n % 256);
      NumberCons(ToByte(n % 256), Digits(n / 256, width - 1), n);
    }
  }
}
