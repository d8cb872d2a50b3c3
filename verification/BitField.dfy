/** The packed bit field, proved against the sequence of booleans it stands for (protocol/bitfield.go). */
module BitFields {
  import opened Wrappers
  import opened Bits
  import opened Wire

  function BytesFor(bits: nat): nat { (bits + 7) / 8 }

  /** Bit k of a byte string. */
  predicate At(bytes: Bytes, k: nat)
    requires k < 8 * |bytes|
  {
    Bit(bytes[k / 8], k % 8)
  }

  /** The first n bits as booleans. */
  function Unpack(bytes: Bytes, n: nat): (r: seq<bool>)
    requires n <= 8 * |bytes|
    ensures |r| == n
  {
    seq(n, k requires 0 <= k < n => At(bytes, k))
  }

  /** Exactly the bytes needed, and no bit set behind the end. */
  ghost predicate Packed(bytes: Bytes, size: nat) {
    |bytes| == BytesFor(size) && forall k :: size <= k < 8 * |bytes| ==> !At(bytes, k)
  }

  // ---------------------------------------------------------------- single bytes

  /** The n most significant bits. */
  function High(n: nat): Byte {
    if n == 0 then 0 else if n == 1 then 0x80 else if n == 2 then 0xc0 else if n == 3 then 0xe0 else if n == 4 then 0xf0
    else if n == 5 then 0xf8 else if n == 6 then 0xfc else if n == 7 then 0xfe else 0xff
  }

  lemma HighBits(n: nat, k: nat)
    requires n <= 8 && k < 8
    ensures Bit(High(n), k) == (k < n)
    ensures Bit(!High(n), k) == (k >= n)
  {
    EightBits(k);
    if n < 8 {
      EightBits(n);
    }
  }

  lemma AndMask(x: Byte, y: Byte, m: Byte)
    requires PowerOfTwo(m)
    ensures (x & y) & m != 0 <==> x & m != 0 && y & m != 0
    ensures (x | y) & m != 0 <==> x & m != 0 || y & m != 0
    ensures !x & m != 0 <==> x & m == 0
  {
  }

  lemma AndBit(x: Byte, y: Byte, k: nat)
    requires k < 8
    ensures Bit(x & y, k) == (Bit(x, k) && Bit(y, k))
    ensures Bit(x | y, k) == (Bit(x, k) || Bit(y, k))
    ensures Bit(!x, k) == !Bit(x, k)
  {
    OneBit(k);
    AndMask(x, y, Mask(k));
  }

  lemma MaskBit(i: nat, k: nat)
    requires i < 8 && k < 8
    ensures Bit(Mask(i), k) == (i == k)
  {
    EightBits(i);
    EightBits(k);
  }

  // ---------------------------------------------------------------- byte strings

  /** The bits of the last byte behind the end are cleared. */
  function Trimmed(bytes: Bytes, size: nat): Bytes
    requires |bytes| == BytesFor(size)
  {
    if size % 8 == 0 then bytes else bytes[|bytes| - 1 := bytes[|bytes| - 1] & High(size % 8)]
  }

  lemma TrimmedByte(x: Byte, n: nat, k: nat)
    requires n < 8 && k < 8
    ensures Bit(x & High(n), k) == (k < n && Bit(x, k))
  {
    AndBit(x, High(n), k);
    HighBits(n, k);
  }

  /** Which bits of the bytes needed belong to the field. */
  lemma LastByte(size: nat, k: nat)
    requires k < 8 * BytesFor(size)
    ensures k < size <==> size % 8 == 0 || k / 8 < BytesFor(size) - 1 || k % 8 < size % 8
  {
  }

  lemma TrimmedAt(bytes: Bytes, size: nat, i: nat, j: nat)
    requires |bytes| == BytesFor(size) && i < |bytes| && j < 8
    ensures Bit(Trimmed(bytes, size)[i], j) == ((size % 8 == 0 || i < |bytes| - 1 || j < size % 8) && Bit(bytes[i], j))
  {
    if size % 8 != 0 && i == |bytes| - 1 {
      TrimmedByte(bytes[i], size % 8, j);
    }
  }

  lemma TrimmedBit(bytes: Bytes, size: nat, k: nat)
    requires |bytes| == BytesFor(size) && k < 8 * |bytes|
    ensures At(Trimmed(bytes, size), k) == (k < size && At(bytes, k))
  {
    LastByte(size, k);
    TrimmedAt(bytes, size, k / 8, k % 8);
  }

  lemma TrimmedIsPacked(bytes: Bytes, size: nat)
    requires |bytes| == BytesFor(size)
    ensures Packed(Trimmed(bytes, size), size) && Unpack(Trimmed(bytes, size), size) == Unpack(bytes, size)
  {
    var t := Trimmed(bytes, size);
    forall k | 0 <= k < 8 * |bytes|
      ensures At(t, k) == (k < size && At(bytes, k))
    {
      TrimmedBit(bytes, size, k);
    }
  }

  lemma ZeroBits(k: nat)
    requires k < 8
    ensures !Bit(0, k) && Bit(0xff, k)
  {
    EightBits(k);
  }

  /** As many bytes as needed, padded with zeros. */
  function Fitted(bytes: Bytes, n: nat): (r: Bytes)
    ensures |r| == n
  {
    if n <= |bytes| then bytes[..n] else bytes + Zeros(n - |bytes|)
  }

  /** Two packed byte strings for the same booleans are equal. */
  lemma PackedUnique(a: Bytes, b: Bytes, size: nat)
    requires Packed(a, size) && Packed(b, size) && Unpack(a, size) == Unpack(b, size)
    ensures a == b
  {
    forall i | 0 <= i < |a|
      ensures a[i] == b[i]
    {
      forall bit: nat | bit < 8
        ensures Bit(a[i], bit) == Bit(b[i], bit)
      {
        var k := i * 8 + bit;
        assert k / 8 == i && k % 8 == bit;
        assert At(a, k) == Bit(a[i], bit) && At(b, k) == Bit(b[i], bit);
        assert k < size ==> Unpack(a, size)[k] == At(a, k) && Unpack(b, size)[k] == At(b, k);
      }
      EqualBytes(a[i], b[i]);
    }
  }

  // ---------------------------------------------------------------- the field

  class BitField {
    var bytes: Bytes
    var size: nat

    ghost predicate Valid()
      reads this
    {
      Packed(bytes, size)
    }

    ghost function Value(): seq<bool>
      requires size <= 8 * |bytes|
      reads this
    {
      Unpack(bytes, size)
    }

    constructor (size: nat)
      ensures Valid() && Value() == seq(size, _ => false)
    {
      bytes, this.size := Zeros(BytesFor(size)), size;
      new;
      forall k | 0 <= k < 8 * |bytes|
        ensures !At(bytes, k)
      {
        ZeroBits(k % 8);
      }
    }

    method ClearTrailingBits()
      requires |bytes| == BytesFor(size)
      modifies this`bytes
      ensures bytes == Trimmed(old(bytes), size)
      ensures Valid() && Value() == old(Value())
    {
      TrimmedIsPacked(bytes, size);
      if size % 8 != 0 && |bytes| > 0 {
        bytes := bytes[BytesFor(size) - 1 := bytes[BytesFor(size) - 1] & High(size % 8)];
      }
    }

    /** The bits that fit stay, new ones are false. */
    method Resize(n: nat)
      requires Valid()
      modifies this
      ensures Valid() && size == n && Value() == Padded(old(Value()), n, false)
      ensures bytes == Trimmed(Fitted(old(bytes), BytesFor(n)), n)
    {
      FittedValue(bytes, size, n);
      bytes := Fitted(bytes, BytesFor(n));
      size := n;
      ClearTrailingBits();
    }

    /** The bits that fit stay, new ones are `val`. */
    method ResizeWith(n: nat, val: bool)
      requires Valid()
      modifies this
      ensures Valid() && size == n && Value() == Padded(old(Value()), n, val)
    {
      ghost var before := Value();
      var oldSize := size;
      Resize(n);
      if oldSize >= n || !val {
        assert Padded(before, n, false) == Padded(before, n, val);
        return;
      }
      FillFrom(oldSize);
      assert Padded(before, n, true) == Filled(Padded(before, n, false), oldSize);
      ClearTrailingBits();
    }

    /** Sets every bit from `from` on, those behind the end too. */
    method FillFrom(from: nat)
      requires |bytes| == BytesFor(size) && from < size
      modifies this`bytes
      ensures |bytes| == BytesFor(size) && Value() == Filled(old(Value()), from)
    {
      ghost var was := bytes;
      var oldBytes := BytesFor(from);
      if oldBytes != 0 && from % 8 != 0 {
        bytes := bytes[oldBytes - 1 := bytes[oldBytes - 1] | !High(from % 8)];
      }
      ghost var masked := bytes;
      for i := oldBytes to |bytes|
        invariant |bytes| == |masked|
        invariant forall j :: 0 <= j < |bytes| ==> bytes[j] == if oldBytes <= j < i then 0xff else masked[j]
      {
        bytes := bytes[i := 0xff];
      }
      FilledValue(was, from, bytes, size);
    }

    method SetBit(index: nat)
      requires Valid() && index < 8 * |bytes|
      modifies this`bytes
      ensures |bytes| == old(|bytes|) && forall k :: 0 <= k < 8 * |bytes| ==>
              At(bytes, k) == (k == index || At(old(bytes), k))
      ensures Valid() <==> index < size
      ensures index < size ==> Value() == old(Value())[index := true]
    {
      ghost var was := bytes;
      bytes := bytes[index / 8 := bytes[index / 8] | Mask(index % 8)];
      forall k | 0 <= k < 8 * |bytes|
        ensures At(bytes, k) == (k == index || At(was, k))
      {
        SetAt(was, index, k);
      }
      assert At(bytes, index);
    }

    method ClearBit(index: nat)
      requires Valid() && index < 8 * |bytes|
      modifies this`bytes
      ensures Valid() && |bytes| == old(|bytes|)
      ensures Value() == if index < size then old(Value())[index := false] else old(Value())
    {
      ghost var was := bytes;
      bytes := bytes[index / 8 := bytes[index / 8] & !Mask(index % 8)];
      forall k | 0 <= k < 8 * |bytes|
        ensures At(bytes, k) == (k != index && At(was, k))
      {
        ClearAt(was, index, k);
      }
    }

    /** Outside the field every bit reads as false. */
    function GetBit(index: int): (bit: bool)
      requires Valid()
      reads this
      ensures bit <==> 0 <= index < size && Value()[index]
    {
      0 <= index < size && bytes[index / 8] & Mask(index % 8) != 0
    }

    method Bits() returns (out: seq<bool>)
      requires Valid()
      ensures out == Value()
    {
      out := [];
      for i := 0 to size
        invariant out == Value()[..i]
      {
        out := out + [GetBit(i)];
      }
    }

    method SetAll()
      requires Valid()
      modifies this`bytes
      ensures Valid() && Value() == seq(size, _ => true)
    {
      for i := 0 to |bytes|
        invariant |bytes| == old(|bytes|) && forall j :: 0 <= j < i ==> bytes[j] == 0xff
      {
        bytes := bytes[i := 0xff];
      }
      forall k | 0 <= k < size
        ensures At(bytes, k)
      {
        ZeroBits(k % 8);
      }
      ClearTrailingBits();
    }

    method ClearAll()
      requires Valid()
      modifies this`bytes
      ensures Valid() && Value() == seq(size, _ => false)
    {
      for i := 0 to |bytes|
        invariant |bytes| == old(|bytes|) && forall j :: 0 <= j < i ==> bytes[j] == 0
      {
        bytes := bytes[i := 0];
      }
      forall k | 0 <= k < 8 * |bytes|
        ensures !At(bytes, k)
      {
        ZeroBits(k % 8);
      }
    }

    method Count() returns (n: nat)
      requires Valid()
      ensures n == Trues(Value())
    {
      n := 0;
      for i := 0 to size
        invariant n == Trues(Value()[..i])
      {
        assert Value()[..i + 1][..i] == Value()[..i];
        if GetBit(i) {
          n := n + 1;
        }
      }
      assert Value()[..size] == Value();
    }

    /** The first `bits` bits of the raw bytes; where there are too few of them the field keeps its own. */
    method Assign(raw: Bytes, bits: nat)
      requires Valid()
      modifies this
      ensures Valid() && size == bits
      ensures bytes == Trimmed(Copied(Trimmed(Fitted(old(bytes), BytesFor(bits)), bits), raw), bits)
      ensures |raw| >= BytesFor(bits) ==> Value() == Unpack(raw, bits)
    {
      Resize(bits);
      bytes := Copied(bytes, raw);
      ClearTrailingBits();
    }

    /** Size as a 16-bit number, then the bytes. */
    method Put() returns (wire: Bytes)
      requires Valid()
      ensures wire == Encode(bytes, size)
    {
      wire := PutNumber(size, 2);
      wire := wire + bytes;
    }

    /** Reads a field; what follows it is left over. */
    method Get(src: Bytes) returns (rest: Option<Bytes>)
      requires Valid()
      modifies this
      ensures match Decode(src)
              case None => rest == None && bytes == old(bytes) && size == old(size)
              case Some(d) => rest == Some(d.rest) && size == d.size && bytes == d.bytes
      ensures Valid()
    {
      var head := ReadNumber(src, 2);
      if head.None? {
        return None;
      }
      var n := head.value.0;
      var raw := ReadBytes(head.value.1, BytesFor(n));
      if raw.None? {
        return None;
      }
      Overwritten(Trimmed(Fitted(bytes, BytesFor(n)), n), raw.value.0, n);
      Assign(raw.value.0, n);
      return Some(raw.value.1);
    }
  }

  // ---------------------------------------------------------------- what the operations do to the booleans

  function Padded(bits: seq<bool>, n: nat, val: bool): seq<bool> {
    seq(n, k requires 0 <= k < n => if k < |bits| then bits[k] else val)
  }

  function Filled(bits: seq<bool>, from: nat): seq<bool> {
    seq(|bits|, k requires 0 <= k < |bits| => k >= from || bits[k])
  }

  function Trues(bits: seq<bool>): nat {
    if |bits| == 0 then 0 else Trues(bits[..|bits| - 1]) + if bits[|bits| - 1] then 1 else 0
  }

  lemma FittedBit(bytes: Bytes, size: nat, n: nat, k: nat)
    requires Packed(bytes, size) && k < n
    ensures At(Fitted(bytes, BytesFor(n)), k) == (k < size && At(bytes, k))
  {
    ZeroBits(k % 8);
    if k / 8 < |bytes| {
      assert Fitted(bytes, BytesFor(n))[k / 8] == bytes[k / 8];
      assert At(Fitted(bytes, BytesFor(n)), k) == At(bytes, k);
    }
  }

  lemma FittedValue(bytes: Bytes, size: nat, n: nat)
    requires Packed(bytes, size)
    ensures Unpack(Fitted(bytes, BytesFor(n)), n) == Padded(Unpack(bytes, size), n, false)
  {
    forall k | 0 <= k < n
      ensures At(Fitted(bytes, BytesFor(n)), k) == (k < size && At(bytes, k))
    {
      FittedBit(bytes, size, n, k);
    }
  }

  lemma FilledByte(x: Byte, n: nat, k: nat)
    requires n < 8 && k < 8
    ensures Bit(x | !High(n), k) == (k >= n || Bit(x, k))
  {
    AndBit(x, !High(n), k);
    HighBits(n, k);
  }

  lemma FilledBit(was: Bytes, from: nat, now: Bytes, k: nat)
    requires |now| == |was| && k < 8 * |was|
    requires now[k / 8] == if k / 8 >= BytesFor(from) then 0xff
             else if k / 8 == BytesFor(from) - 1 && from % 8 != 0 then was[k / 8] | !High(from % 8) else was[k / 8]
    ensures At(now, k) == (k >= from || At(was, k))
  {
    ZeroBits(k % 8);
    FilledByte(was[k / 8], from % 8, k % 8);
  }

  lemma FilledValue(was: Bytes, from: nat, now: Bytes, n: nat)
    requires |now| == |was| && n <= 8 * |was|
    requires forall j :: 0 <= j < |was| ==>
               now[j] == if j >= BytesFor(from) then 0xff
                 else if j == BytesFor(from) - 1 && from % 8 != 0 then was[j] | !High(from % 8) else was[j]
    ensures Unpack(now, n) == Filled(Unpack(was, n), from)
  {
    forall k | 0 <= k < n
      ensures At(now, k) == (k >= from || At(was, k))
    {
      FilledBit(was, from, now, k);
    }
  }

  lemma SetAt(was: Bytes, index: nat, k: nat)
    requires index < 8 * |was| && k < 8 * |was|
    ensures At(was[index / 8 := was[index / 8] | Mask(index % 8)], k) == (k == index || At(was, k))
  {
    if k / 8 == index / 8 {
      AndBit(was[index / 8], Mask(index % 8), k % 8);
      MaskBit(index % 8, k % 8);
    }
  }

  lemma ClearAt(was: Bytes, index: nat, k: nat)
    requires index < 8 * |was| && k < 8 * |was|
    ensures At(was[index / 8 := was[index / 8] & !Mask(index % 8)], k) == (k != index && At(was, k))
  {
    if k / 8 == index / 8 {
      AndBit(was[index / 8], !Mask(index % 8), k % 8);
      AndBit(Mask(index % 8), 0, k % 8);
      MaskBit(index % 8, k % 8);
    }
  }

  // ---------------------------------------------------------------- on the wire

  /** As many bytes of `raw` as there is room for replace the first ones. */
  function Copied(bytes: Bytes, raw: Bytes): (r: Bytes)
    ensures |r| == |bytes|
  {
    if |raw| >= |bytes| then raw[..|bytes|] else raw + bytes[|raw|..]
  }

  lemma Overwritten(bytes: Bytes, raw: Bytes, n: nat)
    requires |bytes| == |raw| == BytesFor(n)
    ensures Copied(bytes, raw) == raw
  {
  }

  datatype Decoded = Decoded(bytes: Bytes, size: nat, rest: Bytes)

  function Encode(bytes: Bytes, size: nat): Bytes { PutNumber(size, 2) + bytes }

  function Decode(src: Bytes): (r: Option<Decoded>)
    ensures r.Some? ==> |r.value.bytes| == BytesFor(r.value.size)
  {
    var head := ReadNumber(src, 2);
    if head.None? then None
    else
      var raw := ReadBytes(head.value.1, BytesFor(head.value.0));
      if raw.None? then None else Some(Decoded(Trimmed(raw.value.0, head.value.0), head.value.0, raw.value.1))
  }

  lemma TrimmedSame(bytes: Bytes, size: nat)
    requires Packed(bytes, size)
    ensures Trimmed(bytes, size) == bytes
  {
    TrimmedIsPacked(bytes, size);
    PackedUnique(Trimmed(bytes, size), bytes, size);
  }

  lemma DecodeRest(src: Bytes, n: nat, bytes: Bytes, rest: Bytes)
    requires ReadNumber(src, 2) == Some((n, bytes + rest))
    ensures Decode(src).Some? ==> Decode(src).value.size == n
    ensures |bytes| == BytesFor(n) && Trimmed(bytes, n) == bytes ==> Decode(src) == Some(Decoded(bytes, n, rest))
  {
    ReadWritten(bytes, rest);
  }

  lemma RestDecides(src: Bytes, bytes: Bytes, size: nat, rest: Bytes)
    requires |bytes| == BytesFor(size) && Trimmed(bytes, size) == bytes
             && ReadNumber(src, 2) == Some((size % 65536, bytes + rest))
    ensures Decode(src) == Some(Decoded(bytes, size, rest)) <==> size < 65536
  {
    DecodeRest(src, size % 65536, bytes, rest);
  }

  lemma EncodedHead(bytes: Bytes, size: nat, rest: Bytes)
    ensures ReadNumber(Encode(bytes, size) + rest, 2) == Some((size % 65536, bytes + rest))
  {
    assert Power(256, 2) == 65536;
    NumberRoundTrip(size, 2, bytes + rest);
    Together(PutNumber(size, 2), bytes, rest);
  }

  /** Reading back what was written gives the same field and leaves what follows, exactly for fields of fewer
      than 2^16 bits. */
  lemma WireRoundTrip(bytes: Bytes, size: nat, rest: Bytes)
    requires Packed(bytes, size)
    ensures Decode(Encode(bytes, size) + rest) == Some(Decoded(bytes, size, rest)) <==> size < 65536
  {
    EncodedHead(bytes, size, rest);
    TrimmedSame(bytes, size);
    RestDecides(Encode(bytes, size) + rest, bytes, size, rest);
  }

  // ---------------------------------------------------------------- truncated input

  lemma PaddedIsPacked(bytes: Bytes, size: nat, n: nat)
    requires Packed(bytes, size) && n <= |bytes|
    ensures Packed(PadTo(bytes[..n], |bytes|), size)
    ensures forall k :: 0 <= k < 8 * |bytes| ==> At(PadTo(bytes[..n], |bytes|), k) == (k < 8 * n && At(bytes, k))
  {
    var padded := PadTo(bytes[..n], |bytes|);
    forall k | 0 <= k < 8 * |bytes|
      ensures At(padded, k) == (k < 8 * n && At(bytes, k))
    {
      ZeroBits(k % 8);
      assert padded[k / 8] == if k / 8 < n then bytes[k / 8] else 0;
    }
  }

  /** The bits from position n on are gone. */
  function Cleared(bits: seq<bool>, n: nat): seq<bool> { seq(|bits|, k requires 0 <= k < |bits| => k < n && bits[k]) }

  lemma PaddedValue(bytes: Bytes, size: nat, n: nat)
    requires Packed(bytes, size) && n <= |bytes|
    ensures Unpack(PadTo(bytes[..n], |bytes|), size) == Cleared(Unpack(bytes, size), 8 * n)
  {
    PaddedIsPacked(bytes, size, n);
  }

  lemma CutDecides(src: Bytes, bytes: Bytes, size: nat, n: nat)
    requires Packed(bytes, size) && n < |bytes| && ReadNumber(src, 2) == Some((size, bytes[..n]))
    ensures Decode(src) == if n == 0 then None else Some(Decoded(PadTo(bytes[..n], |bytes|), size, []))
  {
    ReadCut(bytes, n);
    PaddedIsPacked(bytes, size, n);
    TrimmedSame(PadTo(bytes[..n], |bytes|), size);
  }

  /** A proper prefix of a written field is refused exactly when it ends before the first byte of bits; otherwise it is
      read as the field with the missing bits false. */
  lemma TruncatedField(bytes: Bytes, size: nat, n: nat)
    requires Packed(bytes, size) && size < 65536 && n < |Encode(bytes, size)|
    ensures var got := Decode(Encode(bytes, size)[..n]);
            && (got.Some? <==> n > 2)
            && (n > 2 ==>
                  && got == Some(Decoded(PadTo(bytes[..n - 2], |bytes|), size, []))
                  && Unpack(got.value.bytes, size) == Cleared(Unpack(bytes, size), 8 * (n - 2)))
  {
    if n >= 2 {
      assert Encode(bytes, size)[..n] == Encode(bytes[..n - 2], size);
      EncodedHead(bytes[..n - 2], size, []);
      assert Encode(bytes[..n - 2], size) + [] == Encode(bytes[..n - 2], size) && bytes[..n - 2] + [] == bytes[..n - 2];
      CutDecides(Encode(bytes, size)[..n], bytes, size, n - 2);
      PaddedValue(bytes, size, n - 2);
    }
  }
}
