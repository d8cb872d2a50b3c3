/** Where every byte of an encoding lies, and what it stands for (protocol/bitfield.go, protocol/simple_tag.go,
    protocol/kad/types.go). */
module Layouts {
  import opened Wrappers
  import opened Bits
  import opened Wire
  import opened KadCodec
  import SimpleTags
  import BitFields

  // ---------------------------------------------------------------- bytes and numbers

  function Unit(b: bool): nat { if b then 1 else 0 }

  /** A byte stands for the sum of the weights of its bits. */
  lemma OctetMeaning(x: Byte)
    ensures Octet(x) ==
              128 * Unit(x & 0x80 != 0) + 64 * Unit(x & 0x40 != 0) + 32 * Unit(x & 0x20 != 0) + 16 * Unit(x & 0x10 != 0)
              + 8 * Unit(x & 8 != 0) + 4 * Unit(x & 4 != 0) + 2 * Unit(x & 2 != 0) + Unit(x & 1 != 0)
  {
    EightWeights(BitsOf(x));
  }

  lemma EightWeights(b: seq<bool>)
    requires |b| == 8
    ensures Value(b) == 128 * Unit(b[0]) + 64 * Unit(b[1]) + 32 * Unit(b[2]) + 16 * Unit(b[3])
                        + 8 * Unit(b[4]) + 4 * Unit(b[5]) + 2 * Unit(b[6]) + Unit(b[7])
  {
    FourWeights(b);
    NextWeight(b, 7);
    NextWeight(b, 6);
    NextWeight(b, 5);
    NextWeight(b, 4);
    assert b[..8] == b;
  }

  lemma FourWeights(b: seq<bool>)
    requires |b| == 8
    ensures Value(b[..4]) == 8 * Unit(b[0]) + 4 * Unit(b[1]) + 2 * Unit(b[2]) + Unit(b[3])
  {
    NextWeight(b, 3);
    NextWeight(b, 2);
    NextWeight(b, 1);
    NextWeight(b, 0);
  }

  lemma NextWeight(b: seq<bool>, k: nat)
    requires k < |b|
    ensures Value(b[..k + 1]) == 2 * Value(b[..k]) + Unit(b[k]) && Value(b[..0]) == 0
  {
    assert b[..k + 1][..k] == b[..k];
  }

  /** Numbers are read lowest byte first. */
  lemma {:induction false} LittleEndian(low: Bytes, x: Byte)
    ensures Number(low + [x]) == Number(low) + Power(256, |low|) * Octet(x)
  {
    if |low| == 0 {
      assert low + [x] == [x] && [x][1..] == [];
    } else {
      LittleEndian(low[1..], x);
      assert (low + [x])[1..] == low[1..] + [x];
      Distribute(Number(low[1..]), Power(256, |low| - 1), Octet(x));
    }
  }

  lemma Distribute(n: nat, p: nat, x: nat)
    ensures 256 * (n + p * x) == 256 * n + (256 * p) * x
  {
  }

  /** A number of which `width` bytes are written is read back from them, up to what does not fit. */
  lemma WrittenNumber(n: nat, width: nat)
    ensures |PutNumber(n, width)| == width && Power(256, width) > 0
            && Number(PutNumber(n, width)) == n % Power(256, width)
  {
    NumberRoundTrip(n, width, []);
    assert PutNumber(n, width) + [] == PutNumber(n, width);
    assert PutNumber(n, width)[..width] == PutNumber(n, width);
  }

  // ---------------------------------------------------------------- Kademlia

  /** An identifier is sent as four 32-bit words, each with its four bytes reversed. */
  lemma SwappedWords(id: Bytes)
    requires |id| == 16
    ensures Swap(id) == [id[3], id[2], id[1], id[0], id[7], id[6], id[5], id[4],
                         id[11], id[10], id[9], id[8], id[15], id[14], id[13], id[12]]
  {
  }

  /** A tag is its kind with the high bit set, its identifier, and its value: a number of the width of its kind, a text
      behind its length, or a text whose length is part of the kind. */
  lemma TagLayout(t: Tag)
    ensures PutTag(t).Some? <==> t.kind in {0x02, 0x03, 0x08, 0x09, 0x0B} || 0x11 <= t.kind <= 0x20
    ensures PutTag(t).Some? ==>
              var b := PutTag(t).value;
              && |b| >= 2 && Octet(b[0]) == 128 + t.kind && b[1] == t.id
              && (t.kind == 0x09 ==> |b| == 3 && Number(b[2..]) == t.number % 256)
              && (t.kind == 0x08 ==> |b| == 4 && Number(b[2..]) == t.number % 65536)
              && (t.kind == 0x03 ==> |b| == 6 && Number(b[2..]) == t.number % 0x1_0000_0000)
              && (t.kind == 0x0B ==> |b| == 10 && Number(b[2..]) == t.number % 0x1_0000_0000_0000_0000)
              && (t.kind == 0x02 ==> |b| >= 4 && Number(b[2..4]) == |t.text| % 65536 && b[4..] == t.text)
              && (t.kind >= 0x11 ==> b[2..] == t.text)
  {
    if PutTag(t).Some? {
      OctetRoundTrip(t.kind + 128);
      assert PutTag(t).value[2..] == TagBody(t);
      if IsNumber(t.kind) {
        Powers();
        WrittenNumber(t.number, Width(t.kind));
      } else if t.kind == STRING {
        TextLayout(t);
      }
    }
  }

  lemma TextLayout(t: Tag)
    requires t.kind == STRING
    ensures var b := PutTag(t).value; |b| >= 4 && Number(b[2..4]) == |t.text| % 65536 && b[4..] == t.text
  {
    Powers();
    WrittenNumber(|t.text|, 2);
    ThreeParts(TagHead(t), PutNumber(|t.text|, 2), t.text);
  }

  lemma ThreeParts(a: Bytes, b: Bytes, c: Bytes)
    ensures var all := a + (b + c); all[|a|..|a| + |b|] == b && all[|a| + |b|..] == c
  {
  }

  lemma Powers()
    ensures Power(256, 1) == 256 && Power(256, 2) == 65536 && Power(256, 4) == 0x1_0000_0000
    ensures Power(256, 8) == 0x1_0000_0000_0000_0000
  {
    assert Power(256, 3) == 256 * Power(256, 2);
    assert Power(256, 5) == 256 * Power(256, 4);
    assert Power(256, 6) == 256 * Power(256, 5);
    assert Power(256, 7) == 256 * Power(256, 6);
  }

  /** The bytes of tags, one after the other. */
  function Joined(parts: seq<Bytes>): Bytes { if |parts| == 0 then [] else parts[0] + Joined(parts[1..]) }

  predicate TagsAre(ts: seq<Tag>, parts: seq<Bytes>) {
    |parts| == |ts| && forall i :: 0 <= i < |ts| ==> PutTag(ts[i]) == Some(parts[i])
  }

  lemma {:induction false} TagsJoined(ts: seq<Tag>, parts: seq<Bytes>)
    requires TagsAre(ts, parts)
    ensures PutTags(ts) == Some(Joined(parts))
  {
    if |ts| > 0 {
      assert forall i :: 0 <= i < |ts| - 1 ==> ts[1..][i] == ts[i + 1] && parts[1..][i] == parts[i + 1];
      TagsJoined(ts[1..], parts[1..]);
    }
  }

  /** A search entry is its identifier, the number of its tags in one byte, and the tags in order. */
  lemma EntryLayout(e: Entry, parts: seq<Bytes>)
    requires WellFormed(e) && TagsAre(e.tags, parts)
    ensures PutEntry(e).Some?
    ensures var b := PutEntry(e).value;
            |b| >= 17 && b[..16] == Swap(e.id) && Octet(b[16]) == |e.tags| % 256 && b[17..] == Joined(parts)
  {
    TagsJoined(e.tags, parts);
    WrittenNumber(|e.tags|, 1);
    Powers();
    var b, n := PutEntry(e).value, PutNumber(|e.tags|, 1);
    assert b == Swap(e.id) + n + Joined(parts);
    assert n[1..] == [] && Number(n) == Octet(n[0]);
    assert b[16] == n[0];
  }

  predicate EntriesAre(es: seq<Entry>, parts: seq<Bytes>)
    requires AllWellFormed(es)
  {
    |parts| == |es| && forall i :: 0 <= i < |es| ==> PutEntry(es[i]) == Some(parts[i])
  }

  lemma {:induction false} EntriesJoined(es: seq<Entry>, parts: seq<Bytes>)
    requires AllWellFormed(es) && EntriesAre(es, parts)
    ensures PutEntries(es) == Some(Joined(parts))
  {
    if |es| > 0 {
      assert forall i :: 0 <= i < |es| - 1 ==> es[1..][i] == es[i + 1] && parts[1..][i] == parts[i + 1];
      EntriesJoined(es[1..], parts[1..]);
    }
  }

  /** A search result is two header bytes, the identifiers of the sender and of the target, the number of entries in two
      bytes, and the entries in order. */
  lemma ResLayout(s: SearchRes, parts: seq<Bytes>)
    requires WellFormedRes(s) && EntriesAre(s.results, parts)
    ensures Pack(s).Some?
    ensures var b := Pack(s).value;
            && |b| >= 36 && b[..2] == [0xE4, 0x3B] && b[2..18] == Swap(s.source) && b[18..34] == Swap(s.target)
            && Number(b[34..36]) == |s.results| % 65536 && b[36..] == Joined(parts)
  {
    EntriesJoined(s.results, parts);
    WrittenNumber(|s.results|, 2);
    Powers();
    FiveParts(HEADER, Swap(s.source), Swap(s.target), PutNumber(|s.results|, 2), Joined(parts));
  }

  lemma FiveParts(a: Bytes, b: Bytes, c: Bytes, d: Bytes, e: Bytes)
    requires |a| == 2 && |b| == 16 && |c| == 16 && |d| == 2
    ensures var all := a + (b + (c + (d + e)));
            |all| >= 36 && all[..2] == a && all[2..18] == b && all[18..34] == c && all[34..36] == d && all[36..] == e
  {
  }

  // ---------------------------------------------------------------- bit fields and simple tags

  /** A bit field is its number of bits in two bytes and then the bits, the first one highest in the first byte. */
  lemma FieldLayout(bytes: Bytes, size: nat)
    ensures var b := BitFields.Encode(bytes, size);
            |b| == 2 + |bytes| && Number(b[..2]) == size % 65536 && b[2..] == bytes
    ensures |bytes| > 0 ==>
            (BitFields.At(bytes, 0) <==> bytes[0] & 0x80 != 0) && (BitFields.At(bytes, 7) <==> bytes[0] & 1 != 0)
    ensures |bytes| > 1 ==> (BitFields.At(bytes, 8) <==> bytes[1] & 0x80 != 0)
  {
    WrittenNumber(size, 2);
    Powers();
    assert BitFields.Encode(bytes, size)[..2] == PutNumber(size, 2);
  }

  /** A simple tag without a name is its kind with the high bit set and its identifier, one with a name its kind, the
      length of the name in two bytes and the name; behind that comes the value. */
  lemma SimpleTagLayout(t: SimpleTags.SimpleTag)
    requires t.kind < 128
    ensures var (b, n) := (SimpleTags.Put(t), |t.name|);
            if n == 0 then |b| >= 2 && Octet(b[0]) == 128 + t.kind && b[1] == t.id && b[2..] == SimpleTags.Body(t)
            else && |b| >= 3 + n && Octet(b[0]) == t.kind && Number(b[1..3]) == n % 65536 && b[3..3 + n] == t.name
                 && b[3 + n..] == SimpleTags.Body(t)
  {
    var (b, n) := (SimpleTags.Put(t), |t.name|);
    if n == 0 {
      OctetRoundTrip(t.kind + 128);
    } else {
      OctetRoundTrip(t.kind);
      Powers();
      WrittenNumber(n, 2);
      var length := PutNumber(n, 2);
      Together([b[0]], length + t.name, SimpleTags.Body(t));
      Together(length, t.name, SimpleTags.Body(t));
      assert b == [b[0]] + (length + (t.name + SimpleTags.Body(t)));
      ThreeParts([b[0]], length, t.name + SimpleTags.Body(t));
      assert b[3..][..n] == t.name && b[3..][n..] == SimpleTags.Body(t);
    }
  }

  /** The value of a simple tag. */
  lemma SimpleValueLayout(t: SimpleTags.SimpleTag)
    ensures var b := SimpleTags.Body(t);
            && (t.kind == 0x09 ==> |b| == 1 && Number(b) == t.u64 % 256)
            && (t.kind == 0x08 ==> |b| == 2 && Number(b) == t.u64 % 65536)
            && (t.kind == 0x03 ==> |b| == 4 && Number(b) == (if t.u32 != 0 then t.u32 else t.u64) % 0x1_0000_0000)
            && (t.kind == 0x0B ==> |b| == 8 && Number(b) == t.u64 % 0x1_0000_0000_0000_0000)
            && (t.kind == 0x02 ==> |b| >= 2 && Number(b[..2]) == |t.text| % 65536 && b[2..] == t.text)
            && (0x11 <= t.kind <= 0x20 ==> b == t.text)
  {
    Powers();
    WrittenNumber(if t.kind == 0x03 && t.u32 != 0 then t.u32 else t.u64, Width(t.kind));
    WrittenNumber(|t.text|, 2);
    if t.kind == 0x02 {
      assert SimpleTags.Body(t)[..2] == PutNumber(|t.text|, 2);
    }
  }
}
