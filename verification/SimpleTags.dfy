/** Tags and tag lists of the client and server protocols (protocol/simple_tag.go). */
module SimpleTags {
  import opened Wrappers
  import opened Bits
  import opened Wire
  import opened KadCodec

  /** Name, String, UInt32 and UInt64 of the source are `name`, `text`, `u32` and `u64`. */
  datatype SimpleTag = SimpleTag(kind: nat, id: Byte, name: Bytes, text: Bytes, u32: nat, u64: nat)

  const TWO32: nat := 0x1_0000_0000

  // ---------------------------------------------------------------- writing

  /** A named tag carries its name with its length, any other its one-byte identifier. */
  function Head(t: SimpleTag): Bytes
    requires t.kind < 256
  {
    if t.name != [] then [ToByte(t.kind)] + (PutNumber(|t.name|, 2) + t.name)
    else [ToByte(if t.kind < 128 then t.kind + 128 else t.kind), t.id]
  }

  /** Kinds that are not known have no body. */
  function Body(t: SimpleTag): Bytes {
    if t.kind == UINT32 then PutNumber(if t.u32 != 0 then t.u32 else t.u64, 4)
    else if IsNumber(t.kind) then PutNumber(t.u64, Width(t.kind))
    else if t.kind == STRING then PutNumber(|t.text|, 2) + t.text
    else if IsShort(t.kind) then t.text
    else []
  }

  function Put(t: SimpleTag): Bytes
    requires t.kind < 256
  {
    Head(t) + Body(t)
  }

  function BytesCount(t: SimpleTag): nat {
    var head := if t.name != [] then 3 + |t.name| else 2;
    if IsNumber(t.kind) then head + Width(t.kind)
    else if t.kind == STRING then head + 2 + |t.text|
    else head + |t.text|
  }

  /** The announced length is the length written, except for a text under a kind that is not known. */
  lemma BytesCountIsLength(t: SimpleTag)
    requires t.kind < 256
    ensures |Put(t)| == BytesCount(t) <==> Supported(t.kind) || t.text == []
  {
  }

  // ---------------------------------------------------------------- reading

  /** Kind, identifier and name; a name of one byte is an identifier. */
  datatype Opening = Opening(kind: nat, id: Byte, name: Bytes, rest: Bytes)

  function GetHead(src: Bytes): Option<Opening> {
    if |src| == 0 then None
    else if Octet(src[0]) >= 128 then
      if |src| < 2 then None else Some(Opening(Octet(src[0]) % 128, src[1], [], src[2..]))
    else
      var n := ReadNumber(src[1..], 2);
      if n.None? then None
      else
        var raw := ReadBytes(n.value.1, n.value.0);
        if raw.None? then None
        else if n.value.0 == 1 then Some(Opening(Octet(src[0]) % 128, raw.value.0[0], [], raw.value.1))
        else Some(Opening(Octet(src[0]) % 128, 0, raw.value.0, raw.value.1))
  }

  function GetBody(o: Opening): Option<(SimpleTag, Bytes)> {
    if IsNumber(o.kind) then
      var n := ReadNumber(o.rest, Width(o.kind));
      if n.None? then None else Some((SimpleTag(o.kind, o.id, o.name, [], n.value.0 % TWO32, n.value.0), n.value.1))
    else if o.kind == STRING then
      var n := ReadNumber(o.rest, 2);
      if n.None? then None
      else
        var s := ReadBytes(n.value.1, n.value.0);
        if s.None? then None else Some((SimpleTag(o.kind, o.id, o.name, s.value.0, 0, 0), s.value.1))
    else if IsShort(o.kind) then
      var s := ReadBytes(o.rest, o.kind - STR1 + 1);
      if s.None? then None else Some((SimpleTag(o.kind, o.id, o.name, s.value.0, 0, 0), s.value.1))
    else Some((SimpleTag(o.kind, o.id, o.name, [], 0, 0), o.rest))
  }

  function Get(src: Bytes): Option<(SimpleTag, Bytes)> {
    var head := GetHead(src);
    if head.None? then None else GetBody(head.value)
  }

  // ---------------------------------------------------------------- round trips

  predicate CanonicalHead(t: SimpleTag) { t.kind < 128 && (t.name == [] || (2 <= |t.name| < 65536 && t.id == 0)) }

  predicate CanonicalBody(t: SimpleTag) {
    && (IsNumber(t.kind) ==> t.text == [] && t.u64 < Power(256, Width(t.kind)) && t.u32 == t.u64 % TWO32)
    && (t.kind == STRING ==> |t.text| < 65536)
    && (IsShort(t.kind) ==> |t.text| == t.kind - STR1 + 1)
    && (!Supported(t.kind) ==> t.text == [])
    && (!IsNumber(t.kind) ==> t.u32 == 0 && t.u64 == 0)
  }

  predicate CanonicalTag(t: SimpleTag) { CanonicalHead(t) && CanonicalBody(t) }

  function OpeningOf(t: SimpleTag, rest: Bytes): Opening { Opening(t.kind, t.id, t.name, rest) }

  ghost predicate HeadBack(got: Option<Opening>, t: SimpleTag, rest: Bytes) {
    if CanonicalHead(t) then got == Some(OpeningOf(t, rest))
    else got.Some? ==> got.value.kind != t.kind || got.value.id != t.id || got.value.name != t.name
  }

  ghost predicate TagBack(got: Option<(SimpleTag, Bytes)>, t: SimpleTag, rest: Bytes) {
    if CanonicalTag(t) then got == Some((t, rest)) else got.Some? ==> got.value.0 != t
  }

  lemma ShortHead(t: SimpleTag, first: Byte, rest: Bytes)
    requires t.kind < 256 && t.name == [] && Octet(first) == if t.kind < 128 then t.kind + 128 else t.kind
    ensures HeadBack(GetHead([first, t.id] + rest), t, rest)
  {
    assert ([first, t.id] + rest)[2..] == rest;
  }

  lemma NamedHead(t: SimpleTag, first: Byte, src: Bytes, rest: Bytes)
    requires t.kind < 128 && t.name != [] && Octet(first) == t.kind
             && ReadNumber(src, 2) == Some((|t.name| % 65536, t.name + rest))
    ensures HeadBack(GetHead([first] + src), t, rest)
  {
    assert ([first] + src)[1..] == src;
    ModSame(|t.name|, 65536);
    if |t.name| < 65536 {
      ReadWritten(t.name, rest);
    }
  }

  lemma WrongHead(t: SimpleTag, first: Byte, src: Bytes, rest: Bytes)
    requires 128 <= t.kind < 256
    ensures HeadBack(GetHead([first] + src), t, rest)
  {
    assert Octet(first) % 128 < 128;
  }

  lemma HeadReadBack(t: SimpleTag, rest: Bytes)
    requires t.kind < 256
    ensures HeadBack(GetHead(Head(t) + rest), t, rest)
  {
    if t.name == [] {
      OctetRoundTrip(if t.kind < 128 then t.kind + 128 else t.kind);
      ShortHead(t, ToByte(if t.kind < 128 then t.kind + 128 else t.kind), rest);
    } else {
      var name := PutNumber(|t.name|, 2) + t.name;
      Together([ToByte(t.kind)], name, rest);
      if t.kind < 128 {
        OctetRoundTrip(t.kind);
        TwoBytes(|t.name|, t.name, rest);
        NamedHead(t, ToByte(t.kind), name + rest, rest);
      } else {
        WrongHead(t, ToByte(t.kind), name + rest, rest);
      }
    }
  }

  ghost predicate BodyBack(got: Option<(SimpleTag, Bytes)>, t: SimpleTag, rest: Bytes) {
    if CanonicalBody(t) then got == Some((t, rest)) else got.Some? ==> got.value.0 != t
  }

  lemma NumberBack(t: SimpleTag, src: Bytes, n: nat, p: nat, rest: Bytes)
    requires IsNumber(t.kind) && p == Power(256, Width(t.kind)) > 0
             && ReadNumber(src, Width(t.kind)) == Some((n % p, rest))
    requires n == t.u64 || (t.kind == UINT32 && n == t.u32 != 0)
    ensures BodyBack(GetBody(OpeningOf(t, src)), t, rest)
  {
    ModSame(t.u64, p);
    if t.kind == UINT32 {
      assert p == TWO32;
      ModSame(n, p);
    }
  }

  lemma TextBack(t: SimpleTag, src: Bytes, rest: Bytes)
    requires t.kind == STRING && ReadNumber(src, 2) == Some((|t.text| % 65536, t.text + rest))
    ensures BodyBack(GetBody(OpeningOf(t, src)), t, rest)
  {
    ModSame(|t.text|, 65536);
    if |t.text| < 65536 {
      ReadWritten(t.text, rest);
    }
  }

  lemma OtherBack(t: SimpleTag, rest: Bytes)
    requires !IsNumber(t.kind) && t.kind != STRING
    ensures BodyBack(GetBody(OpeningOf(t, Body(t) + rest)), t, rest)
  {
    ReadWritten(t.text, rest);
    assert [] + rest == rest;
  }

  lemma BodyReadBack(t: SimpleTag, rest: Bytes)
    ensures BodyBack(GetBody(OpeningOf(t, Body(t) + rest)), t, rest)
  {
    if IsNumber(t.kind) {
      var n := if t.kind == UINT32 && t.u32 != 0 then t.u32 else t.u64;
      NumberRoundTrip(n, Width(t.kind), rest);
      NumberBack(t, Body(t) + rest, n, Power(256, Width(t.kind)), rest);
    } else if t.kind == STRING {
      TwoBytes(|t.text|, t.text, rest);
      TextBack(t, Body(t) + rest, rest);
    } else {
      OtherBack(t, rest);
    }
  }

  lemma BodyOfOther(o: Opening)
    ensures GetBody(o).Some? ==>
            GetBody(o).value.0.kind == o.kind && GetBody(o).value.0.id == o.id && GetBody(o).value.0.name == o.name
  {
  }

  /** Decoding an encoded tag gives it back and leaves what follows, exactly for canonical tags. */
  lemma SimpleTagRoundTrip(t: SimpleTag, rest: Bytes)
    requires t.kind < 256
    ensures Get(Put(t) + rest) == Some((t, rest)) <==> CanonicalTag(t)
    ensures TagBack(Get(Put(t) + rest), t, rest)
  {
    Together(Head(t), Body(t), rest);
    HeadReadBack(t, Body(t) + rest);
    BodyReadBack(t, rest);
    HeadThenBody(t, Put(t) + rest, Body(t) + rest, rest);
  }

  lemma HeadThenBody(t: SimpleTag, src: Bytes, body: Bytes, rest: Bytes)
    requires HeadBack(GetHead(src), t, body) && BodyBack(GetBody(OpeningOf(t, body)), t, rest)
    ensures TagBack(Get(src), t, rest)
  {
    if GetHead(src).Some? {
      BodyOfOther(GetHead(src).value);
    }
  }

  // ---------------------------------------------------------------- truncated input

  /** Where the text of an encoded tag starts. */
  function TextAt(t: SimpleTag): nat
    requires t.kind < 256
  {
    |Head(t)| + if t.kind == STRING then 2 else 0
  }

  lemma CutText(t: SimpleTag, src: Bytes, n: nat)
    requires t.kind == STRING && |t.text| < 65536 && n < |t.text|
             && ReadNumber(src, 2) == Some((|t.text| % 65536, t.text[..n]))
    requires t.u32 == t.u64 == 0
    ensures GetBody(OpeningOf(t, src)) == if n == 0 then None else Some((t.(text := PadTo(t.text[..n], |t.text|)), []))
  {
    ModSame(|t.text|, 65536);
    ReadCut(t.text, n);
  }

  /** What is read of the first n bytes of an encoded tag: nothing, unless the cut falls inside the text, or inside the
      name of a tag of a kind that is not known; then the tag with zeros in place of what is missing. */
  function Truncated(t: SimpleTag, n: nat): Option<(SimpleTag, Bytes)>
    requires CanonicalTag(t) && n < |Put(t)|
  {
    if IsNumber(t.kind) then None
    else if Supported(t.kind) then if n <= TextAt(t) then None
      else Some((t.(text := PadTo(t.text[..n - TextAt(t)], |t.text|)), []))
    else if n <= 3 then None
    else Some((t.(name := PadTo(t.name[..n - 3], |t.name|)), []))
  }

  lemma CutStringBody(t: SimpleTag, m: nat)
    requires CanonicalBody(t) && t.kind == STRING && m < |Body(t)|
    ensures GetBody(OpeningOf(t, Body(t)[..m])) == if m <= 2 then None
            else Some((t.(text := PadTo(t.text[..m - 2], |t.text|)), []))
  {
    if m >= 2 {
      var cut := t.text[..m - 2];
      assert Body(t)[..m] == PutNumber(|t.text|, 2) + cut;
      TwoBytes(|t.text|, cut, []);
      assert (PutNumber(|t.text|, 2) + cut) + [] == Body(t)[..m] && cut + [] == cut;
      CutText(t, Body(t)[..m], m - 2);
    }
  }

  lemma CutShortBody(t: SimpleTag, m: nat)
    requires CanonicalBody(t) && IsShort(t.kind) && m < |t.text|
    ensures GetBody(OpeningOf(t, t.text[..m])) == if m == 0 then None
            else Some((t.(text := PadTo(t.text[..m], |t.text|)), []))
  {
    ReadCut(t.text, m);
  }

  lemma CutBody(t: SimpleTag, m: nat)
    requires CanonicalTag(t) && m < |Body(t)|
    ensures GetBody(OpeningOf(t, Body(t)[..m])) == Truncated(t, |Head(t)| + m)
  {
    if t.kind == STRING {
      CutStringBody(t, m);
    } else if IsShort(t.kind) {
      CutShortBody(t, m);
    }
  }

  lemma CutName(t: SimpleTag, first: Byte, src: Bytes, n: nat)
    requires CanonicalHead(t) && n < |t.name| && Octet(first) == t.kind
             && ReadNumber(src, 2) == Some((|t.name| % 65536, t.name[..n]))
    ensures GetHead([first] + src) == if n == 0 then None
            else Some(Opening(t.kind, t.id, PadTo(t.name[..n], |t.name|), []))
  {
    assert ([first] + src)[1..] == src;
    ModSame(|t.name|, 65536);
    ReadCut(t.name, n);
  }

  lemma CutNumber(first: Byte, src: Bytes)
    requires Octet(first) < 128 && |src| < 2
    ensures GetHead([first] + src) == None
  {
    assert ([first] + src)[1..] == src;
  }

  lemma CutNamed(t: SimpleTag, n: nat)
    requires CanonicalHead(t) && t.name != [] && 0 < n < |Head(t)|
    ensures GetHead(Head(t)[..n]) == if n <= 3 then None
            else Some(Opening(t.kind, t.id, PadTo(t.name[..n - 3], |t.name|), []))
  {
    OctetRoundTrip(t.kind);
    var first, number := ToByte(t.kind), PutNumber(|t.name|, 2);
    if n < 3 {
      assert Head(t)[..n] == [first] + number[..n - 1];
      CutNumber(first, number[..n - 1]);
    } else {
      var cut := t.name[..n - 3];
      assert Head(t)[..n] == [first] + (number + cut);
      TwoBytes(|t.name|, cut, []);
      assert (number + cut) + [] == number + cut && cut + [] == cut;
      CutName(t, first, number + cut, n - 3);
    }
  }

  lemma CutUnnamed(t: SimpleTag)
    requires CanonicalHead(t) && t.name == []
    ensures GetHead(Head(t)[..1]) == None
  {
    OctetRoundTrip(t.kind + 128);
    assert Head(t)[..1] == [ToByte(t.kind + 128)];
  }

  lemma CutHead(t: SimpleTag, n: nat)
    requires CanonicalTag(t) && n < |Head(t)|
    ensures Get(Head(t)[..n]) == Truncated(t, n)
  {
    if n > 0 && t.name != [] {
      CutNamed(t, n);
    } else if n > 0 {
      CutUnnamed(t);
    }
  }

  /** A proper prefix of an encoded tag is read as `Truncated` says. */
  lemma TruncatedSimpleTag(t: SimpleTag, n: nat)
    requires CanonicalTag(t) && n < |Put(t)|
    ensures Get(Put(t)[..n]) == Truncated(t, n)
  {
    if n < |Head(t)| {
      assert Put(t)[..n] == Head(t)[..n];
      CutHead(t, n);
    } else {
      var m := n - |Head(t)|;
      assert Put(t)[..n] == Head(t) + Body(t)[..m];
      HeadReadBack(t, Body(t)[..m]);
      CutBody(t, m);
    }
  }

  // ---------------------------------------------------------------- lists

  predicate AllBytes(ts: seq<SimpleTag>) { forall i :: 0 <= i < |ts| ==> ts[i].kind < 256 }

  function PutAll(ts: seq<SimpleTag>): Bytes
    requires AllBytes(ts)
  {
    if |ts| == 0 then [] else Put(ts[0]) + PutAll(ts[1..])
  }

  function PutList(ts: seq<SimpleTag>): Bytes
    requires AllBytes(ts)
  {
    PutNumber(|ts|, 4) + PutAll(ts)
  }

  function GetAll(src: Bytes, n: nat): (r: Option<(seq<SimpleTag>, Bytes)>)
    ensures r.Some? ==> |r.value.0| == n
    decreases n
  {
    if n == 0 then Some(([], src))
    else
      var head := Get(src);
      if head.None? then None
      else
        var tail := GetAll(head.value.1, n - 1);
        if tail.None? then None else Some(([head.value.0] + tail.value.0, tail.value.1))
  }

  /** A list that announces more tags than two bytes each could hold is refused. */
  function GetList(src: Bytes): Option<(seq<SimpleTag>, Bytes)> {
    var n := ReadNumber(src, 4);
    if n.None? || n.value.0 > |n.value.1| / 2 then None else GetAll(n.value.1, n.value.0)
  }

  predicate AllCanonicalTags(ts: seq<SimpleTag>) { forall i :: 0 <= i < |ts| ==> CanonicalTag(ts[i]) }

  lemma {:induction false} AllRoundTrip(ts: seq<SimpleTag>, rest: Bytes)
    requires AllBytes(ts)
    ensures AllCanonicalTags(ts) ==> GetAll(PutAll(ts) + rest, |ts|) == Some((ts, rest))
    ensures !AllCanonicalTags(ts) && GetAll(PutAll(ts) + rest, |ts|).Some? ==>
            GetAll(PutAll(ts) + rest, |ts|).value.0 != ts
  {
    if |ts| > 0 {
      var more := PutAll(ts[1..]);
      SimpleTagRoundTrip(ts[0], more + rest);
      AllRoundTrip(ts[1..], rest);
      Together(Put(ts[0]), more, rest);
      AllStep(ts, PutAll(ts) + rest, more + rest, rest);
    } else {
      assert PutAll(ts) + rest == rest;
    }
  }

  lemma AllStep(ts: seq<SimpleTag>, src: Bytes, tail: Bytes, rest: Bytes)
    requires |ts| > 0 && TagBack(Get(src), ts[0], tail)
    requires AllCanonicalTags(ts[1..]) ==> GetAll(tail, |ts| - 1) == Some((ts[1..], rest))
    requires !AllCanonicalTags(ts[1..]) && GetAll(tail, |ts| - 1).Some? ==> GetAll(tail, |ts| - 1).value.0 != ts[1..]
    ensures AllCanonicalTags(ts) ==> GetAll(src, |ts|) == Some((ts, rest))
    ensures !AllCanonicalTags(ts) && GetAll(src, |ts|).Some? ==> GetAll(src, |ts|).value.0 != ts
  {
    assert ts == [ts[0]] + ts[1..];
    assert AllCanonicalTags(ts) <==> CanonicalTag(ts[0]) && AllCanonicalTags(ts[1..]);
    if GetAll(src, |ts|).Some? {
      var got := GetAll(src, |ts|).value.0;
      assert got[0] == Get(src).value.0 && got[1..] == GetAll(Get(src).value.1, |ts| - 1).value.0;
    }
  }

  /** Every tag takes two bytes at least, so the guard never refuses a list that was written. */
  lemma {:induction false} TwoBytesEach(ts: seq<SimpleTag>)
    requires AllBytes(ts)
    ensures |PutAll(ts)| >= 2 * |ts|
  {
    if |ts| > 0 {
      TwoBytesEach(ts[1..]);
    }
  }

  lemma ListRead(ts: seq<SimpleTag>, src: Bytes, rest: Bytes)
    requires AllBytes(ts) && ReadNumber(src, 4) == Some((|ts| % TWO32, PutAll(ts) + rest))
    ensures GetList(src) == Some((ts, rest)) <==> |ts| < TWO32 && AllCanonicalTags(ts)
  {
    ModSame(|ts|, TWO32);
    if |ts| < TWO32 {
      AllRoundTrip(ts, rest);
      TwoBytesEach(ts);
    }
  }

  lemma FourBytes(n: nat, more: Bytes, rest: Bytes)
    ensures ReadNumber((PutNumber(n, 4) + more) + rest, 4) == Some((n % TWO32, more + rest))
  {
    assert Power(256, 4) == TWO32;
    NumberRoundTrip(n, 4, more + rest);
    Together(PutNumber(n, 4), more, rest);
  }

  /** Decoding an encoded list gives it back and leaves what follows, exactly for lists of fewer than 2^32
      canonical tags. */
  lemma ListRoundTrip(ts: seq<SimpleTag>, rest: Bytes)
    requires AllBytes(ts)
    ensures GetList(PutList(ts) + rest) == Some((ts, rest)) <==> |ts| < TWO32 && AllCanonicalTags(ts)
  {
    FourBytes(|ts|, PutAll(ts), rest);
    ListRead(ts, PutList(ts) + rest, rest);
  }
}
