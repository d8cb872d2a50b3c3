/** Encoding of Kademlia tags, search entries and search results, and how results are cut into packets
    (protocol/kad/types.go, dht_tracker.go). A failed write or read is None. */
module KadCodec {
  import opened Wrappers
  import opened Bits
  import opened Wire
  import KadId

  const STRING: nat := 0x02
  const UINT32: nat := 0x03
  const UINT16: nat := 0x08
  const UINT8: nat := 0x09
  const UINT64: nat := 0x0B
  const STR1: nat := 0x11

  /** `number` and `text` are the fields UInt64 and String; a tag uses one of them. */
  datatype Tag = Tag(kind: nat, id: Byte, number: nat, text: Bytes)

  function Width(kind: nat): nat {
    if kind == UINT8 then 1 else if kind == UINT16 then 2 else if kind == UINT32 then 4 else if kind == UINT64 then 8
      else 0
  }

  predicate IsNumber(kind: nat) { Width(kind) > 0 }

  predicate IsShort(kind: nat) { STR1 <= kind <= STR1 + 15 }

  predicate Supported(kind: nat) { IsNumber(kind) || kind == STRING || IsShort(kind) }

  // ---------------------------------------------------------------- tags

  function TagBody(t: Tag): Bytes
    requires Supported(t.kind)
  {
    if IsNumber(t.kind) then PutNumber(t.number, Width(t.kind))
    else if t.kind == STRING then PutNumber(|t.text|, 2) + t.text
    else t.text
  }

  /** The kind is written with the high bit set, meaning that a one-byte name follows. */
  function TagHead(t: Tag): (r: Bytes)
    requires t.kind < 128
    ensures |r| == 2
  {
    [ToByte(t.kind + 128), t.id]
  }

  function PutTag(t: Tag): Option<Bytes> {
    if Supported(t.kind) then Some(TagHead(t) + TagBody(t)) else None
  }

  function ReadBody(kind: nat, id: Byte, src: Bytes): Option<(Tag, Bytes)> {
    if IsNumber(kind) then
      var n := ReadNumber(src, Width(kind));
      if n.None? then None else Some((Tag(kind, id, n.value.0, []), n.value.1))
    else if kind == STRING then
      var n := ReadNumber(src, 2);
      if n.None? then None
      else
        var s := ReadBytes(n.value.1, n.value.0);
        if s.None? then None else Some((Tag(kind, id, 0, s.value.0), s.value.1))
    else if IsShort(kind) then
      var s := ReadBytes(src, kind - STR1 + 1);
      if s.None? then None else Some((Tag(kind, id, 0, s.value.0), s.value.1))
    else None
  }

  function GetTag(src: Bytes): Option<(Tag, Bytes)> {
    if |src| == 0 then None
    else if Octet(src[0]) < 128 || |src| < 2 then None
    else ReadBody(Octet(src[0]) % 128, src[1], src[2..])
  }

  /** The value fits the width written, and the field the kind does not use is empty. */
  predicate Canonical(t: Tag) {
    && Supported(t.kind)
    && (IsNumber(t.kind) ==> t.text == [] && t.number < Power(256, Width(t.kind)))
    && (t.kind == STRING ==> t.number == 0 && |t.text| < 65536)
    && (IsShort(t.kind) ==> t.number == 0 && |t.text| == t.kind - STR1 + 1)
  }

  lemma HeadRead(t: Tag, src: Bytes)
    requires t.kind < 128
    ensures GetTag(TagHead(t) + src) == ReadBody(t.kind, t.id, src)
  {
    OctetRoundTrip(t.kind + 128);
    HeadRest(TagHead(t), t.kind, t.id, src);
  }

  lemma HeadRest(head: Bytes, kind: nat, id: Byte, src: Bytes)
    requires |head| == 2 && Octet(head[0]) == kind + 128 && kind < 128 && head[1] == id
    ensures GetTag(head + src) == ReadBody(kind, id, src)
  {
    var all := head + src;
    assert |all| >= 2 && all[0] == head[0] && all[1] == id && all[2..] == src;
    assert Octet(all[0]) % 128 == kind;
  }

  /** What is read back of a body: the tag itself and exactly what followed, or something else. */
  ghost predicate ReadsBack(got: Option<(Tag, Bytes)>, t: Tag, rest: Bytes) {
    if Canonical(t) then got == Some((t, rest)) else got.Some? ==> got.value.0 != t
  }

  lemma ModSame(n: nat, p: nat)
    requires p > 0
    ensures n % p == n <==> n < p
  {
  }

  lemma NumberRead(t: Tag, src: Bytes, p: nat, rest: Bytes)
    requires IsNumber(t.kind) && p == Power(256, Width(t.kind)) > 0
             && ReadNumber(src, Width(t.kind)) == Some((t.number % p, rest))
    ensures ReadsBack(ReadBody(t.kind, t.id, src), t, rest)
  {
    ModSame(t.number, p);
  }

  lemma NumberBody(t: Tag, rest: Bytes)
    requires IsNumber(t.kind)
    ensures ReadsBack(ReadBody(t.kind, t.id, TagBody(t) + rest), t, rest)
  {
    NumberRoundTrip(t.number, Width(t.kind), rest);
    NumberRead(t, TagBody(t) + rest, Power(256, Width(t.kind)), rest);
  }

  lemma StringRead(t: Tag, src: Bytes, rest: Bytes)
    requires t.kind == STRING && ReadNumber(src, 2) == Some((|t.text| % 65536, t.text + rest))
    ensures ReadsBack(ReadBody(t.kind, t.id, src), t, rest)
  {
    ModSame(|t.text|, 65536);
    if |t.text| < 65536 {
      ReadWritten(t.text, rest);
    }
  }

  lemma StringBody(t: Tag, rest: Bytes)
    requires t.kind == STRING
    ensures ReadsBack(ReadBody(t.kind, t.id, TagBody(t) + rest), t, rest)
  {
    TwoBytes(|t.text|, t.text, rest);
    StringRead(t, TagBody(t) + rest, rest);
  }

  lemma TwoBytes(n: nat, text: Bytes, rest: Bytes)
    ensures ReadNumber((PutNumber(n, 2) + text) + rest, 2) == Some((n % 65536, text + rest))
  {
    assert Power(256, 2) == 65536;
    NumberRoundTrip(n, 2, text + rest);
    Together(PutNumber(n, 2), text, rest);
  }

  lemma ShortBody(t: Tag, rest: Bytes)
    requires IsShort(t.kind)
    ensures ReadsBack(ReadBody(t.kind, t.id, TagBody(t) + rest), t, rest)
  {
    ReadWritten(t.text, rest);
  }

  /** Decoding an encoded tag gives it back and leaves what follows, exactly for canonical tags. */
  lemma TagRoundTrip(t: Tag, rest: Bytes)
    requires PutTag(t).Some?
    ensures GetTag(PutTag(t).value + rest) == Some((t, rest)) <==> Canonical(t)
    ensures ReadsBack(GetTag(PutTag(t).value + rest), t, rest)
  {
    assert (TagHead(t) + TagBody(t)) + rest == TagHead(t) + (TagBody(t) + rest);
    HeadRead(t, TagBody(t) + rest);
    if IsNumber(t.kind) {
      NumberBody(t, rest);
    } else if t.kind == STRING {
      StringBody(t, rest);
    } else {
      ShortBody(t, rest);
    }
  }

  /** Where the text of an encoded tag starts. */
  function TextStart(kind: nat): nat { if kind == STRING then 4 else 2 }

  lemma CutBody(t: Tag, n: nat)
    requires Canonical(t) && 2 <= n < 2 + |TagBody(t)|
    ensures ReadBody(t.kind, t.id, TagBody(t)[..n - 2]) ==
            if IsNumber(t.kind) || n <= TextStart(t.kind) then None
            else Some((t.(text := PadTo(t.text[..n - TextStart(t.kind)], |t.text|)), []))
  {
    if t.kind == STRING {
      CutStringBody(t, n - 2);
    } else if IsShort(t.kind) {
      CutShortBody(t, n - 2);
    }
  }

  lemma CutStringBody(t: Tag, m: nat)
    requires Canonical(t) && t.kind == STRING && m < |TagBody(t)|
    ensures ReadBody(t.kind, t.id, TagBody(t)[..m]) == if m <= 2 then None
            else Some((t.(text := PadTo(t.text[..m - 2], |t.text|)), []))
  {
    if m >= 2 {
      var cut := t.text[..m - 2];
      assert TagBody(t)[..m] == PutNumber(|t.text|, 2) + cut;
      TwoBytes(|t.text|, cut, []);
      assert (PutNumber(|t.text|, 2) + cut) + [] == TagBody(t)[..m] && cut + [] == cut;
      CutString(t, TagBody(t)[..m], m - 2);
    }
  }

  lemma CutShortBody(t: Tag, m: nat)
    requires Canonical(t) && IsShort(t.kind) && m < |t.text|
    ensures ReadBody(t.kind, t.id, t.text[..m]) == if m == 0 then None
            else Some((t.(text := PadTo(t.text[..m], |t.text|)), []))
  {
    ReadCut(t.text, m);
  }

  lemma CutString(t: Tag, src: Bytes, n: nat)
    requires t.kind == STRING && |t.text| < 65536 && t.number == 0 && n < |t.text|
             && ReadNumber(src, 2) == Some((|t.text| % 65536, t.text[..n]))
    ensures ReadBody(t.kind, t.id, src) == if n == 0 then None else Some((t.(text := PadTo(t.text[..n], |t.text|)), []))
  {
    ModSame(|t.text|, 65536);
    ReadCut(t.text, n);
  }

  /** A proper prefix of an encoded tag is refused unless the cut falls inside its text; then it is read as the tag with
      zeros in place of the missing text. */
  lemma TruncatedTag(t: Tag, n: nat)
    requires Canonical(t) && n < |PutTag(t).value|
    ensures var got := GetTag(PutTag(t).value[..n]);
            && (got.Some? <==> !IsNumber(t.kind) && n > TextStart(t.kind))
            && (got.Some? ==> got == Some((t.(text := PadTo(t.text[..n - TextStart(t.kind)], |t.text|)), [])))
  {
    if n >= 2 {
      assert PutTag(t).value[..n] == TagHead(t) + TagBody(t)[..n - 2];
      HeadRead(t, TagBody(t)[..n - 2]);
      CutBody(t, n);
    }
  }

  // ---------------------------------------------------------------- identifiers

  /** The four bytes of each 32-bit word in reverse order: the identifier as it is sent, and back. */
  function Swap(raw: Bytes): (r: Bytes)
    requires |raw| == KadId.ID_BYTES
    ensures |r| == KadId.ID_BYTES
  {
    seq(KadId.ID_BYTES, i requires 0 <= i < KadId.ID_BYTES => raw[i / 4 * 4 + 3 - i % 4])
  }

  lemma SwapTwice(raw: Bytes)
    requires |raw| == KadId.ID_BYTES
    ensures Swap(Swap(raw)) == raw
  {
    forall i | 0 <= i < KadId.ID_BYTES
      ensures Swap(Swap(raw))[i] == raw[i]
    {
      var j := i / 4 * 4 + 3 - i % 4;
      assert j / 4 == i / 4 && j % 4 == 3 - i % 4;
    }
  }

  function GetID(src: Bytes): (r: Option<(Bytes, Bytes)>)
    ensures r.Some? ==> |r.value.0| == KadId.ID_BYTES
  {
    var raw := ReadBytes(src, KadId.ID_BYTES);
    if raw.None? then None else Some((Swap(raw.value.0), raw.value.1))
  }

  lemma IDRoundTrip(id: Bytes, rest: Bytes)
    requires |id| == KadId.ID_BYTES
    ensures GetID(Swap(id) + rest) == Some((id, rest))
  {
    ReadWritten(Swap(id), rest);
    SwapTwice(id);
  }

  // ---------------------------------------------------------------- search entries

  datatype Entry = Entry(id: Bytes, tags: seq<Tag>)

  predicate WellFormed(e: Entry) { |e.id| == KadId.ID_BYTES }

  function PutTags(ts: seq<Tag>): Option<Bytes> {
    if |ts| == 0 then Some([])
    else
      var head, tail := PutTag(ts[0]), PutTags(ts[1..]);
      if head.None? || tail.None? then None else Some(head.value + tail.value)
  }

  function GetTags(src: Bytes, n: nat): (r: Option<(seq<Tag>, Bytes)>)
    ensures r.Some? ==> |r.value.0| == n
    decreases n
  {
    if n == 0 then Some(([], src))
    else
      var head := GetTag(src);
      if head.None? then None
      else
        var tail := GetTags(head.value.1, n - 1);
        if tail.None? then None else Some(([head.value.0] + tail.value.0, tail.value.1))
  }

  /** The count of tags is one byte. */
  function PutEntry(e: Entry): Option<Bytes>
    requires WellFormed(e)
  {
    var tags := PutTags(e.tags);
    if tags.None? then None else Some(Swap(e.id) + (PutNumber(|e.tags|, 1) + tags.value))
  }

  function GetEntry(src: Bytes): (r: Option<(Entry, Bytes)>)
    ensures r.Some? ==> WellFormed(r.value.0)
  {
    var id := GetID(src);
    if id.None? then None
    else
      var n := ReadNumber(id.value.1, 1);
      if n.None? then None
      else
        var tags := GetTags(n.value.1, n.value.0);
        if tags.None? then None else Some((Entry(id.value.0, tags.value.0), tags.value.1))
  }

  predicate AllCanonical(ts: seq<Tag>) { forall i :: 0 <= i < |ts| ==> Canonical(ts[i]) }

  /** Tags read back are the tags written exactly when all of them are canonical. */
  lemma {:induction false} TagsRoundTrip(ts: seq<Tag>, rest: Bytes)
    requires PutTags(ts).Some?
    ensures AllCanonical(ts) ==> GetTags(PutTags(ts).value + rest, |ts|) == Some((ts, rest))
    ensures !AllCanonical(ts) && GetTags(PutTags(ts).value + rest, |ts|).Some? ==>
            GetTags(PutTags(ts).value + rest, |ts|).value.0 != ts
  {
    if |ts| > 0 {
      var more := PutTags(ts[1..]).value;
      TagRoundTrip(ts[0], more + rest);
      TagsRoundTrip(ts[1..], rest);
      Together(PutTag(ts[0]).value, more, rest);
      TagsStep(ts, PutTags(ts).value + rest, more + rest, rest);
    } else {
      assert PutTags(ts).value + rest == rest;
    }
  }

  lemma TagsStep(ts: seq<Tag>, src: Bytes, tail: Bytes, rest: Bytes)
    requires |ts| > 0 && ReadsBack(GetTag(src), ts[0], tail)
    requires AllCanonical(ts[1..]) ==> GetTags(tail, |ts| - 1) == Some((ts[1..], rest))
    requires !AllCanonical(ts[1..]) && GetTags(tail, |ts| - 1).Some? ==> GetTags(tail, |ts| - 1).value.0 != ts[1..]
    ensures AllCanonical(ts) ==> GetTags(src, |ts|) == Some((ts, rest))
    ensures !AllCanonical(ts) && GetTags(src, |ts|).Some? ==> GetTags(src, |ts|).value.0 != ts
  {
    assert ts == [ts[0]] + ts[1..];
    assert AllCanonical(ts) <==> Canonical(ts[0]) && AllCanonical(ts[1..]);
    if GetTags(src, |ts|).Some? {
      var got := GetTags(src, |ts|).value.0;
      assert got[0] == GetTag(src).value.0 && got[1..] == GetTags(GetTag(src).value.1, |ts| - 1).value.0;
    }
  }

  predicate CanonicalEntry(e: Entry) { WellFormed(e) && |e.tags| < 256 && AllCanonical(e.tags) }

  ghost predicate EntryReadsBack(got: Option<(Entry, Bytes)>, e: Entry, rest: Bytes) {
    if CanonicalEntry(e) then got == Some((e, rest)) else got.Some? ==> got.value.0 != e
  }

  lemma EntryRead(e: Entry, src: Bytes, tags: Bytes, rest: Bytes)
    requires WellFormed(e) && PutTags(e.tags) == Some(tags)
    requires GetID(src).Some? && GetID(src).value.0 == e.id
             && ReadNumber(GetID(src).value.1, 1) == Some((|e.tags| % 256, tags + rest))
    ensures EntryReadsBack(GetEntry(src), e, rest)
  {
    ModSame(|e.tags|, 256);
    if |e.tags| < 256 {
      TagsRoundTrip(e.tags, rest);
    }
  }

  /** Decoding an encoded entry gives it back and leaves what follows, exactly for canonical entries. */
  lemma EntryRoundTrip(e: Entry, rest: Bytes)
    requires WellFormed(e) && PutEntry(e).Some?
    ensures GetEntry(PutEntry(e).value + rest) == Some((e, rest)) <==> CanonicalEntry(e)
    ensures EntryReadsBack(GetEntry(PutEntry(e).value + rest), e, rest)
  {
    var tags := PutTags(e.tags).value;
    var body := PutNumber(|e.tags|, 1) + tags;
    Together(Swap(e.id), body, rest);
    IDRoundTrip(e.id, body + rest);
    OneByte(|e.tags|, tags, rest);
    EntryRead(e, PutEntry(e).value + rest, tags, rest);
  }

  lemma OneByte(n: nat, text: Bytes, rest: Bytes)
    ensures ReadNumber((PutNumber(n, 1) + text) + rest, 1) == Some((n % 256, text + rest))
  {
    assert Power(256, 1) == 256;
    NumberRoundTrip(n, 1, text + rest);
    Together(PutNumber(n, 1), text, rest);
  }

  // ---------------------------------------------------------------- search results

  predicate AllWellFormed(es: seq<Entry>) { forall i :: 0 <= i < |es| ==> WellFormed(es[i]) }

  function PutEntries(es: seq<Entry>): Option<Bytes>
    requires AllWellFormed(es)
  {
    if |es| == 0 then Some([])
    else
      var head, tail := PutEntry(es[0]), PutEntries(es[1..]);
      if head.None? || tail.None? then None else Some(head.value + tail.value)
  }

  function GetEntries(src: Bytes, n: nat): (r: Option<(seq<Entry>, Bytes)>)
    ensures r.Some? ==> |r.value.0| == n
    decreases n
  {
    if n == 0 then Some(([], src))
    else
      var head := GetEntry(src);
      if head.None? then None
      else
        var tail := GetEntries(head.value.1, n - 1);
        if tail.None? then None else Some(([head.value.0] + tail.value.0, tail.value.1))
  }

  datatype SearchRes = SearchRes(source: Bytes, target: Bytes, results: seq<Entry>)

  predicate WellFormedRes(s: SearchRes) {
    |s.source| == KadId.ID_BYTES && |s.target| == KadId.ID_BYTES && AllWellFormed(s.results)
  }

  const HEADER: Bytes := [0xE4, 0x3B]

  function Pack(s: SearchRes): Option<Bytes>
    requires WellFormedRes(s)
  {
    var es := PutEntries(s.results);
    if es.None? then None
      else Some(HEADER + (Swap(s.source) + (Swap(s.target) + (PutNumber(|s.results|, 2) + es.value))))
  }

  /** The payload comes after the two header bytes; what follows the last entry is ignored. */
  function UnpackRes(payload: Bytes): Option<SearchRes> {
    var source := GetID(payload);
    if source.None? then None
    else
      var target := GetID(source.value.1);
      if target.None? then None
      else
        var n := ReadNumber(target.value.1, 2);
        if n.None? then None
        else
          var es := GetEntries(n.value.1, n.value.0);
          if es.None? then None else Some(SearchRes(source.value.0, target.value.0, es.value.0))
  }

  predicate AllCanonicalEntries(es: seq<Entry>) { forall i :: 0 <= i < |es| ==> CanonicalEntry(es[i]) }

  lemma {:induction false} EntriesRoundTrip(es: seq<Entry>, rest: Bytes)
    requires AllWellFormed(es) && PutEntries(es).Some?
    ensures AllCanonicalEntries(es) ==> GetEntries(PutEntries(es).value + rest, |es|) == Some((es, rest))
    ensures !AllCanonicalEntries(es) && GetEntries(PutEntries(es).value + rest, |es|).Some? ==>
              GetEntries(PutEntries(es).value + rest, |es|).value.0 != es
  {
    if |es| > 0 {
      var more := PutEntries(es[1..]).value;
      EntryRoundTrip(es[0], more + rest);
      EntriesRoundTrip(es[1..], rest);
      Together(PutEntry(es[0]).value, more, rest);
      EntriesStep(es, PutEntries(es).value + rest, more + rest, rest);
    } else {
      assert PutEntries(es).value + rest == rest;
    }
  }

  lemma EntriesStep(es: seq<Entry>, src: Bytes, tail: Bytes, rest: Bytes)
    requires |es| > 0 && EntryReadsBack(GetEntry(src), es[0], tail)
    requires AllCanonicalEntries(es[1..]) ==> GetEntries(tail, |es| - 1) == Some((es[1..], rest))
    requires !AllCanonicalEntries(es[1..]) && GetEntries(tail, |es| - 1).Some? ==>
             GetEntries(tail, |es| - 1).value.0 != es[1..]
    ensures AllCanonicalEntries(es) ==> GetEntries(src, |es|) == Some((es, rest))
    ensures !AllCanonicalEntries(es) && GetEntries(src, |es|).Some? ==> GetEntries(src, |es|).value.0 != es
  {
    assert es == [es[0]] + es[1..];
    assert AllCanonicalEntries(es) <==> CanonicalEntry(es[0]) && AllCanonicalEntries(es[1..]);
    if GetEntries(src, |es|).Some? {
      var got := GetEntries(src, |es|).value.0;
      assert got[0] == GetEntry(src).value.0 && got[1..] == GetEntries(GetEntry(src).value.1, |es| - 1).value.0;
    }
  }

  lemma ResRead(s: SearchRes, payload: Bytes, afterSource: Bytes, afterTarget: Bytes, es: Bytes)
    requires WellFormedRes(s) && PutEntries(s.results) == Some(es)
    requires GetID(payload) == Some((s.source, afterSource)) && GetID(afterSource) == Some((s.target, afterTarget))
    requires ReadNumber(afterTarget, 2) == Some((|s.results| % 65536, es))
    ensures UnpackRes(payload) == Some(s) <==> |s.results| < 65536 && AllCanonicalEntries(s.results)
  {
    ModSame(|s.results|, 65536);
    if |s.results| < 65536 {
      EntriesRoundTrip(s.results, []);
      assert es + [] == es;
    }
  }

  /** A packed result is unpacked to itself exactly when it has fewer than 2^16 entries, all canonical. */
  lemma ResRoundTrip(s: SearchRes)
    requires WellFormedRes(s) && Pack(s).Some?
    ensures UnpackRes(Pack(s).value[2..]) == Some(s) <==> |s.results| < 65536 && AllCanonicalEntries(s.results)
  {
    var es := PutEntries(s.results).value;
    var afterTarget := PutNumber(|s.results|, 2) + es;
    var afterSource := Swap(s.target) + afterTarget;
    IDRoundTrip(s.source, afterSource);
    IDRoundTrip(s.target, afterTarget);
    TwoBytes(|s.results|, es, []);
    assert afterTarget + [] == afterTarget && es + [] == es;
    assert Pack(s).value[2..] == Swap(s.source) + afterSource;
    ResRead(s, Swap(s.source) + afterSource, afterSource, afterTarget, es);
  }

  // ---------------------------------------------------------------- sizes and packets

  function TagSize(t: Tag): nat {
    2 + if IsNumber(t.kind) then Width(t.kind) else if t.kind == STRING then 2 + |t.text|
      else if IsShort(t.kind) then |t.text| else 0
  }

  function TagsSize(ts: seq<Tag>): nat { if |ts| == 0 then 0 else TagsSize(ts[..|ts| - 1]) + TagSize(ts[|ts| - 1]) }

  function EntrySize(e: Entry): nat { 17 + TagsSize(e.tags) }

  method KadSearchEntrySize(e: Entry) returns (size: nat)
    ensures size == EntrySize(e)
  {
    size := 16 + 1;
    for i := 0 to |e.tags|
      invariant size == 17 + TagsSize(e.tags[..i])
    {
      assert e.tags[..i + 1][..i] == e.tags[..i];
      var kind := e.tags[i].kind;
      size := size + 2;
      if kind == UINT8 {
        size := size + 1;
      } else if kind == UINT16 {
        size := size + 2;
      } else if kind == UINT32 {
        size := size + 4;
      } else if kind == UINT64 {
        size := size + 8;
      } else if kind == STRING {
        size := size + 2 + |e.tags[i].text|;
      } else if IsShort(kind) {
        size := size + |e.tags[i].text|;
      }
    }
    assert e.tags[..|e.tags|] == e.tags;
  }

  lemma {:induction false} TagsSizeCons(t: Tag, ts: seq<Tag>)
    ensures TagsSize([t] + ts) == TagSize(t) + TagsSize(ts)
  {
    if |ts| > 0 {
      TagsSizeCons(t, ts[..|ts| - 1]);
      assert ([t] + ts)[..|ts|] == [t] + ts[..|ts| - 1];
    } else {
      assert [t] + ts == [t] && [t][..0] == [];
    }
  }

  lemma {:induction false} TagsLength(ts: seq<Tag>)
    requires PutTags(ts).Some?
    ensures |PutTags(ts).value| == TagsSize(ts)
  {
    if |ts| > 0 {
      TagsLength(ts[1..]);
      TagsSizeCons(ts[0], ts[1..]);
      assert ts == [ts[0]] + ts[1..];
    }
  }

  /** The computed size is the length of the encoding. */
  lemma EntryLength(e: Entry)
    requires WellFormed(e) && PutEntry(e).Some?
    ensures |PutEntry(e).value| == EntrySize(e)
  {
    TagsLength(e.tags);
  }

  function EntriesSize(es: seq<Entry>): nat {
    if |es| == 0 then 0 else EntriesSize(es[..|es| - 1]) + EntrySize(es[|es| - 1])
  }

  lemma {:induction false} EntriesSizeCons(e: Entry, es: seq<Entry>)
    ensures EntriesSize([e] + es) == EntrySize(e) + EntriesSize(es)
  {
    if |es| > 0 {
      EntriesSizeCons(e, es[..|es| - 1]);
      assert ([e] + es)[..|es|] == [e] + es[..|es| - 1];
    } else {
      assert [e] + es == [e] && [e][..0] == [];
    }
  }

  lemma {:induction false} EntriesLength(es: seq<Entry>)
    requires AllWellFormed(es) && PutEntries(es).Some?
    ensures |PutEntries(es).value| == EntriesSize(es)
  {
    if |es| > 0 {
      EntriesLength(es[1..]);
      EntryLength(es[0]);
      EntriesSizeCons(es[0], es[1..]);
      assert es == [es[0]] + es[1..];
    }
  }

  lemma PackedLength(s: SearchRes)
    requires WellFormedRes(s) && Pack(s).Some?
    ensures |Pack(s).value| == 36 + EntriesSize(s.results)
  {
    EntriesLength(s.results);
  }

  const MAX_ENTRIES: nat := 50
  const OUTPUT_LIMIT: nat := 8128
  const MAX_ENTRY: nat := OUTPUT_LIMIT - 32

  function Flatten(packets: seq<seq<Entry>>): seq<Entry> {
    if |packets| == 0 then [] else Flatten(packets[..|packets| - 1]) + packets[|packets| - 1]
  }

  /** A packet keeps to the limits, but an entry that is too long by itself is alone in its packet. */
  predicate Fits(packet: seq<Entry>) {
    |packet| <= MAX_ENTRIES && (EntriesSize(packet) <= MAX_ENTRY || |packet| == 1)
  }

  /** Cuts results into packets, in order. Every packet has at most 50 entries and keeps to the limit; only the
      first can be empty, and it is exactly when the first entry is too long. */
  method SendSearchResults(results: seq<Entry>) returns (packets: seq<seq<Entry>>)
    ensures Flatten(packets) == results
    ensures forall i :: 0 <= i < |packets| ==> Fits(packets[i])
    ensures forall i :: 1 <= i < |packets| ==> packets[i] != []
    ensures |results| == 0 ==> packets == []
    ensures |results| > 0 ==> packets != [] && (packets[0] == [] <==> EntrySize(results[0]) > MAX_ENTRY)
  {
    packets := [];
    if |results| == 0 {
      return;
    }
    var packet, bytesAllocated := [], 0;
    for i := 0 to |results|
      invariant Flatten(packets) + packet == results[..i]
      invariant bytesAllocated == EntriesSize(packet) && Fits(packet)
      invariant forall j :: 0 <= j < |packets| ==> Fits(packets[j]) && (j > 0 ==> packets[j] != [])
      invariant i > 0 <==> packet != []
      invariant |packets| > 0 ==> i > 0 && (packets[0] == [] <==> EntrySize(results[0]) > MAX_ENTRY)
      invariant |packets| == 0 && i > 0 ==>
                packet[0] == results[0] && EntriesSize(packet) <= MAX_ENTRY && EntrySize(results[0]) <= MAX_ENTRY
    {
      assert results[..i + 1] == results[..i] + [results[i]];
      var entrySize := KadSearchEntrySize(results[i]);
      if |packet| >= MAX_ENTRIES || bytesAllocated + entrySize + 32 > OUTPUT_LIMIT {
        packets := Flushed(packets, packet);
        packet, bytesAllocated := [], 0;
      }
      assert (packet + [results[i]])[..|packet|] == packet;
      packet := packet + [results[i]];
      bytesAllocated := bytesAllocated + entrySize;
    }
    assert results[..|results|] == results;
    if |packet| > 0 {
      packets := Flushed(packets, packet);
    }
  }

  function Flushed(packets: seq<seq<Entry>>, packet: seq<Entry>): (r: seq<seq<Entry>>)
    ensures r == packets + [packet] && Flatten(r) == Flatten(packets) + packet
  {
    assert (packets + [packet])[..|packets|] == packets;
    packets + [packet]
  }

  /** When no entry is longer than 8096 bytes, no packet is longer than 8132 bytes. */
  lemma PacketsAreSmall(packet: seq<Entry>, source: Bytes, target: Bytes)
    requires Fits(packet) && forall i :: 0 <= i < |packet| ==> EntrySize(packet[i]) <= MAX_ENTRY
    requires WellFormedRes(SearchRes(source, target, packet)) && Pack(SearchRes(source, target, packet)).Some?
    ensures |Pack(SearchRes(source, target, packet)).value| <= 8132
  {
    PackedLength(SearchRes(source, target, packet));
    if |packet| == 1 {
      assert packet[..0] == [];
    }
  }
}
