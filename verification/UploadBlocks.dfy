/** Answering block requests: which are remembered, which may be served, and how a payload is cut into parts
    (peer_connection.go, transfer.go). */
module UploadBlocks {
  import opened Geometry
  import opened Scheduler = BlockScheduler

  type Payload = seq<bv8>

  const PART: nat := 10240

  // ---------------------------------------------------------------- parts

  function PacketSize(total: nat): (p: nat)
    ensures total > 0 ==> p > 0
  {
    if total > PART then total / (total / PART) else total
  }

  /** Parts of p bytes, the last taking what is left when it is less than two parts. */
  function Parts(begin: int, togo: nat, p: nat): seq<Range>
    requires p > 0
    decreases togo
  {
    if togo == 0 then []
    else if togo < 2 * p then [Range(begin, begin + togo)]
    else [Range(begin, begin + p)] + Parts(begin + p, togo - p, p)
  }

  /** The parts cover [begin, begin + total) from left to right without gap, overlap or empty part. */
  predicate Tile(parts: seq<Range>, begin: int, end: int) {
    if |parts| == 0 then begin == end
    else parts[0].left == begin && begin < parts[0].right && Tile(parts[1..], parts[0].right, end)
  }

  lemma {:induction false} PartsTile(begin: int, togo: nat, p: nat)
    requires p > 0
    ensures Tile(Parts(begin, togo, p), begin, begin + togo)
    decreases togo
  {
    if togo >= 2 * p {
      PartsTile(begin + p, togo - p, p);
      assert Parts(begin, togo, p)[1..] == Parts(begin + p, togo - p, p);
    } else if togo > 0 {
      assert Parts(begin, togo, p)[1..] == [];
    }
  }

  /** k full parts and a remainder smaller than one part make k parts. */
  lemma {:induction false} PartsCount(begin: int, k: nat, r: nat, p: nat)
    requires p > 0 && k > 0 && r < p
    ensures |Parts(begin, k * p + r, p)| == k
    ensures forall x :: x in Parts(begin, k * p + r, p) ==> x.right - x.left == p || x.right - x.left == p + r
    decreases k
  {
    if k > 1 {
      PartsCount(begin + p, k - 1, r, p);
      assert k * p + r - p == (k - 1) * p + r;
      assert k * p >= 2 * p;
    } else {
      assert k * p + r == p + r;
    }
  }

  /** What a payload of more than 10240 bytes and at most a piece is divided into. */
  lemma Division(total: nat)
    requires PART < total <= PIECE_SIZE
    ensures var k := total / PART;
            var p := PacketSize(total);
            && k > 0 && p > 0 && total == k * p + total % k && total % k < p
            && PART <= p && p + total % k < 2 * PART
  {
    var k := total / PART;
    var p := total / k;
    assert 1 <= k <= 950;
    assert total == k * p + total % k;
    assert k * PART <= total < (k + 1) * PART;
    AtLeast(total, k, PART);
    if k == 1 {
      assert total % 1 == 0;
    } else {
      AtMost(total, k, 15360);
    }
  }

  lemma AtLeast(n: nat, k: nat, q: nat)
    requires k > 0 && k * q <= n
    ensures n / k >= q
  {
    var d := n / k;
    assert n < k * (d + 1);
    if d + 1 <= q {
      Times(k, d + 1, q);
      assert false;
    }
  }

  lemma Times(k: nat, a: nat, b: nat)
    requires a <= b
    ensures k * a <= k * b
  {
  }

  lemma AtMost(n: nat, k: nat, q: nat)
    requires k >= 2 && n < (k + 1) * PART && q == 15360
    ensures n / k <= q
  {
  }

  /** A payload of T bytes, more than 10240 and at most a piece, goes out as exactly T / 10240 parts of 10240 to
      20479 bytes each that cover it in order. */
  lemma PartsAreEven(begin: int, total: nat)
    requires PART < total <= PIECE_SIZE
    ensures var parts := Parts(begin, total, PacketSize(total));
            && |parts| == total / PART
            && Tile(parts, begin, begin + total)
            && forall i :: 0 <= i < |parts| ==> PART <= parts[i].right - parts[i].left < 2 * PART
  {
    Division(total);
    var k, p := total / PART, PacketSize(total);
    PartsCount(begin, k, total % k, p);
    PartsTile(begin, total, p);
  }

  // ---------------------------------------------------------------- what may be served

  predicate HadAt(status: seq<PieceState>, x: nat) { x / PIECE_SIZE < |status| && status[x / PIECE_SIZE] == Have }

  /** A range may be served exactly when it lies in the file, is not empty, and every one of its bytes is in a
      piece marked Have. `open` says that the transfer has its file and is not being aborted. */
  method CanUploadRange(open: bool, status: seq<PieceState>, size: nat, begin: int, end: int) returns (r: bool)
    requires |status| == PieceCount(size)
    ensures r <==> open && 0 <= begin < end <= size && forall x: nat :: begin <= x < end ==> HadAt(status, x)
  {
    if !open || NumHave(status) == 0 || end <= begin || begin < 0 || end > size {
      if open && NumHave(status) == 0 && 0 <= begin < end <= size {
        NoneHad(status, begin);
      }
      return false;
    }
    var reqs := MakePeerRequests(begin, end, size);
    if reqs.Err? {
      return false;
    }
    ghost var have: nat -> bool := (p: nat) => p < |status| && status[p] == Have;
    RequestsTouchAllPieces(reqs.value, begin, end, have);
    assert forall x: nat :: HadAt(status, x) <==> have(x / PIECE_SIZE);
    for k := 0 to |reqs.value|
      invariant forall j :: 0 <= j < k ==> have(reqs.value[j].piece)
    {
      if reqs.value[k].piece >= |status| || status[reqs.value[k].piece] != Have {
        assert !have(reqs.value[k].piece);
        return false;
      }
    }
    return true;
  }

  lemma NoneHad(status: seq<PieceState>, x: nat)
    requires NumHave(status) == 0
    ensures !HadAt(status, x)
  {
    if x / PIECE_SIZE < |status| {
      NoneHadAt(status, x / PIECE_SIZE);
    }
  }

  lemma {:induction false} NoneHadAt(status: seq<PieceState>, i: nat)
    requires NumHave(status) == 0 && i < |status|
    ensures status[i] != Have
  {
    if i < |status| - 1 {
      NoneHadAt(status[..|status| - 1], i);
    }
  }

  // ---------------------------------------------------------------- the blocks of one connection

  ghost predicate NoneTwice(s: seq<Range>) { forall i, j :: 0 <= i < j < |s| ==> s[i] != s[j] }

  lemma OneMore(s: seq<Range>, x: Range)
    requires NoneTwice(s) && x !in s
    ensures NoneTwice(s + [x])
  {
  }

  lemma OneLess(done: seq<Range>, blocks: seq<Range>)
    requires NoneTwice(done + blocks) && |blocks| > 0
    ensures NoneTwice(done + blocks[1..]) && NoneTwice((done + [blocks[0]]) + blocks[1..])
  {
    assert (done + [blocks[0]]) + blocks[1..] == done + blocks;
    assert forall i :: 0 <= i < |done + blocks[1..]| ==>
      (done + blocks[1..])[i] == (done + blocks)[if i < |done| then i else i + 1];
  }

  /** What became of a round: nothing to do, the range may not be served, reading or sending failed, or sent. */
  datatype Round = Idle | Refused | Broken | Sent

  class Sender {
    var uploading: bool
    var uploadBlocks: seq<Range>
    var uploadDone: seq<Range>

    ghost predicate Valid()
      reads this
    {
      NoneTwice(uploadDone + uploadBlocks)
    }

    constructor ()
      ensures Valid() && !uploading && uploadBlocks == [] && uploadDone == []
    {
      uploading, uploadBlocks, uploadDone := false, [], [];
    }

    method AddUploadRequest(req: PeerRequest)
      requires Valid()
      modifies this`uploadBlocks
      ensures Valid()
      ensures var block := req.ToRange();
              uploadBlocks == if uploading && block !in uploadDone + old(uploadBlocks) then old(uploadBlocks) + [block]
                else old(uploadBlocks)
    {
      if !uploading {
        return;
      }
      var block := req.ToRange();
      for i := 0 to |uploadDone|
        invariant uploadBlocks == old(uploadBlocks) && block !in uploadDone[..i]
      {
        if uploadDone[i] == block {
          return;
        }
      }
      for i := 0 to |uploadBlocks|
        invariant uploadBlocks == old(uploadBlocks) && block !in uploadBlocks[..i]
      {
        if uploadBlocks[i] == block {
          return;
        }
      }
      assert uploadDone[..|uploadDone|] == uploadDone && uploadBlocks[..|uploadBlocks|] == uploadBlocks;
      assert uploadDone + (uploadBlocks + [block]) == (uploadDone + uploadBlocks) + [block];
      OneMore(uploadDone + uploadBlocks, block);
      uploadBlocks := uploadBlocks + [block];
    }

    /** Cuts a payload into parts until one cannot be sent; `sends` tells which can. */
    method SendParts(begin: int, payload: Payload, sends: nat -> bool)
      returns (parts: seq<Range>, chunks: seq<Payload>, ok: bool)
      requires |payload| > 0
      ensures parts <= Parts(begin, |payload|, PacketSize(|payload|))
      ensures Chunks(parts, begin, payload, chunks)
      ensures ok <==> parts == Parts(begin, |payload|, PacketSize(|payload|))
      ensures if ok then AllGo(sends, |parts|) else FailedAt(sends, |parts|)
    {
      parts, chunks, ok := [], [], true;
      var togo: nat, packetSize: nat, offset := |payload|, PacketSize(|payload|), begin;
      ghost var p := packetSize;
      ghost var all := Parts(begin, togo, p);
      while togo > 0
        invariant togo <= |payload| && offset == begin + |payload| - togo && packetSize > 0
        invariant togo > 0 ==> packetSize == p
        invariant all == parts + Parts(offset, togo, p)
        invariant Chunks(parts, begin, payload, chunks)
        invariant AllGo(sends, |parts|)
        decreases togo
      {
        if togo < packetSize * 2 {
          packetSize := togo;
        }
        if !sends(|parts|) {
          assert |all| > |parts|;
          ok := false;
          return;
        }
        var at := |payload| - togo;
        NextPart(all, parts, offset, togo, p);
        AnotherGoes(sends, |parts|);
        AnotherChunk(parts, begin, payload, chunks, Range(offset, offset + packetSize));
        chunks := chunks + [payload[at..at + packetSize]];
        parts := parts + [Range(offset, offset + packetSize)];
        offset := offset + packetSize;
        togo := togo - packetSize;
      }
    }

    /** Reads a block and sends it. `read` is the content of the file as far as it can be read. */
    method Serve(block: Range, open: bool, status: seq<PieceState>, size: nat, read: Payload, sends: nat -> bool)
        returns (round: Round, parts: seq<Range>, chunks: seq<Payload>)
      requires |status| == PieceCount(size)
      ensures round != Idle && Chunks(parts, 0, read, chunks)
      ensures round == Refused ==> parts == []
      ensures parts != [] || round == Sent ==> MayServe(block, status, size, |read|) && parts <= PartsOf(block)
      ensures round == Sent ==> parts == PartsOf(block)
      ensures round == Refused <==> !(open && Served(block, status, size))
      ensures round == Broken && block.right <= |read| ==> FailedAt(sends, |parts|)
      ensures open && Served(block, status, size) ==>
                (round == Sent <==> block.right <= |read| && AllGo(sends, |PartsOf(block)|))
    {
      parts, chunks := [], [];
      var may := CanUploadRange(open, status, size, block.left, block.right);
      if !may {
        return Refused, [], [];
      }
      if block.right > |read| {
        return Broken, [], [];
      }
      var ok;
      parts, chunks, ok := SendParts(block.left, read[block.left..block.right], sends);
      ChunksOfFile(parts, block, read, chunks);
      round := if ok then Sent else Broken;
    }

    /** One round for this connection, after the queue has let it keep its slot: the first block asked for is
        served, or refused, and then everything asked for is forgotten. */
    method SendBlockData(open: bool, status: seq<PieceState>, size: nat, read: Payload, sends: nat -> bool)
        returns (round: Round, parts: seq<Range>, chunks: seq<Payload>)
      requires Valid() && |status| == PieceCount(size)
      modifies this`uploadBlocks, this`uploadDone
      ensures Valid() && Chunks(parts, 0, read, chunks)
      ensures round == Idle <==> !uploading || old(uploadBlocks) == []
      ensures round == Idle ==> parts == [] && uploadBlocks == old(uploadBlocks) && uploadDone == old(uploadDone)
      ensures round == Refused ==> parts == [] && uploadBlocks == [] && uploadDone == []
      ensures parts != [] || round == Sent ==>
                old(uploadBlocks) != [] && MayServe(old(uploadBlocks)[0], status, size, |read|)
                  && parts <= PartsOf(old(uploadBlocks)[0])
      ensures round == Sent ==> parts == PartsOf(old(uploadBlocks)[0])
      ensures round != Idle ==>
                var block := old(uploadBlocks)[0];
                && (round == Refused <==> !(open && Served(block, status, size)))
                && (round == Broken && block.right <= |read| ==> FailedAt(sends, |parts|))
                && (open && Served(block, status, size) ==>
                      (round == Sent <==> block.right <= |read| && AllGo(sends, |PartsOf(block)|)))
      ensures round == Broken ==> uploadBlocks == old(uploadBlocks)[1..] && uploadDone == old(uploadDone)
      ensures round == Sent ==>
              uploadBlocks == old(uploadBlocks)[1..] && uploadDone == old(uploadDone) + [old(uploadBlocks)[0]]
    {
      if !uploading || |uploadBlocks| == 0 {
        return Idle, [], [];
      }
      var current := uploadBlocks[0];
      OneLess(uploadDone, uploadBlocks);
      uploadBlocks := uploadBlocks[1..];
      round, parts, chunks := Serve(current, open, status, size, read, sends);
      if round == Refused {
        uploadBlocks, uploadDone := [], [];
      } else if round == Sent {
        uploadDone := uploadDone + [current];
      }
    }
  }

  lemma AnotherChunk(parts: seq<Range>, begin: int, payload: Payload, chunks: seq<Payload>, part: Range)
    requires Chunks(parts, begin, payload, chunks) && begin <= part.left <= part.right <= begin + |payload|
    ensures Chunks(parts + [part], begin, payload, chunks + [payload[part.left - begin..part.right - begin]])
  {
  }

  lemma ChunksOfFile(parts: seq<Range>, block: Range, read: Payload, chunks: seq<Payload>)
    requires 0 <= block.left <= block.right <= |read|
    requires Chunks(parts, block.left, read[block.left..block.right], chunks)
    ensures Chunks(parts, 0, read, chunks)
  {
    forall i | 0 <= i < |parts|
      ensures Chunk(parts[i], 0, read, chunks[i])
    {
      assert Chunk(parts[i], block.left, read[block.left..block.right], chunks[i]);
    }
  }

  /** The block lies in the file and in what can be read of it, and all its bytes are in pieces marked Have. */
  ghost predicate MayServe(block: Range, status: seq<PieceState>, size: nat, readable: nat) {
    Served(block, status, size) && block.right <= readable
  }

  /** The block lies in the file, is not empty, and all its bytes are in pieces marked Have. */
  ghost predicate Served(block: Range, status: seq<PieceState>, size: nat) {
    0 <= block.left < block.right <= size && forall x: nat :: block.left <= x < block.right ==> HadAt(status, x)
  }

  /** Part k is the first that cannot be sent. */
  ghost predicate FailedAt(sends: nat -> bool, k: nat) { !sends(k) && AllGo(sends, k) }

  ghost predicate AllGo(sends: nat -> bool, k: nat) { forall i: nat :: i < k ==> sends(i) }

  lemma AnotherGoes(sends: nat -> bool, k: nat)
    requires AllGo(sends, k) && sends(k)
    ensures AllGo(sends, k + 1)
  {
  }

  function PartsOf(block: Range): seq<Range>
    requires block.left < block.right
  {
    Parts(block.left, block.right - block.left, PacketSize(block.right - block.left))
  }

  predicate Chunks(parts: seq<Range>, begin: int, payload: Payload, chunks: seq<Payload>) {
    |chunks| == |parts| && forall i :: 0 <= i < |parts| ==> Chunk(parts[i], begin, payload, chunks[i])
  }

  lemma NextPart(all: seq<Range>, parts: seq<Range>, offset: int, togo: nat, p: nat)
    requires p > 0 && togo > 0 && all == parts + Parts(offset, togo, p)
    ensures var n := if togo < 2 * p then togo else p;
            all == (parts + [Range(offset, offset + n)]) + Parts(offset + n, togo - n, p)
  {
    var n := if togo < 2 * p then togo else p;
    assert Parts(offset, togo, p) == [Range(offset, offset + n)] + Parts(offset + n, togo - n, p);
  }

  predicate Chunk(part: Range, begin: int, payload: Payload, chunk: Payload) {
    begin <= part.left <= part.right <= begin + |payload| && chunk == payload[part.left - begin..part.right - begin]
  }
}
