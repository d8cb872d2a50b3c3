/** Every event that is not clean does harm: an end-game downloader leaving after its block was delivered by somebody
    else, or a block delivered while it is still to be restored. */
module Failures {
  import opened Wrappers
  import opened Geometry
  import opened Scheduler = BlockScheduler
  import opened PieceStore
  import opened Pipeline
  import opened Schedule
  import opened Integrity
  import opened Outcomes
  import opened Reach
  import opened Drains
  import Resumption

  // ---------------------------------------------------------------- asking for a free block

  lemma {:induction false} SomeNewConn(conns: set<nat>) returns (c: nat)
    ensures forall d :: d in conns ==> d < c
  {
    if conns == {} {
      c := 0;
    } else {
      var d :| d in conns;
      c := SomeNewConn(conns - {d});
      c := if c <= d then d + 1 else c;
      assert forall x :: x in conns ==> x == d || x in conns - {d};
    }
  }

  lemma TookFree(p: Picker, q: Picker, got: seq<PieceBlock>, peer: Peer, b: PieceBlock)
    requires Took(p, q, got, Ask(peer, SLOW, false), [])
    ensures b in got ==> b in FreeBlocks(p, []) && b !in FreeBlocks(q, []) && BlockAt(q, b).state == Requested
    ensures b !in got ==> (b in FreeBlocks(p, []) <==> b in FreeBlocks(q, []))
  {
    assert BlockAt(q, b) == if b in got then BlockAt(p, b).Request(peer, SLOW) else BlockAt(p, b);
    assert b in got ==> Pickable(BlockAt(p, b), Ask(peer, SLOW, false));
    assert b == PieceBlock(b.piece, b.block);
    assert b.piece < |p.status| ==> (q.status[b.piece] == Have <==> p.status[b.piece] == Have);
  }

  /** A pick of a slow peer with nothing known about its pieces takes free blocks only, and at least one. */
  lemma SlowTakes(p: Picker, peer: Peer)
    requires Inv(p) && FreeBlocks(p, []) != {}
    ensures var (q, got) := Pick(p, REQUEST_QUEUE_SIZE, peer, SLOW, []);
            got != [] && FreeBlocks(q, []) < FreeBlocks(p, [])
            && (forall b :: b in FreeBlocks(p, []) && b !in got ==> b in FreeBlocks(q, []))
            && forall b :: b in got ==> BlockAt(q, b).state == Requested
  {
    var (q, got) := Pick(p, REQUEST_QUEUE_SIZE, peer, SLOW, []);
    PickSound(p, REQUEST_QUEUE_SIZE, peer, SLOW, []);
    SlowPickExact(p, REQUEST_QUEUE_SIZE, peer, []);
    SlowTook(p, q, got, peer);
  }

  lemma SlowTook(p: Picker, q: Picker, got: seq<PieceBlock>, peer: Peer)
    requires Took(p, q, got, Ask(peer, SLOW, false), []) && got != []
    ensures FreeBlocks(q, []) < FreeBlocks(p, [])
    ensures forall b :: b in FreeBlocks(p, []) && b !in got ==> b in FreeBlocks(q, [])
    ensures forall b :: b in got ==> BlockAt(q, b).state == Requested
  {
    forall b: PieceBlock
      ensures b in got ==> b in FreeBlocks(p, []) && b !in FreeBlocks(q, []) && BlockAt(q, b).state == Requested
      ensures b !in got ==> (b in FreeBlocks(p, []) <==> b in FreeBlocks(q, []))
    {
      TookFree(p, q, got, peer, b);
    }
    assert got[0] in got;
  }

  /** From s to t only connections have asked for blocks. */
  predicate OnlyAsked(s: State, t: State) {
    t.disk == s.disk && t.log == s.log && t.pendingHash == s.pendingHash && t.store == s.store
  }

  /** A free block is asked for by and by: new connections come and ask until one of them waits for it. */
  lemma {:induction false} AskUntil(s0: State, s: State, b: PieceBlock, size: nat, md4: Bytes -> Hash)
    returns (t: State, c: nat)
    requires Leads(s0, s, size, md4, false) && Ready(s, size) && b in FreeBlocks(s.picker, [])
    ensures Leads(s0, t, size, md4, false) && Ready(t, size) && OnlyAsked(s, t)
    ensures b in Waiting(t, c) && BlockAt(t.picker, b).state == Requested
    decreases FreeBlocks(s.picker, [])
  {
    c := SomeNewConn(s.queues.Keys);
    var e := Request(c, None, SLOW, []);
    t := Next(s, e, size, md4);
    RunContinues(s0, s, e, size, md4, false);
    RequestReady(s, c, None, SLOW, [], size);
    SlowTakes(s.picker, None);
    if b !in Waiting(t, c) {
      t, c := AskUntil(s0, t, b, size, md4);
    }
  }

  /** The block that makes a leave unclean is free afterwards. */
  lemma LeaveFrees(s: State, c: nat, peer: Peer, size: nat, b: PieceBlock)
    requires Ready(s, size) && AllValid(s.picker, Waiting(s, c))
    requires b in Waiting(s, c) && Dl(s.picker, b) && BlockAt(s.picker, b).downloaders <= 1
    ensures var t := Disconnect(s, c, peer); b in FreeBlocks(t.picker, []) && !Dl(t.picker, b) && ValidBlock(size, b)
  {
    var t := Disconnect(s, c, peer);
    DisconnectReady(s, c, peer, size);
    AbortEachFrees(s.picker, Waiting(s, c), peer);
    assert BlockAt(t.picker, b) == BlockAt(t.picker, b);
    QueuesValid(s, size, c);
  }

  // ---------------------------------------------------------------- the harm done

  /** From s enabled events lead to a disk that has taken a block in twice in one attempt at its piece, or to a piece
      that is had and whose bytes then change. */
  ghost predicate Harmful(s: State, size: nat, md4: Bytes -> Hash) {
    || (exists t: State :: Leads(s, t, size, md4, false) && !WellFormed(t.log, size))
    || (exists t: State, u: State, p: nat {:trigger Had(t, p), Had(u, p)} ::
          Leads(s, t, size, md4, false) && Leads(t, u, size, md4, false) && Had(t, p) && Had(u, p)
            && !SamePiece(t.store.file, u.store.file, p))
  }

  lemma SaneSame(s: State, t: State, size: nat, first: Bytes)
    requires Sane(s, size, first) && Ready(t, size) && t.disk == s.disk && t.log == s.log && t.store == s.store
    ensures Sane(t, size, first)
  {
    GrownFit(s.picker, t.picker, s.disk.pending, t.disk.pending, 0, size);
  }

  lemma ReceiveShape(s: State, c: nat, b: PieceBlock, buffer: Bytes, size: nat)
    requires Enabled(s, Receive(c, b, buffer), size)
    ensures var t1, t := Taken(s, c, b), ReceiveBlock(s, c, b, buffer);
            && t.picker == t1.picker && t.queues == t1.queues && t.store == s.store && t.log == s.log
               && t.disk.headCalled == s.disk.headCalled
            && Grown(s.disk.pending, t.disk.pending, 0)
            && (forall k :: |s.disk.pending| <= k < |t.disk.pending| ==> Fit(t.picker, t.disk.pending[k], size))
            && (CanDeliver(s) ==> NextTask(t) == NextTask(s))
  {
  }

  lemma SaneReceives(s: State, c: nat, b: PieceBlock, buffer: Bytes, size: nat, first: Bytes)
    requires Sane(s, size, first) && Enabled(s, Receive(c, b, buffer), size)
    ensures Sane(ReceiveBlock(s, c, b, buffer), size, first)
  {
    var t := ReceiveBlock(s, c, b, buffer);
    TakenReady(s, c, b, size);
    ReceiveShape(s, c, b, buffer, size);
    ReadyWith(Taken(s, c, b), t, size);
    GrownFit(s.picker, t.picker, s.disk.pending, t.disk.pending, 0, size);
    NoNewRestores(s.store.file, size, s.disk.pending, t.disk.pending, 0);
  }

  /** What was submitted is executed: a history that takes a block in twice becomes a log that does. */
  lemma TwiceHarms(s: State, t: State, size: nat, md4: Bytes -> Hash, first: Bytes)
    requires Leads(s, t, size, md4, false) && Sane(t, size, first) && !WellFormed(History(t), size)
    ensures Harmful(s, size, md4)
  {
    QueueIsHistory(t, size, first);
    var u := Drain(s, t, |History(t)|, 0, size, md4, first);
    QueueIsHistory(u, size, first);
    assert u.log == History(t);
  }

  /** The block is delivered again in the same attempt. */
  lemma SecondHarms(s: State, u: State, c: nat, b: PieceBlock, buffer: Bytes, size: nat, md4: Bytes -> Hash,
                    first: Bytes)
    requires Leads(s, u, size, md4, false) && Sane(u, size, first) && Enabled(u, Receive(c, b, buffer), size)
    requires MarkAsWriting(u.picker, b).1 && b.block in OpenBlocks(History(u), b.piece)
    ensures Leads(s, ReceiveBlock(u, c, b, buffer), size, md4, false) && Harmful(s, size, md4)
  {
    var t, h := ReceiveBlock(u, c, b, buffer), History(u);
    RunContinues(s, u, Receive(c, b, buffer), size, md4, false);
    SaneReceives(u, c, b, buffer, size, first);
    ReceiveHistory(u, c, b, buffer, size);
    var h' := History(t);
    assert !MayFollow(h'[..|h|], h'[|h|], size);
    TwiceHarms(s, t, size, md4, first);
  }

  /** A free block can be asked for, by a new connection if need be, and delivered. */
  lemma CanArrive(s: State, u: State, b: PieceBlock, size: nat, md4: Bytes -> Hash, first: Bytes)
    returns (t: State, c: nat)
    requires Leads(s, u, size, md4, false) && Sane(u, size, first) && ValidBlock(size, b)
             && b in FreeBlocks(u.picker, [])
    ensures Leads(s, t, size, md4, false) && Sane(t, size, first) && OnlyAsked(u, t) && BlockSize(b, size) > 0
    ensures t.picker.Valid(b) && MarkAsWriting(t.picker, b).1
    ensures forall buffer: Bytes {:trigger |buffer|} :: |buffer| == BlockSize(b, size) ==>
            Enabled(t, Receive(c, b, buffer), size)
  {
    t, c := AskUntil(s, u, b, size, md4);
    SaneSame(u, t, size, first);
    QueuesValid(t, size, c);
    OffsetIsLeft(size, b);
    MarkAsWritingKeeps(t.picker, b);
  }

  function Zeros(n: nat): (r: Bytes)
    ensures |r| == n
  {
    seq(n, i => 0)
  }

  lemma FreeAndTakenHarms(s: State, u: State, b: PieceBlock, size: nat, md4: Bytes -> Hash, first: Bytes)
    requires Leads(s, u, size, md4, false) && Sane(u, size, first) && ValidBlock(size, b)
             && b in FreeBlocks(u.picker, [])
    requires b.block in OpenBlocks(History(u), b.piece)
    ensures Harmful(s, size, md4)
  {
    var t, c := CanArrive(s, u, b, size, md4, first);
    assert History(t) == History(u);
    var buffer := Zeros(BlockSize(b, size));
    assert Enabled(t, Receive(c, b, buffer), size);
    SecondHarms(s, t, c, b, buffer, size, md4, first);
  }

  lemma {:induction false} OpenAfter(h: seq<Task>, k: nat, n: nat, b: PieceBlock)
    requires k < n <= |h| && !h[k].HashTask? && h[k].block == b && NoHashOf(h, k + 1, n, b.piece)
    ensures b.block in OpenBlocks(h[..n], b.piece)
    decreases n
  {
    assert h[..n] == h[..n - 1] + [h[n - 1]];
    OpenAppend(h[..n - 1], h[n - 1], b.piece);
    if k < n - 1 {
      OpenAfter(h, k, n - 1, b);
    }
  }

  /** Bytes for block b that differ from those in the file. */
  function Other(file: Bytes, b: PieceBlock, size: nat): (r: Bytes)
    requires BlockSize(b, size) > 0
    ensures |r| == BlockSize(b, size) && (Offset(b) < |file| ==> r[0] != file[Offset(b)])
  {
    seq(BlockSize(b, size), i => if Offset(b) < |file| && file[Offset(b)] == 0 then 1 else 0)
  }

  lemma WriteChanges(file: Bytes, b: PieceBlock, size: nat)
    requires ValidBlock(size, b) && InFile(file, size, b) && BlockSize(b, size) > 0
    ensures !SamePiece(file, WriteAt(file, Offset(b), Other(file, b, size)), b.piece)
  {
    OffsetIsLeft(size, b);
    BlockInPiece(size, b);
    var file', x := WriteAt(file, Offset(b), Other(file, b, size)), Offset(b);
    assert file'[x] != file[x] && b.piece * PIECE_SIZE <= x < (b.piece + 1) * PIECE_SIZE;
  }

  /** A write of other bytes reaches the head of the queue when its piece is had. */
  lemma StrayWriteHarms(s: State, y: State, b: PieceBlock, size: nat, md4: Bytes -> Hash, first: Bytes)
    requires Leads(s, y, size, md4, false) && Sane(y, size, first) && Had(y, b.piece) && CanCall(y)
    requires ValidBlock(size, b) && InFile(y.store.file, size, b) && BlockSize(b, size) > 0
    requires NextTask(y) == WriteTask(b, Other(y.store.file, b, size))
    ensures Harmful(s, size, md4)
  {
    SaneRuns(y, size, md4, first);
    LeadsNowhere(y, size, md4, false);
    RunContinues(y, y, RunTask, size, md4, false);
    WriteChanges(y.store.file, b, size);
    var z := CallHead(y, size, md4);
    assert Had(y, b.piece) && Had(z, b.piece);
  }

  /** Where the queue stands: piece i has its hash pending, as task k of the history; a stray write of block b of i is
      task n; nothing else of i comes after the hash. */
  ghost predicate Stray(s: State, k: nat, n: nat, b: PieceBlock, buffer: Bytes) {
    && Completed(s) <= k < n < |History(s)|
    && b.piece in s.pendingHash
    && History(s)[k] == HashTask(b.piece) && NoHashOf(History(s), Completed(s), k, b.piece)
    && NothingOf(History(s), k + 1, n, b.piece)
    && History(s)[n] == WriteTask(b, buffer) && NoHashOf(History(s), n + 1, |History(s)|, b.piece)
    && exists m :: 0 <= m < k && !History(s)[m].HashTask? && History(s)[m].block == b
  }

  lemma StrayLater(s: State, t: State, k: nat, n: nat, b: PieceBlock, buffer: Bytes)
    requires Stray(s, k, n, b, buffer) && Drained(s, t, k, b.piece)
    ensures Stray(t, k, n, b, buffer)
  {
    var h, h' := History(s), History(t);
    assert forall m :: 0 <= m < |h| ==> h'[m] == h[m];
    var m :| 0 <= m < k && !h[m].HashTask? && h[m].block == b;
    assert !h'[m].HashTask? && h'[m].block == b;
  }

  /** The hash of the piece completes and the stray write is still to come. If the piece is accepted the write changes
      it; if not, the block is free and is fetched once more in the attempt that the write belongs to. */
  lemma StrayHarms(s: State, w: State, k: nat, n: nat, b: PieceBlock, buffer: Bytes, size: nat, md4: Bytes -> Hash,
                   first: Bytes)
    requires Leads(s, w, size, md4, false) && Sane(w, size, first) && Stray(w, k, n, b, buffer) && Completed(w) == k
    requires ValidBlock(size, b) && BlockSize(b, size) > 0
             && buffer == Other(FileAfter(first, History(w)[..n]), b, size)
    ensures Harmful(s, size, md4)
  {
    var i, h := b.piece, History(w);
    QueueIsHistory(w, size, first);
    assert w.disk.pending[0] == HashTask(i);
    var x := DrainOne(s, w, i, size, md4, first);
    assert x.picker.status[i] != Downloading && History(x) == h;
    if x.picker.status[i] == Have {
      var y := Drain(s, x, n, i, size, md4, first);
      StrayReached(s, w, x, y, k, n, b, buffer, size, md4, first);
    } else {
      OpenAfter(h, n, |h|, b);
      assert h[..|h|] == h;
      assert !InProgress(x.picker, i) && BlockAt(x.picker, b) == FRESH && b == PieceBlock(i, b.block);
      FreeAndTakenHarms(s, x, b, size, md4, first);
    }
  }

  lemma StrayReached(s: State, w: State, x: State, y: State, k: nat, n: nat, b: PieceBlock, buffer: Bytes, size: nat,
                     md4: Bytes -> Hash, first: Bytes)
    requires Stray(w, k, n, b, buffer) && History(x) == History(w) && Completed(x) == k + 1 && !x.disk.headCalled
             && Had(x, b.piece)
    requires Leads(s, y, size, md4, false) && Sane(y, size, first) && Drained(x, y, n, b.piece)
    requires ValidBlock(size, b) && BlockSize(b, size) > 0
             && buffer == Other(FileAfter(first, History(w)[..n]), b, size)
    ensures Harmful(s, size, md4)
  {
    var h, h' := History(w), History(y);
    QueueIsHistory(y, size, first);
    assert forall m :: 0 <= m < |h| ==> h'[m] == h[m];
    assert Had(y, b.piece) && !y.disk.headCalled;
    assert |y.log| == n && y.log == h'[..n] == h[..n];
    assert y.disk.pending[0] == h'[n];
    var m :| 0 <= m < k && !h[m].HashTask? && h[m].block == b;
    assert y.log[m] == h[m];
    StrayWriteHarms(s, y, b, size, md4, first);
  }

  // ---------------------------------------------------------------- every unclean event

  /** The pending hash of a piece stands in the queue: it is the only one, behind all tasks of the piece. */
  ghost predicate Stands(h: seq<Task>, c: int, k: int, b: PieceBlock) {
    && 0 <= c <= k < |h| && h[k] == HashTask(b.piece)
    && NoHashOf(h, c, k, b.piece) && NothingOf(h, k + 1, |h|, b.piece)
    && exists m :: 0 <= m < k && !h[m].HashTask? && h[m].block == b
  }

  lemma HashStands(h: seq<Task>, pending: seq<Task>, c: nat, b: PieceBlock, size: nat) returns (k: nat)
    requires WellFormed(h, size) && c <= |h| && h[c..] == pending && HashesLast(pending)
    requires HashTask(b.piece) in pending && ValidBlock(size, b)
    ensures Stands(h, c, k, b)
  {
    var j :| 0 <= j < |pending| && pending[j] == HashTask(b.piece);
    k := c + j;
    HashPlace(pending, h, c, j, b.piece);
    HashedAfter(h, k, b, size);
  }

  lemma HashPlace(pending: seq<Task>, h: seq<Task>, c: nat, j: nat, i: nat)
    requires c <= |h| && h[c..] == pending && HashesLast(pending) && j < |pending| && pending[j] == HashTask(i)
    ensures h[c + j] == HashTask(i) && NoHashOf(h, c, c + j, i) && NothingOf(h, c + j + 1, |h|, i)
  {
    assert forall m :: c <= m < |h| ==> h[m] == pending[m - c];
    forall m | c <= m < c + j
      ensures h[m] != HashTask(i)
    {
      assert TaskPiece(pending[j]) == i;
      assert Concerns(pending, m - c + 1, i);
    }
    assert !Concerns(pending, j + 1, i);
  }

  lemma HashedAfter(h: seq<Task>, k: nat, b: PieceBlock, size: nat)
    requires WellFormed(h, size) && k < |h| && h[k] == HashTask(b.piece) && ValidBlock(size, b)
    ensures exists m :: 0 <= m < k && !h[m].HashTask? && h[m].block == b
  {
    assert MayFollow(h[..k], h[k], size);
    assert b == PieceBlock(b.piece, b.block);
    OpenMeans(h[..k], b.piece, b.block);
    var m :| 0 <= m < |h[..k]| && !h[..k][m].HashTask? && h[..k][m].block == b;
    assert h[m] == h[..k][m];
  }

  lemma ReceiveWhilePending(t: State, c: nat, b: PieceBlock, buffer: Bytes, size: nat)
    requires Ready(t, size) && t.picker.Valid(b) && MarkAsWriting(t.picker, b).1 && b.piece in t.pendingHash
    ensures var v := ReceiveBlock(t, c, b, buffer);
            History(v) == History(t) + [WriteTask(b, buffer)] && v.pendingHash == t.pendingHash && v.log == t.log
              && v.disk.headCalled == t.disk.headCalled
  {
    EnqueueHistory(Taken(t, c, b), WriteTask(b, buffer));
    assert History(Taken(t, c, b)) == History(t);
    assert ReceiveBlock(t, c, b, buffer) == Enqueue(Taken(t, c, b), WriteTask(b, buffer));
  }

  lemma StrayStands(s: State, v: State, k: nat, b: PieceBlock, buffer: Bytes)
    requires History(v) == History(s) + [WriteTask(b, buffer)] && v.pendingHash == s.pendingHash
             && Completed(v) == Completed(s)
    requires b.piece in s.pendingHash && Stands(History(s), Completed(s), k, b)
    ensures Stray(v, k, |History(s)|, b, buffer)
  {
    var h, h' := History(s), History(v);
    assert forall m :: 0 <= m < |h| ==> h'[m] == h[m];
    var m :| 0 <= m < k && !h[m].HashTask? && h[m].block == b;
    assert !h'[m].HashTask? && h'[m].block == b;
  }

  lemma HashedAgainHarms(s: State, s1: State, b: PieceBlock, size: nat, md4: Bytes -> Hash, first: Bytes)
    requires SchedInv(s, size) && Sane(s, size, first) && Sane(s1, size, first) && OnlyAsked(s, s1)
    requires ValidBlock(size, b) && b.piece in s.pendingHash && b in FreeBlocks(s1.picker, [])
    ensures Harmful(s1, size, md4)
  {
    LeadsNowhere(s1, size, md4, false);
    QueueIsHistory(s, size, first);
    assert HashTask(b.piece) in s.disk.pending;
    var k := HashStands(History(s), s.disk.pending, Completed(s), b, size);
    var u, c := CanArrive(s1, s1, b, size, md4, first);
    var h, n := History(s), |History(s)|;
    assert History(u) == h;
    var buffer := Other(FileAfter(first, h), b, size);
    assert Enabled(u, Receive(c, b, buffer), size);
    var v := ReceiveBlock(u, c, b, buffer);
    RunContinues(s1, u, Receive(c, b, buffer), size, md4, false);
    SaneReceives(u, c, b, buffer, size, first);
    ReceiveWhilePending(u, c, b, buffer, size);
    StrayStands(s, v, k, b, buffer);
    assert History(v)[..n] == h;
    StrayDrains(s1, v, k, n, b, buffer, size, md4, first);
  }

  lemma StrayDrains(s: State, v: State, k: nat, n: nat, b: PieceBlock, buffer: Bytes, size: nat, md4: Bytes -> Hash,
                    first: Bytes)
    requires Leads(s, v, size, md4, false) && Sane(v, size, first) && Stray(v, k, n, b, buffer)
    requires ValidBlock(size, b) && BlockSize(b, size) > 0
             && buffer == Other(FileAfter(first, History(v)[..n]), b, size)
    ensures Harmful(s, size, md4)
  {
    var w := Drain(s, v, k, b.piece, size, md4, first);
    StrayLater(v, w, k, n, b, buffer);
    assert History(w)[..n] == History(v)[..n];
    StrayHarms(s, w, k, n, b, buffer, size, md4, first);
  }

  lemma LeaveHarms(s: State, c: nat, peer: Peer, size: nat, md4: Bytes -> Hash, first: Bytes)
    requires SchedInv(s, size) && Sane(s, size, first) && Enabled(s, Leave(c, peer), size) && !Clean(s, Leave(c, peer))
    ensures Harmful(Disconnect(s, c, peer), size, md4)
  {
    var s1 := Disconnect(s, c, peer);
    var b :| b in Waiting(s, c) && Dl(s.picker, b) && BlockAt(s.picker, b).downloaders <= 1;
    DisconnectReady(s, c, peer, size);
    LeaveFrees(s, c, peer, size, b);
    SaneSame(s, s1, size, first);
    if b.piece in s.pendingHash {
      HashedAgainHarms(s, s1, b, size, md4, first);
    } else {
      assert BlockAt(s.picker, b) == BlockAt(s.picker, b) && Held(s.picker, s.disk.pending, b);
      assert b.block in OpenBlocks(History(s), b.piece) && History(s1) == History(s);
      LeadsNowhere(s1, size, md4, false);
      FreeAndTakenHarms(s1, s1, b, size, md4, first);
    }
  }

  lemma ReceiveHarms(s: State, c: nat, b: PieceBlock, buffer: Bytes, size: nat, md4: Bytes -> Hash, first: Bytes)
    requires SchedInv(s, size) && Sane(s, size, first) && Enabled(s, Receive(c, b, buffer), size)
             && !Clean(s, Receive(c, b, buffer))
    ensures Harmful(ReceiveBlock(s, c, b, buffer), size, md4)
  {
    var t := ReceiveBlock(s, c, b, buffer);
    SaneReceives(s, c, b, buffer, size, first);
    UncleanReceive(s, c, b, buffer, size);
    LeadsNowhere(t, size, md4, false);
    TwiceHarms(t, t, size, md4, first);
  }

  lemma {:induction false} RunFile(ss: seq<State>, es: seq<Event>, size: nat, md4: Bytes -> Hash, k: nat)
    requires CleanRun(ss, es, size, md4) && k < |ss|
    ensures ss[k].store.file == FileAfter(ss[0].store.file, ss[k].log)
  {
    if k > 0 {
      RunFile(ss, es, size, md4, k - 1);
      var e := es[k - 1];
      EventFile(ss[k - 1], e, size, md4, ss[0].store.file);
    }
  }

  lemma EventFile(s: State, e: Event, size: nat, md4: Bytes -> Hash, first: Bytes)
    requires Enabled(s, e, size) && s.store.file == FileAfter(first, s.log)
    ensures Next(s, e, size, md4).store.file == FileAfter(first, Next(s, e, size, md4).log)
  {
    if e.RunTask? {
      assert (s.log + [NextTask(s)])[..|s.log|] == s.log;
    } else if e.Complete? {
      CompleteDelivers(s, size);
    } else {
      QuietShape(s, e, size, md4);
    }
  }

  lemma GoodIsSane(s: State, size: nat, md4: Bytes -> Hash, first: Bytes)
    requires Good(s, size, md4) && LogInFile(s, size) && s.store.file == FileAfter(first, s.log)
    ensures Sane(s, size, first)
  {
    forall k | 0 <= k < |s.disk.pending|
      ensures Fit(s.picker, s.disk.pending[k], size)
    {
      var h, n := History(s), |History(s)| - |s.disk.pending|;
      assert PendingOk(s.picker, s.pendingHash, s.disk.pending[k], h, size);
      PendingFits(s, k, size);
    }
    forall p: nat
      ensures |Manager(s.store, size, p).buffers| == BlockCount(size, p)
    {
      assert Stored(s.store, size, p, OpenBlocks(s.log, p));
    }
  }

  lemma PendingFits(s: State, k: nat, size: nat)
    requires SchedInv(s, size) && HeadLogged(s) && k < |s.disk.pending|
    ensures Fit(s.picker, s.disk.pending[k], size)
  {
    var h, c := History(s), Completed(s);
    assert PendingOk(s.picker, s.pendingHash, s.disk.pending[k], h, size);
    assert h[c + k] == s.disk.pending[k];
    assert MayFollow(h[..c + k], h[c + k], size);
  }

  /** The guard is exact for what it is there for: an event of a clean run that does not meet it makes harm possible. */
  lemma UncleanDoesHarm(ss: seq<State>, es: seq<Event>, size: nat, md4: Bytes -> Hash, e: Event)
    requires CleanRun(ss, es, size, md4) && Enabled(ss[|es|], e, size) && !Clean(ss[|es|], e)
    ensures Harmful(Next(ss[|es|], e, size, md4), size, md4)
  {
    var s, first := ss[|es|], ss[0].store.file;
    RunGood(ss, es, size, md4, |es|);
    RunFile(ss, es, size, md4, |es|);
    Resumption.RunKept(ss, es, size, md4, |es|);
    GoodIsSane(s, size, md4, first);
    if e.Leave? {
      LeaveHarms(s, e.conn, e.peer, size, md4, first);
    } else {
      ReceiveHarms(s, e.conn, e.block, e.buffer, size, md4, first);
    }
  }
}
