/** The download pipeline as a state machine: connections take blocks from the picker, filled blocks become
    write tasks, complete pieces become hash tasks, the disk runs tasks one at a time, completions accept or
    reset the piece (peer_connection.go, transfer.go, async_disk.go, session.go). */
module Pipeline {
  import opened Geometry
  import opened Scheduler = BlockScheduler
  import opened PieceStore
  import opened DiskQueue

  /** A restore task reads a block back that resume data say is on disk. */
  datatype Task = WriteTask(block: PieceBlock, buffer: Bytes) | HashTask(piece: nat) | RestoreTask(block: PieceBlock)

  function TaskPiece(t: Task): nat { if t.HashTask? then t.piece else t.block.piece }

  /** `queues` holds the blocks each connection is waiting for; `hashResult` is what the executed hash task
      at the head of the disk queue found. `verified` and `log` record history: the pieces accepted after a
      comparison with the hash set, and the tasks executed so far. */
  datatype State = State(picker: Picker, queues: map<nat, seq<PieceBlock>>, pendingHash: set<nat>,
                         disk: Fifo<Task>, hashResult: Hash, store: Store, hashSet: seq<Hash>,
                         verified: set<nat>, log: seq<Task>)

  const REQUEST_QUEUE_SIZE: nat := 3

  // ---------------------------------------------------------------- steps

  function Enqueue(s: State, t: Task): State { s.(disk := FifoSubmit(s.disk, t)) }

  predicate Fits(s: State, size: nat) {
    |s.picker.status| == PieceCount(size) && s.picker.blocksInLast == BlocksInLastPiece(size)
  }

  function QueuePieceHash(s: State, piece: nat): State {
    if piece >= |s.picker.status| then s
    else if s.picker.status[piece] == Have || piece in s.pendingHash then s
    else if !IsPieceFinished(s.picker, piece) then s
    else Enqueue(s.(pendingHash := s.pendingHash + {piece}), HashTask(piece))
  }

  /** RequestBlocks: only a connection that waits for nothing asks, and it asks for three blocks. */
  function RequestBlocks(s: State, c: nat, peer: Peer, speed: nat, available: seq<bool>): State {
    var r := Pick(s.picker, REQUEST_QUEUE_SIZE, peer, speed, available);
    s.(picker := r.0, queues := s.queues[c := r.1])
  }

  function Waiting(s: State, c: nat): seq<PieceBlock> { if c in s.queues then s.queues[c] else [] }

  function Except(bs: seq<PieceBlock>, b: PieceBlock): (r: seq<PieceBlock>)
    ensures forall x :: x in r <==> x in bs && x != b
  {
    if |bs| == 0 then []
    else
      var n := |bs| - 1;
      assert bs == bs[..n] + [bs[n]];
      if bs[n] == b then Except(bs[..n], b) else Except(bs[..n], b) + [bs[n]]
  }

  /** ReceivePendingData when the last byte of a block has arrived. */
  function ReceiveBlock(s: State, c: nat, b: PieceBlock, buffer: Bytes): State
    requires Inv(s.picker) && s.picker.Valid(b)
  {
    var wasFinished := IsPieceFinished(s.picker, b.piece);
    var (picker, wanted) := MarkAsWriting(s.picker, b);
    var s1 := s.(picker := picker, queues := s.queues[c := Except(Waiting(s, c), b)]);
    if !wanted then s1
    else
      var s2 := Enqueue(s1, WriteTask(b, buffer));
      if b.piece < |s2.picker.status| && IsPieceFinished(s2.picker, b.piece) && !wasFinished
        then QueuePieceHash(s2, b.piece) else s2
  }

  function AbortEach(p: Picker, bs: seq<PieceBlock>, peer: Peer): (q: Picker)
    requires Inv(p) && AllValid(p, bs)
    ensures Inv(q) && |q.status| == |p.status| && q.blocksInLast == p.blocksInLast
    decreases |bs|
  {
    if |bs| == 0 then p
    else
      AbortDownloadKeeps(p, bs[0], peer);
      assert forall b :: b in bs[1..] ==> b in bs;
      AbortEach(AbortDownload(p, bs[0], peer), bs[1..], peer)
  }

  /** OnDisconnect: AbortAllRequests. */
  function Disconnect(s: State, c: nat, peer: Peer): State
    requires Inv(s.picker) && AllValid(s.picker, Waiting(s, c))
  {
    s.(picker := AbortEach(s.picker, Waiting(s, c), peer), queues := s.queues - {c})
  }

  function NextTask(s: State): Task
    requires |s.disk.pending| > 0
  {
    s.disk.pending[0]
  }

  predicate CanCall(s: State) { |s.disk.pending| > 0 && !s.disk.headCalled }

  predicate InFile(file: Bytes, size: nat, b: PieceBlock) {
    0 <= BlockSize(b, size) && Offset(b) + BlockSize(b, size) <= |file|
  }

  function Slice(file: Bytes, size: nat, b: PieceBlock): Bytes {
    if InFile(file, size, b) then file[Offset(b)..Offset(b) + BlockSize(b, size)] else []
  }

  /** The block manager of the task's piece has a slot for its block, and a block to be restored is in the file. */
  predicate CanExecute(s: State, t: Task, size: nat) {
    && (!t.HashTask? ==> t.block.block < |Manager(s.store, size, t.block.piece).buffers|)
    && (t.RestoreTask? ==> InFile(s.store.file, size, t.block))
  }

  /** The goroutine executes the task at the head. */
  function CallHead(s: State, size: nat, md4: Bytes -> Hash): State
    requires CanCall(s) && CanExecute(s, NextTask(s), size)
  {
    var s1 := s.(disk := FifoCall(s.disk), log := s.log + [NextTask(s)]);
    match NextTask(s)
    case WriteTask(b, buffer) => s1.(store := StoreBlock(s.store, size, b, buffer).0)
    case HashTask(p) =>
      var r := TakeHash(s.store, size, p, md4);
      s1.(store := r.0, hashResult := r.1)
    case RestoreTask(b) =>
      s1.(store := RegisterIn(s.store, size, b, Slice(s.store.file, size, b)).0)
  }

  predicate CanDeliver(s: State) { |s.disk.pending| > 0 && s.disk.headCalled }

  function OnBlockWriteCompleted(s: State, b: PieceBlock): State
    requires Inv(s.picker) && s.picker.Valid(b)
  {
    QueuePieceHash(s.(picker := MarkAsFinished(s.picker, b)), b.piece)
  }

  function OnPieceHashCompleted(s: State, p: nat, hash: Hash): State
    requires p < |s.picker.status|
  {
    var s1 := s.(pendingHash := s.pendingHash - {p});
    if p < |s.hashSet| && s.hashSet[p] != hash then s1.(picker := RestorePiece(s.picker, p))
    else s1.(picker := WeHave(s.picker, p), verified := if p < |s.hashSet| then s.verified + {p} else s.verified)
  }

  /** The completions name pieces and blocks of the transfer. */
  predicate InTransfer(p: Picker, t: Task) { if t.HashTask? then t.piece < |p.status| else p.Valid(t.block) }

  function DeliverHead(s: State): State
    requires CanDeliver(s) && Inv(s.picker) && InTransfer(s.picker, NextTask(s))
  {
    var s1 := s.(disk := FifoDeliver(s.disk));
    match NextTask(s)
    case WriteTask(b, _) => OnBlockWriteCompleted(s1, b)
    case HashTask(p) => OnPieceHashCompleted(s1, p, s.hashResult)
    case RestoreTask(b) => s1.(picker := WeHaveBlock(s.picker, b))
  }

  /** Hashes are taken when they are for the transfer's own file and there are none yet. */
  function SetHashSet(s: State, own: bool, hashes: seq<Hash>): State {
    if |s.hashSet| != 0 || !own then s else s.(hashSet := hashes)
  }

  datatype Event =
    | Request(conn: nat, peer: Peer, speed: nat, available: seq<bool>)
    | Receive(conn: nat, block: PieceBlock, buffer: Bytes)
    | Leave(conn: nat, peer: Peer)
    | RunTask
    | Complete
    | LearnHashes(own: bool, hashes: seq<Hash>)

  /** An event can happen in a state; a received block fills its buffer exactly. */
  predicate Enabled(s: State, e: Event, size: nat) {
    && Inv(s.picker) && Fits(s, size)
    && match e
       case Request(c, _, _, _) => |Waiting(s, c)| == 0
       case Receive(c, b, buffer) => b in Waiting(s, c) && ValidBlock(size, b) && |buffer| == BlockSize(b, size)
       case Leave(c, _) => AllValid(s.picker, Waiting(s, c))
       case RunTask => CanCall(s) && CanExecute(s, NextTask(s), size)
       case Complete => CanDeliver(s) && InTransfer(s.picker, NextTask(s))
       case LearnHashes(_, _) => true
  }

  function Next(s: State, e: Event, size: nat, md4: Bytes -> Hash): State
    requires Enabled(s, e, size)
  {
    match e
    case Request(c, peer, speed, available) => RequestBlocks(s, c, peer, speed, available)
    case Receive(c, b, buffer) => ReceiveBlock(s, c, b, buffer)
    case Leave(c, peer) => Disconnect(s, c, peer)
    case RunTask => CallHead(s, size, md4)
    case Complete => DeliverHead(s)
    case LearnHashes(own, hashes) => SetHashSet(s, own, hashes)
  }

  /** A transfer as created, perhaps from resume data: some pieces are had, and blocks of pieces that are not
      had are to be read back from the file, each once. */
  predicate Init(s: State, size: nat) {
    && Fits(s, size) && s.picker.downloading == []
    && (forall i :: 0 <= i < |s.picker.status| ==> s.picker.status[i] != Downloading)
    && s.queues == map[] && s.pendingHash == {} && !s.disk.headCalled
    && (forall k {:trigger s.disk.pending[k]} :: 0 <= k < |s.disk.pending| ==> Restorable(s, s.disk.pending[k], size))
    && (forall k, m :: 0 <= k < m < |s.disk.pending| ==> s.disk.pending[k] != s.disk.pending[m])
    && s.store.mgrs == map[] && s.verified == {} && s.log == []
  }

  predicate Restorable(s: State, t: Task, size: nat) {
    t.RestoreTask? && ValidBlock(size, t.block) && t.block.piece < |s.picker.status|
      && s.picker.status[t.block.piece] == Missing
    && InFile(s.store.file, size, t.block)
  }

  // ---------------------------------------------------------------- the submission history

  /** Tasks submitted and not yet executed. */
  function Unexecuted(s: State): seq<Task> {
    if s.disk.headCalled && |s.disk.pending| > 0 then s.disk.pending[1..] else s.disk.pending
  }

  function History(s: State): seq<Task> { s.log + Unexecuted(s) }

  /** Blocks of piece p written or restored since its last hash. */
  function OpenBlocks(h: seq<Task>, p: nat): set<nat> {
    if |h| == 0 then {}
    else
      var n := |h| - 1;
      if TaskPiece(h[n]) != p then OpenBlocks(h[..n], p)
      else if h[n].HashTask? then {}
      else OpenBlocks(h[..n], p) + {h[n].block.block}
  }

  /** Those of them that were written. */
  function WrittenBlocks(h: seq<Task>, p: nat): set<nat> {
    if |h| == 0 then {}
    else
      var n := |h| - 1;
      if TaskPiece(h[n]) != p || h[n].RestoreTask? then WrittenBlocks(h[..n], p)
      else if h[n].HashTask? then {}
      else WrittenBlocks(h[..n], p) + {h[n].block.block}
  }

  /** Those of them that were restored. */
  function RestoredBlocks(h: seq<Task>, p: nat): set<nat> {
    if |h| == 0 then {}
    else
      var n := |h| - 1;
      if TaskPiece(h[n]) != p || h[n].WriteTask? then RestoredBlocks(h[..n], p)
      else if h[n].HashTask? then {}
      else RestoredBlocks(h[..n], p) + {h[n].block.block}
  }

  /** Task t may follow history h: a write or restore is the first of its block in this attempt at the piece; a
      hash comes when every block of the piece has been written or restored since the previous one, and at least
      one was written. */
  predicate MayFollow(h: seq<Task>, t: Task, size: nat) {
    if t.HashTask? then
      && t.piece < PieceCount(size) && WrittenBlocks(h, t.piece) != {}
      && forall j: nat :: j < BlockCount(size, t.piece) ==> j in OpenBlocks(h, t.piece)
    else
      && ValidBlock(size, t.block) && t.block.block !in OpenBlocks(h, t.block.piece)
      && (t.WriteTask? ==> |t.buffer| == BlockSize(t.block, size))
  }

  /** Each attempt at a piece takes in every block once, by a write or from the file, and is hashed once, after
      all of them. */
  predicate WellFormed(h: seq<Task>, size: nat) {
    forall k :: 0 <= k < |h| ==> MayFollow(h[..k], h[k], size)
  }

  lemma OpenAppend(h: seq<Task>, t: Task, p: nat)
    ensures OpenBlocks(h + [t], p) ==
            if TaskPiece(t) != p then OpenBlocks(h, p) else if t.HashTask? then {}
              else OpenBlocks(h, p) + {t.block.block}
    ensures WrittenBlocks(h + [t], p) ==
            if TaskPiece(t) != p || t.RestoreTask? then WrittenBlocks(h, p) else if t.HashTask? then {}
              else WrittenBlocks(h, p) + {t.block.block}
    ensures RestoredBlocks(h + [t], p) ==
            if TaskPiece(t) != p || t.WriteTask? then RestoredBlocks(h, p) else if t.HashTask? then {}
              else RestoredBlocks(h, p) + {t.block.block}
  {
    assert (h + [t])[..|h|] == h;
  }

  lemma WellFormedAppend(h: seq<Task>, t: Task, size: nat)
    requires WellFormed(h, size) && MayFollow(h, t, size)
    ensures WellFormed(h + [t], size)
  {
    forall k | 0 <= k < |h + [t]|
      ensures MayFollow((h + [t])[..k], (h + [t])[k], size)
    {
      assert (h + [t])[..k] == h[..k];
      assert h[..|h|] == h;
    }
  }

  lemma WellFormedPrefix(h: seq<Task>, k: nat, size: nat)
    requires WellFormed(h, size) && k <= |h|
    ensures WellFormed(h[..k], size)
    ensures k < |h| ==> MayFollow(h[..k], h[k], size)
  {
    forall j | 0 <= j < k
      ensures MayFollow(h[..k][..j], h[..k][j], size)
    {
      assert h[..k][..j] == h[..j];
    }
  }

  lemma EnqueueHistory(s: State, t: Task)
    requires s.disk.headCalled ==> |s.disk.pending| > 0
    ensures History(Enqueue(s, t)) == History(s) + [t]
  {
    if s.disk.headCalled {
      assert (s.disk.pending + [t])[1..] == s.disk.pending[1..] + [t];
    }
  }

  // ---------------------------------------------------------------- scheduler invariant

  predicate Dl(p: Picker, b: PieceBlock) { BlockAt(p, b).Downloaded() }

  predicate AllDl(p: Picker, i: nat, size: nat) { forall j: nat :: j < BlockCount(size, i) ==> Dl(p, PieceBlock(i, j)) }

  ghost predicate SameDl(p: Picker, q: Picker) { forall b: PieceBlock {:trigger BlockAt(q, b)} :: Dl(q, b) == Dl(p, b) }

  /** From p to q exactly block b becomes downloaded. */
  ghost predicate DlAdds(p: Picker, q: Picker, b: PieceBlock) {
    forall c: PieceBlock {:trigger BlockAt(q, c)} :: Dl(q, c) == (c == b || Dl(p, c))
  }

  /** From p to q exactly the blocks of piece i stop being downloaded. */
  ghost predicate DlDrops(p: Picker, q: Picker, i: nat) {
    forall c: PieceBlock {:trigger BlockAt(q, c)} :: Dl(q, c) == (c.piece != i && Dl(p, c))
  }

  /** No piece comes to be had. */
  ghost predicate NoNewHave(p: Picker, q: Picker) {
    |q.status| == |p.status| && forall i {:trigger q.status[i]} :: 0 <= i < |q.status| && q.status[i] == Have ==>
      p.status[i] == Have
  }

  predicate Concerns(pending: seq<Task>, from: nat, p: nat) {
    exists k :: from <= k < |pending| && TaskPiece(pending[k]) == p
  }

  predicate HasWrite(pending: seq<Task>, b: PieceBlock) {
    exists k :: 0 <= k < |pending| && pending[k].WriteTask? && pending[k].block == b
  }

  /** No write of the current attempt at piece i has completed. */
  ghost predicate WritesPending(pending: seq<Task>, h: seq<Task>, i: nat) {
    forall j {:trigger j in WrittenBlocks(h, i)} :: j in WrittenBlocks(h, i) ==> HasWrite(pending, PieceBlock(i, j))
  }

  /** A block waits to be restored: its piece is not had, and nobody has delivered it. */
  predicate RestoreWaits(p: Picker, b: PieceBlock) { !Dl(p, b) && b.piece < |p.status| && p.status[b.piece] != Have }

  predicate PendingOk(p: Picker, pendingHash: set<nat>, t: Task, h: seq<Task>, size: nat) {
    if t.HashTask? then t.piece in pendingHash
    else if t.WriteTask? then
      ValidBlock(size, t.block) && Dl(p, t.block)
        && (t.block.piece !in pendingHash ==> t.block.block in WrittenBlocks(h, t.block.piece))
    else
      ValidBlock(size, t.block) && RestoreWaits(p, t.block) && t.block.block in RestoredBlocks(h, t.block.piece)
  }

  /** Restores come before everything else, each once, and as long as one is pending no write has completed. */
  ghost predicate RestoresFirst(pending: seq<Task>, h: seq<Task>) {
    && (forall k, m :: 0 <= k < m < |pending| && pending[m].RestoreTask? ==>
        pending[k].RestoreTask? && pending[k] != pending[m])
    && (|pending| > 0 && pending[0].RestoreTask? ==> forall i {:trigger WrittenBlocks(h, i)} ::
        WritesPending(pending, h, i))
  }

  /** The block is held, or about to be restored. */
  ghost predicate Held(p: Picker, pending: seq<Task>, b: PieceBlock) { Dl(p, b) || RestoreTask(b) in pending }

  /** A piece is complete and no hash is asked for: some of its blocks were restored, and none that was written
      has completed. */
  ghost predicate Unasked(pending: seq<Task>, h: seq<Task>, i: nat) {
    RestoredBlocks(h, i) != {} && WritesPending(pending, h, i)
  }

  /** How picker, pending hashes, disk queue and submission history fit together. */
  ghost predicate Scheduled(p: Picker, pendingHash: set<nat>, pending: seq<Task>, h: seq<Task>, size: nat) {
    ScheduledBut(p, pendingHash, pending, h, size, -1)
  }

  /** The same, but piece `exempt` may be complete without its hash having been asked for yet. */
  ghost predicate ScheduledBut(p: Picker,
                               pendingHash: set<nat>, pending: seq<Task>, h: seq<Task>, size: nat, exempt: int) {
    && WellFormed(h, size)
    && RestoresFirst(pending, h)
    && TasksOk(p, pendingHash, pending, h, size)
    && HashesLast(pending)
    && HashesPending(p, pendingHash, pending, size)
    && Agreed(p, pendingHash, pending, h, size)
    && HashesAsked(p, pendingHash, pending, h, size, exempt)
  }

  ghost predicate TasksOk(p: Picker, pendingHash: set<nat>, pending: seq<Task>, h: seq<Task>, size: nat) {
    forall k {:trigger pending[k]} :: 0 <= k < |pending| ==> PendingOk(p, pendingHash, pending[k], h, size)
  }

  /** Nothing of a piece is queued behind its hash. */
  ghost predicate HashesLast(pending: seq<Task>) {
    forall k {:trigger pending[k]} :: 0 <= k < |pending| && pending[k].HashTask? ==>
      !Concerns(pending, k + 1, pending[k].piece)
  }

  ghost predicate HashesPending(p: Picker, pendingHash: set<nat>, pending: seq<Task>, size: nat) {
    forall i {:trigger i in pendingHash} :: i in pendingHash ==>
      i < PieceCount(size) && AllDl(p, i, size) && HashTask(i) in pending
  }

  /** The blocks taken in since the last hash are those held, but for pieces whose hash is pending. */
  ghost predicate Agreed(p: Picker, pendingHash: set<nat>, pending: seq<Task>, h: seq<Task>, size: nat) {
    forall b: PieceBlock {:trigger BlockAt(p, b)} ::
      b.block in OpenBlocks(h, b.piece) <==> b.piece !in pendingHash && ValidBlock(size, b) && Held(p, pending, b)
  }

  ghost predicate HashesAsked(p: Picker,
                              pendingHash: set<nat>, pending: seq<Task>, h: seq<Task>, size: nat, exempt: int) {
    forall i: nat :: i < PieceCount(size) && i != exempt && AllDl(p, i, size) ==>
      i in pendingHash || Unasked(pending, h, i)
  }

  ghost predicate NoneTwice(bs: seq<PieceBlock>) { forall i, j :: 0 <= i < j < |bs| ==> bs[i] != bs[j] }

  ghost predicate Ready(s: State, size: nat) {
    && Inv(s.picker) && Fits(s, size)
    && (s.disk.headCalled ==> |s.disk.pending| > 0)
    && (forall c {:trigger s.queues[c]} :: c in s.queues ==> AllValid(s.picker, s.queues[c]) && NoneTwice(s.queues[c]))
  }

  ghost predicate SchedInv(s: State, size: nat) {
    Ready(s, size) && Scheduled(s.picker, s.pendingHash, s.disk.pending, History(s), size)
  }

  lemma OnePieceAtLeast(size: nat, i: nat)
    ensures BlockCount(size, i) >= 1
  {
    LastPieceBounds(size);
  }

  lemma SameAllDl(p: Picker, q: Picker, i: nat, size: nat)
    requires forall j: nat :: Dl(q, PieceBlock(i, j)) == Dl(p, PieceBlock(i, j))
    ensures AllDl(q, i, size) == AllDl(p, i, size)
  {
  }

  lemma ScheduledSame(p: Picker, q: Picker, pendingHash: set<nat>, pending: seq<Task>, h: seq<Task>, size: nat)
    requires Scheduled(p, pendingHash, pending, h, size) && SameDl(p, q) && NoNewHave(p, q)
    ensures Scheduled(q, pendingHash, pending, h, size)
  {
    ButSame(p, q, pendingHash, pending, h, size, -1);
  }

  /** The schedule looks at which blocks are downloaded and which pieces are had, and at nothing else of the picker. */
  lemma ButSame(p: Picker, q: Picker, pendingHash: set<nat>, pending: seq<Task>, h: seq<Task>, size: nat, exempt: int)
    requires ScheduledBut(p, pendingHash, pending, h, size, exempt) && SameDl(p, q) && NoNewHave(p, q)
    ensures ScheduledBut(q, pendingHash, pending, h, size, exempt)
  {
    forall b: PieceBlock
      ensures Dl(q, b) == Dl(p, b)
    {
      assert BlockAt(q, b) == BlockAt(q, b);
    }
    forall i: nat
      ensures AllDl(q, i, size) == AllDl(p, i, size)
    {
      SameAllDl(p, q, i, size);
    }
    forall k | 0 <= k < |pending|
      ensures PendingOk(q, pendingHash, pending[k], h, size)
    {
      assert PendingOk(p, pendingHash, pending[k], h, size);
    }
    forall b: PieceBlock
      ensures b.block in OpenBlocks(h, b.piece) <==>
              b.piece !in pendingHash && ValidBlock(size, b) && Held(q, pending, b)
    {
      assert Dl(q, b) == Dl(p, b) && BlockAt(p, b) == BlockAt(p, b);
    }
  }

  // ---------------------------------------------------------------- what each step does to the schedule

  lemma NotConcernedLater(pending: seq<Task>, t: Task, k: nat, p: nat)
    requires k <= |pending| && !Concerns(pending, k, p) && TaskPiece(t) != p
    ensures !Concerns(pending + [t], k, p)
  {
    assert forall j :: k <= j < |pending| ==> (pending + [t])[j] == pending[j];
  }

  lemma PopPending(pending: seq<Task>, k: nat, p: nat)
    requires |pending| > 0 && k < |pending| - 1 && !Concerns(pending, k + 2, p)
    ensures !Concerns(pending[1..], k + 1, p)
  {
    assert forall j :: k + 1 <= j < |pending| - 1 ==> pending[1..][j] == pending[j + 1];
  }

  lemma PushedWrites(pending: seq<Task>, h: seq<Task>, t: Task, i: nat)
    requires WritesPending(pending, h, i)
    ensures WritesPending(pending + [t], h + [t], i)
  {
    OpenAppend(h, t, i);
    forall j | j in WrittenBlocks(h + [t], i)
      ensures HasWrite(pending + [t], PieceBlock(i, j))
    {
      if j in WrittenBlocks(h, i) {
        assert HasWrite(pending, PieceBlock(i, j));
        var k :| 0 <= k < |pending| && pending[k].WriteTask? && pending[k].block == PieceBlock(i, j);
        assert (pending + [t])[k] == pending[k];
      } else {
        assert (pending + [t])[|pending|] == t;
      }
    }
  }

  /** Popping anything but a write of piece i leaves its pending writes. */
  lemma PoppedWrites(pending: seq<Task>, h: seq<Task>, i: nat)
    requires |pending| > 0 && WritesPending(pending, h, i) && (pending[0].WriteTask? ==> pending[0].block.piece != i)
    ensures WritesPending(pending[1..], h, i)
  {
    forall j | j in WrittenBlocks(h, i)
      ensures HasWrite(pending[1..], PieceBlock(i, j))
    {
      assert HasWrite(pending, PieceBlock(i, j));
      var k :| 0 <= k < |pending| && pending[k].WriteTask? && pending[k].block == PieceBlock(i, j);
      assert pending[1..][k - 1] == pending[k];
    }
  }

  lemma PushedFirst(pending: seq<Task>, h: seq<Task>, t: Task)
    requires RestoresFirst(pending, h) && !t.RestoreTask?
    ensures RestoresFirst(pending + [t], h + [t])
  {
    if |pending| > 0 && pending[0].RestoreTask? {
      forall i
        ensures WritesPending(pending + [t], h + [t], i)
      {
        assert WrittenBlocks(h, i) == WrittenBlocks(h, i);
        PushedWrites(pending, h, t, i);
      }
    }
  }

  lemma PoppedFirst(pending: seq<Task>, h: seq<Task>)
    requires RestoresFirst(pending, h) && |pending| > 0
    ensures RestoresFirst(pending[1..], h)
    ensures !pending[0].RestoreTask? ==> NoRestores(pending)
  {
    if |pending| > 1 && pending[1].RestoreTask? {
      assert pending[0].RestoreTask?;
      forall i
        ensures WritesPending(pending[1..], h, i)
      {
        assert WrittenBlocks(h, i) == WrittenBlocks(h, i);
        PoppedWrites(pending, h, i);
      }
    }
  }

  predicate NoRestores(pending: seq<Task>) { forall k :: 0 <= k < |pending| ==> !pending[k].RestoreTask? }

  lemma PushedOk(p: Picker, q: Picker, ph: set<nat>, ph': set<nat>, h: seq<Task>, size: nat, t: Task, x: Task)
    requires PendingOk(p, ph, x, h, size) && ph <= ph'
    requires t.WriteTask? || (t.HashTask? && t.piece in ph')
    requires x.WriteTask? ==> Dl(q, x.block)
    requires x.RestoreTask? ==> RestoreWaits(q, x.block) && (t.HashTask? ==> x.block.piece != t.piece)
    ensures PendingOk(q, ph', x, h + [t], size)
  {
    if !x.HashTask? {
      OpenAppend(h, t, x.block.piece);
    }
  }

  lemma PushedLast(pending: seq<Task>, t: Task)
    requires HashesLast(pending) && !t.RestoreTask? && HashTask(TaskPiece(t)) !in pending
    ensures HashesLast(pending + [t])
  {
    forall k | 0 <= k < |pending + [t]| && (pending + [t])[k].HashTask?
      ensures !Concerns(pending + [t], k + 1, (pending + [t])[k].piece)
    {
      if k < |pending| {
        assert pending[k] in pending;
        NotConcernedLater(pending, t, k + 1, pending[k].piece);
      }
    }
  }

  lemma PoppedLast(pending: seq<Task>)
    requires HashesLast(pending) && |pending| > 0
    ensures HashesLast(pending[1..])
  {
    forall k | 0 <= k < |pending| - 1 && pending[1..][k].HashTask?
      ensures !Concerns(pending[1..], k + 1, pending[1..][k].piece)
    {
      assert pending[1..][k] == pending[k + 1];
      PopPending(pending, k, pending[k + 1].piece);
    }
  }

  lemma PushedUnasked(pending: seq<Task>, h: seq<Task>, t: Task, i: nat)
    requires Unasked(pending, h, i) && TaskPiece(t) != i
    ensures Unasked(pending + [t], h + [t], i)
  {
    OpenAppend(h, t, i);
    PushedWrites(pending, h, t, i);
  }

  /** A piece of which a block is missing has no hash queued. */
  lemma NoHashQueued(p: Picker, ph: set<nat>, pending: seq<Task>, h: seq<Task>, size: nat, b: PieceBlock)
    requires TasksOk(p, ph, pending, h, size) && HashesPending(p, ph, pending, size)
    requires b.block < BlockCount(size, b.piece) && !Dl(p, b)
    ensures b.piece !in ph && HashTask(b.piece) !in pending
  {
    assert PieceBlock(b.piece, b.block) == b;
    assert b.piece in ph ==> Dl(p, b);
    assert HashTask(b.piece) !in pending;
  }

  lemma SubmitWrite(p: Picker, q: Picker,
                    ph: set<nat>, pending: seq<Task>, h: seq<Task>, size: nat, b: PieceBlock, buffer: Bytes)
    requires Scheduled(p, ph, pending, h, size)
    requires ValidBlock(size, b) && |buffer| == BlockSize(b, size) && !Dl(p, b) && RestoreTask(b) !in pending
    requires DlAdds(p, q, b) && NoNewHave(p, q)
    ensures ScheduledBut(q, ph, pending + [WriteTask(b, buffer)], h + [WriteTask(b, buffer)], size, b.piece)
    ensures WrittenBlocks(h + [WriteTask(b, buffer)], b.piece) != {}
    ensures b.piece !in ph
  {
    var t := WriteTask(b, buffer);
    NoHashQueued(p, ph, pending, h, size, b);
    assert Held(p, pending, b) == (Dl(p, b) || RestoreTask(b) in pending) && BlockAt(p, b) == BlockAt(p, b);
    WellFormedAppend(h, t, size);
    PushedFirst(pending, h, t);
    PushedLast(pending, t);
    OpenAppend(h, t, b.piece);
    WriteTasksOk(p, q, ph, pending, h, size, t);
    WriteAgreed(p, q, ph, pending, h, size, t);
    WriteAsked(p, q, ph, pending, h, size, t);
  }

  lemma WriteTasksOk(p: Picker, q: Picker, ph: set<nat>, pending: seq<Task>, h: seq<Task>, size: nat, t: Task)
    requires TasksOk(p, ph, pending, h, size) && t.WriteTask? && ValidBlock(size, t.block)
             && RestoreTask(t.block) !in pending
    requires DlAdds(p, q, t.block) && NoNewHave(p, q)
    ensures TasksOk(q, ph, pending + [t], h + [t], size)
  {
    forall k | 0 <= k < |pending + [t]|
      ensures PendingOk(q, ph, (pending + [t])[k], h + [t], size)
    {
      if k < |pending| {
        var x := pending[k];
        assert PendingOk(p, ph, pending[k], h, size);
        assert x in pending;
        assert !x.HashTask? ==> Dl(q, x.block) == (x.block == t.block || Dl(p, x.block));
        PushedOk(p, q, ph, ph, h, size, t, x);
      } else {
        OpenAppend(h, t, t.block.piece);
        assert BlockAt(q, t.block) == BlockAt(q, t.block);
      }
    }
  }

  lemma WriteAgreed(p: Picker, q: Picker, ph: set<nat>, pending: seq<Task>, h: seq<Task>, size: nat, t: Task)
    requires Agreed(p, ph, pending, h, size) && t.WriteTask? && ValidBlock(size, t.block) && t.block.piece !in ph
    requires DlAdds(p, q, t.block)
    ensures Agreed(q, ph, pending + [t], h + [t], size)
  {
    forall c: PieceBlock
      ensures c.block in OpenBlocks(h + [t], c.piece) <==>
              c.piece !in ph && ValidBlock(size, c) && Held(q, pending + [t], c)
    {
      OpenAppend(h, t, c.piece);
      assert BlockAt(p, c) == BlockAt(p, c) && Dl(q, c) == (c == t.block || Dl(p, c));
      assert Held(q, pending + [t], c) == (c == t.block || Held(p, pending, c));
    }
  }

  lemma WriteAsked(p: Picker, q: Picker, ph: set<nat>, pending: seq<Task>, h: seq<Task>, size: nat, t: Task)
    requires HashesAsked(p, ph, pending, h, size, -1) && HashesPending(p, ph, pending, size)
    requires t.WriteTask? && DlAdds(p, q, t.block)
    ensures HashesAsked(q, ph, pending + [t], h + [t], size, t.block.piece)
    ensures HashesPending(q, ph, pending + [t], size)
  {
    forall c: PieceBlock
      ensures Dl(q, c) == (c == t.block || Dl(p, c))
    {
      assert BlockAt(q, c) == BlockAt(q, c);
    }
    forall i: nat
      ensures i != t.block.piece ==> AllDl(q, i, size) == AllDl(p, i, size)
    {
      if i != t.block.piece {
        SameAllDl(p, q, i, size);
      }
    }
    forall i: nat | i < PieceCount(size) && i != t.block.piece && AllDl(q, i, size)
      ensures i in ph || Unasked(pending + [t], h + [t], i)
    {
      if i !in ph {
        PushedUnasked(pending, h, t, i);
      }
    }
  }

  lemma SubmitHash(p: Picker, ph: set<nat>, pending: seq<Task>, h: seq<Task>, size: nat, i: nat)
    requires ScheduledBut(p, ph, pending, h, size, i)
    requires i < PieceCount(size) && i !in ph && AllDl(p, i, size) && WrittenBlocks(h, i) != {}
    ensures Scheduled(p, ph + {i}, pending + [HashTask(i)], h + [HashTask(i)], size)
  {
    var t := HashTask(i);
    forall j: nat | j < BlockCount(size, i)
      ensures j in OpenBlocks(h, i)
    {
      var b := PieceBlock(i, j);
      assert BlockAt(p, b) == BlockAt(p, b) && Held(p, pending, b) && b.block in OpenBlocks(h, b.piece);
    }
    assert t !in pending;
    WellFormedAppend(h, t, size);
    PushedFirst(pending, h, t);
    PushedLast(pending, t);
    HashTasksOk(p, ph, pending, h, size, i);
    HashAgreed(p, ph, pending, h, size, i);
    forall j: nat | j < PieceCount(size) && j != i && AllDl(p, j, size)
      ensures j in ph || Unasked(pending + [t], h + [t], j)
    {
      if j !in ph {
        PushedUnasked(pending, h, t, j);
      }
    }
    assert (pending + [t])[|pending|] == t;
  }

  lemma HashTasksOk(p: Picker, ph: set<nat>, pending: seq<Task>, h: seq<Task>, size: nat, i: nat)
    requires TasksOk(p, ph, pending, h, size) && AllDl(p, i, size)
    ensures TasksOk(p, ph + {i}, pending + [HashTask(i)], h + [HashTask(i)], size)
  {
    var t := HashTask(i);
    forall k | 0 <= k < |pending + [t]|
      ensures PendingOk(p, ph + {i}, (pending + [t])[k], h + [t], size)
    {
      if k < |pending| {
        var x := pending[k];
        assert PendingOk(p, ph, pending[k], h, size);
        PushedOk(p, p, ph, ph + {i}, h, size, t, x);
      }
    }
  }

  lemma HashAgreed(p: Picker, ph: set<nat>, pending: seq<Task>, h: seq<Task>, size: nat, i: nat)
    requires Agreed(p, ph, pending, h, size)
    ensures Agreed(p, ph + {i}, pending + [HashTask(i)], h + [HashTask(i)], size)
  {
    forall c: PieceBlock
      ensures c.block in OpenBlocks(h + [HashTask(i)], c.piece) <==>
              c.piece !in ph + {i} && ValidBlock(size, c) && Held(p, pending + [HashTask(i)], c)
    {
      OpenAppend(h, HashTask(i), c.piece);
      assert BlockAt(p, c) == BlockAt(p, c) && Held(p, pending + [HashTask(i)], c) == Held(p, pending, c);
    }
  }

  lemma PoppedTasks(p: Picker, ph: set<nat>, pending: seq<Task>, h: seq<Task>, size: nat)
    requires TasksOk(p, ph, pending, h, size) && |pending| > 0
    ensures TasksOk(p, ph, pending[1..], h, size)
  {
    forall k | 0 <= k < |pending| - 1
      ensures PendingOk(p, ph, pending[1..][k], h, size)
    {
      assert pending[1..][k] == pending[k + 1];
    }
  }

  lemma PoppedAgreed(p: Picker, ph: set<nat>, pending: seq<Task>, h: seq<Task>, size: nat)
    requires Agreed(p, ph, pending, h, size) && |pending| > 0 && !pending[0].RestoreTask?
    ensures Agreed(p, ph, pending[1..], h, size)
  {
    assert pending == [pending[0]] + pending[1..];
    forall b: PieceBlock
      ensures b.block in OpenBlocks(h, b.piece) <==> b.piece !in ph && ValidBlock(size, b) && Held(p, pending[1..], b)
    {
      assert BlockAt(p, b) == BlockAt(p, b);
      assert RestoreTask(b) in pending <==> RestoreTask(b) in pending[1..];
    }
  }

  lemma PopWrite(p: Picker, ph: set<nat>, pending: seq<Task>, h: seq<Task>, size: nat)
    requires Scheduled(p, ph, pending, h, size) && |pending| > 0 && pending[0].WriteTask?
    ensures ScheduledBut(p, ph, pending[1..], h, size, pending[0].block.piece)
  {
    PoppedFirst(pending, h);
    PoppedTasks(p, ph, pending, h, size);
    PoppedLast(pending);
    PoppedAgreed(p, ph, pending, h, size);
    assert pending == [pending[0]] + pending[1..];
    forall i | i in ph
      ensures HashTask(i) in pending[1..]
    {
      assert HashTask(i) in pending;
    }
    forall i: nat | i < PieceCount(size) && i != pending[0].block.piece && AllDl(p, i, size)
      ensures i in ph || Unasked(pending[1..], h, i)
    {
      if i !in ph {
        PoppedWrites(pending, h, i);
      }
    }
  }

  lemma PopHash(p: Picker, q: Picker, ph: set<nat>, pending: seq<Task>, h: seq<Task>, size: nat, i: nat)
    requires Scheduled(p, ph, pending, h, size) && |pending| > 0 && pending[0] == HashTask(i)
    requires DlDrops(p, q, i)
    ensures Scheduled(q, ph - {i}, pending[1..], h, size)
    ensures i in ph
  {
    assert PendingOk(p, ph, pending[0], h, size);
    assert !Concerns(pending, 1, i);
    PoppedFirst(pending, h);
    PoppedLast(pending);
    HashPoppedTasks(p, q, ph, pending, h, size, i);
    HashPoppedAgreed(p, q, ph, pending, h, size, i);
    HashPoppedAsked(p, q, ph, pending, h, size, i);
  }

  lemma HashPoppedTasks(p: Picker, q: Picker, ph: set<nat>, pending: seq<Task>, h: seq<Task>, size: nat, i: nat)
    requires TasksOk(p, ph, pending, h, size) && |pending| > 0 && pending[0].HashTask? && NoRestores(pending)
    requires DlDrops(p, q, i) && !Concerns(pending, 1, i)
    ensures TasksOk(q, ph - {i}, pending[1..], h, size)
  {
    forall k | 0 <= k < |pending| - 1
      ensures PendingOk(q, ph - {i}, pending[1..][k], h, size)
    {
      assert pending[1..][k] == pending[k + 1];
      assert TaskPiece(pending[k + 1]) != i;
      assert PendingOk(p, ph, pending[k + 1], h, size);
      if pending[k + 1].WriteTask? {
        assert BlockAt(q, pending[k + 1].block) == BlockAt(q, pending[k + 1].block);
      }
    }
  }

  lemma HashPoppedAgreed(p: Picker, q: Picker, ph: set<nat>, pending: seq<Task>, h: seq<Task>, size: nat, i: nat)
    requires Agreed(p, ph, pending, h, size) && |pending| > 0 && NoRestores(pending) && DlDrops(p, q, i) && i in ph
    ensures Agreed(q, ph - {i}, pending[1..], h, size)
  {
    forall c: PieceBlock
      ensures c.block in OpenBlocks(h, c.piece) <==>
              c.piece !in ph - {i} && ValidBlock(size, c) && Held(q, pending[1..], c)
    {
      assert BlockAt(p, c) == BlockAt(p, c) && Dl(q, c) == (c.piece != i && Dl(p, c));
      assert RestoreTask(c) !in pending;
    }
  }

  lemma HashPoppedAsked(p: Picker, q: Picker, ph: set<nat>, pending: seq<Task>, h: seq<Task>, size: nat, i: nat)
    requires HashesAsked(p, ph, pending, h, size, -1) && HashesPending(p, ph, pending, size)
    requires |pending| > 0 && pending[0] == HashTask(i) && DlDrops(p, q, i)
    ensures HashesAsked(q, ph - {i}, pending[1..], h, size, -1) && HashesPending(q, ph - {i}, pending[1..], size)
  {
    assert pending == [pending[0]] + pending[1..];
    forall c: PieceBlock
      ensures Dl(q, c) == (c.piece != i && Dl(p, c))
    {
      assert BlockAt(q, c) == BlockAt(q, c);
    }
    forall j: nat
      ensures j != i ==> AllDl(q, j, size) == AllDl(p, j, size)
      ensures !AllDl(q, i, size)
    {
      if j != i {
        SameAllDl(p, q, j, size);
      }
      OnePieceAtLeast(size, i);
      assert !Dl(q, PieceBlock(i, 0));
    }
    forall j | j in ph - {i}
      ensures HashTask(j) in pending[1..]
    {
      assert HashTask(j) in pending;
    }
    forall j: nat | j < PieceCount(size) && AllDl(q, j, size)
      ensures j in ph - {i} || Unasked(pending[1..], h, j)
    {
      assert j != i;
      if j !in ph {
        PoppedWrites(pending, h, j);
      }
    }
  }

  /** A restored block counts as held already while its restore is pending; when it completes the piece, none of
      the piece's writes has completed. */
  lemma PopRestore(p: Picker, q: Picker, ph: set<nat>, pending: seq<Task>, h: seq<Task>, size: nat, b: PieceBlock)
    requires Scheduled(p, ph, pending, h, size) && |pending| > 0 && pending[0] == RestoreTask(b)
    requires DlAdds(p, q, b) && NoNewHave(p, q)
    ensures Scheduled(q, ph, pending[1..], h, size)
  {
    assert PendingOk(p, ph, pending[0], h, size);
    PoppedFirst(pending, h);
    PoppedLast(pending);
    RestorePoppedTasks(p, q, ph, pending, h, size, b);
    RestorePoppedAgreed(p, q, ph, pending, h, size, b);
    RestorePoppedAsked(p, q, ph, pending, h, size, b);
  }

  lemma RestorePoppedTasks(p: Picker, q: Picker,
                           ph: set<nat>, pending: seq<Task>, h: seq<Task>, size: nat, b: PieceBlock)
    requires TasksOk(p, ph, pending, h, size) && RestoresFirst(pending, h) && |pending| > 0
             && pending[0] == RestoreTask(b)
    requires DlAdds(p, q, b) && NoNewHave(p, q)
    ensures TasksOk(q, ph, pending[1..], h, size)
  {
    forall k | 0 <= k < |pending| - 1
      ensures PendingOk(q, ph, pending[1..][k], h, size)
    {
      var x := pending[k + 1];
      assert pending[1..][k] == pending[k + 1];
      assert PendingOk(p, ph, pending[k + 1], h, size);
      assert x.RestoreTask? ==> pending[0] != pending[k + 1];
      if !x.HashTask? {
        assert BlockAt(q, x.block) == BlockAt(q, x.block);
      }
    }
  }

  lemma RestorePoppedAgreed(p: Picker, q: Picker,
                            ph: set<nat>, pending: seq<Task>, h: seq<Task>, size: nat, b: PieceBlock)
    requires Agreed(p, ph, pending, h, size) && |pending| > 0 && pending[0] == RestoreTask(b) && DlAdds(p, q, b)
    ensures Agreed(q, ph, pending[1..], h, size)
  {
    assert pending == [pending[0]] + pending[1..];
    forall c: PieceBlock
      ensures c.block in OpenBlocks(h, c.piece) <==> c.piece !in ph && ValidBlock(size, c) && Held(q, pending[1..], c)
    {
      assert BlockAt(p, c) == BlockAt(p, c) && Dl(q, c) == (c == b || Dl(p, c));
      assert RestoreTask(c) in pending <==> c == b || RestoreTask(c) in pending[1..];
    }
  }

  lemma RestorePoppedAsked(p: Picker, q: Picker,
                           ph: set<nat>, pending: seq<Task>, h: seq<Task>, size: nat, b: PieceBlock)
    requires HashesAsked(p, ph, pending, h, size, -1) && HashesPending(p, ph, pending, size)
             && RestoresFirst(pending, h)
    requires |pending| > 0 && pending[0] == RestoreTask(b) && DlAdds(p, q, b) && b.block in RestoredBlocks(h, b.piece)
    ensures HashesAsked(q, ph, pending[1..], h, size, -1) && HashesPending(q, ph, pending[1..], size)
  {
    assert pending == [pending[0]] + pending[1..];
    forall c: PieceBlock
      ensures Dl(q, c) == (c == b || Dl(p, c))
    {
      assert BlockAt(q, c) == BlockAt(q, c);
    }
    forall i: nat
      ensures i != b.piece ==> AllDl(q, i, size) == AllDl(p, i, size)
    {
      if i != b.piece {
        SameAllDl(p, q, i, size);
      }
    }
    forall i | i in ph
      ensures HashTask(i) in pending[1..]
    {
      assert HashTask(i) in pending;
    }
    forall i: nat | i < PieceCount(size) && AllDl(q, i, size)
      ensures i in ph || Unasked(pending[1..], h, i)
    {
      assert WrittenBlocks(h, i) == WrittenBlocks(h, i);
      PoppedWrites(pending, h, i);
    }
  }
}
