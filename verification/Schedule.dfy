/** Each event of the download keeps picker, pending hashes, disk queue and submission history in agreement,
    given that it meets the guard `Clean` (peer_connection.go, transfer.go). */
module Schedule {
  import opened Geometry
  import opened Scheduler = BlockScheduler
  import opened PieceStore
  import opened DiskQueue
  import opened Pipeline

  /** The guard: a leaving connection is not the last one counted for a block that is written, being written or
      restored, and no block is taken for writing that is about to be restored. */
  predicate Clean(s: State, e: Event) {
    match e
    case Leave(c, _) => forall b :: b in Waiting(s, c) && Dl(s.picker, b) ==> BlockAt(s.picker, b).downloaders > 1
    case Receive(_, b, _) => RestoreTask(b) in s.disk.pending ==> !InProgress(s.picker, b.piece)
    case _ => true
  }

  lemma SchedSame(s: State, t: State, size: nat)
    requires SchedInv(s, size) && Ready(t, size)
    requires SameDl(s.picker, t.picker) && NoNewHave(s.picker, t.picker)
    requires t.pendingHash == s.pendingHash && t.disk == s.disk && t.log == s.log
    ensures SchedInv(t, size)
  {
    ScheduledSame(s.picker, t.picker, s.pendingHash, s.disk.pending, History(s), size);
  }

  /** Exactly the queue of connection c changes. */
  lemma QueuesReady(s: State, t: State, c: nat, size: nat)
    requires Ready(s, size) && Inv(t.picker) && Fits(t, size)
    requires t.disk == s.disk && t.queues == s.queues[c := Waiting(t, c)] && AllValid(t.picker, Waiting(t, c))
             && NoneTwice(Waiting(t, c))
    ensures Ready(t, size)
  {
    forall d | d in t.queues
      ensures AllValid(t.picker, t.queues[d]) && NoneTwice(t.queues[d])
    {
      if d != c {
        assert d in s.queues && AllValid(s.picker, s.queues[d]) && NoneTwice(s.queues[d]);
      }
    }
  }

  // ---------------------------------------------------------------- asking

  lemma RequestReady(s: State, c: nat, peer: Peer, speed: nat, available: seq<bool>, size: nat)
    requires Ready(s, size)
    ensures var t := RequestBlocks(s, c, peer, speed, available);
            Ready(t, size) && SameDl(s.picker, t.picker) && NoNewHave(s.picker, t.picker)
  {
    var t := RequestBlocks(s, c, peer, speed, available);
    var got := Pick(s.picker, REQUEST_QUEUE_SIZE, peer, speed, available).1;
    PickSound(s.picker, REQUEST_QUEUE_SIZE, peer, speed, available);
    var a := Ask(peer, speed, speed != SLOW);
    assert Took(s.picker, t.picker, got, a, available);
    TookKeepsDl(s.picker, t.picker, got, a, available);
    QueuesReady(s, t, c, size);
  }

  lemma RequestKeepsSchedule(s: State, c: nat, peer: Peer, speed: nat, available: seq<bool>, size: nat)
    requires SchedInv(s, size)
    ensures SchedInv(RequestBlocks(s, c, peer, speed, available), size)
  {
    RequestReady(s, c, peer, speed, available, size);
    SchedSame(s, RequestBlocks(s, c, peer, speed, available), size);
  }

  lemma TookKeepsDl(p: Picker, q: Picker, got: seq<PieceBlock>, a: Ask, available: seq<bool>)
    requires Took(p, q, got, a, available)
    ensures SameDl(p, q) && NoNewHave(p, q) && AllValid(q, got) && NoneTwice(got)
  {
    forall b: PieceBlock
      ensures Dl(q, b) == Dl(p, b)
    {
      assert BlockAt(q, b) == if b in got then BlockAt(p, b).Request(a.peer, a.speed) else BlockAt(p, b);
      assert b in got ==> Pickable(BlockAt(p, b), a);
    }
    forall b | b in got
      ensures q.Valid(b)
    {
      assert p.Valid(b);
    }
  }

  // ---------------------------------------------------------------- leaving

  /** Exactly the blocks in `bs` that are in progress are aborted for the peer. */
  ghost predicate Aborted(p: Picker, q: Picker, bs: seq<PieceBlock>, peer: Peer) {
    && (forall i: nat {:trigger InProgress(q, i)} :: InProgress(q, i) <==> InProgress(p, i))
    && forall x: PieceBlock {:trigger BlockAt(q, x)} ::
         BlockAt(q, x) == if x in bs && InProgress(p, x.piece) then BlockAt(p, x).Abort(peer) else BlockAt(p, x)
  }

  lemma {:induction false} AbortEachExactly(p: Picker, bs: seq<PieceBlock>, peer: Peer)
    requires Inv(p) && AllValid(p, bs) && NoneTwice(bs)
    ensures AbortEach(p, bs, peer).status == p.status && Aborted(p, AbortEach(p, bs, peer), bs, peer)
    decreases |bs|
  {
    if |bs| > 0 {
      assert p.Valid(bs[0]);
      AbortOne(p, bs[0], peer);
      var p1 := AbortDownload(p, bs[0], peer);
      RestNoneTwice(bs);
      assert forall b: PieceBlock :: p1.Valid(b) <==> p.Valid(b);
      AbortEachExactly(p1, bs[1..], peer);
      AbortFirst(p, p1, AbortEach(p1, bs[1..], peer), bs, peer);
    }
  }

  lemma RestNoneTwice(bs: seq<PieceBlock>)
    requires |bs| > 0 && NoneTwice(bs)
    ensures NoneTwice(bs[1..]) && bs[0] !in bs[1..]
  {
  }

  lemma AbortOne(p: Picker, b: PieceBlock, peer: Peer)
    requires Inv(p) && p.Valid(b)
    ensures var q := AbortDownload(p, b, peer);
            Inv(q) && q.status == p.status && q.blocksInLast == p.blocksInLast && Aborted(p, q, [b], peer)
  {
    AbortDownloadKeeps(p, b, peer);
    SameProgress(p, AbortDownload(p, b, peer));
  }

  lemma AbortFirst(p: Picker, p1: Picker, q: Picker, bs: seq<PieceBlock>, peer: Peer)
    requires |bs| > 0 && bs[0] !in bs[1..] && Aborted(p, p1, [bs[0]], peer) && Aborted(p1, q, bs[1..], peer)
    ensures Aborted(p, q, bs, peer)
  {
    assert bs == [bs[0]] + bs[1..];
    forall x: PieceBlock
      ensures BlockAt(q, x) == if x in bs && InProgress(p, x.piece) then BlockAt(p, x).Abort(peer) else BlockAt(p, x)
    {
      assert InProgress(p1, x.piece) == InProgress(p, x.piece);
      assert BlockAt(p1, x) == BlockAt(p1, x);
    }
  }

  lemma SameProgress(p: Picker, q: Picker)
    requires Inv(p) && Inv(q) && q.status == p.status
    ensures forall i: nat {:trigger InProgress(q, i)} :: InProgress(q, i) <==> InProgress(p, i)
  {
    forall i: nat
      ensures InProgress(q, i) <==> InProgress(p, i)
    {
      NoEntryOutside(p, i);
      NoEntryOutside(q, i);
    }
  }

  lemma NoEntryOutside(p: Picker, i: nat)
    requires Inv(p)
    ensures InProgress(p, i) ==> i < |p.status|
  {
    if InProgress(p, i) {
      assert EntryOk(p, p.downloading[Find(p.downloading, i)]);
    }
  }

  /** A disconnect frees exactly those awaited blocks that nobody else is counted for. */
  lemma AbortEachFrees(p: Picker, bs: seq<PieceBlock>, peer: Peer)
    requires Inv(p) && AllValid(p, bs) && NoneTwice(bs)
    ensures AbortEach(p, bs, peer).status == p.status
    ensures var q := AbortEach(p, bs, peer);
            forall x: PieceBlock {:trigger BlockAt(q, x)} ::
              && (x !in bs ==> BlockAt(q, x) == BlockAt(p, x))
              && (x in bs ==> (Dl(q, x) <==> Dl(p, x) && BlockAt(p, x).downloaders > 1))
              && (Dl(p, x) && !Dl(q, x) ==> BlockAt(q, x).state == Free)
              && (BlockAt(q, x).state == Finished ==> BlockAt(p, x).state == Finished)
  {
    AbortEachExactly(p, bs, peer);
    var q := AbortEach(p, bs, peer);
    forall x: PieceBlock
      ensures x !in bs ==> BlockAt(q, x) == BlockAt(p, x)
      ensures x in bs ==> (Dl(q, x) <==> Dl(p, x) && BlockAt(p, x).downloaders > 1)
      ensures Dl(p, x) && !Dl(q, x) ==> BlockAt(q, x).state == Free
      ensures BlockAt(q, x).state == Finished ==> BlockAt(p, x).state == Finished
    {
      assert BlockAt(q, x) == if x in bs && InProgress(p, x.piece) then BlockAt(p, x).Abort(peer) else BlockAt(p, x);
    }
  }

  lemma DisconnectReady(s: State, c: nat, peer: Peer, size: nat)
    requires Ready(s, size) && AllValid(s.picker, Waiting(s, c))
    ensures Ready(Disconnect(s, c, peer), size) && NoneTwice(Waiting(s, c))
    ensures NoNewHave(s.picker, Disconnect(s, c, peer).picker)
  {
    var t := Disconnect(s, c, peer);
    if c in s.queues {
      assert NoneTwice(s.queues[c]);
    }
    AbortEachFrees(s.picker, Waiting(s, c), peer);
    forall d | d in t.queues
      ensures AllValid(t.picker, t.queues[d]) && NoneTwice(t.queues[d])
    {
      assert d in s.queues && AllValid(s.picker, s.queues[d]) && NoneTwice(s.queues[d]);
    }
  }

  lemma LeaveKeepsSchedule(s: State, c: nat, peer: Peer, size: nat)
    requires SchedInv(s, size) && AllValid(s.picker, Waiting(s, c)) && Clean(s, Leave(c, peer))
    ensures SchedInv(Disconnect(s, c, peer), size)
  {
    var t := Disconnect(s, c, peer);
    DisconnectReady(s, c, peer, size);
    AbortEachFrees(s.picker, Waiting(s, c), peer);
    forall x: PieceBlock
      ensures Dl(t.picker, x) == Dl(s.picker, x)
    {
      assert x !in Waiting(s, c) ==> BlockAt(t.picker, x) == BlockAt(s.picker, x);
    }
    SchedSame(s, t, size);
  }

  // ---------------------------------------------------------------- asking for hashes

  lemma FinishedIsAllDl(s: State, i: nat, size: nat)
    requires Inv(s.picker) && Fits(s, size) && i < PieceCount(size)
    ensures IsPieceFinished(s.picker, i) && s.picker.status[i] != Have <==> AllDl(s.picker, i, size)
  {
    PieceFinishedMeaning(s.picker, i);
    OnePieceAtLeast(size, i);
    assert s.picker.Blocks(i) == BlockCount(size, i);
    assert AllDl(s.picker, i, size) ==> Dl(s.picker, PieceBlock(i, 0));
    assert AllDl(s.picker, i, size) == AllDownloaded(s.picker, i);
  }

  lemma ExemptionMoot(p: Picker, ph: set<nat>, pending: seq<Task>, h: seq<Task>, size: nat, i: nat)
    requires ScheduledBut(p, ph, pending, h, size, i) && (i in ph || !AllDl(p, i, size))
    ensures Scheduled(p, ph, pending, h, size)
  {
  }

  lemma Assemble(s: State, size: nat, h: seq<Task>)
    requires Ready(s, size) && h == History(s)
    requires Scheduled(s.picker, s.pendingHash, s.disk.pending, h, size)
    ensures SchedInv(s, size)
  {
  }

  lemma NothingToHash(s: State, i: nat, size: nat)
    requires Ready(s, size) && i < PieceCount(size) && (i in s.pendingHash || !AllDl(s.picker, i, size))
    ensures QueuePieceHash(s, i) == s
  {
    FinishedIsAllDl(s, i, size);
  }

  lemma HashQueued(s: State, i: nat, size: nat)
    requires Ready(s, size) && i < PieceCount(size) && i !in s.pendingHash && AllDl(s.picker, i, size)
    ensures QueuePieceHash(s, i) == Enqueue(s.(pendingHash := s.pendingHash + {i}), HashTask(i))
  {
    FinishedIsAllDl(s, i, size);
  }

  /** Asking for a hash is exactly what a piece that has become complete still lacks. */
  lemma QueueHashKeepsSchedule(s: State, i: nat, size: nat)
    requires Ready(s, size) && i < PieceCount(size)
    requires ScheduledBut(s.picker, s.pendingHash, s.disk.pending, History(s), size, i)
    requires i !in s.pendingHash ==> WrittenBlocks(History(s), i) != {}
    ensures SchedInv(QueuePieceHash(s, i), size)
  {
    if i in s.pendingHash || !AllDl(s.picker, i, size) {
      NothingToHash(s, i, size);
      ExemptionMoot(s.picker, s.pendingHash, s.disk.pending, History(s), size, i);
      Assemble(s, size, History(s));
    } else {
      HashQueued(s, i, size);
      SubmitHash(s.picker, s.pendingHash, s.disk.pending, History(s), size, i);
      EnqueueHistory(s.(pendingHash := s.pendingHash + {i}), HashTask(i));
      Assemble(QueuePieceHash(s, i), size, History(s) + [HashTask(i)]);
    }
  }

  // ---------------------------------------------------------------- receiving

  function Taken(s: State, c: nat, b: PieceBlock): State
    requires Inv(s.picker) && s.picker.Valid(b)
  {
    s.(picker := MarkAsWriting(s.picker, b).0, queues := s.queues[c := Except(Waiting(s, c), b)])
  }

  lemma {:induction false} ExceptOnce(bs: seq<PieceBlock>, b: PieceBlock)
    requires NoneTwice(bs)
    ensures NoneTwice(Except(bs, b))
  {
    if |bs| > 0 {
      var n := |bs| - 1;
      ExceptOnce(bs[..n], b);
      assert bs[n] !in bs[..n];
    }
  }

  lemma TakenReady(s: State, c: nat, b: PieceBlock, size: nat)
    requires Ready(s, size) && s.picker.Valid(b)
    ensures Ready(Taken(s, c, b), size) && NoNewHave(s.picker, Taken(s, c, b).picker)
    ensures !MarkAsWriting(s.picker, b).1 ==> SameDl(s.picker, Taken(s, c, b).picker)
    ensures MarkAsWriting(s.picker, b).1 ==>
              DlAdds(s.picker, Taken(s, c, b).picker, b) && InProgress(s.picker, b.piece) && !Dl(s.picker, b)
  {
    MarkAsWritingKeeps(s.picker, b);
    var t := Taken(s, c, b);
    var q := MarkAsWriting(s.picker, b).0;
    var wanted := MarkAsWriting(s.picker, b).1;
    forall x: PieceBlock
      ensures Dl(q, x) == ((x == b && wanted) || Dl(s.picker, x))
    {
      assert BlockAt(q, x) == if x == b && wanted then BlockAt(s.picker, b).Write() else BlockAt(s.picker, x);
    }
    if c in s.queues {
      assert AllValid(s.picker, s.queues[c]) && NoneTwice(s.queues[c]);
    }
    ExceptOnce(Waiting(s, c), b);
    QueuesReady(s, t, c, size);
  }

  lemma ReceiveKeepsSchedule(s: State, c: nat, b: PieceBlock, buffer: Bytes, size: nat)
    requires SchedInv(s, size) && ValidBlock(size, b) && s.picker.Valid(b) && |buffer| == BlockSize(b, size)
    requires Clean(s, Receive(c, b, buffer))
    ensures SchedInv(ReceiveBlock(s, c, b, buffer), size)
  {
    var t := Taken(s, c, b);
    TakenReady(s, c, b, size);
    if MarkAsWriting(s.picker, b).1 {
      WantedKeepsSchedule(s, t, b, buffer, size);
    } else {
      SchedSame(s, t, size);
    }
  }

  lemma WantedKeepsSchedule(s: State, s1: State, b: PieceBlock, buffer: Bytes, size: nat)
    requires SchedInv(s, size) && ValidBlock(size, b) && |buffer| == BlockSize(b, size) && !Dl(s.picker, b)
    requires RestoreTask(b) !in s.disk.pending
    requires Ready(s1, size) && s1.disk == s.disk && s1.log == s.log && s1.pendingHash == s.pendingHash
    requires InProgress(s.picker, b.piece)
    requires DlAdds(s.picker, s1.picker, b) && NoNewHave(s.picker, s1.picker)
    ensures !IsPieceFinished(s.picker, b.piece)
    ensures var s2 := Enqueue(s1, WriteTask(b, buffer));
            SchedInv(if IsPieceFinished(s2.picker, b.piece) then QueuePieceHash(s2, b.piece) else s2, size)
  {
    var t := WriteTask(b, buffer);
    var s2 := Enqueue(s1, t);
    assert Ready(s2, size);
    SubmitWrite(s.picker, s1.picker, s.pendingHash, s.disk.pending, History(s), size, b, buffer);
    EnqueueHistory(s1, t);
    NotYetFinished(s, b, size);
    LastBlockHashes(s2, b.piece, size);
  }

  lemma NotYetFinished(s: State, b: PieceBlock, size: nat)
    requires Ready(s, size) && ValidBlock(size, b) && InProgress(s.picker, b.piece) && !Dl(s.picker, b)
    ensures !IsPieceFinished(s.picker, b.piece)
  {
    FinishedIsAllDl(s, b.piece, size);
    assert PieceBlock(b.piece, b.block) == b;
    assert AllDl(s.picker, b.piece, size) ==> Dl(s.picker, b);
  }

  lemma LastBlockHashes(s2: State, i: nat, size: nat)
    requires Ready(s2, size) && i < PieceCount(size)
    requires ScheduledBut(s2.picker, s2.pendingHash, s2.disk.pending, History(s2), size, i)
    requires WrittenBlocks(History(s2), i) != {}
    ensures SchedInv(if IsPieceFinished(s2.picker, i) then QueuePieceHash(s2, i) else s2, size)
  {
    if IsPieceFinished(s2.picker, i) {
      QueueHashKeepsSchedule(s2, i, size);
    } else {
      FinishedIsAllDl(s2, i, size);
      ExemptionMoot(s2.picker, s2.pendingHash, s2.disk.pending, History(s2), size, i);
    }
  }

  // ---------------------------------------------------------------- the disk

  /** Only the phase of the head task and the history's split point move. */
  lemma SchedFrame(s: State, t: State, size: nat)
    requires SchedInv(s, size)
    requires t.picker == s.picker && t.queues == s.queues && t.pendingHash == s.pendingHash
    requires t.disk.pending == s.disk.pending && |t.disk.pending| > 0 && History(t) == History(s)
    ensures SchedInv(t, size)
  {
  }

  lemma CallHistory(s: State, size: nat, md4: Bytes -> Hash)
    requires Enabled(s, RunTask, size)
    ensures History(CallHead(s, size, md4)) == History(s)
  {
    assert s.disk.pending == [NextTask(s)] + s.disk.pending[1..];
    var t := CallHead(s, size, md4);
    assert t.disk.headCalled && t.disk.pending == s.disk.pending && t.log == s.log + [NextTask(s)];
  }

  lemma RunTaskKeepsSchedule(s: State, t: State, size: nat, md4: Bytes -> Hash)
    requires SchedInv(s, size) && Enabled(s, RunTask, size) && t == CallHead(s, size, md4)
    ensures SchedInv(t, size) && History(t) == History(s)
  {
    CallHistory(s, size, md4);
    SchedFrame(s, t, size);
  }

  lemma DeliverHistory(s: State, t: State)
    requires CanDeliver(s) && t.disk == FifoDeliver(s.disk) && t.log == s.log
    ensures History(t) == History(s)
  {
  }

  lemma CompleteWriteKeepsSchedule(s: State, size: nat)
    requires SchedInv(s, size) && Enabled(s, Complete, size) && NextTask(s).WriteTask?
    ensures SchedInv(DeliverHead(s), size)
    ensures DeliverHead(s).picker == MarkAsFinished(s.picker, NextTask(s).block)
    ensures var s' := DeliverHead(s);
            s'.queues == s.queues && s'.store == s.store && s'.log == s.log && s'.hashSet == s.hashSet
              && s'.verified == s.verified
  {
    var b := NextTask(s).block;
    var s1 := s.(disk := FifoDeliver(s.disk));
    var s2 := s1.(picker := MarkAsFinished(s.picker, b));
    var h := History(s);
    DeliverHistory(s, s1);
    PopWrite(s.picker, s.pendingHash, s.disk.pending, h, size);
    assert PendingOk(s.picker, s.pendingHash, s.disk.pending[0], h, size);
    FinishedWriteReady(s, s2, b, size);
    ButSame(s.picker, s2.picker, s.pendingHash, s.disk.pending[1..], h, size, b.piece);
    QueueHashKeepsSchedule(s2, b.piece, size);
  }

  lemma FinishedWriteReady(s: State, t: State, b: PieceBlock, size: nat)
    requires Ready(s, size) && s.picker.Valid(b) && Dl(s.picker, b)
    requires t.picker == MarkAsFinished(s.picker, b) && t.queues == s.queues && !t.disk.headCalled
    ensures Ready(t, size) && SameDl(s.picker, t.picker) && NoNewHave(s.picker, t.picker)
  {
    MarkAsFinishedKeeps(s.picker, b);
    var q := t.picker;
    forall x: PieceBlock
      ensures Dl(q, x) == Dl(s.picker, x)
    {
      assert BlockAt(q, x) == if x == b && InProgress(s.picker, b.piece) then BlockAt(s.picker, b).Finish()
        else BlockAt(s.picker, x);
    }
    forall d | d in t.queues
      ensures AllValid(t.picker, t.queues[d]) && NoneTwice(t.queues[d])
    {
      assert AllValid(s.picker, s.queues[d]) && NoneTwice(s.queues[d]);
    }
  }

  lemma ClosedReady(s: State, t: State, i: nat, f: PieceState, size: nat)
    requires Ready(s, size) && i < |s.picker.status| && f != Downloading
    requires t.picker == Close(s.picker, i, f) && t.queues == s.queues && !t.disk.headCalled
    ensures Ready(t, size)
    ensures DlDrops(s.picker, t.picker, i)
  {
    CloseKeeps(s.picker, i, f);
    forall c: PieceBlock
      ensures Dl(t.picker, c) == (c.piece != i && Dl(s.picker, c))
    {
      assert BlockAt(t.picker, c) == if c.piece == i then FRESH else BlockAt(s.picker, c);
    }
    forall d | d in t.queues
      ensures AllValid(t.picker, t.queues[d]) && NoneTwice(t.queues[d])
    {
      assert AllValid(s.picker, s.queues[d]) && NoneTwice(s.queues[d]);
    }
  }

  lemma HashedInProgress(s: State, size: nat)
    requires SchedInv(s, size) && |s.disk.pending| > 0 && NextTask(s).HashTask?
    ensures InProgress(s.picker, NextTask(s).piece)
  {
    var i := NextTask(s).piece;
    assert PendingOk(s.picker, s.pendingHash, s.disk.pending[0], History(s), size);
    assert AllDl(s.picker, i, size);
    OnePieceAtLeast(size, i);
    assert Dl(s.picker, PieceBlock(i, 0));
  }

  lemma CompleteHashKeepsSchedule(s: State, t: State, size: nat)
    requires SchedInv(s, size) && Enabled(s, Complete, size) && NextTask(s).HashTask? && t == DeliverHead(s)
    ensures SchedInv(t, size)
  {
    var i := NextTask(s).piece;
    var f := if t.picker.status[i] == Have then Have else Missing;
    assert t.picker == Close(s.picker, i, f) && t.pendingHash == s.pendingHash - {i}
      && t.disk.pending == s.disk.pending[1..];
    DeliverHistory(s, t);
    ClosedReady(s, t, i, f, size);
    PopHash(s.picker, t.picker, s.pendingHash, s.disk.pending, History(s), size, i);
  }

  lemma CompleteRestoreKeepsSchedule(s: State, t: State, size: nat)
    requires SchedInv(s, size) && CanDeliver(s) && NextTask(s).RestoreTask? && s.picker.Valid(NextTask(s).block)
    requires t.picker == WeHaveBlock(s.picker, NextTask(s).block)
    requires t.disk == FifoDeliver(s.disk) && t.queues == s.queues && t.pendingHash == s.pendingHash && t.log == s.log
    ensures SchedInv(t, size)
  {
    var b := NextTask(s).block;
    DeliverHistory(s, t);
    RestoredReady(s, t, b, size);
    PopRestore(s.picker, t.picker, s.pendingHash, s.disk.pending, History(s), size, b);
    Assemble(t, size, History(s));
  }

  lemma RestoredReady(s: State, t: State, b: PieceBlock, size: nat)
    requires Ready(s, size) && s.picker.Valid(b)
    requires t.picker == WeHaveBlock(s.picker, b) && t.queues == s.queues && !t.disk.headCalled
    ensures Ready(t, size) && DlAdds(s.picker, t.picker, b) && NoNewHave(s.picker, t.picker)
  {
    WeHaveBlockKeeps(s.picker, b);
    forall c: PieceBlock
      ensures Dl(t.picker, c) == (c == b || Dl(s.picker, c))
    {
      assert BlockAt(t.picker, c) == if c == b then BlockAt(s.picker, b).Finish() else BlockAt(s.picker, c);
    }
    forall d | d in t.queues
      ensures AllValid(t.picker, t.queues[d]) && NoneTwice(t.queues[d])
    {
      assert AllValid(s.picker, s.queues[d]) && NoneTwice(s.queues[d]);
    }
  }

  lemma CompleteKeepsSchedule(s: State, size: nat)
    requires SchedInv(s, size) && Enabled(s, Complete, size)
    ensures SchedInv(DeliverHead(s), size)
    ensures NextTask(s).HashTask? ==> InProgress(s.picker, NextTask(s).piece)
  {
    match NextTask(s)
    case WriteTask(_, _) => CompleteWriteKeepsSchedule(s, size);
    case HashTask(_) =>
      HashedInProgress(s, size);
      CompleteHashKeepsSchedule(s, DeliverHead(s), size);
    case RestoreTask(_) => CompleteRestoreKeepsSchedule(s, DeliverHead(s), size);
  }

  lemma EventKeepsSchedule(s: State, e: Event, size: nat, md4: Bytes -> Hash)
    requires SchedInv(s, size) && Enabled(s, e, size) && Clean(s, e)
    ensures SchedInv(Next(s, e, size, md4), size)
  {
    match e
    case Request(c, peer, speed, available) => RequestKeepsSchedule(s, c, peer, speed, available, size);
    case Receive(c, b, buffer) => ReceiveKeepsSchedule(s, c, b, buffer, size);
    case Leave(c, peer) => LeaveKeepsSchedule(s, c, peer, size);
    case RunTask => RunTaskKeepsSchedule(s, CallHead(s, size, md4), size, md4);
    case Complete => CompleteKeepsSchedule(s, size);
    case LearnHashes(own, hashes) => LearnKeepsSchedule(s, own, hashes, size);
  }

  lemma LearnKeepsSchedule(s: State, own: bool, hashes: seq<Hash>, size: nat)
    requires SchedInv(s, size)
    ensures SchedInv(SetHashSet(s, own, hashes), size)
  {
    assert History(SetHashSet(s, own, hashes)) == History(s);
  }

  // ---------------------------------------------------------------- the guard is exact

  lemma LostBlock(s: State, t: State, b: PieceBlock, size: nat)
    requires SchedInv(s, size) && SchedInv(t, size)
    requires t.pendingHash == s.pendingHash && t.disk == s.disk && History(t) == History(s)
    requires ValidBlock(size, b) && Dl(s.picker, b)
    ensures Dl(t.picker, b)
  {
    var h, pending := History(s), s.disk.pending;
    assert b == PieceBlock(b.piece, b.block) && BlockAt(s.picker, b) == BlockAt(s.picker, b)
      && BlockAt(t.picker, b) == BlockAt(t.picker, b);
    if b.piece in s.pendingHash {
      assert AllDl(t.picker, b.piece, size) && Dl(t.picker, PieceBlock(b.piece, b.block));
    } else {
      assert Held(s.picker, pending, b) && b.block in OpenBlocks(h, b.piece) && Held(t.picker, pending, b);
      assert RestoreTask(b) !in pending;
    }
  }

  lemma LeaveMustBeClean(s: State, c: nat, peer: Peer, size: nat)
    requires SchedInv(s, size) && AllValid(s.picker, Waiting(s, c)) && SchedInv(Disconnect(s, c, peer), size)
    ensures Clean(s, Leave(c, peer))
  {
    var t := Disconnect(s, c, peer);
    DisconnectReady(s, c, peer, size);
    AbortEachFrees(s.picker, Waiting(s, c), peer);
    forall b | b in Waiting(s, c) && Dl(s.picker, b)
      ensures BlockAt(s.picker, b).downloaders > 1
    {
      LostBlock(s, t, b, size);
      assert BlockAt(t.picker, b) == BlockAt(t.picker, b);
    }
  }

  /** A block taken for writing that is about to be restored has been taken in before in this attempt. */
  lemma RestoreIsHeld(s: State, b: PieceBlock, size: nat)
    requires SchedInv(s, size) && RestoreTask(b) in s.disk.pending
    ensures b.block in OpenBlocks(History(s), b.piece) && !Dl(s.picker, b) && ValidBlock(size, b)
  {
    var pending := s.disk.pending;
    var k :| 0 <= k < |pending| && pending[k] == RestoreTask(b);
    assert PendingOk(s.picker, s.pendingHash, pending[k], History(s), size);
    NoHashQueued(s.picker, s.pendingHash, pending, History(s), size, b);
    assert BlockAt(s.picker, b) == BlockAt(s.picker, b) && Held(s.picker, pending, b);
  }

  lemma ReceiveHistory(s: State, c: nat, b: PieceBlock, buffer: Bytes, size: nat)
    requires Ready(s, size) && s.picker.Valid(b) && MarkAsWriting(s.picker, b).1
    ensures var h' := History(ReceiveBlock(s, c, b, buffer));
            && |h'| > |History(s)| && h'[..|History(s)|] == History(s) && h'[|History(s)|] == WriteTask(b, buffer)
  {
    var s2 := Enqueue(Taken(s, c, b), WriteTask(b, buffer));
    assert History(Taken(s, c, b)) == History(s);
    EnqueueHistory(Taken(s, c, b), WriteTask(b, buffer));
    var s3 := ReceiveBlock(s, c, b, buffer);
    if s3 != s2 {
      EnqueueHistory(s2.(pendingHash := s2.pendingHash + {b.piece}), HashTask(b.piece));
      assert s3 == QueuePieceHash(s2, b.piece);
    }
  }

  /** Writing a block whose restore is pending takes it in twice in one attempt. */
  lemma UncleanReceive(s: State, c: nat, b: PieceBlock, buffer: Bytes, size: nat)
    requires SchedInv(s, size) && s.picker.Valid(b) && !Clean(s, Receive(c, b, buffer))
    ensures !WellFormed(History(ReceiveBlock(s, c, b, buffer)), size)
  {
    RestoreIsHeld(s, b, size);
    ReceiveHistory(s, c, b, buffer, size);
    var h := History(s);
    var h' := History(ReceiveBlock(s, c, b, buffer));
    assert !MayFollow(h'[..|h|], h'[|h|], size);
  }

  /** The guard is exact: an event keeps the agreement if and only if it is clean. */
  lemma CleanIsExact(s: State, e: Event, size: nat, md4: Bytes -> Hash)
    requires SchedInv(s, size) && Enabled(s, e, size)
    ensures SchedInv(Next(s, e, size, md4), size) <==> Clean(s, e)
  {
    if Clean(s, e) {
      EventKeepsSchedule(s, e, size, md4);
    } else if SchedInv(Next(s, e, size, md4), size) {
      match e
      case Leave(c, peer) => LeaveMustBeClean(s, c, peer, size);
      case Receive(c, b, buffer) => UncleanReceive(s, c, b, buffer, size);
    }
  }
}
