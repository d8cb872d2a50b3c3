/** What each event of the download does, said of statuses, block states, queues, tasks and bytes: what changes and what
    stays (peer_connection.go, transfer.go, piece_picker.go). */
module Effects {
  import opened Wrappers
  import opened Geometry
  import opened Scheduler = BlockScheduler
  import opened PieceStore
  import opened DiskQueue
  import opened Pipeline
  import opened Schedule
  import opened Integrity
  import opened Outcomes

  /** No block of piece i or of any other piece but those in `touched` changes, nor does the status of any piece. */
  ghost predicate OnlyBlocks(p: Picker, q: Picker, touched: set<PieceBlock>) {
    && q.status == p.status
    && forall x: PieceBlock {:trigger BlockAt(q, x)} :: x !in touched ==> BlockAt(q, x) == BlockAt(p, x)
  }

  /** Other connections keep waiting for what they wait for. */
  ghost predicate OtherQueues(s: State, t: State, c: nat) {
    forall d: nat {:trigger Waiting(t, d)} :: d != c ==> Waiting(t, d) == Waiting(s, d)
  }

  // ---------------------------------------------------------------- hashes

  /** A completed hash accepts its piece exactly when there is nothing to compare it with or it is the right one. A
      piece that is not accepted is missing with nothing in progress, and no other piece changes. */
  lemma HashDecides(s: State, size: nat, p: nat)
    requires SchedInv(s, size) && CanDeliver(s) && NextTask(s) == HashTask(p) && Enabled(s, Complete, size)
    ensures var t := DeliverHead(s);
            && |t.picker.status| == |s.picker.status| && p < |s.picker.status|
            && (Had(t, p) <==> p >= |s.hashSet| || s.hashResult == s.hashSet[p])
            && (!Had(t, p) ==> t.picker.status[p] == Missing)
            && (forall q: nat :: q < |s.picker.status| && q != p ==> t.picker.status[q] == s.picker.status[q])
            && (forall x: PieceBlock {:trigger BlockAt(t.picker, x)} ::
                  BlockAt(t.picker, x) == if x.piece == p then FRESH else BlockAt(s.picker, x))
            && !InProgress(t.picker, p) && t.pendingHash == s.pendingHash - {p}
  {
    var t := DeliverHead(s);
    CloseKeeps(s.picker, p, if t.picker.status[p] == Have then Have else Missing);
  }

  /** In every guarded run a piece whose hash completes is accepted exactly when the hash set does not reach it or its
      blocks, as they lie in the file, have the right hash. */
  lemma AcceptedExactly(ss: seq<State>, es: seq<Event>, size: nat, md4: Bytes -> Hash, k: nat, p: nat)
    requires CleanRun(ss, es, size, md4) && k < |es| && es[k].Complete?
    requires CanDeliver(ss[k]) && NextTask(ss[k]) == HashTask(p)
    ensures var (s, t) := (ss[k], ss[k + 1]);
            && |t.picker.status| == |s.picker.status| && p < |s.picker.status|
            && (Had(t, p) <==> p >= |s.hashSet| || s.hashResult == s.hashSet[p])
            && s.hashResult == md4(PieceData(s.store.file, size, p, BlockCount(size, p)))
            && (!Had(t, p) ==> t.picker.status[p] == Missing && !InProgress(t.picker, p))
            && (forall q: nat :: q < |s.picker.status| && q != p ==> t.picker.status[q] == s.picker.status[q])
  {
    var e := es[k];
    RunGood(ss, es, size, md4, k);
    assert Enabled(ss[k], e, size);
    HashDecides(ss[k], size, p);
  }

  // ---------------------------------------------------------------- other completions

  /** A completed write finishes its block, and queues the hash of the piece exactly when it has become complete and
      none is pending. */
  lemma WriteFinishes(s: State, size: nat, b: PieceBlock, buffer: Bytes)
    requires SchedInv(s, size) && CanDeliver(s) && NextTask(s) == WriteTask(b, buffer) && Enabled(s, Complete, size)
    ensures var t := DeliverHead(s);
            && OnlyBlocks(s.picker, t.picker, {b}) && BlockAt(t.picker, b).state == Finished
            && BlockAt(t.picker, b).downloaders == BlockAt(s.picker, b).downloaders
            && (if AllDl(s.picker, b.piece, size) && b.piece !in s.pendingHash
                then t.disk.pending == s.disk.pending[1..] + [HashTask(b.piece)]
                  && t.pendingHash == s.pendingHash + {b.piece}
                else t.disk.pending == s.disk.pending[1..] && t.pendingHash == s.pendingHash)
  {
    assert PendingOk(s.picker, s.pendingHash, s.disk.pending[0], History(s), size);
    var s1 := s.(disk := FifoDeliver(s.disk));
    var s2 := s1.(picker := MarkAsFinished(s.picker, b));
    FinishedWriteReady(s, s2, b, size);
    MarkAsFinishedKeeps(s.picker, b);
    forall j: nat
      ensures Dl(s2.picker, PieceBlock(b.piece, j)) == Dl(s.picker, PieceBlock(b.piece, j))
    {
      assert BlockAt(s2.picker, PieceBlock(b.piece, j)) == BlockAt(s2.picker, PieceBlock(b.piece, j));
    }
    SameAllDl(s.picker, s2.picker, b.piece, size);
    HashIfComplete(s2, b.piece, size);
    assert BlockAt(s2.picker, b) == BlockAt(s.picker, b).Finish();
  }

  lemma HashIfComplete(s: State, i: nat, size: nat)
    requires Ready(s, size) && i < PieceCount(size)
    ensures QueuePieceHash(s, i) ==
            if AllDl(s.picker, i, size) && i !in s.pendingHash
            then Enqueue(s.(pendingHash := s.pendingHash + {i}), HashTask(i)) else s
  {
    if AllDl(s.picker, i, size) && i !in s.pendingHash {
      HashQueued(s, i, size);
    } else {
      NothingToHash(s, i, size);
    }
  }

  /** A completed restore finishes its block and has its piece in progress; no hash is queued. */
  lemma RestoreFinishes(s: State, size: nat, b: PieceBlock)
    requires SchedInv(s, size) && CanDeliver(s) && NextTask(s) == RestoreTask(b) && Enabled(s, Complete, size)
    ensures var t := DeliverHead(s);
            && BlockAt(t.picker, b).state == Finished && t.picker.status[b.piece] == Downloading
            && (forall i: nat :: i < |s.picker.status| && i != b.piece ==> t.picker.status[i] == s.picker.status[i])
            && (forall x: PieceBlock {:trigger BlockAt(t.picker, x)} :: x != b ==>
                BlockAt(t.picker, x) == BlockAt(s.picker, x))
            && t.disk.pending == s.disk.pending[1..] && t.pendingHash == s.pendingHash
  {
    WeHaveBlockKeeps(s.picker, b);
    var q := WeHaveBlock(s.picker, b);
    assert BlockAt(q, b) == BlockAt(s.picker, b).Finish();
  }

  // ---------------------------------------------------------------- connections

  /** A connection that asks waits for what it was given, every block of which is requested once more; no task is
      submitted and nobody else is affected. */
  lemma RequestAsks(s: State, c: nat, peer: Peer, speed: nat, available: seq<bool>, size: nat)
    requires SchedInv(s, size) && Waiting(s, c) == []
    ensures var t := RequestBlocks(s, c, peer, speed, available);
            && OtherQueues(s, t, c) && t.disk == s.disk && t.pendingHash == s.pendingHash && t.store == s.store
            && NoneTwice(Waiting(t, c)) && |Waiting(t, c)| <= REQUEST_QUEUE_SIZE
            && (forall x: PieceBlock {:trigger BlockAt(t.picker, x)} ::
                  x !in Waiting(t, c) ==> BlockAt(t.picker, x) == BlockAt(s.picker, x))
            && forall x: PieceBlock {:trigger x in Waiting(t, c)} :: x in Waiting(t, c) ==>
                 var (d, d') := (BlockAt(s.picker, x), BlockAt(t.picker, x));
                 d'.state == Requested && d'.downloaders == d.downloaders + 1 && d'.last == peer && d'.speed == speed
  {
    var t := RequestBlocks(s, c, peer, speed, available);
    var r := Pick(s.picker, REQUEST_QUEUE_SIZE, peer, speed, available);
    var a := Ask(peer, speed, speed != SLOW);
    PickSound(s.picker, REQUEST_QUEUE_SIZE, peer, speed, available);
    assert Took(s.picker, t.picker, r.1, a, available) && Waiting(t, c) == r.1;
    forall x: PieceBlock
      ensures BlockAt(t.picker, x) == if x in r.1 then BlockAt(s.picker, x).Request(peer, speed)
              else BlockAt(s.picker, x)
    {
    }
  }

  /** Somebody waits for the block, and nobody has delivered it. */
  predicate Wanted(s: State, b: PieceBlock) { InProgress(s.picker, b.piece) && !Dl(s.picker, b) }

  /** A delivered block is no longer waited for by that connection. If it was still wanted it is being written, with
      nobody counted for it, its write is submitted, and behind it the hash of the piece exactly when it was the last
      block. Otherwise nothing else changes. */
  lemma ReceiveTakes(s: State, c: nat, b: PieceBlock, buffer: Bytes, size: nat)
    requires Ready(s, size) && Enabled(s, Receive(c, b, buffer), size)
    ensures var t := ReceiveBlock(s, c, b, buffer);
            && OtherQueues(s, t, c) && (forall x :: x in Waiting(t, c) <==> x in Waiting(s, c) && x != b)
               && t.store == s.store
            && (!Wanted(s, b) ==> t.picker == s.picker && t.disk == s.disk && t.pendingHash == s.pendingHash)
            && (Wanted(s, b) ==>
                  && OnlyBlocks(s.picker, t.picker, {b})
                  && BlockAt(t.picker, b).state == Writing && BlockAt(t.picker, b).downloaders == 0
                  && if AllDl(t.picker, b.piece, size) && b.piece !in s.pendingHash
                     then t.disk.pending == s.disk.pending + [WriteTask(b, buffer), HashTask(b.piece)]
                          && t.pendingHash == s.pendingHash + {b.piece}
                     else t.disk.pending == s.disk.pending + [WriteTask(b, buffer)] && t.pendingHash == s.pendingHash)
  {
    var t1, t := Taken(s, c, b), ReceiveBlock(s, c, b, buffer);
    MarkAsWritingKeeps(s.picker, b);
    TakenReady(s, c, b, size);
    forall d: nat | d != c
      ensures Waiting(t, d) == Waiting(s, d)
    {
    }
    if Wanted(s, b) {
      var t2 := Enqueue(t1, WriteTask(b, buffer));
      NotYetFinished(s, b, size);
      FinishedIsAllDl(t2, b.piece, size);
      HashIfComplete(t2, b.piece, size);
      assert BlockAt(t1.picker, b) == BlockAt(s.picker, b).Write();
      WriteThenHash(s.disk.pending, WriteTask(b, buffer), HashTask(b.piece));
      StillNotHad(s, t2, b.piece, size);
    }
  }

  lemma WriteThenHash(pending: seq<Task>, w: Task, h: Task)
    ensures pending + [w] + [h] == pending + [w, h]
  {
  }

  lemma StillNotHad(s: State, t: State, i: nat, size: nat)
    requires Ready(s, size) && Ready(t, size) && i < PieceCount(size) && InProgress(s.picker, i)
             && t.picker.status == s.picker.status
    ensures t.picker.status[i] == Downloading
  {
  }

  /** A connection that leaves waits for nothing any more. Every block it waited for that is in progress has one
      downloader less, and is free when that was the last; nothing else changes. */
  lemma LeaveReleases(s: State, c: nat, peer: Peer, size: nat)
    requires Ready(s, size) && AllValid(s.picker, Waiting(s, c))
    ensures var t := Disconnect(s, c, peer);
            && OtherQueues(s, t, c) && Waiting(t, c) == [] && t.disk == s.disk && t.pendingHash == s.pendingHash
               && t.store == s.store
            && t.picker.status == s.picker.status
            && forall x: PieceBlock {:trigger BlockAt(t.picker, x)} ::
                 var (d, d') := (BlockAt(s.picker, x), BlockAt(t.picker, x));
                 if x in Waiting(s, c) && InProgress(s.picker, x.piece)
                 then d'.downloaders == (if d.downloaders > 0 then d.downloaders - 1 else 0)
                      && d'.state == (if d.downloaders <= 1 then Free else d.state)
                         && d'.last == (if d.last == peer then None else d.last)
                 else d' == d
  {
    if c in s.queues {
      assert NoneTwice(s.queues[c]);
    }
    AbortEachExactly(s.picker, Waiting(s, c), peer);
  }

  // ---------------------------------------------------------------- the disk

  ghost predicate Overwritten(file: Bytes, file': Bytes, r: Range, buffer: Bytes) {
    && 0 <= r.left && r.right - r.left == |buffer|
    && |file'| == (if r.right > |file| then r.right else |file|)
    && forall x {:trigger file'[x]} :: 0 <= x < |file'| ==>
         file'[x] == if r.left <= x < r.right then buffer[x - r.left] else if x < |file| then file[x] else 0
  }

  /** What task t does when the disk executes it in s: a write puts its bytes where the block lies, filling any gap
      before it with zeros, and touches no other byte; hashing and reading back leave the file alone. A hash is the hash
      of the blocks as they lie in the file. */
  ghost predicate Executed(t: Task, file: Bytes, file': Bytes, hash: Hash, size: nat, md4: Bytes -> Hash) {
    && (t.WriteTask? ==> Overwritten(file, file', BlockRange(t.block, size), t.buffer))
    && (!t.WriteTask? ==> file' == file)
    && (t.HashTask? ==> hash == md4(PieceData(file, size, t.piece, BlockCount(size, t.piece))))
  }

  /** Executing the head task records it, does to the file what the task is for, and touches nothing else. */
  lemma RunExecutes(s: State, size: nat, md4: Bytes -> Hash)
    requires Good(s, size, md4) && Enabled(s, RunTask, size)
    ensures var t := CallHead(s, size, md4);
            && t.picker == s.picker && t.queues == s.queues && t.pendingHash == s.pendingHash && t.hashSet == s.hashSet
            && t.log == s.log + [NextTask(s)] && t.disk == Fifo(s.disk.pending, true)
            && Executed(NextTask(s), s.store.file, t.store.file, t.hashResult, size, md4)
  {
    var task := NextTask(s);
    if task.WriteTask? {
      RunWrites(s, size, md4);
    } else if task.HashTask? {
      RunHashes(s, size, md4);
    }
  }

  lemma RunWrites(s: State, size: nat, md4: Bytes -> Hash)
    requires Good(s, size, md4) && Enabled(s, RunTask, size) && NextTask(s).WriteTask?
    ensures var t := CallHead(s, size, md4);
            Overwritten(s.store.file, t.store.file, BlockRange(NextTask(s).block, size), NextTask(s).buffer)
  {
    HeadMayRun(s, size);
    OffsetIsLeft(size, NextTask(s).block);
  }

  lemma RunHashes(s: State, size: nat, md4: Bytes -> Hash)
    requires Good(s, size, md4) && Enabled(s, RunTask, size) && NextTask(s).HashTask?
    ensures var (p, t) := (NextTask(s).piece, CallHead(s, size, md4));
            t.store.file == s.store.file && t.hashResult == md4(PieceData(s.store.file, size, p, BlockCount(size, p)))
  {
    HeadMayRun(s, size);
    var p := NextTask(s).piece;
    assert Stored(s.store, size, p, OpenBlocks(s.log, p));
    HashOfStored(s.store, size, p, OpenBlocks(s.log, p), md4);
  }
}
