/** Runs of a file of one block: the smallest inputs on which each failure of the download shows. */
module OneBlock {
  import opened Wrappers
  import opened Geometry
  import opened Scheduler = BlockScheduler
  import opened PieceStore
  import opened DiskQueue
  import opened Pipeline
  import opened Schedule
  import opened Reach

  /** Sizes of which one block is asked for: at most a block, or exactly a piece, whose other blocks are never asked
      for. */
  predicate OneBlockSize(size: nat) { 0 < size <= BLOCK_SIZE || size == PIECE_SIZE }

  function OnlySize(size: nat): nat { if size < BLOCK_SIZE then size else BLOCK_SIZE }

  const ONLY: PieceBlock := PieceBlock(0, 0)

  function Untouched(): Picker { Picker([Missing], [], 1) }

  function Started(d: DBlock): Picker { Picker([Downloading], [DPiece(0, [d])], 1) }

  function Done(): Picker { Picker([Have], [], 1) }

  lemma OneBlockGeometry(size: nat)
    requires OneBlockSize(size)
    ensures PieceCount(size) == 1 && BlocksInLastPiece(size) == 1 && BlockCount(size, 0) == 1
    ensures BlockSize(ONLY, size) == OnlySize(size) && Offset(ONLY) == 0 && ValidBlock(size, ONLY)
    ensures PieceSize(size, 0) == size
  {
  }

  lemma StartedInv(d: DBlock)
    requires d.Consistent()
    ensures Inv(Started(d)) && Started(d).Valid(ONLY) && BlockAt(Started(d), ONLY) == d && InProgress(Started(d), 0)
    ensures IsPieceFinished(Started(d), 0) == d.Downloaded()
  {
    var p := Started(d);
    assert Find(p.downloading, 0) == 0;
    assert EntryOk(p, p.downloading[0]);
    assert [d][..0] == [];
    assert CountState([d], Finished) == (if d.state == Finished then 1 else 0);
    assert CountState([d], Writing) == (if d.state == Writing then 1 else 0);
  }

  lemma PickFromOne(d: DBlock, order: nat, a: Ask)
    requires order > 0
    ensures PickFrom(DPiece(0, [d]), 0, order, a) ==
            if Pickable(d, a) then (DPiece(0, [d.Request(a.peer, a.speed)]), [ONLY]) else (DPiece(0, [d]), [])
  {
    var p := DPiece(0, [d]);
    if Pickable(d, a) {
      var p' := p.(blocks := p.blocks[0 := d.Request(a.peer, a.speed)]);
      assert p' == DPiece(0, [d.Request(a.peer, a.speed)]);
      assert PickFrom(p', 1, order - 1, a) == (p', []);
      assert [PieceBlock(p.index, 0)] + [] == [ONLY];
    } else {
      assert PickFrom(p, 1, order, a) == (p, []);
    }
  }

  lemma AddFromOne(d: DBlock, order: nat, a: Ask)
    requires order > 0
    ensures AddFrom([DPiece(0, [d])], 0, order, a, []) ==
            if Pickable(d, a) then ([DPiece(0, [d.Request(a.peer, a.speed)])], [ONLY]) else ([DPiece(0, [d])], [])
  {
    var ps := [DPiece(0, [d])];
    PickFromOne(d, order, a);
    var got := PickFrom(ps[0], 0, order, a);
    var rest := if |got.1| < order then order - |got.1| else 0;
    assert AddFrom(ps[0 := got.0], 1, rest, a, []) == (ps[0 := got.0], []);
    assert ps[0 := got.0] == [got.0] && got.1 + [] == got.1;
  }

  lemma RoundOne(d: DBlock, peer: Peer, speed: nat)
    requires d.Consistent() && Pickable(d, Ask(peer, speed, speed != SLOW))
    ensures Round(Started(d), REQUEST_QUEUE_SIZE, peer, speed, []) == (Started(d.Request(peer, speed)), [ONLY])
  {
    var n := REQUEST_QUEUE_SIZE;
    AddFromOne(d, n, Ask(peer, speed, false));
    var r1 := AddFrom(Started(d).downloading, 0, n, Ask(peer, speed, false), []);
    var p1 := Started(d).(downloading := r1.0);
    if d.state == Free {
      AddFromOne(d.Request(peer, speed), n - 1, Ask(peer, speed, true));
    } else {
      AddFromOne(d, n, Ask(peer, speed, true));
    }
    assert NumHave([Downloading]) == NumHave([]) + 0;
    assert IsEndGame(p1);
    assert [ONLY] + [] == [ONLY] == [] + [ONLY];
  }

  lemma GoOnOne(d: DBlock, peer: Peer, speed: nat)
    ensures GoOn(Started(d), [ONLY], REQUEST_QUEUE_SIZE, peer, speed, []) == (Started(d), [ONLY])
  {
    assert NextMissing(Started(d), 0, []) == 1;
  }

  /** Asking again for a block that may be asked for. */
  lemma PickStarted(d: DBlock, peer: Peer, speed: nat)
    requires d.Consistent() && Pickable(d, Ask(peer, speed, speed != SLOW))
    ensures Pick(Started(d), REQUEST_QUEUE_SIZE, peer, speed, []) == (Started(d.Request(peer, speed)), [ONLY])
  {
    RoundOne(d, peer, speed);
    GoOnOne(d.Request(peer, speed), peer, speed);
  }

  /** The first request of a slow peer. */
  lemma PickUntouched(peer: Peer)
    ensures Pick(Untouched(), REQUEST_QUEUE_SIZE, peer, SLOW, []) == (Started(FRESH.Request(peer, SLOW)), [ONLY])
  {
    var p := Untouched();
    var r := Round(p, REQUEST_QUEUE_SIZE, peer, SLOW, []);
    assert r == (p, []);
    assert NextMissing(p, 0, []) == 0;
    assert NewPiece(p, 0) == DPiece(0, [FRESH]);
    assert Open(p, 0) == Started(FRESH);
    PickStarted(FRESH, peer, SLOW);
    assert [] + [ONLY] == [ONLY];
  }

  // ---------------------------------------------------------------- events: what each leads to

  lemma AskFirst(s0: State, s: State, c: nat, peer: Peer, size: nat, md4: Bytes -> Hash, clean: bool)
    requires Leads(s0, s, size, md4, clean) && OneBlockSize(size) && s.picker == Untouched() && Waiting(s, c) == []
    ensures Leads(s0, s.(picker := Started(FRESH.Request(peer, SLOW)), queues := s.queues[c := [ONLY]]), size, md4,
                  clean)
  {
    OneBlockGeometry(size);
    PickUntouched(peer);
    RunContinues(s0, s, Request(c, peer, SLOW, []), size, md4, clean);
  }

  lemma AskAgain(s0: State, s: State, d: DBlock, c: nat, peer: Peer, speed: nat, size: nat, md4: Bytes -> Hash,
                 clean: bool)
    requires Leads(s0, s, size, md4, clean) && OneBlockSize(size) && s.picker == Started(d) && Waiting(s, c) == []
    requires d.Consistent() && Pickable(d, Ask(peer, speed, speed != SLOW))
    ensures Leads(s0, s.(picker := Started(d.Request(peer, speed)), queues := s.queues[c := [ONLY]]), size, md4, clean)
  {
    OneBlockGeometry(size);
    StartedInv(d);
    PickStarted(d, peer, speed);
    RunContinues(s0, s, Request(c, peer, speed, []), size, md4, clean);
  }

  lemma MarkStarted(d: DBlock)
    requires d.Consistent() && !d.Downloaded()
    ensures Inv(Started(d)) && Started(d).Valid(ONLY) && MarkAsWriting(Started(d), ONLY) == (Started(d.Write()), true)
  {
    StartedInv(d);
    assert [d][0 := d.Write()] == [d.Write()];
    assert Started(d).downloading[0 := DPiece(0, [d.Write()])] == [DPiece(0, [d.Write()])];
  }

  /** The block arrives: it is written, and its hash queued unless one is pending. */
  lemma Arriving(s: State, d: DBlock, c: nat, data: Bytes, size: nat)
    requires OneBlockSize(size) && s.picker == Started(d) && d.Consistent() && !d.Downloaded()
    requires Waiting(s, c) == [ONLY] && |data| == OnlySize(size)
    ensures Enabled(s, Receive(c, ONLY, data), size)
            && (Clean(s, Receive(c, ONLY, data)) <==> RestoreTask(ONLY) !in s.disk.pending)
    ensures var t := s.(picker := Started(d.Write()), queues := s.queues[c := []],
                        disk := FifoSubmit(s.disk, WriteTask(ONLY, data)));
            ReceiveBlock(s, c, ONLY, data) ==
              if 0 in s.pendingHash then t
                else t.(pendingHash := t.pendingHash + {0}, disk := FifoSubmit(t.disk, HashTask(0)))
  {
    OneBlockGeometry(size);
    StartedInv(d);
    StartedInv(d.Write());
    MarkStarted(d);
    assert Except([ONLY], ONLY) == [] by {
      assert [ONLY][..0] == [];
    }
  }

  lemma Arrives(s0: State, s: State, d: DBlock, c: nat, data: Bytes, size: nat, md4: Bytes -> Hash, clean: bool)
    requires Leads(s0, s, size, md4, clean) && OneBlockSize(size) && s.picker == Started(d) && d.Consistent()
             && !d.Downloaded()
    requires Waiting(s, c) == [ONLY] && |data| == OnlySize(size) && (clean ==> RestoreTask(ONLY) !in s.disk.pending)
    ensures var t := s.(picker := Started(d.Write()), queues := s.queues[c := []],
                        disk := FifoSubmit(s.disk, WriteTask(ONLY, data)));
            Leads(s0, if 0 in s.pendingHash then t
                  else t.(pendingHash := t.pendingHash + {0}, disk := FifoSubmit(t.disk, HashTask(0))),
                  size, md4, clean)
  {
    Arriving(s, d, c, data, size);
    RunContinues(s0, s, Receive(c, ONLY, data), size, md4, clean);
  }

  lemma Departs(s0: State, s: State, d: DBlock, c: nat, peer: Peer, size: nat, md4: Bytes -> Hash)
    requires Leads(s0, s, size, md4, false) && OneBlockSize(size) && s.picker == Started(d) && d.Consistent()
             && Waiting(s, c) == [ONLY]
    ensures Enabled(s, Leave(c, peer), size) && (Clean(s, Leave(c, peer)) <==> !d.Downloaded() || d.downloaders > 1)
    ensures Disconnect(s, c, peer) == s.(picker := Started(d.Abort(peer)), queues := s.queues - {c})
    ensures Leads(s0, Disconnect(s, c, peer), size, md4, false)
  {
    OneBlockGeometry(size);
    StartedInv(d);
    var q := AbortDownload(Started(d), ONLY, peer);
    assert Started(d).downloading[0].(blocks := [d][0 := d.Abort(peer)]) == DPiece(0, [d.Abort(peer)]);
    assert q == Started(d.Abort(peer));
    AbortDownloadKeeps(Started(d), ONLY, peer);
    assert AbortEach(Started(d), [ONLY], peer) == AbortEach(q, [ONLY][1..], peer);
    RunContinues(s0, s, Leave(c, peer), size, md4, false);
  }

  /** The one block has a slot in its manager. */
  predicate Fitting(s: State, size: nat) {
    && OneBlockSize(size) && Inv(s.picker) && Fits(s, size)
    && (0 in s.store.mgrs ==> |s.store.mgrs[0].buffers| == 1)
  }

  lemma Manages(store: Store, size: nat)
    requires OneBlockSize(size) && (0 in store.mgrs ==> |store.mgrs[0].buffers| == 1)
    ensures |Manager(store, size, 0).buffers| == 1
  {
    OneBlockGeometry(size);
  }

  lemma Writes(s0: State, s: State, data: Bytes, rest: seq<Task>, size: nat, md4: Bytes -> Hash, clean: bool)
    requires Leads(s0, s, size, md4, clean) && Fitting(s, size) && s.disk == Fifo([WriteTask(ONLY, data)] + rest, false)
    ensures |Manager(s.store, size, 0).buffers| == 1
    ensures var m := Register(Manager(s.store, size, 0), 0, data).0;
            Leads(s0, s.(disk := Fifo([WriteTask(ONLY, data)] + rest, true), log := s.log + [WriteTask(ONLY, data)],
                         store := Store(WriteAt(s.store.file, 0, data), s.store.mgrs[0 := m])), size, md4, clean)
  {
    OneBlockGeometry(size);
    Manages(s.store, size);
    RunContinues(s0, s, RunTask, size, md4, clean);
  }

  lemma ReadsAll(file: Bytes, size: nat)
    requires OneBlockSize(size) && |file| == OnlySize(size)
    ensures InFile(file, size, ONLY) && Slice(file, size, ONLY) == file
  {
    OneBlockGeometry(size);
    assert file[0..OnlySize(size)] == file;
  }

  lemma Reads(s0: State, s: State, rest: seq<Task>, size: nat, md4: Bytes -> Hash, clean: bool)
    requires Leads(s0, s, size, md4, clean) && Fitting(s, size) && s.disk == Fifo([RestoreTask(ONLY)] + rest, false)
    requires |s.store.file| == OnlySize(size)
    ensures |Manager(s.store, size, 0).buffers| == 1
    ensures var m := Register(Manager(s.store, size, 0), 0, s.store.file).0;
            Leads(s0, s.(disk := Fifo([RestoreTask(ONLY)] + rest, true), log := s.log + [RestoreTask(ONLY)],
                         store := s.store.(mgrs := s.store.mgrs[0 := m])), size, md4, clean)
  {
    OneBlockGeometry(size);
    Manages(s.store, size);
    ReadsAll(s.store.file, size);
    assert CanCall(s) && NextTask(s) == RestoreTask(ONLY);
    RunContinues(s0, s, RunTask, size, md4, clean);
  }

  lemma Hashes(s0: State, s: State, rest: seq<Task>, size: nat, md4: Bytes -> Hash, clean: bool)
    requires Leads(s0, s, size, md4, clean) && Fitting(s, size) && s.disk == Fifo([HashTask(0)] + rest, false)
    ensures Leads(s0, s.(disk := Fifo([HashTask(0)] + rest, true), log := s.log + [HashTask(0)],
                         store := s.store.(mgrs := s.store.mgrs - {0}), hashResult :=
                           md4(Manager(s.store, size, 0).hashed)), size, md4, clean)
  {
    RunContinues(s0, s, RunTask, size, md4, clean);
  }

  lemma FinishStarted(d: DBlock)
    requires d.Consistent()
    ensures Inv(Started(d)) && Started(d).Valid(ONLY)
            && MarkAsFinished(Started(d), ONLY) == Started(d.Finish()) == WeHaveBlock(Started(d), ONLY)
  {
    StartedInv(d);
    assert Started(d).downloading[0].(blocks := [d][0 := d.Finish()]) == DPiece(0, [d.Finish()]);
  }

  /** A write completes while the hash is pending, or a restore. */
  lemma Completes(s0: State, s: State, d: DBlock, t: Task, rest: seq<Task>, size: nat, md4: Bytes -> Hash, clean: bool)
    requires Leads(s0, s, size, md4, clean) && OneBlockSize(size) && s.picker == Started(d) && d.Consistent()
    requires !t.HashTask? && t.block == ONLY && (t.WriteTask? ==> 0 in s.pendingHash)
             && s.disk == Fifo([t] + rest, true)
    ensures Leads(s0, s.(picker := Started(d.Finish()), disk := Fifo(rest, false)), size, md4, clean)
  {
    OneBlockGeometry(size);
    FinishStarted(d);
    assert ([t] + rest)[1..] == rest;
    RunContinues(s0, s, Complete, size, md4, clean);
  }

  lemma RestoreUntouched()
    ensures Inv(Untouched()) && Untouched().Valid(ONLY) && WeHaveBlock(Untouched(), ONLY) == Started(FRESH.Finish())
  {
    assert NewPiece(Untouched(), 0) == DPiece(0, [FRESH]);
    assert Open(Untouched(), 0) == Started(FRESH);
    StartedInv(FRESH);
    assert Started(FRESH).downloading[0].(blocks := [FRESH][0 := FRESH.Finish()]) == DPiece(0, [FRESH.Finish()]);
  }

  /** The restore of a piece that nobody has asked for completes. */
  lemma RestoreStarts(s0: State, s: State, size: nat, md4: Bytes -> Hash, clean: bool)
    requires Leads(s0, s, size, md4, clean) && OneBlockSize(size) && s.picker == Untouched()
             && s.disk == Fifo([RestoreTask(ONLY)], true)
    ensures Leads(s0, s.(picker := Started(FRESH.Finish()), disk := Fifo([], false)), size, md4, clean)
  {
    OneBlockGeometry(size);
    RestoreUntouched();
    assert [RestoreTask(ONLY)][1..] == [];
    RunContinues(s0, s, Complete, size, md4, clean);
  }

  /** The hash completes and matches, or is not to be compared: the piece is had. */
  lemma Accepted(s0: State, s: State, d: DBlock, rest: seq<Task>, size: nat, md4: Bytes -> Hash, clean: bool)
    requires Leads(s0, s, size, md4, clean) && OneBlockSize(size) && s.picker == Started(d) && d.Consistent()
    requires s.disk == Fifo([HashTask(0)] + rest, true) && (0 < |s.hashSet| ==> s.hashSet[0] == s.hashResult)
    ensures Leads(s0, s.(picker := Done(), disk := Fifo(rest, false), pendingHash := s.pendingHash - {0},
                         verified := if 0 < |s.hashSet| then s.verified + {0} else s.verified), size, md4, clean)
  {
    OneBlockGeometry(size);
    StartedInv(d);
    assert [DPiece(0, [d])][..0] == [];
    assert Scheduler.Without([DPiece(0, [d])], 0) == [];
    assert [Downloading][0 := Have] == [Have];
    assert ([HashTask(0)] + rest)[1..] == rest;
    RunContinues(s0, s, Complete, size, md4, clean);
  }

  /** What was registered first is hashed; registering the block again changes nothing of it. */
  lemma RegisteredOnce(x: Bytes, y: Bytes, m: BlockMgr)
    requires m == NewBlockMgr(1)
    ensures var m1 := Register(m, 0, x).0; |m1.buffers| == 1 && m1.hashed == x
    ensures var m1 := Register(m, 0, x).0;
            |m1.buffers| == 1 && Register(m1, 0, y).0.hashed == x && |Register(m1, 0, y).0.buffers| == 1
  {
    var m0 := m.(buffers := m.buffers[0 := Some(x)]);
    assert [] + x == x;
    var f := BlockMgr(m0.lastHashed + 1, m0.buffers[0 := None], m0.hashed + x);
    assert Flush(f, 1) == (f, []);
    assert Flush(m0, 0).0 == f;
  }
}
