/** Sessions one after the other: what a run saves at its end, a new transfer resumes from (transfer.go). */
module Resumption {
  import opened Geometry
  import opened Scheduler = BlockScheduler
  import opened PieceStore
  import opened DiskQueue
  import opened Pipeline
  import opened Schedule
  import opened Integrity
  import opened Outcomes
  import Policies
  import Resume

  // ---------------------------------------------------------------- what is saved

  lemma {:induction false} FinishedOfListed(d: DPiece, n: nat, b: PieceBlock)
    requires n <= |d.blocks|
    ensures b in Resume.FinishedOf(d, n) <==> b.piece == d.index && b.block < n && d.blocks[b.block].state == Finished
  {
    if n > 0 {
      FinishedOfListed(d, n - 1, b);
    }
  }

  lemma {:induction false} FinishedOfOnce(d: DPiece, n: nat)
    requires n <= |d.blocks|
    ensures NoDup(Resume.FinishedOf(d, n))
  {
    if n > 0 {
      FinishedOfOnce(d, n - 1);
      FinishedOfListed(d, n - 1, PieceBlock(d.index, n - 1));
    }
  }

  predicate Lists(ds: seq<DPiece>, b: PieceBlock) {
    exists k :: 0 <= k < |ds| && ds[k].index == b.piece && b.block < |ds[k].blocks|
      && ds[k].blocks[b.block].state == Finished
  }

  lemma {:induction false} FinishedListed(ds: seq<DPiece>, b: PieceBlock)
    ensures b in Resume.FinishedBlocks(ds) <==> Lists(ds, b)
  {
    if |ds| > 0 {
      var n := |ds| - 1;
      FinishedListed(ds[..n], b);
      FinishedOfListed(ds[n], |ds[n].blocks|, b);
      assert forall k :: 0 <= k < n ==> ds[..n][k] == ds[k];
    }
  }

  lemma {:induction false} NoneSavedTwice(ds: seq<DPiece>)
    requires Distinct(ds)
    ensures NoDup(Resume.FinishedBlocks(ds))
  {
    if |ds| > 0 {
      var n := |ds| - 1;
      var a, b := Resume.FinishedBlocks(ds[..n]), Resume.FinishedOf(ds[n], |ds[n].blocks|);
      NoneSavedTwice(ds[..n]);
      FinishedOfOnce(ds[n], |ds[n].blocks|);
      forall i | 0 <= i < |a|
        ensures a[i] !in b
      {
        FinishedListed(ds[..n], a[i]);
        FinishedOfListed(ds[n], |ds[n].blocks|, a[i]);
      }
      assert Resume.FinishedBlocks(ds) == a + b;
    }
  }

  /** The blocks saved are the finished ones. */
  lemma SavedAreFinished(p: Picker, b: PieceBlock)
    requires Inv(p)
    ensures b in Resume.FinishedBlocks(p.downloading) <==> BlockAt(p, b).state == Finished
    ensures BlockAt(p, b).state == Finished ==> p.Valid(b) && p.status[b.piece] == Downloading
  {
    FinishedListed(p.downloading, b);
    if Lists(p.downloading, b) {
      var k :| 0 <= k < |p.downloading| && p.downloading[k].index == b.piece && b.block < |p.downloading[k].blocks|
               && p.downloading[k].blocks[b.block].state == Finished;
      FindUnique(p.downloading, k);
    }
    if BlockAt(p, b).state == Finished {
      var k := Find(p.downloading, b.piece);
      assert EntryOk(p, p.downloading[k]);
    }
  }

  // ---------------------------------------------------------------- what is resumed

  function RestoreTasks(bs: seq<PieceBlock>): (ts: seq<Task>)
    ensures |ts| == |bs| && forall k {:trigger ts[k]} :: 0 <= k < |ts| ==> ts[k] == RestoreTask(bs[k])
  {
    seq(|bs|, k requires 0 <= k < |bs| => RestoreTask(bs[k]))
  }

  /** The transfer made from resume data: pieces had are taken over, every saved block is queued to be read back. */
  function Resumed(rd: Resume.ResumeData, blocksInLast: nat, file: Bytes): State {
    State(Resume.Restored(rd, blocksInLast), map[], {}, Fifo(RestoreTasks(rd.blocks), false), [], Store(file, map[]),
          rd.hashes, {}, [])
  }

  ghost predicate SavedInFile(p: Picker, file: Bytes, size: nat) {
    forall b: PieceBlock {:trigger BlockAt(p, b)} :: BlockAt(p, b).state == Finished ==> InFile(file, size, b)
  }

  /** The transfer that resumes from what s saves, with the file as it is found then. */
  function Successor(s: State, peers: seq<Policies.Peer>, file: Bytes): State {
    Resumed(Resume.Save(s.picker, s.hashSet, peers), s.picker.blocksInLast, file)
  }

  /** Resuming from what was saved gives a transfer from which runs start, exactly when all blocks saved are in the
      file. */
  lemma ResumedIsInit(s: State, size: nat, peers: seq<Policies.Peer>, file: Bytes)
    requires Inv(s.picker) && Fits(s, size)
    ensures Init(Successor(s, peers, file), size) <==> SavedInFile(s.picker, file, size)
  {
    var rd, t := Resume.Save(s.picker, s.hashSet, peers), Successor(s, peers, file);
    NoneSavedTwice(s.picker.downloading);
    forall k | 0 <= k < |rd.blocks|
      ensures Restorable(t, t.disk.pending[k], size) <==> InFile(file, size, rd.blocks[k])
    {
      SavedAreFinished(s.picker, rd.blocks[k]);
    }
    if SavedInFile(s.picker, file, size) {
      forall k | 0 <= k < |t.disk.pending|
        ensures Restorable(t, t.disk.pending[k], size)
      {
        SavedAreFinished(s.picker, rd.blocks[k]);
        assert InFile(file, size, rd.blocks[k]) <== BlockAt(s.picker, rd.blocks[k]).state == Finished;
      }
    }
    if Init(t, size) {
      forall b: PieceBlock | BlockAt(s.picker, b).state == Finished
        ensures InFile(file, size, b)
      {
        SavedAreFinished(s.picker, b);
        var k :| 0 <= k < |rd.blocks| && rd.blocks[k] == b;
        assert Restorable(t, t.disk.pending[k], size);
      }
    }
  }

  // ---------------------------------------------------------------- finished blocks are in the file

  ghost predicate Kept(s: State, size: nat) { LogInFile(s, size) && SavedInFile(s.picker, s.store.file, size) }

  lemma FinishedBefore(p: Picker, q: Picker, file: Bytes, size: nat)
    requires SavedInFile(p, file, size)
    requires forall b: PieceBlock {:trigger BlockAt(q, b)} :: BlockAt(q, b).state == Finished ==>
             BlockAt(p, b).state == Finished || InFile(file, size, b)
    ensures SavedInFile(q, file, size)
  {
    forall b: PieceBlock | BlockAt(q, b).state == Finished
      ensures InFile(file, size, b)
    {
      assert BlockAt(p, b) == BlockAt(p, b);
    }
  }

  lemma CompleteKeeps(s: State, size: nat)
    requires SchedInv(s, size) && Enabled(s, Complete, size) && HeadLogged(s) && Kept(s, size)
    ensures SavedInFile(DeliverHead(s).picker, s.store.file, size)
  {
    var q := DeliverHead(s).picker;
    assert s.log[|s.log| - 1] == NextTask(s);
    match NextTask(s)
    case WriteTask(b, _) =>
      CompleteWriteKeepsSchedule(s, size);
      MarkAsFinishedKeeps(s.picker, b);
      assert InFile(s.store.file, size, b);
    case HashTask(i) => CloseKeeps(s.picker, i, if q.status[i] == Have then Have else Missing);
    case RestoreTask(b) =>
      WeHaveBlockKeeps(s.picker, b);
      assert InFile(s.store.file, size, b);
    FinishedBefore(s.picker, q, s.store.file, size);
  }

  lemma ReceiveKeeps(s: State, c: nat, b: PieceBlock, buffer: Bytes, size: nat)
    requires Inv(s.picker) && s.picker.Valid(b) && SavedInFile(s.picker, s.store.file, size)
    ensures SavedInFile(ReceiveBlock(s, c, b, buffer).picker, s.store.file, size)
  {
    MarkAsWritingKeeps(s.picker, b);
    FinishedBefore(s.picker, MarkAsWriting(s.picker, b).0, s.store.file, size);
  }

  lemma RequestKeeps(s: State, c: nat, peer: Scheduler.Peer, speed: nat, available: seq<bool>, size: nat)
    requires Inv(s.picker) && SavedInFile(s.picker, s.store.file, size)
    ensures SavedInFile(RequestBlocks(s, c, peer, speed, available).picker, s.store.file, size)
  {
    PickSound(s.picker, REQUEST_QUEUE_SIZE, peer, speed, available);
    var q := Pick(s.picker, REQUEST_QUEUE_SIZE, peer, speed, available).0;
    FinishedBefore(s.picker, q, s.store.file, size);
  }

  lemma RunKeeps(s: State, size: nat, md4: Bytes -> Hash)
    requires SchedInv(s, size) && Enabled(s, RunTask, size) && Kept(s, size)
    ensures Kept(CallHead(s, size, md4), size)
  {
    var t := CallHead(s, size, md4);
    HeadMayRun(s, size);
    RunLogs(s, size, md4);
    forall b: PieceBlock | BlockAt(t.picker, b).state == Finished
      ensures InFile(t.store.file, size, b)
    {
      assert BlockAt(s.picker, b) == BlockAt(t.picker, b);
    }
  }

  lemma EventKeeps(s: State, e: Event, size: nat, md4: Bytes -> Hash)
    requires Good(s, size, md4) && Enabled(s, e, size) && Kept(s, size)
    ensures Kept(Next(s, e, size, md4), size)
  {
    match e
    case Request(c, peer, speed, available) => RequestKeeps(s, c, peer, speed, available, size);
    case Receive(c, b, buffer) => ReceiveKeeps(s, c, b, buffer, size);
    case Leave(c, peer) =>
      DisconnectReady(s, c, peer, size);
      AbortEachFrees(s.picker, Waiting(s, c), peer);
      FinishedBefore(s.picker, Disconnect(s, c, peer).picker, s.store.file, size);
    case RunTask => RunKeeps(s, size, md4);
    case Complete =>
      CompleteKeeps(s, size);
      CompleteGrows(s, size);
    case LearnHashes(_, _) =>
  }

  lemma {:induction false} RunKept(ss: seq<State>, es: seq<Event>, size: nat, md4: Bytes -> Hash, k: nat)
    requires CleanRun(ss, es, size, md4) && k < |ss|
    ensures Kept(ss[k], size)
  {
    if k > 0 {
      RunKept(ss, es, size, md4, k - 1);
      RunGood(ss, es, size, md4, k - 1);
      var e := es[k - 1];
      EventKeeps(ss[k - 1], e, size, md4);
    }
  }

  // ---------------------------------------------------------------- the next session

  lemma EventLengthens(s: State, e: Event, size: nat, md4: Bytes -> Hash)
    requires Good(s, size, md4) && Enabled(s, e, size) && Kept(s, size)
    ensures |s.store.file| <= |Next(s, e, size, md4).store.file|
  {
    if e.RunTask? {
      HeadMayRun(s, size);
      RunLogs(s, size, md4);
    } else if e.Complete? {
      CompleteGrows(s, size);
    } else {
      QuietShape(s, e, size, md4);
    }
  }

  lemma StepLengthens(ss: seq<State>, es: seq<Event>, size: nat, md4: Bytes -> Hash, k: nat)
    requires CleanRun(ss, es, size, md4) && k < |es|
    ensures |ss[k].store.file| <= |ss[k + 1].store.file|
  {
    var e := es[k];
    RunGood(ss, es, size, md4, k);
    RunKept(ss, es, size, md4, k);
    EventLengthens(ss[k], e, size, md4);
  }

  lemma {:induction false} FileLengthens(ss: seq<State>, es: seq<Event>, size: nat, md4: Bytes -> Hash, i: nat, j: nat)
    requires CleanRun(ss, es, size, md4) && i <= j < |ss|
    ensures |ss[i].store.file| <= |ss[j].store.file|
    decreases j - i
  {
    if i < j {
      FileLengthens(ss, es, size, md4, i, j - 1);
      StepLengthens(ss, es, size, md4, j - 1);
    }
  }

  lemma StillInFile(p: Picker, file: Bytes, file': Bytes, size: nat)
    requires SavedInFile(p, file, size) && |file| <= |file'|
    ensures SavedInFile(p, file', size)
  {
    forall b: PieceBlock | BlockAt(p, b).state == Finished
      ensures InFile(file', size, b)
    {
      assert InFile(file, size, b);
    }
  }

  /** What a clean run saves at any moment can be resumed, from the file as the run leaves it at that moment or at any
      later one: the new transfer is one from which runs start. */
  lemma SessionsFollow(ss: seq<State>, es: seq<Event>, size: nat, md4: Bytes -> Hash, peers: seq<Policies.Peer>, i: nat,
                       j: nat)
    requires CleanRun(ss, es, size, md4) && i <= j < |ss|
    ensures var t := Successor(ss[i], peers, ss[j].store.file);
            Init(t, size) && t.store.file == ss[j].store.file && t.hashSet == ss[i].hashSet && forall p: nat ::
              Had(t, p) <==> Had(ss[i], p)
  {
    RunGood(ss, es, size, md4, i);
    RunKept(ss, es, size, md4, i);
    FileLengthens(ss, es, size, md4, i, j);
    StillInFile(ss[i].picker, ss[i].store.file, ss[j].store.file, size);
    ResumedIsInit(ss[i], size, peers, ss[j].store.file);
  }

  lemma SameBytes(file: Bytes, file': Bytes, size: nat, p: nat)
    requires SamePiece(file, file', p) && p * PIECE_SIZE + PieceSize(size, p) <= |file|
    ensures |file| <= |file'|
    ensures file'[p * PIECE_SIZE..p * PIECE_SIZE + PieceSize(size, p)] ==
            file[p * PIECE_SIZE..p * PIECE_SIZE + PieceSize(size, p)]
  {
    assert PieceSize(size, p) <= PIECE_SIZE;
  }

  /** A piece checked in one session when it was saved is had, with the bytes its hash asks for, throughout the next,
      whichever later state of the first session the next one finds the file in. */
  lemma IntactAcrossSessions(ss: seq<State>, es: seq<Event>, i: nat, j: nat, ss': seq<State>, es': seq<Event>, k: nat,
                             size: nat,
                             md4: Bytes -> Hash, peers: seq<Policies.Peer>, p: nat)
    requires CleanRun(ss, es, size, md4) && i <= j < |ss| && p in ss[i].verified && FullyBlocked(size, p)
    requires CleanRun(ss', es', size, md4) && k < |ss'| && ss'[0] == Successor(ss[i], peers, ss[j].store.file)
    ensures Intact(ss'[k], size, md4, p) && ss'[k].hashSet == ss[i].hashSet
  {
    PiecesAreIntact(ss, es, size, md4, i, p);
    HaveIsFrozen(ss, es, size, md4, p, i, j);
    SameBytes(ss[i].store.file, ss[j].store.file, size, p);
    assert Had(ss'[0], p);
    HaveIsFrozen(ss', es', size, md4, p, 0, k);
    HashSetStays(ss', es', size, md4, k);
    SameBytes(ss'[0].store.file, ss'[k].store.file, size, p);
  }

  // ---------------------------------------------------------------- pieces saved while their hash is pending

  ghost predicate AllFinished(p: Picker, size: nat, i: nat) {
    forall j: nat {:trigger PieceBlock(i, j)} :: j < BlockCount(size, i) ==>
      BlockAt(p, PieceBlock(i, j)).state == Finished
  }

  lemma SavedIsRestored(s: State, peers: seq<Policies.Peer>, file: Bytes, size: nat, p: nat)
    requires Inv(s.picker)
    ensures AllRestored(Successor(s, peers, file).disk.pending, size, p) <==> AllFinished(s.picker, size, p)
  {
    var blocks, pending := Resume.FinishedBlocks(s.picker.downloading), Successor(s, peers, file).disk.pending;
    forall j: nat | j < BlockCount(size, p)
      ensures RestoreTask(PieceBlock(p, j)) in pending <==> BlockAt(s.picker, PieceBlock(p, j)).state == Finished
    {
      SavedAreFinished(s.picker, PieceBlock(p, j));
      if PieceBlock(p, j) in blocks {
        var k :| 0 <= k < |blocks| && blocks[k] == PieceBlock(p, j);
        assert pending[k] == RestoreTask(PieceBlock(p, j));
      }
      if RestoreTask(PieceBlock(p, j)) in pending {
        var k :| 0 <= k < |pending| && pending[k] == RestoreTask(PieceBlock(p, j));
        assert blocks[k] in blocks;
      }
    }
  }

  /** A piece saved with all its blocks finished, for its hash had not completed yet, is lost to the next session: in
      no clean run of the resumed transfer is it ever hashed or had. */
  lemma CompletePieceIsStuck(s: State, peers: seq<Policies.Peer>, file: Bytes, ss: seq<State>, es: seq<Event>,
                             size: nat,
                             md4: Bytes -> Hash, p: nat)
    requires Inv(s.picker) && p < PieceCount(size) && AllFinished(s.picker, size, p)
    requires CleanRun(ss, es, size, md4) && ss[0] == Successor(s, peers, file)
    ensures !Had(ss[|es|], p) && HashTask(p) !in History(ss[|es|])
  {
    SavedIsRestored(s, peers, file, size, p);
    FullyRestoredNeverHad(ss, es, size, md4, p);
  }

  /** And only such pieces are: when nothing is queued for a piece any more, it is complete and still not had if and
      only if it was saved with all its blocks finished. */
  lemma SavedStuckExactly(s: State, peers: seq<Policies.Peer>, file: Bytes, ss: seq<State>, es: seq<Event>, size: nat,
                          md4: Bytes -> Hash, p: nat)
    requires Inv(s.picker) && p < PieceCount(size)
    requires CleanRun(ss, es, size, md4) && ss[0] == Successor(s, peers, file) && !Concerns(ss[|es|].disk.pending, 0, p)
    ensures p < |ss[|es|].picker.status|
    ensures ss[|es|].picker.status[p] == Downloading && AllDownloaded(ss[|es|].picker, p) <==>
            AllFinished(s.picker, size, p)
  {
    SavedIsRestored(s, peers, file, size, p);
    StuckExactly(ss, es, size, md4, p);
  }
}
