/** How a piece comes to be had: always by the completion of its own hash task, checked exactly when the hash set
    reaches that far, and never when all of its blocks came from resume data (transfer.go). */
module Outcomes {
  import opened Geometry
  import opened Scheduler = BlockScheduler
  import opened PieceStore
  import opened DiskQueue
  import opened Pipeline
  import opened Schedule
  import opened Integrity

  predicate Had(s: State, p: nat) { p < |s.picker.status| && s.picker.status[p] == Have }

  // ---------------------------------------------------------------- acceptance

  lemma CompleteAccepts(s: State, size: nat, p: nat)
    requires SchedInv(s, size) && Enabled(s, Complete, size) && !Had(s, p) && Had(DeliverHead(s), p)
    ensures NextTask(s) == HashTask(p)
  {
    match NextTask(s)
    case WriteTask(b, _) => CompleteWriteKeepsSchedule(s, size);
    case HashTask(_) =>
    case RestoreTask(_) =>
  }

  /** A piece comes to be had by the completion of its hash task and by nothing else. */
  lemma OnlyHashAccepts(s: State, e: Event, size: nat, md4: Bytes -> Hash, p: nat)
    requires SchedInv(s, size) && Enabled(s, e, size) && !Had(s, p) && Had(Next(s, e, size, md4), p)
    ensures e.Complete? && NextTask(s) == HashTask(p)
  {
    match e
    case Request(c, peer, speed, available) => PickSound(s.picker, REQUEST_QUEUE_SIZE, peer, speed, available);
    case Receive(_, _, _) =>
    case Leave(c, peer) => DisconnectReady(s, c, peer, size);
    case RunTask =>
    case Complete => CompleteAccepts(s, size, p);
    case LearnHashes(_, _) =>
  }

  ghost predicate AcceptedAt(ss: seq<State>, es: seq<Event>, k: nat, p: nat)
    requires |ss| == |es| + 1
  {
    && k < |es| && es[k].Complete? && CanDeliver(ss[k]) && NextTask(ss[k]) == HashTask(p)
    && !Had(ss[k], p) && Had(ss[k + 1], p)
  }

  lemma {:induction false} Acceptance(ss: seq<State>, es: seq<Event>, size: nat, md4: Bytes -> Hash, p: nat, n: nat)
    returns (k: nat)
    requires CleanRun(ss, es, size, md4) && n < |ss| && !Had(ss[0], p) && Had(ss[n], p)
    ensures k < n && AcceptedAt(ss, es, k, p)
  {
    if Had(ss[n - 1], p) {
      k := Acceptance(ss, es, size, md4, p, n - 1);
    } else {
      k := n - 1;
      var e := es[k];
      RunGood(ss, es, size, md4, k);
      OnlyHashAccepts(ss[k], e, size, md4, p);
    }
  }

  lemma CompleteChecks(s: State, size: nat, p: nat)
    requires SchedInv(s, size) && Enabled(s, Complete, size) && Had(s, p)
    ensures var t := DeliverHead(s); (p in t.verified <==> p in s.verified) && t.hashSet == s.hashSet
  {
    match NextTask(s)
    case WriteTask(_, _) => CompleteWriteKeepsSchedule(s, size);
    case HashTask(_) => HashedInProgress(s, size);
    case RestoreTask(_) =>
  }

  /** For a piece that is had, the record of having been checked is final. */
  lemma CheckedForGood(s: State, e: Event, size: nat, md4: Bytes -> Hash, p: nat)
    requires SchedInv(s, size) && Enabled(s, e, size) && Had(s, p)
    ensures p in Next(s, e, size, md4).verified <==> p in s.verified
  {
    if e.Complete? {
      CompleteChecks(s, size, p);
    } else if Quiet(e) {
      QuietShape(s, e, size, md4);
    }
  }

  lemma {:induction false} CheckedThrough(ss: seq<State>, es: seq<Event>, size: nat, md4: Bytes -> Hash, p: nat, i: nat,
                                          j: nat)
    requires CleanRun(ss, es, size, md4) && i <= j < |ss| && Had(ss[i], p)
    ensures p in ss[j].verified <==> p in ss[i].verified
    decreases j - i
  {
    if i < j {
      CheckedThrough(ss, es, size, md4, p, i, j - 1);
      HaveIsFrozen(ss, es, size, md4, p, i, j - 1);
      CheckedStep(ss, es, size, md4, p, j - 1);
    }
  }

  lemma CheckedStep(ss: seq<State>, es: seq<Event>, size: nat, md4: Bytes -> Hash, p: nat, k: nat)
    requires CleanRun(ss, es, size, md4) && k < |es| && Had(ss[k], p)
    ensures p in ss[k + 1].verified <==> p in ss[k].verified
  {
    var e := es[k];
    RunGood(ss, es, size, md4, k);
    CheckedForGood(ss[k], e, size, md4, p);
  }

  lemma AcceptChecks(s: State, size: nat, md4: Bytes -> Hash, p: nat)
    requires Good(s, size, md4) && Enabled(s, Complete, size) && NextTask(s) == HashTask(p)
    requires !Had(s, p) && Had(DeliverHead(s), p)
    ensures p in DeliverHead(s).verified <==> p < |s.hashSet|
    ensures p < |s.hashSet| ==> s.hashResult == s.hashSet[p]
  {
    assert p in s.verified ==> Verified(s, size, md4, p);
  }

  /** A piece that was not had and is had was accepted when its hash completed; it is among the checked pieces
      exactly when the hash set of that moment reached as far. */
  lemma HadWasAccepted(ss: seq<State>, es: seq<Event>, size: nat, md4: Bytes -> Hash, p: nat)
    requires CleanRun(ss, es, size, md4) && !Had(ss[0], p) && Had(ss[|es|], p)
    ensures exists k: nat ::
              && AcceptedAt(ss, es, k, p)
              && (p in ss[|es|].verified <==> p < |ss[k].hashSet|)
              && (p < |ss[k].hashSet| ==> ss[k].hashResult == ss[k].hashSet[p])
  {
    var k := Acceptance(ss, es, size, md4, p, |es|);
    RunGood(ss, es, size, md4, k);
    var e := es[k];
    assert Enabled(ss[k], e, size);
    AcceptChecks(ss[k], size, md4, p);
    CheckedThrough(ss, es, size, md4, p, k + 1, |es|);
  }

  lemma {:induction false} HashSetStays(ss: seq<State>, es: seq<Event>, size: nat, md4: Bytes -> Hash, k: nat)
    requires CleanRun(ss, es, size, md4) && k < |ss| && |ss[0].hashSet| > 0
    ensures ss[k].hashSet == ss[0].hashSet
  {
    if k > 0 {
      HashSetStays(ss, es, size, md4, k - 1);
      HashSetStep(ss, es, size, md4, k - 1);
    }
  }

  lemma HashSetStep(ss: seq<State>, es: seq<Event>, size: nat, md4: Bytes -> Hash, k: nat)
    requires CleanRun(ss, es, size, md4) && k < |es| && |ss[k].hashSet| > 0
    ensures ss[k + 1].hashSet == ss[k].hashSet
  {
    var e := es[k];
    RunGood(ss, es, size, md4, k);
    HashSetKept(ss[k], e, size, md4);
  }

  lemma HashSetKept(s: State, e: Event, size: nat, md4: Bytes -> Hash)
    requires SchedInv(s, size) && Enabled(s, e, size) && |s.hashSet| > 0
    ensures Next(s, e, size, md4).hashSet == s.hashSet
  {
    if Quiet(e) {
      QuietShape(s, e, size, md4);
    }
  }

  /** With a complete hash set from the start, every piece that comes to be had is right. */
  lemma NewPiecesAreIntact(ss: seq<State>, es: seq<Event>, size: nat, md4: Bytes -> Hash, p: nat)
    requires CleanRun(ss, es, size, md4) && PieceCount(size) <= |ss[0].hashSet| && FullyBlocked(size, p)
    requires !Had(ss[0], p) && Had(ss[|es|], p)
    ensures Intact(ss[|es|], size, md4, p) && ss[|es|].hashSet == ss[0].hashSet
  {
    HadWasAccepted(ss, es, size, md4, p);
    var k: nat :| AcceptedAt(ss, es, k, p) && (p in ss[|es|].verified <==> p < |ss[k].hashSet|);
    RunGood(ss, es, size, md4, |es|);
    assert p < PieceCount(size);
    HashSetStays(ss, es, size, md4, k);
    HashSetStays(ss, es, size, md4, |es|);
    PiecesAreIntact(ss, es, size, md4, |es|, p);
  }

  // ---------------------------------------------------------------- what was executed

  lemma {:induction false} WrittenMeans(h: seq<Task>, p: nat, j: nat)
    requires j in WrittenBlocks(h, p)
    ensures exists m :: 0 <= m < |h| && h[m].WriteTask? && h[m].block == PieceBlock(p, j)
  {
    var n := |h| - 1;
    if j in WrittenBlocks(h[..n], p) {
      WrittenMeans(h[..n], p, j);
      var m :| 0 <= m < n && h[..n][m].WriteTask? && h[..n][m].block == PieceBlock(p, j);
      assert h[m].WriteTask? && h[m].block == PieceBlock(p, j);
    } else {
      assert h[n].WriteTask? && h[n].block == PieceBlock(p, j);
    }
  }

  lemma {:induction false} OpenMeans(h: seq<Task>, p: nat, j: nat)
    requires j in OpenBlocks(h, p)
    ensures exists m :: 0 <= m < |h| && !h[m].HashTask? && h[m].block == PieceBlock(p, j)
  {
    var n := |h| - 1;
    if j in OpenBlocks(h[..n], p) {
      OpenMeans(h[..n], p, j);
      var m :| 0 <= m < n && !h[..n][m].HashTask? && h[..n][m].block == PieceBlock(p, j);
      assert !h[m].HashTask? && h[m].block == PieceBlock(p, j);
    } else {
      assert !h[n].HashTask? && h[n].block == PieceBlock(p, j);
    }
  }

  /** Every hash the disk has executed came after a write of the piece and after all its blocks, written or read
      back: nothing is hashed, and so nothing comes to be had, without a block written in this run. */
  lemma HashedWasWritten(ss: seq<State>, es: seq<Event>, size: nat, md4: Bytes -> Hash, k: nat, p: nat)
    requires CleanRun(ss, es, size, md4) && k < |ss[|es|].log| && ss[|es|].log[k] == HashTask(p)
    ensures var log := ss[|es|].log;
            && (exists m :: 0 <= m < k && log[m].WriteTask? && log[m].block.piece == p)
            && forall j: nat :: j < BlockCount(size, p) ==> exists m ::
               0 <= m < k && !log[m].HashTask? && log[m].block == PieceBlock(p, j)
  {
    var log := ss[|es|].log;
    AttemptsAreHashedOnce(ss, es, size, md4);
    var h := log[..k];
    assert MayFollow(h, log[k], size);
    var i :| i in WrittenBlocks(h, p);
    WrittenMeans(h, p, i);
    var w :| 0 <= w < |h| && h[w].WriteTask? && h[w].block == PieceBlock(p, i);
    assert log[w] == h[w];
    forall j: nat | j < BlockCount(size, p)
      ensures exists m :: 0 <= m < k && !log[m].HashTask? && log[m].block == PieceBlock(p, j)
    {
      OpenMeans(h, p, j);
      var m :| 0 <= m < |h| && !h[m].HashTask? && h[m].block == PieceBlock(p, j);
      assert log[m] == h[m];
    }
  }

  // ---------------------------------------------------------------- pieces that were restored entirely

  lemma CompleteHistory(s: State, size: nat)
    requires SchedInv(s, size) && Enabled(s, Complete, size)
    ensures History(s) <= History(DeliverHead(s))
  {
    var s1 := s.(disk := FifoDeliver(s.disk));
    DeliverHistory(s, s1);
    if NextTask(s).WriteTask? {
      var s2 := s1.(picker := MarkAsFinished(s.picker, NextTask(s).block));
      assert History(s2) == History(s);
      var i := NextTask(s).block.piece;
      if QueuePieceHash(s2, i) != s2 {
        EnqueueHistory(s2.(pendingHash := s2.pendingHash + {i}), HashTask(i));
      }
    }
  }

  lemma HistoryGrows(s: State, e: Event, size: nat, md4: Bytes -> Hash)
    requires SchedInv(s, size) && Enabled(s, e, size)
    ensures History(s) <= History(Next(s, e, size, md4))
  {
    match e
    case Request(_, _, _, _) =>
    case Receive(c, b, buffer) =>
      if MarkAsWriting(s.picker, b).1 {
        ReceiveHistory(s, c, b, buffer, size);
      }
    case Leave(_, _) =>
    case RunTask => CallHistory(s, size, md4);
    case Complete => CompleteHistory(s, size);
    case LearnHashes(_, _) =>
  }

  lemma {:induction false} HistoryStarts(ss: seq<State>, es: seq<Event>, size: nat, md4: Bytes -> Hash, k: nat)
    requires CleanRun(ss, es, size, md4) && k < |ss|
    ensures ss[0].disk.pending <= History(ss[k])
  {
    if k > 0 {
      HistoryStarts(ss, es, size, md4, k - 1);
      HistoryStep(ss, es, size, md4, k - 1);
    }
  }

  lemma HistoryStep(ss: seq<State>, es: seq<Event>, size: nat, md4: Bytes -> Hash, k: nat)
    requires CleanRun(ss, es, size, md4) && k < |es|
    ensures History(ss[k]) <= History(ss[k + 1])
  {
    var e := es[k];
    RunGood(ss, es, size, md4, k);
    HistoryGrows(ss[k], e, size, md4);
  }

  predicate AllRestored(h: seq<Task>, size: nat, p: nat) {
    forall j: nat :: j < BlockCount(size, p) ==> RestoreTask(PieceBlock(p, j)) in h
  }

  lemma NextIsRestore(h: seq<Task>, t: Task, size: nat, p: nat)
    requires MayFollow(h, t, size) && WrittenBlocks(h, p) == {} && forall j: nat :: j < BlockCount(size, p) ==>
             j in OpenBlocks(h, p)
    ensures TaskPiece(t) != p
  {
  }

  /** A history that starts by restoring all of piece p has no other task of it. */
  lemma {:induction false} RestoredOnly(h: seq<Task>, start: nat, size: nat, p: nat, n: nat)
    requires WellFormed(h, size) && start <= n <= |h| && p < PieceCount(size)
    requires (forall k :: 0 <= k < start ==> h[k].RestoreTask?) && AllRestored(h[..start], size, p)
    ensures forall k :: 0 <= k < n && TaskPiece(h[k]) == p ==> h[k].RestoreTask?
    ensures WrittenBlocks(h[..n], p) == {} && forall j: nat :: j < BlockCount(size, p) ==> j in OpenBlocks(h[..n], p)
    decreases n
  {
    if n == start {
      RestoresOnly(h[..n], p);
    } else {
      RestoredOnly(h, start, size, p, n - 1);
      assert MayFollow(h[..n - 1], h[n - 1], size);
      NextIsRestore(h[..n - 1], h[n - 1], size, p);
      assert h[..n] == h[..n - 1] + [h[n - 1]];
      OpenAppend(h[..n - 1], h[n - 1], p);
    }
  }

  lemma OnlyRestored(ss: seq<State>, es: seq<Event>, size: nat, md4: Bytes -> Hash, p: nat, k: nat)
    requires CleanRun(ss, es, size, md4) && k < |ss| && p < PieceCount(size) && AllRestored(ss[0].disk.pending, size, p)
    ensures forall t :: t in History(ss[k]) && TaskPiece(t) == p ==> t.RestoreTask?
    ensures forall j: nat :: j < BlockCount(size, p) ==> j in OpenBlocks(History(ss[k]), p)
  {
    var h, start := History(ss[k]), |ss[0].disk.pending|;
    RunGood(ss, es, size, md4, k);
    HistoryStarts(ss, es, size, md4, k);
    assert h[..start] == ss[0].disk.pending;
    forall i | 0 <= i < start
      ensures h[i].RestoreTask?
    {
      assert Restorable(ss[0], ss[0].disk.pending[i], size);
    }
    RestoredOnly(h, start, size, p, |h|);
    assert h[..|h|] == h;
  }

  lemma HeadInHistory(s: State, size: nat)
    requires HeadLogged(s) && |s.disk.pending| > 0
    ensures NextTask(s) in History(s)
  {
    if s.disk.headCalled {
      assert s.log[|s.log| - 1] in s.log;
    }
  }

  /** A piece all of whose blocks are restored is never hashed and never had: once they are read back it stays in
      progress with every block finished. */
  lemma FullyRestoredNeverHad(ss: seq<State>, es: seq<Event>, size: nat, md4: Bytes -> Hash, p: nat)
    requires CleanRun(ss, es, size, md4) && p < PieceCount(size) && AllRestored(ss[0].disk.pending, size, p)
    ensures var s := ss[|es|];
            && p < |s.picker.status| && s.picker.status[p] != Have && HashTask(p) !in History(s)
            && ((forall j: nat :: j < BlockCount(size, p) ==> RestoreTask(PieceBlock(p, j)) !in s.disk.pending) ==>
                  s.picker.status[p] == Downloading && AllDownloaded(s.picker, p))
  {
    var s := ss[|es|];
    RunGood(ss, es, size, md4, |es|);
    OnlyRestored(ss, es, size, md4, p, |es|);
    NotHadAtStart(ss[0], size, p);
    if Had(s, p) {
      var k := Acceptance(ss, es, size, md4, p, |es|);
      RunGood(ss, es, size, md4, k);
      OnlyRestored(ss, es, size, md4, p, k);
      HeadInHistory(ss[k], size);
      assert false;
    }
    if forall j: nat :: j < BlockCount(size, p) ==> RestoreTask(PieceBlock(p, j)) !in s.disk.pending {
      StaysOpen(s, size, p);
    }
  }

  lemma NotHadAtStart(s: State, size: nat, p: nat)
    requires Init(s, size) && p < PieceCount(size) && AllRestored(s.disk.pending, size, p)
    ensures !Had(s, p)
  {
    OnePieceAtLeast(size, p);
    var k :| 0 <= k < |s.disk.pending| && s.disk.pending[k] == RestoreTask(PieceBlock(p, 0));
    assert Restorable(s, s.disk.pending[k], size);
  }

  lemma StaysOpen(s: State, size: nat, p: nat)
    requires SchedInv(s, size) && p < PieceCount(size)
    requires forall j: nat :: j < BlockCount(size, p) ==>
             j in OpenBlocks(History(s), p) && RestoreTask(PieceBlock(p, j)) !in s.disk.pending
    ensures s.picker.status[p] == Downloading && AllDownloaded(s.picker, p)
  {
    forall j: nat | j < BlockCount(size, p)
      ensures Dl(s.picker, PieceBlock(p, j))
    {
      var b := PieceBlock(p, j);
      assert b.block in OpenBlocks(History(s), b.piece) && BlockAt(s.picker, b) == BlockAt(s.picker, b);
    }
    FinishedIsAllDl(s, p, size);
    PieceFinishedMeaning(s.picker, p);
  }

  // ---------------------------------------------------------------- and only those

  lemma {:induction false} OpenIsBoth(h: seq<Task>, p: nat)
    ensures OpenBlocks(h, p) == WrittenBlocks(h, p) + RestoredBlocks(h, p)
  {
    if |h| > 0 {
      OpenIsBoth(h[..|h| - 1], p);
    }
  }

  lemma {:induction false} RestoredMeans(h: seq<Task>, p: nat, j: nat)
    requires j in RestoredBlocks(h, p)
    ensures RestoreTask(PieceBlock(p, j)) in h
  {
    var n := |h| - 1;
    assert h == h[..n] + [h[n]];
    if j in RestoredBlocks(h[..n], p) {
      RestoredMeans(h[..n], p, j);
    }
  }

  /** Every restore, executed or not, is one of `start`. */
  ghost predicate RestoresFrom(s: State, start: seq<Task>) {
    forall b: PieceBlock {:trigger RestoreTask(b)} :: RestoreTask(b) in s.log || RestoreTask(b) in s.disk.pending ==>
      RestoreTask(b) in start
  }

  lemma GrownRestores(pending: seq<Task>, pending': seq<Task>, n: nat, b: PieceBlock)
    requires Grown(pending, pending', n) && RestoreTask(b) in pending'
    ensures RestoreTask(b) in pending
  {
    var k :| 0 <= k < |pending'| && pending'[k] == RestoreTask(b);
    assert pending[k + n] in pending;
  }

  lemma EventRestores(s: State, e: Event, size: nat, md4: Bytes -> Hash, start: seq<Task>)
    requires Enabled(s, e, size) && RestoresFrom(s, start)
    ensures RestoresFrom(Next(s, e, size, md4), start)
  {
    var t := Next(s, e, size, md4);
    if e.RunTask? {
      assert NextTask(s) in s.disk.pending && t.log == s.log + [NextTask(s)] && t.disk.pending == s.disk.pending;
    } else {
      var n := if e.Complete? then 1 else 0;
      if e.Complete? {
        CompleteGrows(s, size);
      } else {
        QuietGrows(s, e, size, md4);
        QuietShape(s, e, size, md4);
      }
      forall b: PieceBlock | RestoreTask(b) in t.log || RestoreTask(b) in t.disk.pending
        ensures RestoreTask(b) in start
      {
        if RestoreTask(b) in t.disk.pending {
          GrownRestores(s.disk.pending, t.disk.pending, n, b);
        }
      }
    }
  }

  lemma RestoresStep(ss: seq<State>, es: seq<Event>, size: nat, md4: Bytes -> Hash, k: nat, start: seq<Task>)
    requires CleanRun(ss, es, size, md4) && k < |es| && RestoresFrom(ss[k], start)
    ensures RestoresFrom(ss[k + 1], start)
  {
    var e := es[k];
    EventRestores(ss[k], e, size, md4, start);
  }

  lemma {:induction false} RunRestores(ss: seq<State>, es: seq<Event>, size: nat, md4: Bytes -> Hash, k: nat)
    requires CleanRun(ss, es, size, md4) && k < |ss|
    ensures RestoresFrom(ss[k], ss[0].disk.pending)
  {
    if k > 0 {
      RunRestores(ss, es, size, md4, k - 1);
      RestoresStep(ss, es, size, md4, k - 1, ss[0].disk.pending);
    }
  }

  lemma NotQueued(pending: seq<Task>, t: Task)
    requires !Concerns(pending, 0, TaskPiece(t))
    ensures t !in pending
  {
  }

  /** A complete piece that has nothing queued was not written in this attempt. */
  lemma UnaskedIsRestored(s: State, size: nat, p: nat)
    requires SchedInv(s, size) && p < PieceCount(size) && !Concerns(s.disk.pending, 0, p) && AllDl(s.picker, p, size)
    ensures forall j: nat :: j < BlockCount(size, p) ==> RestoreTask(PieceBlock(p, j)) in History(s)
  {
    var h, pending := History(s), s.disk.pending;
    NotQueued(pending, HashTask(p));
    assert Unasked(pending, h, p);
    assert WrittenBlocks(h, p) == {} by {
      if j :| j in WrittenBlocks(h, p) {
        assert HasWrite(pending, PieceBlock(p, j));
        var k :| 0 <= k < |pending| && pending[k].WriteTask? && pending[k].block == PieceBlock(p, j);
        assert TaskPiece(pending[k]) == p;
      }
    }
    OpenIsBoth(h, p);
    forall j: nat | j < BlockCount(size, p)
      ensures RestoreTask(PieceBlock(p, j)) in h
    {
      var b := PieceBlock(p, j);
      assert BlockAt(s.picker, b) == BlockAt(s.picker, b) && Held(s.picker, pending, b)
        && b.block in OpenBlocks(h, b.piece);
      RestoredMeans(h, p, j);
    }
  }

  /** Exactly which pieces get stuck: one that nothing is queued for any more is complete and still not had if and only
      if all its blocks were restored. */
  lemma StuckExactly(ss: seq<State>, es: seq<Event>, size: nat, md4: Bytes -> Hash, p: nat)
    requires CleanRun(ss, es, size, md4) && p < PieceCount(size) && !Concerns(ss[|es|].disk.pending, 0, p)
    ensures p < |ss[|es|].picker.status|
    ensures ss[|es|].picker.status[p] == Downloading && AllDownloaded(ss[|es|].picker, p) <==>
            AllRestored(ss[0].disk.pending, size, p)
  {
    var s, pending := ss[|es|], ss[|es|].disk.pending;
    RunGood(ss, es, size, md4, |es|);
    if AllRestored(ss[0].disk.pending, size, p) {
      forall j: nat | j < BlockCount(size, p)
        ensures RestoreTask(PieceBlock(p, j)) !in pending
      {
        NotQueued(pending, RestoreTask(PieceBlock(p, j)));
      }
      FullyRestoredNeverHad(ss, es, size, md4, p);
    }
    if s.picker.status[p] == Downloading && AllDownloaded(s.picker, p) {
      PieceFinishedMeaning(s.picker, p);
      FinishedIsAllDl(s, p, size);
      UnaskedIsRestored(s, size, p);
      RunRestores(ss, es, size, md4, |es|);
      forall j: nat | j < BlockCount(size, p)
        ensures RestoreTask(PieceBlock(p, j)) in ss[0].disk.pending
      {
        RestoreSomewhere(s, PieceBlock(p, j));
      }
    }
  }

  lemma RestoreSomewhere(s: State, b: PieceBlock)
    requires RestoreTask(b) in History(s)
    ensures RestoreTask(b) in s.log || RestoreTask(b) in s.disk.pending
  {
  }
}
