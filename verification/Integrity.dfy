/** What the download pipeline guarantees over whole runs: a piece accepted against the hash set has exactly
    the right bytes on disk, and keeps them. */
module Integrity {
  import opened Geometry
  import opened Scheduler = BlockScheduler
  import opened PieceStore
  import opened Pipeline
  import opened Schedule

  // ---------------------------------------------------------------- the file

  /** The first n blocks of a piece as they are on disk. */
  function PieceData(file: Bytes, size: nat, p: nat, n: nat): Bytes {
    if n == 0 then [] else PieceData(file, size, p, n - 1) + Slice(file, size, PieceBlock(p, n - 1))
  }

  function ContentOf(file: Bytes, size: nat, p: nat, w: set<nat>): map<nat, Bytes> {
    map j | j in w :: Slice(file, size, PieceBlock(p, j))
  }

  predicate OnDisk(file: Bytes, size: nat, p: nat) {
    forall j: nat :: j < BlockCount(size, p) ==> InFile(file, size, PieceBlock(p, j))
  }

  lemma {:induction false} ConcatIsData(file: Bytes, size: nat, p: nat, w: set<nat>, n: nat)
    requires forall j: nat :: j < n ==> j in w
    ensures Concat(ContentOf(file, size, p, w), n) == PieceData(file, size, p, n)
  {
    if n > 0 {
      ConcatIsData(file, size, p, w, n - 1);
    }
  }

  lemma OffsetIsLeft(size: nat, b: PieceBlock)
    requires ValidBlock(size, b)
    ensures Offset(b) == BlockRange(b, size).left && Offset(b) + BlockSize(b, size) == BlockRange(b, size).right
    ensures 0 < BlockSize(b, size)
  {
    BlockInPiece(size, b);
  }

  lemma WritePutsBlock(file: Bytes, size: nat, b: PieceBlock, buffer: Bytes)
    requires ValidBlock(size, b) && |buffer| == BlockSize(b, size)
    ensures InFile(WriteAt(file, Offset(b), buffer), size, b)
            && Slice(WriteAt(file, Offset(b), buffer), size, b) == buffer
  {
    OffsetIsLeft(size, b);
  }

  /** Writing one block leaves every other block alone. */
  lemma WriteLeavesOthers(file: Bytes, size: nat, b: PieceBlock, buffer: Bytes, c: PieceBlock)
    requires ValidBlock(size, b) && ValidBlock(size, c) && |buffer| == BlockSize(b, size) && InFile(file, size, c)
    ensures InFile(WriteAt(file, Offset(b), buffer), size, c)
    ensures b != c ==> Slice(WriteAt(file, Offset(b), buffer), size, c) == Slice(file, size, c)
  {
    OffsetIsLeft(size, b);
    OffsetIsLeft(size, c);
    var file' := WriteAt(file, Offset(b), buffer);
    if b != c {
      forall i | Offset(c) <= i < Offset(c) + BlockSize(c, size)
        ensures file'[i] == file[i]
      {
        if Covers(b, size, i) {
          BlocksDisjoint(size, b, c, i);
        }
      }
    }
  }

  lemma {:induction false} DataUntouched(file: Bytes, file': Bytes, size: nat, p: nat, n: nat)
    requires forall j: nat :: j < n ==> InFile(file, size, PieceBlock(p, j))
    requires forall j: nat {:trigger PieceBlock(p, j)} :: j < n ==>
             Slice(file', size, PieceBlock(p, j)) == Slice(file, size, PieceBlock(p, j))
    ensures PieceData(file', size, p, n) == PieceData(file, size, p, n)
  {
    if n > 0 {
      DataUntouched(file, file', size, p, n - 1);
    }
  }

  lemma WriteLeavesOtherPieces(file: Bytes, size: nat, b: PieceBlock, buffer: Bytes, p: nat)
    requires ValidBlock(size, b) && |buffer| == BlockSize(b, size) && p < PieceCount(size) && p != b.piece
    requires OnDisk(file, size, p)
    ensures var file' := WriteAt(file, Offset(b), buffer);
            OnDisk(file', size, p)
              && PieceData(file', size, p, BlockCount(size, p)) == PieceData(file, size, p, BlockCount(size, p))
  {
    forall j: nat | j < BlockCount(size, p)
      ensures InFile(WriteAt(file, Offset(b), buffer), size, PieceBlock(p, j))
      ensures Slice(WriteAt(file, Offset(b), buffer), size, PieceBlock(p, j)) == Slice(file, size, PieceBlock(p, j))
    {
      WriteLeavesOthers(file, size, b, buffer, PieceBlock(p, j));
    }
    DataUntouched(file, WriteAt(file, Offset(b), buffer), size, p, BlockCount(size, p));
  }

  /** Blocks w of piece p are on disk, and the piece's manager has digested exactly those bytes. */
  ghost predicate Stored(store: Store, size: nat, p: nat, w: set<nat>) {
    && (forall j {:trigger j in w} :: j in w ==>
        ValidBlock(size, PieceBlock(p, j)) && InFile(store.file, size, PieceBlock(p, j)))
    && |Manager(store, size, p).buffers| == BlockCount(size, p)
    && Holds(Manager(store, size, p), ContentOf(store.file, size, p, w))
  }

  lemma StoreKeepsOther(store: Store, size: nat, b: PieceBlock, buffer: Bytes, p: nat, w: set<nat>)
    requires ValidBlock(size, b) && |buffer| == BlockSize(b, size) && p != b.piece && Stored(store, size, p, w)
    requires b.block < |Manager(store, size, b.piece).buffers|
    ensures Stored(StoreBlock(store, size, b, buffer).0, size, p, w)
  {
    var file' := WriteAt(store.file, Offset(b), buffer);
    forall j | j in w
      ensures InFile(file', size, PieceBlock(p, j))
              && Slice(file', size, PieceBlock(p, j)) == Slice(store.file, size, PieceBlock(p, j))
    {
      WriteLeavesOthers(store.file, size, b, buffer, PieceBlock(p, j));
    }
    assert ContentOf(file', size, p, w) == ContentOf(store.file, size, p, w);
  }

  lemma StoreKeepsOwn(store: Store, size: nat, b: PieceBlock, buffer: Bytes, w: set<nat>)
    requires ValidBlock(size, b) && |buffer| == BlockSize(b, size) && b.block !in w && Stored(store, size, b.piece, w)
    ensures b.block < |Manager(store, size, b.piece).buffers|
    ensures Stored(StoreBlock(store, size, b, buffer).0, size, b.piece, w + {b.block})
  {
    var p := b.piece;
    var file' := WriteAt(store.file, Offset(b), buffer);
    forall j | j in w
      ensures InFile(file', size, PieceBlock(p, j))
              && Slice(file', size, PieceBlock(p, j)) == Slice(store.file, size, PieceBlock(p, j))
    {
      WriteLeavesOthers(store.file, size, b, buffer, PieceBlock(p, j));
    }
    WritePutsBlock(store.file, size, b, buffer);
    RegisterHolds(Manager(store, size, p), ContentOf(store.file, size, p, w), b.block, buffer);
    assert PieceBlock(p, b.block) == b;
    assert ContentOf(file', size, p, w + {b.block}) == ContentOf(store.file, size, p, w)[b.block := buffer];
    assert Manager(StoreBlock(store, size, b, buffer).0, size, p) ==
      Register(Manager(store, size, p), b.block, buffer).0;
  }

  /** Reading a block back registers the bytes that lie in the file. */
  lemma RestoreKeepsOwn(store: Store, size: nat, b: PieceBlock, w: set<nat>)
    requires ValidBlock(size, b) && InFile(store.file, size, b) && b.block !in w && Stored(store, size, b.piece, w)
    ensures b.block < |Manager(store, size, b.piece).buffers|
    ensures Stored(RegisterIn(store, size, b, Slice(store.file, size, b)).0, size, b.piece, w + {b.block})
  {
    var p, data := b.piece, Slice(store.file, size, b);
    RegisterHolds(Manager(store, size, p), ContentOf(store.file, size, p, w), b.block, data);
    assert PieceBlock(p, b.block) == b;
    assert ContentOf(store.file, size, p, w + {b.block}) == ContentOf(store.file, size, p, w)[b.block := data];
    assert Manager(RegisterIn(store, size, b, data).0, size, p) == Register(Manager(store, size, p), b.block, data).0;
  }

  /** Once every block is stored, the hash is the hash of the blocks on disk. */
  lemma HashOfStored(store: Store, size: nat, p: nat, w: set<nat>, md4: Bytes -> Hash)
    requires Stored(store, size, p, w) && forall j: nat :: j < BlockCount(size, p) ==> j in w
    ensures TakeHash(store, size, p, md4).1 == md4(PieceData(store.file, size, p, BlockCount(size, p)))
    ensures OnDisk(store.file, size, p)
  {
    var m := Manager(store, size, p);
    var got := ContentOf(store.file, size, p, w);
    assert m.lastHashed + 1 == |m.buffers|;
    ConcatIsData(store.file, size, p, w, BlockCount(size, p));
  }

  lemma FreshManagerHolds(store: Store, size: nat, p: nat)
    requires p !in store.mgrs
    ensures Stored(store, size, p, {})
  {
    OnePieceAtLeast(size, p);
  }

  // ---------------------------------------------------------------- disk invariant

  ghost predicate HashKnown(s: State, size: nat, md4: Bytes -> Hash) {
    CanDeliver(s) && NextTask(s).HashTask? ==>
      && s.hashResult == md4(PieceData(s.store.file, size, NextTask(s).piece, BlockCount(size, NextTask(s).piece)))
      && OnDisk(s.store.file, size, NextTask(s).piece)
  }

  ghost predicate Verified(s: State, size: nat, md4: Bytes -> Hash, p: nat) {
    && p < |s.hashSet| && p < |s.picker.status| && s.picker.status[p] == Have
    && OnDisk(s.store.file, size, p)
    && md4(PieceData(s.store.file, size, p, BlockCount(size, p))) == s.hashSet[p]
  }

  /** The blocks still to be restored are in the file. */
  ghost predicate Readable(file: Bytes, size: nat, pending: seq<Task>) {
    forall k {:trigger pending[k]} :: 0 <= k < |pending| && pending[k].RestoreTask? ==>
      InFile(file, size, pending[k].block)
  }

  ghost predicate AllStored(store: Store, size: nat, log: seq<Task>) {
    forall p: nat {:trigger OpenBlocks(log, p)} :: Stored(store, size, p, OpenBlocks(log, p))
  }

  /** The head task, once executed, is the last of the log. */
  predicate HeadLogged(s: State) { CanDeliver(s) ==> |s.log| > 0 && s.log[|s.log| - 1] == NextTask(s) }

  /** What was written or read back lies in the file. */
  ghost predicate LogInFile(s: State, size: nat) {
    forall k {:trigger s.log[k]} :: 0 <= k < |s.log| && !s.log[k].HashTask? ==>
      InFile(s.store.file, size, s.log[k].block)
  }

  ghost predicate Good(s: State, size: nat, md4: Bytes -> Hash) {
    && SchedInv(s, size)
    && AllStored(s.store, size, s.log)
    && Readable(s.store.file, size, s.disk.pending)
    && HeadLogged(s)
    && HashKnown(s, size, md4)
    && forall p {:trigger p in s.verified} :: p in s.verified ==> Verified(s, size, md4, p)
  }

  /** A history of restores only: the blocks taken in are the ones restored. */
  lemma {:induction false} RestoresOnly(h: seq<Task>, p: nat)
    requires forall k :: 0 <= k < |h| ==> h[k].RestoreTask?
    ensures forall j :: j in OpenBlocks(h, p) <==> RestoreTask(PieceBlock(p, j)) in h
    ensures RestoredBlocks(h, p) == OpenBlocks(h, p) && WrittenBlocks(h, p) == {}
  {
    if |h| > 0 {
      var n := |h| - 1;
      RestoresOnly(h[..n], p);
      assert h == h[..n] + [h[n]];
    }
  }

  lemma RestoresMayFollow(h: seq<Task>, size: nat)
    requires forall k :: 0 <= k < |h| ==> h[k].RestoreTask? && ValidBlock(size, h[k].block)
    requires forall k, m :: 0 <= k < m < |h| ==> h[k] != h[m]
    ensures WellFormed(h, size)
  {
    forall k | 0 <= k < |h|
      ensures MayFollow(h[..k], h[k], size)
    {
      var b := h[k].block;
      RestoresOnly(h[..k], b.piece);
      assert b == PieceBlock(b.piece, b.block);
    }
  }

  lemma InitAgreed(s: State, size: nat)
    requires Init(s, size)
    ensures Agreed(s.picker, {}, s.disk.pending, s.disk.pending, size)
    ensures HashesAsked(s.picker, {}, s.disk.pending, s.disk.pending, size, -1)
  {
    var pending := s.disk.pending;
    forall b: PieceBlock
      ensures !Dl(s.picker, b)
      ensures b.block in OpenBlocks(pending, b.piece) <==> ValidBlock(size, b) && Held(s.picker, pending, b)
    {
      RestoresOnly(pending, b.piece);
      assert b == PieceBlock(b.piece, b.block);
      if RestoreTask(b) in pending {
        var k :| 0 <= k < |pending| && pending[k] == RestoreTask(b);
        assert Restorable(s, pending[k], size);
      }
    }
    forall i: nat
      ensures !AllDl(s.picker, i, size)
    {
      OnePieceAtLeast(size, i);
      assert !Dl(s.picker, PieceBlock(i, 0));
    }
  }

  lemma InitTasks(s: State, size: nat)
    requires Init(s, size)
    ensures WellFormed(s.disk.pending, size)
    ensures RestoresFirst(s.disk.pending, s.disk.pending)
    ensures TasksOk(s.picker, {}, s.disk.pending, s.disk.pending, size)
  {
    var pending := s.disk.pending;
    forall k | 0 <= k < |pending|
      ensures pending[k].RestoreTask? && ValidBlock(size, pending[k].block)
    {
      assert Restorable(s, pending[k], size);
    }
    RestoresMayFollow(pending, size);
    forall i
      ensures WritesPending(pending, pending, i)
    {
      RestoresOnly(pending, i);
    }
    forall k | 0 <= k < |pending|
      ensures PendingOk(s.picker, {}, pending[k], pending, size)
    {
      var b := pending[k].block;
      assert Restorable(s, pending[k], size) && pending[k] == RestoreTask(PieceBlock(b.piece, b.block))
        && pending[k] in pending;
      RestoresOnly(pending, b.piece);
    }
  }

  lemma InitScheduled(s: State, size: nat)
    requires Init(s, size)
    ensures SchedInv(s, size)
  {
    LastPieceBounds(size);
    InitTasks(s, size);
    InitAgreed(s, size);
    forall k | 0 <= k < |s.disk.pending|
      ensures s.disk.pending[k].RestoreTask?
    {
      assert Restorable(s, s.disk.pending[k], size);
    }
    assert History(s) == s.disk.pending;
    Assemble(s, size, s.disk.pending);
  }

  lemma InitGood(s: State, size: nat, md4: Bytes -> Hash)
    requires Init(s, size)
    ensures Good(s, size, md4)
  {
    InitScheduled(s, size);
    forall p: nat
      ensures Stored(s.store, size, p, OpenBlocks(s.log, p))
    {
      FreshManagerHolds(s.store, size, p);
    }
    forall k | 0 <= k < |s.disk.pending| && s.disk.pending[k].RestoreTask?
      ensures InFile(s.store.file, size, s.disk.pending[k].block)
    {
      assert Restorable(s, s.disk.pending[k], size);
    }
  }

  lemma HeadMayRun(s: State, size: nat)
    requires SchedInv(s, size) && CanCall(s)
    ensures MayFollow(s.log, NextTask(s), size)
  {
    var h := History(s);
    assert h[..|s.log|] == s.log && h[|s.log|] == NextTask(s);
    WellFormedPrefix(h, |s.log|, size);
  }

  lemma WriteStored(store: Store, log: seq<Task>, size: nat, b: PieceBlock, buffer: Bytes, p: nat)
    requires AllStored(store, size, log) && MayFollow(log, WriteTask(b, buffer), size)
             && b.block < |Manager(store, size, b.piece).buffers|
    ensures Stored(StoreBlock(store, size, b, buffer).0, size, p, OpenBlocks(log + [WriteTask(b, buffer)], p))
  {
    OpenAppend(log, WriteTask(b, buffer), p);
    assert Stored(store, size, p, OpenBlocks(log, p));
    if p == b.piece {
      StoreKeepsOwn(store, size, b, buffer, OpenBlocks(log, p));
    } else {
      StoreKeepsOther(store, size, b, buffer, p, OpenBlocks(log, p));
    }
  }

  lemma HashStored(store: Store, log: seq<Task>, size: nat, i: nat, md4: Bytes -> Hash, p: nat)
    requires AllStored(store, size, log)
    ensures Stored(TakeHash(store, size, i, md4).0, size, p, OpenBlocks(log + [HashTask(i)], p))
  {
    var store' := TakeHash(store, size, i, md4).0;
    OpenAppend(log, HashTask(i), p);
    assert Stored(store, size, p, OpenBlocks(log, p));
    if p == i {
      FreshManagerHolds(store', size, p);
    } else {
      assert Manager(store', size, p) == Manager(store, size, p);
    }
  }

  lemma RestoreStored(store: Store, log: seq<Task>, size: nat, b: PieceBlock, p: nat)
    requires AllStored(store, size, log) && MayFollow(log, RestoreTask(b), size) && InFile(store.file, size, b)
    requires b.block < |Manager(store, size, b.piece).buffers|
    ensures Stored(RegisterIn(store, size, b, Slice(store.file, size, b)).0, size, p,
                   OpenBlocks(log + [RestoreTask(b)], p))
  {
    var store' := RegisterIn(store, size, b, Slice(store.file, size, b)).0;
    OpenAppend(log, RestoreTask(b), p);
    assert Stored(store, size, p, OpenBlocks(log, p));
    if p == b.piece {
      RestoreKeepsOwn(store, size, b, OpenBlocks(log, p));
    } else {
      assert Manager(store', size, p) == Manager(store, size, p);
    }
  }

  /** Executing the head task leaves every piece stored. */
  lemma RunStored(s: State, size: nat, md4: Bytes -> Hash, p: nat)
    requires AllStored(s.store, size, s.log) && Enabled(s, RunTask, size) && MayFollow(s.log, NextTask(s), size)
    ensures Stored(CallHead(s, size, md4).store, size, p, OpenBlocks(s.log + [NextTask(s)], p))
  {
    match NextTask(s)
    case WriteTask(b, buffer) => WriteStored(s.store, s.log, size, b, buffer, p);
    case HashTask(i) => HashStored(s.store, s.log, size, i, md4, p);
    case RestoreTask(b) => RestoreStored(s.store, s.log, size, b, p);
  }

  lemma RunLogs(s: State, size: nat, md4: Bytes -> Hash)
    requires Enabled(s, RunTask, size) && LogInFile(s, size)
    requires NextTask(s).WriteTask? ==>
             ValidBlock(size, NextTask(s).block) && |NextTask(s).buffer| == BlockSize(NextTask(s).block, size)
    ensures LogInFile(CallHead(s, size, md4), size)
    ensures |CallHead(s, size, md4).store.file| >= |s.store.file|
  {
    var t := CallHead(s, size, md4);
    if NextTask(s).WriteTask? {
      WritePutsBlock(s.store.file, size, NextTask(s).block, NextTask(s).buffer);
    }
    assert |t.store.file| >= |s.store.file| && t.log == s.log + [NextTask(s)];
    forall k | 0 <= k < |t.log| && !t.log[k].HashTask?
      ensures InFile(t.store.file, size, t.log[k].block)
    {
      if k < |s.log| {
        assert t.log[k] == s.log[k];
      }
    }
  }

  lemma RunReadable(s: State, size: nat, md4: Bytes -> Hash)
    requires Good(s, size, md4) && Enabled(s, RunTask, size)
    ensures Readable(CallHead(s, size, md4).store.file, size, s.disk.pending)
  {
    assert |CallHead(s, size, md4).store.file| >= |s.store.file|;
  }

  lemma RunVerified(s: State, size: nat, md4: Bytes -> Hash, p: nat)
    requires Good(s, size, md4) && Enabled(s, RunTask, size) && Verified(s, size, md4, p)
    ensures Verified(CallHead(s, size, md4), size, md4, p)
  {
    var t := NextTask(s);
    HeadMayRun(s, size);
    if t.WriteTask? {
      assert PendingOk(s.picker, s.pendingHash, s.disk.pending[0], History(s), size);
      assert InProgress(s.picker, t.block.piece) && p != t.block.piece;
      WriteLeavesOtherPieces(s.store.file, size, t.block, t.buffer, p);
    }
  }

  lemma RunTaskGood(s: State, size: nat, md4: Bytes -> Hash)
    requires Good(s, size, md4) && Enabled(s, RunTask, size)
    ensures Good(CallHead(s, size, md4), size, md4)
  {
    var s' := CallHead(s, size, md4);
    var t := NextTask(s);
    RunTaskKeepsSchedule(s, s', size, md4);
    RunReadable(s, size, md4);
    HeadMayRun(s, size);
    forall p: nat
      ensures Stored(s'.store, size, p, OpenBlocks(s'.log, p))
    {
      RunStored(s, size, md4, p);
    }
    if t.HashTask? {
      assert Stored(s.store, size, t.piece, OpenBlocks(s.log, t.piece));
      HashOfStored(s.store, size, t.piece, OpenBlocks(s.log, t.piece), md4);
    }
    forall p | p in s.verified
      ensures Verified(s', size, md4, p)
    {
      RunVerified(s, size, md4, p);
    }
  }

  lemma StaysVerified(s: State, size: nat, md4: Bytes -> Hash, p: nat)
    requires SchedInv(s, size) && Enabled(s, Complete, size) && Verified(s, size, md4, p)
    ensures Verified(DeliverHead(s), size, md4, p)
  {
    CompleteLosesNone(s, size);
  }

  lemma GetsVerified(s: State, size: nat, md4: Bytes -> Hash, p: nat)
    requires Good(s, size, md4) && Enabled(s, Complete, size) && p in DeliverHead(s).verified && p !in s.verified
    ensures Verified(DeliverHead(s), size, md4, p)
  {
    assert HashKnown(s, size, md4);
    assert NextTask(s) == HashTask(p);
  }

  lemma CompleteGood(s: State, size: nat, md4: Bytes -> Hash)
    requires Good(s, size, md4) && Enabled(s, Complete, size)
    ensures Good(DeliverHead(s), size, md4)
  {
    var s' := DeliverHead(s);
    CompleteKeepsSchedule(s, size);
    CompleteGrows(s, size);
    NoNewRestores(s.store.file, size, s.disk.pending, s'.disk.pending, 1);
    forall p | p in s'.verified
      ensures Verified(s', size, md4, p)
    {
      if p in s.verified {
        StaysVerified(s, size, md4, p);
      } else {
        GetsVerified(s, size, md4, p);
      }
    }
  }

  lemma EventGood(s: State, e: Event, size: nat, md4: Bytes -> Hash)
    requires Good(s, size, md4) && Enabled(s, e, size) && Clean(s, e)
    ensures Good(Next(s, e, size, md4), size, md4)
  {
    if e.RunTask? {
      RunTaskGood(s, size, md4);
    } else if e.Complete? {
      CompleteGood(s, size, md4);
    } else {
      QuietGood(s, e, size, md4);
    }
  }

  /** The first n tasks are gone, and tasks that are no restores have been added. */
  ghost predicate Grown(pending: seq<Task>, pending': seq<Task>, n: nat) {
    && n <= |pending| <= |pending'| + n
    && forall k {:trigger pending'[k]} :: 0 <= k < |pending'| ==>
       if k + n < |pending| then pending'[k] == pending[k + n] else !pending'[k].RestoreTask?
  }

  lemma CompleteGrows(s: State, size: nat)
    requires Enabled(s, Complete, size)
    ensures Grown(s.disk.pending, DeliverHead(s).disk.pending, 1) && DeliverHead(s).store == s.store
            && DeliverHead(s).log == s.log
  {
  }

  lemma QuietGrows(s: State, e: Event, size: nat, md4: Bytes -> Hash)
    requires Enabled(s, e, size) && Quiet(e)
    ensures Grown(s.disk.pending, Next(s, e, size, md4).disk.pending, 0)
  {
  }

  /** Restores are submitted at the start and at no other time. */
  lemma NoNewRestores(file: Bytes, size: nat, pending: seq<Task>, pending': seq<Task>, n: nat)
    requires Readable(file, size, pending) && Grown(pending, pending', n)
    ensures Readable(file, size, pending')
  {
    forall k | 0 <= k < |pending'| && pending'[k].RestoreTask?
      ensures InFile(file, size, pending'[k].block)
    {
      assert pending'[k] == pending[k + n];
    }
  }

  predicate Quiet(e: Event) { !e.RunTask? && !e.Complete? }

  lemma QuietShape(s: State, e: Event, size: nat, md4: Bytes -> Hash)
    requires Enabled(s, e, size) && Quiet(e)
    ensures var s' := Next(s, e, size, md4);
            && s'.store == s.store && s'.log == s.log && s'.hashResult == s.hashResult && s'.verified == s.verified
            && s'.disk.headCalled == s.disk.headCalled
            && (CanDeliver(s) ==> |s'.disk.pending| > 0 && s'.disk.pending[0] == s.disk.pending[0])
            && (s'.hashSet == s.hashSet || |s.hashSet| == 0)
  {
  }

  lemma QuietVerified(s: State, s': State, size: nat, md4: Bytes -> Hash, p: nat)
    requires Verified(s, size, md4, p) && s'.store == s.store && (s'.hashSet == s.hashSet || |s.hashSet| == 0)
    requires |s'.picker.status| == |s.picker.status| && s'.picker.status[p] == Have
    ensures Verified(s', size, md4, p)
  {
  }

  /** Events that touch neither the disk nor the verified pieces. */
  lemma QuietGood(s: State, e: Event, size: nat, md4: Bytes -> Hash)
    requires Good(s, size, md4) && Enabled(s, e, size) && Clean(s, e) && Quiet(e)
    ensures Good(Next(s, e, size, md4), size, md4)
  {
    var s' := Next(s, e, size, md4);
    EventKeepsSchedule(s, e, size, md4);
    HavePersists(s, e, size, md4);
    QuietShape(s, e, size, md4);
    QuietGrows(s, e, size, md4);
    NoNewRestores(s.store.file, size, s.disk.pending, s'.disk.pending, 0);
    forall p | p in s'.verified
      ensures Verified(s', size, md4, p)
    {
      assert Verified(s, size, md4, p);
      assert s.picker.status[p] == Have;
      QuietVerified(s, s', size, md4, p);
    }
  }

  /** A piece that is had is had for good. */
  lemma HavePersists(s: State, e: Event, size: nat, md4: Bytes -> Hash)
    requires SchedInv(s, size) && Enabled(s, e, size)
    ensures NoneLost(s.picker, Next(s, e, size, md4).picker)
  {
    match e
    case Request(c, peer, speed, available) => PickSound(s.picker, REQUEST_QUEUE_SIZE, peer, speed, available);
    case Receive(c, b, buffer) => assert ReceiveBlock(s, c, b, buffer).picker.status == s.picker.status;
    case Leave(c, peer) =>
      DisconnectReady(s, c, peer, size);
      QueuesValid(s, size, c);
      AbortEachFrees(s.picker, Waiting(s, c), peer);
    case RunTask =>
    case Complete => CompleteLosesNone(s, size);
    case LearnHashes(_, _) =>
  }

  ghost predicate NoneLost(p: Picker, q: Picker) {
    |q.status| == |p.status| && forall i {:trigger p.status[i]} {:trigger q.status[i]} ::
      0 <= i < |p.status| && p.status[i] == Have ==> q.status[i] == Have
  }

  lemma CompleteLosesNone(s: State, size: nat)
    requires SchedInv(s, size) && Enabled(s, Complete, size)
    ensures NoneLost(s.picker, DeliverHead(s).picker)
  {
    match NextTask(s)
    case WriteTask(_, _) => CompleteWriteKeepsSchedule(s, size);
    case HashTask(i) => HashedInProgress(s, size);
    case RestoreTask(b) =>
      assert PendingOk(s.picker, s.pendingHash, s.disk.pending[0], History(s), size);
  }

  // ---------------------------------------------------------------- whole runs

  /** A run: states linked by enabled events, all of them clean. */
  ghost predicate CleanRun(ss: seq<State>, es: seq<Event>, size: nat, md4: Bytes -> Hash) {
    && |ss| == |es| + 1
    && Init(ss[0], size)
    && forall i {:trigger es[i]} :: 0 <= i < |es| ==>
       Enabled(ss[i], es[i], size) && Clean(ss[i], es[i]) && ss[i + 1] == Next(ss[i], es[i], size, md4)
  }

  lemma {:induction false} RunGood(ss: seq<State>, es: seq<Event>, size: nat, md4: Bytes -> Hash, k: nat)
    requires CleanRun(ss, es, size, md4) && k < |ss|
    ensures Good(ss[k], size, md4)
  {
    if k == 0 {
      InitGood(ss[0], size, md4);
    } else {
      RunGood(ss, es, size, md4, k - 1);
      var e := es[k - 1];
      EventGood(ss[k - 1], e, size, md4);
    }
  }

  /** Nothing gets stuck, and no run is cut short by a condition on events: in every state of a clean run the
      task at the head can be executed or its result delivered, a connection that waits for nothing can ask,
      any awaited block can arrive, and any connection can leave. */
  lemma NeverStuck(ss: seq<State>, es: seq<Event>, size: nat, md4: Bytes -> Hash, c: nat, peer: Peer, speed: nat,
                   available: seq<bool>, b: PieceBlock, buffer: Bytes)
    requires CleanRun(ss, es, size, md4)
    ensures var s := ss[|es|];
            && (|s.disk.pending| > 0 ==> Enabled(s, if s.disk.headCalled then Complete else RunTask, size))
            && (Waiting(s, c) == [] ==> Enabled(s, Request(c, peer, speed, available), size))
            && (b in Waiting(s, c) && |buffer| == BlockSize(b, size) ==> Enabled(s, Receive(c, b, buffer), size))
            && Enabled(s, Leave(c, peer), size)
  {
    RunGood(ss, es, size, md4, |es|);
    var s := ss[|es|];
    QueuesValid(s, size, c);
    if |s.disk.pending| > 0 {
      HeadReady(s, size, md4);
    }
  }

  lemma QueuesValid(s: State, size: nat, c: nat)
    requires Ready(s, size)
    ensures AllValid(s.picker, Waiting(s, c)) && forall b :: b in Waiting(s, c) ==> ValidBlock(size, b)
  {
    if c in s.queues {
      assert AllValid(s.picker, s.queues[c]);
    }
  }

  lemma HeadReady(s: State, size: nat, md4: Bytes -> Hash)
    requires Good(s, size, md4) && |s.disk.pending| > 0
    ensures Enabled(s, if s.disk.headCalled then Complete else RunTask, size)
  {
    var t := NextTask(s);
    assert PendingOk(s.picker, s.pendingHash, s.disk.pending[0], History(s), size);
    if t.HashTask? {
      assert t.piece in s.pendingHash;
    } else {
      assert Stored(s.store, size, t.block.piece, OpenBlocks(s.log, t.block.piece));
    }
  }

  /** A block starts where the blocks before it end. */
  lemma BlockStart(size: nat, p: nat, j: nat)
    requires ValidBlock(size, PieceBlock(p, j))
    ensures Offset(PieceBlock(p, j)) == p * PIECE_SIZE + SumBlockSizes(size, p, j)
    ensures 0 <= SumBlockSizes(size, p, j)
  {
    OffsetIsLeft(size, PieceBlock(p, j));
    if j > 0 {
      BlocksSumToOffset(size, p, j);
      BlocksAdjacent(size, p, j - 1);
      OffsetIsLeft(size, PieceBlock(p, j - 1));
    } else {
      BlocksAdjacent(size, p, 0);
    }
  }

  lemma {:induction false} DataIsRange(file: Bytes, size: nat, p: nat, n: nat)
    requires p < PieceCount(size) && 0 < n <= BlockCount(size, p) && OnDisk(file, size, p)
    ensures 0 <= SumBlockSizes(size, p, n) && p * PIECE_SIZE + SumBlockSizes(size, p, n) <= |file|
    ensures PieceData(file, size, p, n) == file[p * PIECE_SIZE..p * PIECE_SIZE + SumBlockSizes(size, p, n)]
  {
    BlockStart(size, p, n - 1);
    assert InFile(file, size, PieceBlock(p, n - 1));
    if n > 1 {
      DataIsRange(file, size, p, n - 1);
    }
    JoinBlock(file, size, p, n - 1);
  }

  lemma JoinBlock(file: Bytes, size: nat, p: nat, j: nat)
    requires var b := PieceBlock(p, j); InFile(file, size, b) && Offset(b) == p * PIECE_SIZE + SumBlockSizes(size, p, j)
    requires 0 <= SumBlockSizes(size, p, j)
    requires j > 0 ==> PieceData(file, size, p, j) == file[p * PIECE_SIZE..p * PIECE_SIZE + SumBlockSizes(size, p, j)]
    ensures PieceData(file, size, p, j + 1) == file[p * PIECE_SIZE..p * PIECE_SIZE + SumBlockSizes(size, p, j + 1)]
  {
    var b := PieceBlock(p, j);
    var from, mid, to := p * PIECE_SIZE, Offset(b), Offset(b) + BlockSize(b, size);
    assert file[from..to] == file[from..mid] + file[mid..to];
  }

  /** The blocks of a piece, one after the other, are the piece as it lies in the file, unless it is the
      short-counted last piece of a file whose size is a multiple of the piece size. */
  lemma DataIsPiece(file: Bytes, size: nat, p: nat)
    requires p < PieceCount(size) && OnDisk(file, size, p)
    ensures FullyBlocked(size, p) ==>
              && p * PIECE_SIZE + PieceSize(size, p) <= |file|
              && PieceData(file, size, p, BlockCount(size, p)) ==
                 file[p * PIECE_SIZE..p * PIECE_SIZE + PieceSize(size, p)]
    ensures |PieceData(file, size, p, BlockCount(size, p))| == PieceSize(size, p) <==> FullyBlocked(size, p)
  {
    OnePieceAtLeast(size, p);
    DataIsRange(file, size, p, BlockCount(size, p));
    BlocksSumToPiece(size, p);
  }

  /** A checked piece is had, and the bytes of the file where it lies hash to its entry of the hash set. */
  predicate Intact(s: State, size: nat, md4: Bytes -> Hash, p: nat) {
    && p < |s.picker.status| && s.picker.status[p] == Have && p < |s.hashSet|
    && p * PIECE_SIZE + PieceSize(size, p) <= |s.store.file|
    && md4(s.store.file[p * PIECE_SIZE..p * PIECE_SIZE + PieceSize(size, p)]) == s.hashSet[p]
  }

  /** Integrity: in every state of a clean run, a piece accepted against the hash set is had, and the bytes of the
      file where it lies hash to the entry of the hash set. */
  lemma PiecesAreIntact(ss: seq<State>, es: seq<Event>, size: nat, md4: Bytes -> Hash, i: nat, p: nat)
    requires CleanRun(ss, es, size, md4) && i < |ss| && p in ss[i].verified && FullyBlocked(size, p)
    ensures Intact(ss[i], size, md4, p)
  {
    RunGood(ss, es, size, md4, i);
    assert Verified(ss[i], size, md4, p);
    DataIsPiece(ss[i].store.file, size, p);
  }

  /** The bytes of piece p, as far as the file reaches, are the same in both files. */
  ghost predicate SamePiece(file: Bytes, file': Bytes, p: nat) {
    && |file| <= |file'|
    && forall x: nat {:trigger file[x]} {:trigger file'[x]} ::
       p * PIECE_SIZE <= x < (p + 1) * PIECE_SIZE && x < |file| ==> file'[x] == file[x]
  }

  lemma WriteFreezes(s: State, size: nat, md4: Bytes -> Hash, p: nat)
    requires SchedInv(s, size) && Enabled(s, RunTask, size) && NextTask(s).WriteTask?
    requires p < |s.picker.status| && s.picker.status[p] == Have
    ensures SamePiece(s.store.file, CallHead(s, size, md4).store.file, p)
  {
    var b := NextTask(s).block;
    HeadMayRun(s, size);
    assert PendingOk(s.picker, s.pendingHash, s.disk.pending[0], History(s), size);
    assert InProgress(s.picker, b.piece) && b.piece != p;
    OffsetIsLeft(size, b);
    BlockInPiece(size, b);
  }

  lemma EventFreezesHave(s: State, e: Event, size: nat, md4: Bytes -> Hash, p: nat)
    requires Good(s, size, md4) && Enabled(s, e, size) && Clean(s, e)
    requires p < |s.picker.status| && s.picker.status[p] == Have
    ensures var s' := Next(s, e, size, md4);
            p < |s'.picker.status| && s'.picker.status[p] == Have && SamePiece(s.store.file, s'.store.file, p)
  {
    HavePersists(s, e, size, md4);
    if e.RunTask? && NextTask(s).WriteTask? {
      WriteFreezes(s, size, md4, p);
    } else if Quiet(e) {
      QuietShape(s, e, size, md4);
    }
  }

  /** One event of a clean run. */
  lemma StepFreezes(ss: seq<State>, es: seq<Event>, size: nat, md4: Bytes -> Hash, p: nat, j: nat)
    requires CleanRun(ss, es, size, md4) && j + 1 < |ss| && p < |ss[j].picker.status| && ss[j].picker.status[p] == Have
    ensures p < |ss[j + 1].picker.status| && ss[j + 1].picker.status[p] == Have
            && SamePiece(ss[j].store.file, ss[j + 1].store.file, p)
  {
    RunGood(ss, es, size, md4, j);
    var e := es[j];
    EventFreezesHave(ss[j], e, size, md4, p);
  }

  lemma SamePieceThrough(f: Bytes, g: Bytes, h: Bytes, p: nat)
    requires SamePiece(f, g, p) && SamePiece(g, h, p)
    ensures SamePiece(f, h, p)
  {
  }

  /** Once had, always had, and never written again. */
  lemma {:induction false} HaveIsFrozen(ss: seq<State>, es: seq<Event>, size: nat, md4: Bytes -> Hash, p: nat, i: nat,
                                        j: nat)
    requires CleanRun(ss, es, size, md4) && i <= j < |ss|
    requires p < |ss[i].picker.status| && ss[i].picker.status[p] == Have
    ensures p < |ss[j].picker.status| && ss[j].picker.status[p] == Have
    ensures SamePiece(ss[i].store.file, ss[j].store.file, p)
    decreases j - i
  {
    if i < j {
      HaveIsFrozen(ss, es, size, md4, p, i, j - 1);
      StepFreezes(ss, es, size, md4, p, j - 1);
      SamePieceThrough(ss[i].store.file, ss[j - 1].store.file, ss[j].store.file, p);
    }
  }

  /** In every clean run the disk has executed, per piece, nothing but attempts of this form: every block taken
      in once, written or read back, then one hash. A complete piece has its hash queued behind its blocks, unless
      some of its blocks were read back and no write of this attempt has completed. */
  lemma AttemptsAreHashedOnce(ss: seq<State>, es: seq<Event>, size: nat, md4: Bytes -> Hash)
    requires CleanRun(ss, es, size, md4)
    ensures var s := ss[|es|];
            && WellFormed(s.log, size)
            && forall i: nat {:trigger HashTask(i)} ::
               i < |s.picker.status| && s.picker.status[i] == Downloading && AllDownloaded(s.picker, i) ==>
                 HashTask(i) in s.disk.pending
                   || (RestoredBlocks(History(s), i) != {} && WritesPending(s.disk.pending, History(s), i))
  {
    RunGood(ss, es, size, md4, |es|);
    var s := ss[|es|];
    assert History(s)[..|s.log|] == s.log;
    WellFormedPrefix(History(s), |s.log|, size);
    forall i: nat | i < |s.picker.status| && s.picker.status[i] == Downloading && AllDownloaded(s.picker, i)
      ensures HashTask(i) in s.disk.pending
              || (RestoredBlocks(History(s), i) != {} && WritesPending(s.disk.pending, History(s), i))
    {
      PieceFinishedMeaning(s.picker, i);
      FinishedIsAllDl(s, i, size);
      assert i in s.pendingHash || Unasked(s.disk.pending, History(s), i);
    }
  }
}
