/** Runs of a file of one block, whatever its size, content and hash function: a late leave and a late restore have
    wrong bytes accepted or overwrite right ones; without a hash set anything is accepted. */
module Witnesses {
  import opened Wrappers
  import opened Geometry
  import opened Scheduler = BlockScheduler
  import opened PieceStore
  import opened DiskQueue
  import opened Pipeline
  import opened Schedule
  import opened Integrity
  import opened Outcomes
  import opened Reach
  import opened OneBlock
  import Policies
  import Resume
  import opened Resumption

  const SLOW_PEER: Peer := Some(1)
  const FAST_PEER: Peer := Some(2)

  function Fresh(file: Bytes, hashSet: seq<Hash>, restores: seq<Task>): State {
    State(Untouched(), map[], {}, Fifo(restores, false), [], Store(file, map[]), hashSet, {}, [])
  }

  lemma FreshIsInit(file: Bytes, hashSet: seq<Hash>, size: nat)
    requires OneBlockSize(size)
    ensures Init(Fresh(file, hashSet, []), size)
    ensures |file| == OnlySize(size) ==> Init(Fresh(file, hashSet, [RestoreTask(ONLY)]), size)
  {
    OneBlockGeometry(size);
    if |file| == OnlySize(size) {
      ReadsAll(file, size);
      assert Restorable(Fresh(file, hashSet, [RestoreTask(ONLY)]), RestoreTask(ONLY), size);
    }
  }

  lemma Overwrites(file: Bytes, x: Bytes)
    requires |file| <= |x|
    ensures WriteAt(file, 0, x) == x
  {
  }

  lemma DifferentPiece(x: Bytes, y: Bytes, size: nat)
    requires OneBlockSize(size) && |x| == |y| == OnlySize(size) && x != y
    ensures !SamePiece(x, y, 0)
  {
    var i :| 0 <= i < OnlySize(size) && x[i] != y[i];
    assert 0 * PIECE_SIZE <= i < 1 * PIECE_SIZE;
  }

  // ---------------------------------------------------------------- tasks from start to completion

  lemma WriteDone(s0: State, s: State, d: DBlock, x: Bytes, rest: seq<Task>, size: nat, md4: Bytes -> Hash, clean: bool)
    returns (t: State)
    requires Leads(s0, s, size, md4, clean) && Fitting(s, size) && s.picker == Started(d) && d.Consistent()
             && 0 in s.pendingHash
    requires s.disk == Fifo([WriteTask(ONLY, x)] + rest, false) && |s.store.file| <= |x| == OnlySize(size)
    ensures Leads(s0, t, size, md4, clean) && |Manager(s.store, size, 0).buffers| == 1
    ensures t == s.(picker := Started(d.Finish()), disk := Fifo(rest, false), log := s.log + [WriteTask(ONLY, x)],
                    store := Store(x, s.store.mgrs[0 := Register(Manager(s.store, size, 0), 0, x).0]))
  {
    Manages(s.store, size);
    Writes(s0, s, x, rest, size, md4, clean);
    Overwrites(s.store.file, x);
    var s1 := s.(disk := Fifo([WriteTask(ONLY, x)] + rest, true), log := s.log + [WriteTask(ONLY, x)],
                 store := Store(x, s.store.mgrs[0 := Register(Manager(s.store, size, 0), 0, x).0]));
    Completes(s0, s1, d, WriteTask(ONLY, x), rest, size, md4, clean);
    t := s1.(picker := Started(d.Finish()), disk := Fifo(rest, false));
  }

  lemma ReadDone(s0: State, s: State, d: DBlock, rest: seq<Task>, size: nat, md4: Bytes -> Hash, clean: bool)
    returns (t: State)
    requires Leads(s0, s, size, md4, clean) && Fitting(s, size) && s.picker == Started(d) && d.Consistent()
    requires s.disk == Fifo([RestoreTask(ONLY)] + rest, false) && |s.store.file| == OnlySize(size)
    ensures Leads(s0, t, size, md4, clean) && |Manager(s.store, size, 0).buffers| == 1
    ensures t == s.(picker := Started(d.Finish()), disk := Fifo(rest, false), log := s.log + [RestoreTask(ONLY)],
                    store := s.store.(mgrs :=
                                      s.store.mgrs[0 := Register(Manager(s.store, size, 0), 0, s.store.file).0]))
  {
    Manages(s.store, size);
    Reads(s0, s, rest, size, md4, clean);
    var s1 := s.(disk := Fifo([RestoreTask(ONLY)] + rest, true), log := s.log + [RestoreTask(ONLY)],
                 store := s.store.(mgrs := s.store.mgrs[0 := Register(Manager(s.store, size, 0), 0, s.store.file).0]));
    Completes(s0, s1, d, RestoreTask(ONLY), rest, size, md4, clean);
    t := s1.(picker := Started(d.Finish()), disk := Fifo(rest, false));
  }

  lemma HashDone(s0: State, s: State, d: DBlock, rest: seq<Task>, size: nat, md4: Bytes -> Hash, clean: bool)
    returns (t: State)
    requires Leads(s0, s, size, md4, clean) && Fitting(s, size) && s.picker == Started(d) && d.Consistent()
    requires s.disk == Fifo([HashTask(0)] + rest, false)
    requires 0 < |s.hashSet| ==> s.hashSet[0] == md4(Manager(s.store, size, 0).hashed)
    ensures Leads(s0, t, size, md4, clean)
    ensures t.picker == Done() && t.disk == Fifo(rest, false) && t.store == s.store.(mgrs := s.store.mgrs - {0})
    ensures t.hashSet == s.hashSet && t.verified == if 0 < |s.hashSet| then s.verified + {0} else s.verified
  {
    Hashes(s0, s, rest, size, md4, clean);
    var s1 := s.(disk := Fifo([HashTask(0)] + rest, true), log := s.log + [HashTask(0)],
                 store := s.store.(mgrs := s.store.mgrs - {0}), hashResult := md4(Manager(s.store, size, 0).hashed));
    Accepted(s0, s1, d, rest, size, md4, clean);
    t := s1.(picker := Done(), disk := Fifo(rest, false), pendingHash := s1.pendingHash - {0},
             verified := if 0 < |s.hashSet| then s1.verified + {0} else s1.verified);
  }

  lemma FittingStarted(s: State, d: DBlock, size: nat)
    requires OneBlockSize(size) && s.picker == Started(d) && d.Consistent()
    requires 0 in s.store.mgrs ==> |s.store.mgrs[0].buffers| == 1
    ensures Fitting(s, size)
  {
    OneBlockGeometry(size);
    StartedInv(d);
  }

  // ---------------------------------------------------------------- the late leave

  /** Two connections ask for the block, the second in the end game, and the first delivers it. */
  lemma BothAskOneDelivers(s0: State, x: Bytes, size: nat, md4: Bytes -> Hash) returns (s: State)
    requires OneBlockSize(size) && |x| == OnlySize(size) && s0 == Fresh(s0.store.file, s0.hashSet, [])
    ensures Leads(s0, s, size, md4, true)
    ensures s == s0.(picker := Started(DBlock(Writing, 0, None, 1)), queues := map[1 := [], 2 := [ONLY]],
                     pendingHash := {0},
                     disk := Fifo([WriteTask(ONLY, x), HashTask(0)], false))
  {
    var d1 := FRESH.Request(SLOW_PEER, SLOW);
    var d2 := d1.Request(FAST_PEER, 1);
    LeadsNowhere(s0, size, md4, true);
    AskFirst(s0, s0, 1, SLOW_PEER, size, md4, true);
    var s1 := s0.(picker := Started(d1), queues := map[1 := [ONLY]]);
    AskAgain(s0, s1, d1, 2, FAST_PEER, 1, size, md4, true);
    var s2 := s1.(picker := Started(d2), queues := map[1 := [ONLY], 2 := [ONLY]]);
    Arrives(s0, s2, d2, 1, x, size, md4, true);
    s := s2.(picker := Started(d2.Write()), queues := map[1 := [], 2 := [ONLY]], pendingHash := {0},
             disk := Fifo([WriteTask(ONLY, x), HashTask(0)], false));
    assert s2.queues[1 := []] == map[1 := [], 2 := [ONLY]] && {} + {0} == {0};
    assert FifoSubmit(FifoSubmit(s2.disk, WriteTask(ONLY, x)), HashTask(0)).pending ==
      [WriteTask(ONLY, x), HashTask(0)];
  }

  /** The second leaves, which frees the block; a third asks for it and delivers other bytes. */
  lemma ThirdDeliversAgain(s: State, x: Bytes, y: Bytes, size: nat, md4: Bytes -> Hash) returns (t: State)
    requires OneBlockSize(size) && |y| == OnlySize(size) && s.picker == Started(DBlock(Writing, 0, None, 1))
             && s.pendingHash == {0}
    requires s.queues == map[1 := [], 2 := [ONLY]] && s.disk == Fifo([WriteTask(ONLY, x), HashTask(0)], false)
    ensures Enabled(s, Leave(2, FAST_PEER), size) && !Clean(s, Leave(2, FAST_PEER))
    ensures Leads(Next(s, Leave(2, FAST_PEER), size, md4), t, size, md4, false)
    ensures t == s.(picker := Started(DBlock(Writing, 0, None, SLOW)), queues := map[1 := [], 3 := []],
                    disk := Fifo([WriteTask(ONLY, x), HashTask(0), WriteTask(ONLY, y)], false))
  {
    var d := DBlock(Writing, 0, None, 1);
    LeadsNowhere(s, size, md4, false);
    Departs(s, s, d, 2, FAST_PEER, size, md4);
    var s0 := Disconnect(s, 2, FAST_PEER);
    var d1 := d.Abort(FAST_PEER);
    assert s0 == s.(picker := Started(d1), queues := map[1 := []]);
    LeadsNowhere(s0, size, md4, false);
    AskAgain(s0, s0, d1, 3, SLOW_PEER, SLOW, size, md4, false);
    var d2 := d1.Request(SLOW_PEER, SLOW);
    var s1 := s0.(picker := Started(d2), queues := map[1 := [], 3 := [ONLY]]);
    Arrives(s0, s1, d2, 3, y, size, md4, false);
    t := s1.(picker := Started(d2.Write()), queues := map[1 := [], 3 := []],
             disk := Fifo([WriteTask(ONLY, x), HashTask(0), WriteTask(ONLY, y)], false));
    assert FifoSubmit(s1.disk, WriteTask(ONLY, y)).pending == [WriteTask(ONLY, x), HashTask(0), WriteTask(ONLY, y)];
    assert s1.queues[3 := []] == map[1 := [], 3 := []];
  }

  /** The disk writes the first delivery, hashes and accepts the piece, with the second write still queued. */
  lemma FirstIsAccepted(s: State, x: Bytes, y: Bytes, size: nat, md4: Bytes -> Hash) returns (t: State)
    requires OneBlockSize(size) && |x| == OnlySize(size) && |s.store.file| <= OnlySize(size) && s.store.mgrs == map[]
             && s.hashSet == [md4(x)]
    requires s.picker == Started(DBlock(Writing, 0, None, SLOW)) && s.pendingHash == {0} && s.verified == {}
    requires s.disk == Fifo([WriteTask(ONLY, x), HashTask(0), WriteTask(ONLY, y)], false)
    ensures Leads(s, t, size, md4, false)
    ensures t.picker == Done() && t.store == Store(x, map[]) && t.hashSet == s.hashSet && t.verified == {0}
            && t.disk == Fifo([WriteTask(ONLY, y)], false)
  {
    var d := DBlock(Writing, 0, None, SLOW);
    var rest := [HashTask(0), WriteTask(ONLY, y)];
    OneBlockGeometry(size);
    RegisteredOnce(x, x, Manager(s.store, size, 0));
    LeadsNowhere(s, size, md4, false);
    FittingStarted(s, d, size);
    assert [WriteTask(ONLY, x)] + rest == s.disk.pending;
    var s1 := WriteDone(s, s, d, x, rest, size, md4, false);
    FittingStarted(s1, d.Finish(), size);
    assert rest == [HashTask(0)] + [WriteTask(ONLY, y)];
    t := HashDone(s, s1, d.Finish(), [WriteTask(ONLY, y)], size, md4, false);
    assert s1.store.mgrs - {0} == map[];
  }

  /** The queued write reaches the disk when the piece is had. */
  lemma SecondIsWritten(t: State, x: Bytes, y: Bytes, size: nat, md4: Bytes -> Hash) returns (u: State)
    requires OneBlockSize(size) && |x| == |y| == OnlySize(size) && t.picker == Done() && t.store == Store(x, map[])
    requires t.disk == Fifo([WriteTask(ONLY, y)], false)
    ensures Leads(t, u, size, md4, false)
    ensures u.picker == Done() && u.store.file == y && u.hashSet == t.hashSet && u.verified == t.verified
  {
    OneBlockGeometry(size);
    LeadsNowhere(t, size, md4, false);
    assert [WriteTask(ONLY, y)] + [] == [WriteTask(ONLY, y)];
    Writes(t, t, y, [], size, md4, false);
    Overwrites(x, y);
    var m := Register(Manager(t.store, size, 0), 0, y).0;
    u := t.(disk := Fifo([WriteTask(ONLY, y)] + [], true), log := t.log + [WriteTask(ONLY, y)],
            store := Store(WriteAt(t.store.file, 0, y), t.store.mgrs[0 := m]));
  }

  /** A piece once accepted can be overwritten: this is what an unclean leave makes possible. From a fresh transfer
      with its hash set, clean events lead to a state in which a leave is enabled but not clean; after it, enabled
      events lead to the piece being had with the right bytes x, and on to its bytes being y. */
  lemma LateLeaveOverwrites(file: Bytes, x: Bytes, y: Bytes, size: nat, md4: Bytes -> Hash)
    requires OneBlockSize(size) && |file| <= OnlySize(size) && |x| == |y| == OnlySize(size) && x != y
    ensures var s0 := Fresh(file, [md4(x)], []);
            exists s: State, e: Event, t: State, u: State ::
              && Init(s0, size) && Leads(s0, s, size, md4, true)
              && e.Leave? && Enabled(s, e, size) && !Clean(s, e)
              && Leads(Next(s, e, size, md4), t, size, md4, false) && Had(t, 0) && 0 in t.verified && t.store.file == x
              && Leads(t, u, size, md4, false) && Had(u, 0) && 0 in u.verified && u.hashSet == [md4(x)]
                 && u.store.file == y
              && !SamePiece(t.store.file, u.store.file, 0)
  {
    var s0 := Fresh(file, [md4(x)], []);
    FreshIsInit(file, [md4(x)], size);
    var s := BothAskOneDelivers(s0, x, size, md4);
    var e := Leave(2, FAST_PEER);
    var s1 := ThirdDeliversAgain(s, x, y, size, md4);
    var t := FirstIsAccepted(s1, x, y, size, md4);
    LeadsJoin(Next(s, e, size, md4), s1, t, size, md4, false);
    var u := SecondIsWritten(t, x, y, size, md4);
    DifferentPiece(x, y, size);
  }

  // ---------------------------------------------------------------- the late restore

  lemma AskedFirst(s0: State, size: nat, md4: Bytes -> Hash) returns (s: State)
    requires OneBlockSize(size) && s0.picker == Untouched() && s0.queues == map[]
    ensures Leads(s0, s, size, md4, true)
    ensures s == s0.(picker := Started(FRESH.Request(SLOW_PEER, SLOW)), queues := map[1 := [ONLY]])
  {
    LeadsNowhere(s0, size, md4, true);
    AskFirst(s0, s0, 1, SLOW_PEER, size, md4, true);
    s := s0.(picker := Started(FRESH.Request(SLOW_PEER, SLOW)), queues := map[1 := [ONLY]]);
  }

  /** The block is asked for and delivered while it is still to be read back. */
  lemma DeliversBeforeRestore(s: State, y: Bytes, size: nat, md4: Bytes -> Hash) returns (t: State)
    requires OneBlockSize(size) && |y| == OnlySize(size) && s.picker == Started(FRESH.Request(SLOW_PEER, SLOW))
             && s.queues == map[1 := [ONLY]]
    requires s.pendingHash == {} && s.disk == Fifo([RestoreTask(ONLY)], false)
    ensures Enabled(s, Receive(1, ONLY, y), size) && !Clean(s, Receive(1, ONLY, y))
    ensures t == Next(s, Receive(1, ONLY, y), size, md4)
    ensures t == s.(picker := Started(DBlock(Writing, 0, None, SLOW)), queues := map[1 := []], pendingHash := {0},
                    disk := Fifo([RestoreTask(ONLY), WriteTask(ONLY, y), HashTask(0)], false))
  {
    BothSubmitted(s, FRESH.Request(SLOW_PEER, SLOW).Write(), y);
    Arriving(s, FRESH.Request(SLOW_PEER, SLOW), 1, y, size);
    t := ReceiveBlock(s, 1, ONLY, y);
  }

  lemma BothSubmitted(s: State, d: DBlock, y: Bytes)
    requires s.queues == map[1 := [ONLY]] && s.pendingHash == {} && s.disk == Fifo([RestoreTask(ONLY)], false)
    ensures var t := s.(picker := Started(d), queues := s.queues[1 := []],
                        disk := FifoSubmit(s.disk, WriteTask(ONLY, y)));
            t.(pendingHash := t.pendingHash + {0}, disk := FifoSubmit(t.disk, HashTask(0))) ==
              s.(picker := Started(d), queues := map[1 := []], pendingHash := {0},
                 disk := Fifo([RestoreTask(ONLY), WriteTask(ONLY, y), HashTask(0)], false))
  {
    assert s.queues[1 := []] == map[1 := []] && {} + {0} == {0};
    assert FifoSubmit(FifoSubmit(s.disk, WriteTask(ONLY, y)), HashTask(0)).pending ==
      [RestoreTask(ONLY), WriteTask(ONLY, y), HashTask(0)];
  }

  /** The restore is executed first, so its bytes are the ones hashed; the write comes after it, so its bytes stay. */
  lemma RestoreIsHashed(s: State, x: Bytes, y: Bytes, size: nat, md4: Bytes -> Hash) returns (t: State)
    requires OneBlockSize(size) && |x| == |y| == OnlySize(size) && s.store == Store(x, map[]) && s.hashSet == [md4(x)]
             && s.verified == {}
    requires s.picker == Started(DBlock(Writing, 0, None, SLOW)) && s.pendingHash == {0}
    requires s.disk == Fifo([RestoreTask(ONLY), WriteTask(ONLY, y), HashTask(0)], false)
    ensures Leads(s, t, size, md4, false)
    ensures t.picker == Done() && t.store.file == y && t.hashSet == s.hashSet && t.verified == {0}
            && t.disk == Fifo([], false)
  {
    var d := DBlock(Writing, 0, None, SLOW);
    var w, h := WriteTask(ONLY, y), HashTask(0);
    OneBlockGeometry(size);
    RegisteredOnce(x, y, Manager(s.store, size, 0));
    LeadsNowhere(s, size, md4, false);
    FittingStarted(s, d, size);
    assert s.disk.pending == [RestoreTask(ONLY)] + [w, h] && [w, h] == [w] + [h] && [h] == [h] + [];
    var s1 := ReadDone(s, s, d, [w, h], size, md4, false);
    FittingStarted(s1, d.Finish(), size);
    var s2 := WriteDone(s, s1, d.Finish(), y, [h], size, md4, false);
    FittingStarted(s2, d.Finish(), size);
    t := HashDone(s, s2, d.Finish(), [], size, md4, false);
  }

  /** Wrong bytes are accepted: this is what an unclean delivery makes possible. From a transfer that resumes with the
      right block x in its file and the hash set, clean events lead to a state in which a delivery of y is enabled but
      not clean; after it, enabled events lead to the piece being had and checked with the bytes y. */
  lemma LateRestoreAcceptsWrong(x: Bytes, y: Bytes, size: nat, md4: Bytes -> Hash)
    requires OneBlockSize(size) && |x| == |y| == OnlySize(size)
    ensures var s0 := Fresh(x, [md4(x)], [RestoreTask(ONLY)]);
            exists s: State, e: Event, t: State ::
              && Init(s0, size) && Leads(s0, s, size, md4, true)
              && e.Receive? && e.buffer == y && Enabled(s, e, size) && !Clean(s, e)
              && Leads(Next(s, e, size, md4), t, size, md4, false)
              && Had(t, 0) && 0 in t.verified && t.hashSet == [md4(x)] && t.store.file == y && t.disk.pending == []
  {
    var s0 := Fresh(x, [md4(x)], [RestoreTask(ONLY)]);
    FreshIsInit(x, [md4(x)], size);
    var s := AskedFirst(s0, size, md4);
    var s1 := DeliversBeforeRestore(s, y, size, md4);
    var e := Receive(1, ONLY, y);
    var t := RestoreIsHashed(s1, x, y, size, md4);
    assert s1 == Next(s, e, size, md4) && Had(t, 0);
  }

  /** The block is written, and the hash of the piece is pending. */
  lemma WrittenNotHashed(y: Bytes, hashSet: seq<Hash>, size: nat, md4: Bytes -> Hash) returns (s: State)
    requires OneBlockSize(size) && |y| == OnlySize(size)
    ensures Leads(Fresh([], hashSet, []), s, size, md4, true)
    ensures s.picker == Started(DBlock(Finished, 0, None, SLOW)) && s.disk == Fifo([HashTask(0)], false)
    ensures s.store == Store(y, map[0 := Register(NewBlockMgr(1), 0, y).0]) && s.hashSet == hashSet && s.verified == {}
    ensures |s.store.mgrs[0].buffers| == 1
  {
    var s0 := Fresh([], hashSet, []);
    var d := FRESH.Request(SLOW_PEER, SLOW);
    var w, h := WriteTask(ONLY, y), HashTask(0);
    var s1 := AskedFirst(s0, size, md4);
    Arrives(s0, s1, d, 1, y, size, md4, true);
    var s2 := s1.(picker := Started(d.Write()), queues := s1.queues[1 := []], pendingHash := s1.pendingHash + {0},
                  disk := Fifo([w, h], false));
    assert FifoSubmit(FifoSubmit(s1.disk, w), h).pending == [w, h] == [w] + [h];
    FittingStarted(s2, d.Write(), size);
    s := WriteDone(s0, s2, d.Write(), y, [h], size, md4, true);
    OneBlockGeometry(size);
    RegisteredOnce(y, y, NewBlockMgr(1));
  }

  // ---------------------------------------------------------------- no hash set

  /** Without a hash set any bytes are accepted, and in a clean run. */
  lemma AnythingAcceptedUnchecked(y: Bytes, size: nat, md4: Bytes -> Hash)
    requires OneBlockSize(size) && |y| == OnlySize(size)
    ensures exists ss: seq<State>, es: seq<Event> ::
              && CleanRun(ss, es, size, md4) && ss[0] == Fresh([], [], [])
              && Had(ss[|es|], 0) && 0 !in ss[|es|].verified && ss[|es|].store.file == y
  {
    var s0 := Fresh([], [], []);
    FreshIsInit([], [], size);
    var s := WrittenNotHashed(y, [], size, md4);
    RegisteredOnce(y, y, NewBlockMgr(1));
    FittingStarted(s, DBlock(Finished, 0, None, SLOW), size);
    assert s.disk.pending == [HashTask(0)] + [];
    var t := HashDone(s0, s, DBlock(Finished, 0, None, SLOW), [], size, md4, true);
    CleanLeads(s0, t, size, md4);
  }

  /** Of a file of exactly one piece, one block is asked for. The piece is then had, and all that was ever fetched of it
      is that block. */
  lemma RestNeverFetched(y: Bytes, md4: Bytes -> Hash)
    requires |y| == BLOCK_SIZE
    ensures exists ss: seq<State>, es: seq<Event> ::
              && CleanRun(ss, es, PIECE_SIZE, md4) && ss[0] == Fresh([], [], [])
              && Had(ss[|es|], 0) && ss[|es|].store.file == y && |y| < PieceSize(PIECE_SIZE, 0)
  {
    AnythingAcceptedUnchecked(y, PIECE_SIZE, md4);
    OneBlockGeometry(PIECE_SIZE);
    var ss: seq<State>, es: seq<Event> :|
      CleanRun(ss, es, PIECE_SIZE, md4) && ss[0] == Fresh([], [], []) && Had(ss[|es|], 0) && ss[|es|].store.file == y;
  }

  // ---------------------------------------------------------------- saving while a hash is pending

  lemma SavedOneBlock(s: State, peers: seq<Policies.Peer>)
    requires s.picker == Started(DBlock(Finished, 0, None, SLOW))
    ensures Successor(s, peers, s.store.file) == Fresh(s.store.file, s.hashSet, [RestoreTask(ONLY)])
  {
    var d := s.picker.downloading[0];
    assert Resume.FinishedOf(d, 0) == [] && Resume.FinishedOf(d, 1) == [ONLY];
    assert s.picker.downloading[..0] == [];
    assert Resume.FinishedBlocks(s.picker.downloading) == [ONLY];
    var rd := Resume.Save(s.picker, s.hashSet, peers);
    assert rd.pieces == [false] && Resume.RestoredStatus(rd.pieces) == [Missing];
    assert RestoreTasks(rd.blocks) == [RestoreTask(ONLY)];
  }

  /** The resumed transfer reads its block back, and then nothing is queued any more. */
  lemma ReadBackAndIdle(file: Bytes, hashSet: seq<Hash>, size: nat, md4: Bytes -> Hash) returns (u: State)
    requires OneBlockSize(size) && |file| == OnlySize(size)
    ensures Leads(Fresh(file, hashSet, [RestoreTask(ONLY)]), u, size, md4, true)
    ensures u.picker == Started(FRESH.Finish()) && u.disk.pending == []
  {
    var t := Fresh(file, hashSet, [RestoreTask(ONLY)]);
    OneBlockGeometry(size);
    RestoreUntouched();
    LeadsNowhere(t, size, md4, true);
    assert [RestoreTask(ONLY)] + [] == [RestoreTask(ONLY)];
    Reads(t, t, [], size, md4, true);
    var t1 := t.(disk := Fifo([RestoreTask(ONLY)] + [], true), log := t.log + [RestoreTask(ONLY)],
                 store := t.store.(mgrs := t.store.mgrs[0 := Register(Manager(t.store, size, 0), 0, t.store.file).0]));
    RestoreStarts(t, t1, size, md4, true);
    u := t1.(picker := Started(FRESH.Finish()), disk := Fifo([], false));
  }

  lemma NeverHadFrom(s: State, peers: seq<Policies.Peer>, u: State, size: nat, md4: Bytes -> Hash)
    requires OneBlockSize(size) && s.picker == Started(DBlock(Finished, 0, None, SLOW))
    requires var t := Successor(s, peers, s.store.file); Init(t, size) && Leads(t, u, size, md4, true)
    ensures !Had(u, 0)
  {
    OneBlockGeometry(size);
    StartedInv(DBlock(Finished, 0, None, SLOW));
    OnlyFinished(s, size);
    var t := Successor(s, peers, s.store.file);
    CleanLeads(t, u, size, md4);
    var ss: seq<State>, es: seq<Event> :| CleanRun(ss, es, size, md4) && ss[0] == t && ss[|es|] == u;
    CompletePieceIsStuck(s, peers, s.store.file, ss, es, size, md4, 0);
  }

  /** A complete piece can be lost by saving: this happens whenever resume data are saved while its hash is pending.
      From a new transfer with its hash set, clean events lead to a state with the right block y in the file, all blocks
      finished and the piece not had. The transfer resumed from what it saves comes to a state with nothing queued, and
      in no state that clean events lead it to does it have the piece. */
  lemma CompletePieceIsLost(y: Bytes, size: nat, md4: Bytes -> Hash, peers: seq<Policies.Peer>)
    requires OneBlockSize(size) && |y| == OnlySize(size)
    ensures var s0 := Fresh([], [md4(y)], []);
            exists s: State, t: State, u: State ::
              && Init(s0, size) && Leads(s0, s, size, md4, true)
              && !Had(s, 0) && AllFinished(s.picker, size, 0) && s.store.file == y && s.hashSet == [md4(y)]
              && t == Successor(s, peers, s.store.file) && Init(t, size)
              && Leads(t, u, size, md4, true) && u.disk.pending == []
              && forall v: State {:trigger Leads(t, v, size, md4, true)} :: Leads(t, v, size, md4, true) ==> !Had(v, 0)
  {
    FreshIsInit([], [md4(y)], size);
    FreshIsInit(y, [md4(y)], size);
    var s := WrittenNotHashed(y, [md4(y)], size, md4);
    SavedOneBlock(s, peers);
    var t := Successor(s, peers, s.store.file);
    var u := ReadBackAndIdle(y, [md4(y)], size, md4);
    OnlyFinished(s, size);
    forall v | Leads(t, v, size, md4, true)
      ensures !Had(v, 0)
    {
      NeverHadFrom(s, peers, v, size, md4);
    }
  }

  lemma OnlyFinished(s: State, size: nat)
    requires OneBlockSize(size) && s.picker == Started(DBlock(Finished, 0, None, SLOW))
    ensures AllFinished(s.picker, size, 0) && !Had(s, 0)
  {
    OneBlockGeometry(size);
    FinishedOnly(s.picker, DBlock(Finished, 0, None, SLOW), size);
  }

  lemma FinishedOnly(p: Picker, d: DBlock, size: nat)
    requires BlockCount(size, 0) == 1 && p == Started(d) && d.state == Finished && d.Consistent()
    ensures AllFinished(p, size, 0)
  {
    StartedInv(d);
    forall j: nat | j < BlockCount(size, 0)
      ensures BlockAt(p, PieceBlock(0, j)).state == Finished
    {
      assert PieceBlock(0, j) == ONLY;
    }
  }
}
