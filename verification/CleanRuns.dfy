/** Runs whose events are all clean of themselves: no block is requested twice, or before its restore. */
module CleanRuns {
  import opened Geometry
  import opened Scheduler = BlockScheduler
  import opened PieceStore
  import opened Pipeline
  import opened Schedule
  import opened Integrity

  // ---------------------------------------------------------------- when disconnects are clean

  /** Every awaited block is requested, not about to be restored, and awaited by one connection only. */
  ghost predicate Tidy(s: State) {
    && (forall c, b {:trigger b in s.queues[c]} :: c in s.queues && b in s.queues[c] ==> Fetched(s, b))
    && (forall c, d, b {:trigger b in s.queues[c], b in s.queues[d]} ::
        c in s.queues && d in s.queues && c != d && b in s.queues[c] ==> b !in s.queues[d])
  }

  predicate Fetched(s: State, b: PieceBlock) {
    BlockAt(s.picker, b).state == Requested && RestoreTask(b) !in s.disk.pending
  }

  /** A pick that requests no block somebody else has requested already, and none that is about to be restored. */
  predicate Single(s: State, e: Event) {
    e.Request? ==>
      forall b :: b in Pick(s.picker, REQUEST_QUEUE_SIZE, e.peer, e.speed, e.available).1 ==>
        BlockAt(s.picker, b).state == Free && RestoreTask(b) !in s.disk.pending
  }

  lemma TidyIsClean(s: State, e: Event)
    requires Tidy(s) && (e.Receive? ==> e.block in Waiting(s, e.conn))
    ensures Clean(s, e)
  {
    if e.Leave? || e.Receive? {
      forall b | b in Waiting(s, e.conn)
        ensures Fetched(s, b)
      {
        assert e.conn in s.queues && b in s.queues[e.conn];
      }
    }
  }

  lemma RequestTidy(s: State, e: Event)
    requires Inv(s.picker) && Tidy(s) && Single(s, e) && e.Request?
    ensures Tidy(RequestBlocks(s, e.conn, e.peer, e.speed, e.available))
  {
    var t := RequestBlocks(s, e.conn, e.peer, e.speed, e.available);
    var got := Pick(s.picker, REQUEST_QUEUE_SIZE, e.peer, e.speed, e.available).1;
    var a := Ask(e.peer, e.speed, e.speed != SLOW);
    PickSound(s.picker, REQUEST_QUEUE_SIZE, e.peer, e.speed, e.available);
    assert Took(s.picker, t.picker, got, a, e.available);
    forall c, b | c in t.queues && b in t.queues[c]
      ensures Fetched(t, b)
      ensures c != e.conn ==> b !in got
    {
      assert BlockAt(t.picker, b) == if b in got then BlockAt(s.picker, b).Request(a.peer, a.speed)
        else BlockAt(s.picker, b);
      if c != e.conn {
        assert c in s.queues && b in s.queues[c];
      }
    }
  }

  lemma NotRestoredAnew(pending: seq<Task>, pending': seq<Task>, n: nat, b: PieceBlock)
    requires Grown(pending, pending', n) && RestoreTask(b) !in pending
    ensures RestoreTask(b) !in pending'
  {
  }

  lemma LeaveTidy(s: State, c: nat, peer: Peer, size: nat)
    requires Ready(s, size) && AllValid(s.picker, Waiting(s, c)) && Tidy(s)
    ensures Tidy(Disconnect(s, c, peer))
  {
    var t := Disconnect(s, c, peer);
    DisconnectReady(s, c, peer, size);
    AbortEachFrees(s.picker, Waiting(s, c), peer);
    forall d, b | d in t.queues && b in t.queues[d]
      ensures Fetched(t, b)
    {
      assert d in s.queues && b in s.queues[d];
      assert b !in Waiting(s, c);
      assert BlockAt(t.picker, b) == BlockAt(s.picker, b);
    }
  }

  lemma ReceiveTidy(s: State, c: nat, b: PieceBlock, buffer: Bytes)
    requires Inv(s.picker) && s.picker.Valid(b) && Tidy(s) && b in Waiting(s, c)
    requires Grown(s.disk.pending, ReceiveBlock(s, c, b, buffer).disk.pending, 0)
    ensures Tidy(ReceiveBlock(s, c, b, buffer))
  {
    var t := ReceiveBlock(s, c, b, buffer);
    MarkAsWritingKeeps(s.picker, b);
    var q := MarkAsWriting(s.picker, b).0;
    assert t.picker == q && t.queues == s.queues[c := Except(Waiting(s, c), b)];
    forall d, x | d in t.queues && x in t.queues[d]
      ensures x != b && d in s.queues && x in s.queues[d] && Fetched(t, x)
    {
      assert d in s.queues && x in s.queues[d];
      assert b in s.queues[c];
      assert BlockAt(q, x) == BlockAt(s.picker, x);
      NotRestoredAnew(s.disk.pending, t.disk.pending, 0, x);
    }
  }

  /** The state of awaited blocks does not change, and no restore is added. */
  lemma SameTidy(s: State, t: State)
    requires Tidy(s) && t.queues == s.queues && Grown(s.disk.pending, t.disk.pending, 1)
    requires forall d, x {:trigger x in s.queues[d]} :: d in s.queues && x in s.queues[d] ==>
             BlockAt(t.picker, x).state == Requested
    ensures Tidy(t)
  {
    forall d, x | d in t.queues && x in t.queues[d]
      ensures Fetched(t, x)
    {
      assert d in s.queues && x in s.queues[d];
      NotRestoredAnew(s.disk.pending, t.disk.pending, 1, x);
    }
  }

  lemma AwaitedState(s: State, p: Picker)
    requires Tidy(s) && forall x: PieceBlock :: BlockAt(s.picker, x).state == Requested ==>
             BlockAt(p, x).state == Requested
    ensures forall d, x {:trigger x in s.queues[d]} :: d in s.queues && x in s.queues[d] ==>
            BlockAt(p, x).state == Requested
  {
  }

  lemma FinishTidy(s: State, t: State, b: PieceBlock, size: nat)
    requires SchedInv(s, size) && Tidy(s) && s.picker.Valid(b) && Dl(s.picker, b)
             && t.picker == MarkAsFinished(s.picker, b)
    requires t.queues == s.queues && Grown(s.disk.pending, t.disk.pending, 1)
    ensures Tidy(t)
  {
    MarkAsFinishedKeeps(s.picker, b);
    forall x: PieceBlock
      ensures x != b ==> BlockAt(t.picker, x) == BlockAt(s.picker, x)
    {
      assert BlockAt(t.picker, x) == BlockAt(MarkAsFinished(s.picker, b), x);
    }
    AwaitedState(s, t.picker);
    SameTidy(s, t);
  }

  lemma RestoreTidy(s: State, t: State, b: PieceBlock, size: nat)
    requires SchedInv(s, size) && Tidy(s) && s.picker.Valid(b) && RestoreTask(b) in s.disk.pending
             && t.picker == WeHaveBlock(s.picker, b)
    requires t.queues == s.queues && Grown(s.disk.pending, t.disk.pending, 1)
    ensures Tidy(t)
  {
    WeHaveBlockKeeps(s.picker, b);
    forall d, x | d in s.queues && x in s.queues[d]
      ensures BlockAt(t.picker, x).state == Requested
    {
      assert Fetched(s, x);
      assert BlockAt(t.picker, x) == BlockAt(s.picker, x);
    }
    SameTidy(s, t);
  }

  lemma HashTidy(s: State, t: State, i: nat, f: PieceState, size: nat)
    requires SchedInv(s, size) && Tidy(s) && i < |s.picker.status| && AllDl(s.picker, i, size) && f != Downloading
    requires t.picker == Close(s.picker, i, f) && t.queues == s.queues && Grown(s.disk.pending, t.disk.pending, 1)
    ensures Tidy(t)
  {
    CloseKeeps(s.picker, i, f);
    forall d, x | d in s.queues && x in s.queues[d]
      ensures BlockAt(t.picker, x).state == Requested
    {
      assert AllValid(s.picker, s.queues[d]) && s.picker.Valid(x);
      assert x.piece == i ==> Dl(s.picker, PieceBlock(i, x.block)) && x == PieceBlock(i, x.block);
      assert BlockAt(t.picker, x) == if x.piece == i then FRESH else BlockAt(s.picker, x);
    }
    SameTidy(s, t);
  }

  lemma CompleteTidy(s: State, size: nat)
    requires SchedInv(s, size) && Enabled(s, Complete, size) && Tidy(s)
    ensures Tidy(DeliverHead(s))
  {
    var t := DeliverHead(s);
    CompleteGrows(s, size);
    assert PendingOk(s.picker, s.pendingHash, s.disk.pending[0], History(s), size);
    match NextTask(s)
    case WriteTask(b, _) =>
      CompleteWriteKeepsSchedule(s, size);
      FinishTidy(s, t, b, size);
    case HashTask(i) => HashTidy(s, t, i, if t.picker.status[i] == Have then Have else Missing, size);
    case RestoreTask(b) =>
      assert s.disk.pending[0] in s.disk.pending;
      RestoreTidy(s, t, b, size);
  }

  lemma EventTidy(s: State, e: Event, size: nat, md4: Bytes -> Hash)
    requires SchedInv(s, size) && Enabled(s, e, size) && Tidy(s) && Single(s, e)
    ensures Tidy(Next(s, e, size, md4))
  {
    match e
    case Request(_, _, _, _) => RequestTidy(s, e);
    case Receive(c, b, buffer) =>
      QuietGrows(s, e, size, md4);
      ReceiveTidy(s, c, b, buffer);
    case Leave(c, peer) => LeaveTidy(s, c, peer, size);
    case RunTask =>
      var t := CallHead(s, size, md4);
      assert t.picker == s.picker && t.queues == s.queues;
    case Complete => CompleteTidy(s, size);
    case LearnHashes(_, _) =>
  }

  ghost predicate SingleRun(ss: seq<State>, es: seq<Event>, size: nat, md4: Bytes -> Hash) {
    |ss| == |es| + 1 && Init(ss[0], size) && SingleSteps(ss, es, size, md4)
  }

  ghost predicate SingleSteps(ss: seq<State>, es: seq<Event>, size: nat, md4: Bytes -> Hash)
    requires |ss| == |es| + 1
  {
    forall i :: 0 <= i < |es| ==> SingleLink(ss[i], es[i], ss[i + 1], size, md4)
  }

  ghost predicate SingleLink(s: State, e: Event, t: State, size: nat, md4: Bytes -> Hash) {
    Enabled(s, e, size) && Single(s, e) && t == Next(s, e, size, md4)
  }

  ghost predicate TidySchedule(s: State, size: nat) { SchedInv(s, size) && Tidy(s) }

  lemma SingleStep(s: State, e: Event, size: nat, md4: Bytes -> Hash)
    requires TidySchedule(s, size) && Enabled(s, e, size) && Single(s, e)
    ensures TidySchedule(Next(s, e, size, md4), size)
  {
    TidyIsClean(s, e);
    EventTidy(s, e, size, md4);
    EventKeepsSchedule(s, e, size, md4);
  }

  lemma SingleRunStep(ss: seq<State>, es: seq<Event>, size: nat, md4: Bytes -> Hash, k: nat)
    requires |ss| == |es| + 1 && SingleSteps(ss, es, size, md4) && k < |es| && TidySchedule(ss[k], size)
    ensures TidySchedule(ss[k + 1], size)
  {
    assert SingleLink(ss[k], es[k], ss[k + 1], size, md4);
    var e := es[k];
    SingleStep(ss[k], e, size, md4);
  }

  lemma InitTidy(s: State, size: nat)
    requires Init(s, size)
    ensures TidySchedule(s, size)
  {
    InitScheduled(s, size);
  }

  lemma {:induction false} Reaches(ok: nat -> bool, n: nat)
    requires ok(0) && forall i: nat {:trigger ok(i + 1)} :: i < n && ok(i) ==> ok(i + 1)
    ensures ok(n)
  {
    if n > 0 {
      Reaches(ok, n - 1);
      var m: nat := n - 1;
      assert ok(m + 1);
    }
  }

  lemma SingleRunTidy(ss: seq<State>, es: seq<Event>, size: nat, md4: Bytes -> Hash, k: nat)
    requires |ss| == |es| + 1 && TidySchedule(ss[0], size) && SingleSteps(ss, es, size, md4) && k < |ss|
    ensures TidySchedule(ss[k], size)
  {
    var ok := (i: nat) => i < |ss| && TidySchedule(ss[i], size);
    forall i: nat | i < k && ok(i)
      ensures ok(i + 1)
    {
      SingleRunStep(ss, es, size, md4, i);
    }
    Reaches(ok, k);
  }

  /** Without double requests no disconnect can hit a written block, and no block is delivered before its restore:
      every such run is clean. */
  lemma SingleRunsAreClean(ss: seq<State>, es: seq<Event>, size: nat, md4: Bytes -> Hash)
    requires SingleRun(ss, es, size, md4)
    ensures CleanRun(ss, es, size, md4)
  {
    InitTidy(ss[0], size);
    forall i | 0 <= i < |es|
      ensures Enabled(ss[i], es[i], size) && Clean(ss[i], es[i]) && ss[i + 1] == Next(ss[i], es[i], size, md4)
    {
      SingleRunTidy(ss, es, size, md4, i);
      assert SingleLink(ss[i], es[i], ss[i + 1], size, md4);
      TidyIsClean(ss[i], es[i]);
    }
  }
}
