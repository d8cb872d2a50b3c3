/** The disk goes on executing whatever has been submitted, in order, also after events that were not clean. */
module Drains {
  import opened Geometry
  import opened Scheduler = BlockScheduler
  import opened PieceStore
  import opened DiskQueue
  import opened Pipeline
  import opened Schedule
  import opened Integrity
  import opened Reach

  ghost predicate Slots(store: Store, size: nat) {
    forall p: nat {:trigger Manager(store, size, p)} :: |Manager(store, size, p).buffers| == BlockCount(size, p)
  }

  predicate Fit(p: Picker, t: Task, size: nat) {
    InTransfer(p, t) && (t.WriteTask? ==> |t.buffer| == BlockSize(t.block, size))
  }

  ghost predicate AllFit(p: Picker, ts: seq<Task>, size: nat) {
    forall k {:trigger ts[k]} :: 0 <= k < |ts| ==> Fit(p, ts[k], size)
  }

  function FileWith(file: Bytes, t: Task): Bytes {
    if t.WriteTask? then WriteAt(file, Offset(t.block), t.buffer) else file
  }

  /** The file after the tasks were executed in order. */
  function FileAfter(file: Bytes, ts: seq<Task>): Bytes {
    if |ts| == 0 then file else FileWith(FileAfter(file, ts[..|ts| - 1]), ts[|ts| - 1])
  }

  /** Enough for the disk to go on executing; kept by all events, clean or not. `first` is the file at the start. */
  ghost predicate Sane(s: State, size: nat, first: Bytes) {
    && Ready(s, size) && HeadLogged(s)
    && AllFit(s.picker, s.disk.pending, size)
    && Slots(s.store, size)
    && Readable(s.store.file, size, s.disk.pending)
    && LogInFile(s, size)
    && s.store.file == FileAfter(first, s.log)
  }

  /** Number of tasks completed. */
  function Completed(s: State): int { if s.disk.headCalled then |s.log| - 1 else |s.log| }

  lemma QueueIsHistory(s: State, size: nat, first: Bytes)
    requires Sane(s, size, first)
    ensures Completed(s) >= 0 && Completed(s) <= |History(s)| && History(s)[Completed(s)..] == s.disk.pending
    ensures |s.log| <= |History(s)| && History(s)[..|s.log|] == s.log
  {
    if s.disk.headCalled {
      assert s.disk.pending == [s.disk.pending[0]] + s.disk.pending[1..];
      assert s.log == s.log[..|s.log| - 1] + [s.disk.pending[0]];
    }
  }

  lemma StoreSlots(store: Store, store': Store, size: nat, p: nat)
    requires Slots(store, size)
             && (forall i: nat {:trigger i in store'.mgrs} :: i != p ==> (i in store'.mgrs <==> i in store.mgrs))
    requires forall i: nat {:trigger store'.mgrs[i]} :: i != p && i in store.mgrs ==> store'.mgrs[i] == store.mgrs[i]
    requires p in store'.mgrs ==> |store'.mgrs[p].buffers| == |Manager(store, size, p).buffers|
    ensures Slots(store', size)
  {
    forall i: nat
      ensures |Manager(store', size, i).buffers| == BlockCount(size, i)
    {
      assert |Manager(store, size, i).buffers| == BlockCount(size, i);
    }
  }

  lemma RunSlots(s: State, size: nat, md4: Bytes -> Hash)
    requires Slots(s.store, size) && Enabled(s, RunTask, size)
    ensures Slots(CallHead(s, size, md4).store, size)
  {
    var t := NextTask(s);
    if !t.HashTask? {
      RegisterSize(Manager(s.store, size, t.block.piece), t.block.block,
                   if t.WriteTask? then t.buffer else Slice(s.store.file, size, t.block));
    }
    StoreSlots(s.store, CallHead(s, size, md4).store, size, TaskPiece(t));
  }

  lemma FitRuns(s: State, size: nat, first: Bytes)
    requires Sane(s, size, first) && CanCall(s)
    ensures Enabled(s, RunTask, size)
  {
    var t := s.disk.pending[0];
    assert Fit(s.picker, s.disk.pending[0], size);
    if !t.HashTask? {
      assert |Manager(s.store, size, t.block.piece).buffers| == BlockCount(size, t.block.piece);
    }
  }

  /** The head task can be executed. */
  lemma SaneRuns(s: State, size: nat, md4: Bytes -> Hash, first: Bytes)
    requires Sane(s, size, first) && CanCall(s)
    ensures Enabled(s, RunTask, size)
    ensures var t := CallHead(s, size, md4);
            && Sane(t, size, first) && t.disk.headCalled && t.picker == s.picker && t.pendingHash == s.pendingHash
               && History(t) == History(s)
            && t.disk.pending == s.disk.pending && t.log == s.log + [NextTask(s)]
               && t.store.file == FileWith(s.store.file, NextTask(s))
  {
    FitRuns(s, size, first);
    assert Fit(s.picker, s.disk.pending[0], size);
    RunSlots(s, size, md4);
    RunLogs(s, size, md4);
    CallHistory(s, size, md4);
  }

  // ---------------------------------------------------------------- completions

  /** What the completion of the head task changes: the status and the pending hash of its own piece, and perhaps one
      more task, the hash of that piece. */
  ghost predicate Delivered(s: State, t: State)
    requires |s.disk.pending| > 0
  {
    var head := s.disk.pending[0];
    var i := TaskPiece(head);
    && !t.disk.headCalled && t.log == s.log && t.store == s.store && |t.picker.status| == |s.picker.status|
    && (forall p: nat :: p != i && p < |s.picker.status| ==> t.picker.status[p] == s.picker.status[p])
    && (forall p: nat :: p in s.pendingHash && head != HashTask(p) ==> p in t.pendingHash)
    && (head.HashTask? && i < |s.picker.status| ==> t.picker.status[i] != Downloading)
    && (History(t) == History(s)
        || (History(t) == History(s) + [HashTask(i)] && i !in s.pendingHash && !head.HashTask?))
  }

  lemma ReadyWith(s: State, t: State, size: nat)
    requires Ready(s, size) && Inv(t.picker) && |t.picker.status| == |s.picker.status|
             && t.picker.blocksInLast == s.picker.blocksInLast
    requires t.queues == s.queues && (t.disk.headCalled ==> |t.disk.pending| > 0)
    ensures Ready(t, size)
  {
    forall d | d in t.queues
      ensures AllValid(t.picker, t.queues[d]) && NoneTwice(t.queues[d])
    {
      assert AllValid(s.picker, s.queues[d]) && NoneTwice(s.queues[d]);
    }
  }

  lemma CompleteShape(s: State, size: nat)
    requires Ready(s, size) && CanDeliver(s) && InTransfer(s.picker, NextTask(s))
    ensures Enabled(s, Complete, size) && Ready(DeliverHead(s), size)
    ensures var q := DeliverHead(s).picker; |q.status| == |s.picker.status| && q.blocksInLast == s.picker.blocksInLast
  {
    match NextTask(s)
    case WriteTask(b, _) =>
      MarkAsFinishedKeeps(s.picker, b);
      ReadyWith(s, DeliverHead(s), size);
    case HashTask(i) =>
      CloseKeeps(s.picker, i, if DeliverHead(s).picker.status[i] == Have then Have else Missing);
      ReadyWith(s, DeliverHead(s), size);
    case RestoreTask(b) =>
      WeHaveBlockKeeps(s.picker, b);
      ReadyWith(s, DeliverHead(s), size);
  }

  lemma WriteDelivered(s: State, b: PieceBlock)
    requires CanDeliver(s) && Inv(s.picker) && s.picker.Valid(b) && NextTask(s).WriteTask? && NextTask(s).block == b
    ensures Delivered(s, DeliverHead(s))
  {
    var s1 := s.(disk := FifoDeliver(s.disk));
    var s2 := s1.(picker := MarkAsFinished(s.picker, b));
    var i := b.piece;
    assert History(s2) == History(s);
    if QueuePieceHash(s2, i) != s2 {
      EnqueueHistory(s2.(pendingHash := s2.pendingHash + {i}), HashTask(i));
    }
  }

  lemma CompleteDelivers(s: State, size: nat)
    requires Enabled(s, Complete, size)
    ensures Delivered(s, DeliverHead(s))
  {
    if NextTask(s).WriteTask? {
      WriteDelivered(s, NextTask(s).block);
    }
  }

  lemma GrownFit(p: Picker, q: Picker, pending: seq<Task>, pending': seq<Task>, n: nat, size: nat)
    requires AllFit(p, pending, size) && Grown(pending, pending', n) && |q.status| == |p.status|
             && q.blocksInLast == p.blocksInLast
    requires forall k :: |pending| - n <= k < |pending'| ==> Fit(q, pending'[k], size)
    ensures AllFit(q, pending', size)
  {
    forall k | 0 <= k < |pending'|
      ensures Fit(q, pending'[k], size)
    {
      if k + n < |pending| {
        assert pending'[k] == pending[k + n] && Fit(p, pending[k + n], size);
      }
    }
  }

  lemma CompleteAdds(s: State, size: nat)
    requires Enabled(s, Complete, size)
    ensures var pending' := DeliverHead(s).disk.pending;
            forall k :: |s.disk.pending| - 1 <= k < |pending'| ==> Fit(DeliverHead(s).picker, pending'[k], size)
  {
  }

  /** The result of the head task can be delivered. */
  lemma SaneCompletes(s: State, size: nat, first: Bytes)
    requires Sane(s, size, first) && CanDeliver(s)
    ensures Enabled(s, Complete, size) && Sane(DeliverHead(s), size, first) && Delivered(s, DeliverHead(s))
  {
    assert Fit(s.picker, s.disk.pending[0], size);
    var t := DeliverHead(s);
    CompleteShape(s, size);
    CompleteDelivers(s, size);
    CompleteGrows(s, size);
    CompleteAdds(s, size);
    GrownFit(s.picker, t.picker, s.disk.pending, t.disk.pending, 1, size);
    NoNewRestores(s.store.file, size, s.disk.pending, t.disk.pending, 1);
  }

  // ---------------------------------------------------------------- many completions

  predicate NoHashOf(h: seq<Task>, from: int, to: int, i: nat) {
    forall m :: 0 <= m < |h| && from <= m < to ==> h[m] != HashTask(i)
  }

  predicate NothingOf(h: seq<Task>, from: int, to: int, i: nat) {
    forall m :: 0 <= m < |h| && from <= m < to ==> TaskPiece(h[m]) != i
  }

  /** From s to t the disk has completed the tasks up to the n-th of the history. A pending hash of piece i stays
      pending unless it is among them, and none is added then; the status of i stays unless one of them concerns it. */
  ghost predicate Drained(s: State, t: State, n: int, i: nat) {
    && Completed(t) == n && History(s) <= History(t) && |t.picker.status| == |s.picker.status|
    && (if n == Completed(s) then t == s else !t.disk.headCalled)
    && (i in s.pendingHash && NoHashOf(History(s), Completed(s), n, i) ==>
          i in t.pendingHash && NoHashOf(History(t), |History(s)|, |History(t)|, i))
    && (i < |s.picker.status| && NothingOf(History(s), Completed(s), n, i) ==> t.picker.status[i] == s.picker.status[i])
  }

  lemma CompleteDrains(s: State, i: nat, size: nat, first: Bytes)
    requires Sane(s, size, first) && CanDeliver(s)
    ensures Enabled(s, Complete, size) && Drained(s, DeliverHead(s), Completed(s) + 1, i)
  {
    var t := DeliverHead(s);
    SaneCompletes(s, size, first);
    QueueIsHistory(s, size, first);
    assert History(s)[Completed(s)] == s.disk.pending[0];
  }

  lemma OneDrained(s: State, s1: State, t: State, i: nat, size: nat, first: Bytes)
    requires Sane(s, size, first) && CanCall(s) && Sane(s1, size, first) && CanDeliver(s1)
             && Drained(s1, t, Completed(s1) + 1, i)
    requires s1.picker == s.picker && s1.pendingHash == s.pendingHash && History(s1) == History(s)
    requires s1.log == s.log + [NextTask(s)]
    ensures Drained(s, t, Completed(s) + 1, i)
  {
    QueueIsHistory(s, size, first);
    var c := |s.log|;
    assert History(s)[c] == NextTask(s);
  }

  /** The head task, started or not, is completed. */
  lemma DrainOne(s0: State, s: State, i: nat, size: nat, md4: Bytes -> Hash, first: Bytes) returns (t: State)
    requires Leads(s0, s, size, md4, false) && Sane(s, size, first) && |s.disk.pending| > 0
    ensures Leads(s0, t, size, md4, false) && Sane(t, size, first) && Drained(s, t, Completed(s) + 1, i)
    ensures var head := s.disk.pending[0];
            head.HashTask? ==>
              History(t) == History(s)
                && (head.piece < |t.picker.status| ==> t.picker.status[head.piece] != Downloading)
    decreases !s.disk.headCalled
  {
    if s.disk.headCalled {
      CompleteDrains(s, i, size, first);
      SaneCompletes(s, size, first);
      RunContinues(s0, s, Complete, size, md4, false);
      t := DeliverHead(s);
    } else {
      SaneRuns(s, size, md4, first);
      RunContinues(s0, s, RunTask, size, md4, false);
      var s1 := CallHead(s, size, md4);
      t := DrainOne(s0, s1, i, size, md4, first);
      OneDrained(s, s1, t, i, size, first);
    }
  }

  lemma DrainedThrough(s: State, t: State, u: State, n: int, i: nat, size: nat, first: Bytes)
    requires Sane(s, size, first) && Sane(t, size, first) && Drained(s, t, Completed(s) + 1, i) && Drained(t, u, n, i)
             && Completed(s) < n <= |History(s)|
    ensures Drained(s, u, n, i)
  {
    QueueIsHistory(s, size, first);
    QueueIsHistory(t, size, first);
    var c := Completed(s);
    var h, h' := History(s), History(t);
    assert forall m :: 0 <= m < |h| ==> h'[m] == h[m];
    if i in s.pendingHash && NoHashOf(h, c, n, i) {
      assert NoHashOf(h, c, c + 1, i) && NoHashOf(h', c + 1, n, i);
      var h'' := History(u);
      assert forall m :: 0 <= m < |h'| ==> h''[m] == h'[m];
      assert NoHashOf(h'', |h|, |h''|, i);
    }
    if i < |s.picker.status| && NothingOf(h, c, n, i) {
      assert NothingOf(h, c, c + 1, i) && NothingOf(h', c + 1, n, i);
    }
  }

  /** Whatever has been submitted is executed and completed, in order. */
  lemma {:induction false} Drain(s0: State, s: State, n: int, i: nat, size: nat, md4: Bytes -> Hash, first: Bytes)
    returns (t: State)
    requires Leads(s0, s, size, md4, false) && Sane(s, size, first) && Completed(s) <= n <= |History(s)|
    ensures Leads(s0, t, size, md4, false) && Sane(t, size, first) && Drained(s, t, n, i)
    decreases n - Completed(s)
  {
    QueueIsHistory(s, size, first);
    if n == Completed(s) {
      t := s;
    } else {
      var u := DrainOne(s0, s, i, size, md4, first);
      t := Drain(s0, u, n, i, size, md4, first);
      DrainedThrough(s, u, t, n, i, size, first);
    }
  }
}
