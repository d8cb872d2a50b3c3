/** The transfer and one of its connections as the program runs them: fields changed in place, tasks handed to
    the session's disk queue. Every method is proved against the step of the download pipeline it performs
    (transfer.go, peer_connection.go). */
module Transfers {
  import opened Wrappers
  import opened Geometry
  import opened Scheduler = BlockScheduler
  import opened PieceStore
  import opened DiskQueue
  import opened Pipeline
  import opened PiecePicking

  datatype TransferState = LoadingResumeData | Active | Over

  predicate AllHave(p: Picker) { forall i :: 0 <= i < |p.status| ==> p.status[i] == Have }

  class Transfer {
    const hash: Hash
    const picker: PiecePicker
    const disk: SessionDisk<Task>
    var pendingPieceHashes: set<nat>
    var hashSet: seq<Hash>
    var pause: bool
    var state: TransferState
    var pendingResumeIO: nat
    ghost var verified: set<nat>

    constructor (hash: Hash, picker: PiecePicker, disk: SessionDisk<Task>)
      ensures this.hash == hash && this.picker == picker && this.disk == disk
      ensures pendingPieceHashes == {} && hashSet == [] && verified == {} && !pause && state == Active
              && pendingResumeIO == 0
    {
      this.hash, this.picker, this.disk, pendingPieceHashes, hashSet, verified := hash, picker, disk, {}, [], {};
      pause, state, pendingResumeIO := false, Active, 0;
    }

    ghost predicate Valid()
      reads this, picker, disk
    {
      Inv(picker.State()) && disk.Valid()
    }

    /** The transfer's part of a state of the pipeline. */
    ghost predicate Shows(s: State)
      reads this, picker, disk
    {
      && s.picker == picker.State() && s.pendingHash == pendingPieceHashes && s.hashSet == hashSet
         && s.verified == verified
      && s.disk == Abs(disk.State())
    }

    method Submit(t: Task, ghost s: State)
      requires Valid() && Shows(s)
      modifies disk
      ensures Valid() && Shows(Enqueue(s, t))
    {
      SubmitIsFifo(disk.State(), t);
      disk.SubmitDiskTask(t);
    }

    method QueuePieceHash(piece: nat, ghost s: State) returns (queued: bool)
      requires Valid() && Shows(s)
      modifies this, disk
      ensures Valid() && Shows(Pipeline.QueuePieceHash(s, piece))
      ensures queued <==> Pipeline.QueuePieceHash(s, piece).disk != s.disk
      ensures pause == old(pause) && state == old(state) && pendingResumeIO == old(pendingResumeIO)
    {
      if piece >= |picker.pieceStatus| || picker.pieceStatus[piece] == Have || piece in pendingPieceHashes {
        return false;
      }
      var finished := picker.IsPieceFinished(piece);
      if !finished {
        return false;
      }
      pendingPieceHashes := pendingPieceHashes + {piece};
      Submit(HashTask(piece), s.(pendingHash := pendingPieceHashes));
      return true;
    }

    method IsFinished() returns (r: bool)
      ensures r <==> AllHave(picker.State())
    {
      var n := picker.CountHave();
      HaveAll(picker.pieceStatus);
      r := n == |picker.pieceStatus|;
    }

    /** A failed write gives the block up and pauses the transfer, whose connections are to be closed. */
    method OnBlockWriteCompleted(b: PieceBlock, ok: bool, ghost s: State) returns (closeAll: bool)
      requires Valid() && Shows(s) && picker.State().Valid(b)
      modifies this, picker, disk
      ensures Valid() && Shows(if ok then Pipeline.OnBlockWriteCompleted(s, b)
                               else s.(picker := Scheduler.AbortDownload(s.picker, b, None)))
      ensures closeAll == !ok && pause == (old(pause) || !ok) && state == old(state)
              && pendingResumeIO == old(pendingResumeIO)
    {
      if ok {
        var started := picker.MarkAsFinished(b);
        var queued := QueuePieceHash(b.piece, s.(picker := picker.State()));
        return false;
      }
      picker.AbortDownload(b, None);
      pause := true;
      return true;
    }

    /** Answers whether the transfer is finished now. */
    method OnPieceHashCompleted(piece: nat, hash: Hash, ghost s: State) returns (finished: bool)
      requires Valid() && Shows(s) && piece < |picker.pieceStatus|
      modifies this, picker
      ensures Valid() && Shows(Pipeline.OnPieceHashCompleted(s, piece, hash))
      ensures pendingPieceHashes == old(pendingPieceHashes) - {piece} && hashSet == old(hashSet)
      ensures |picker.pieceStatus| == |old(picker.pieceStatus)|
      ensures picker.pieceStatus[piece] == Have <==> piece >= |hashSet| || hash == hashSet[piece]
      ensures picker.pieceStatus[piece] != Have ==> picker.pieceStatus[piece] == Missing
      ensures forall i :: 0 <= i < |picker.pieceStatus| && i != piece ==>
              picker.pieceStatus[i] == old(picker.pieceStatus)[i]
      ensures forall k :: 0 <= k < |picker.downloadingPieces| ==> picker.downloadingPieces[k].index != piece
      ensures finished <==> AllHave(Pipeline.OnPieceHashCompleted(s, piece, hash).picker)
      ensures state == (if finished then Over else old(state)) && pause == old(pause)
              && pendingResumeIO == old(pendingResumeIO)
    {
      Judge(piece, hash, s);
      finished := IsFinished();
      state := if finished then Over else state;
    }

    /** Accepts or restores a piece by its hash. */
    method Judge(piece: nat, hash: Hash, ghost s: State)
      requires Valid() && Shows(s) && piece < |picker.pieceStatus|
      modifies this`verified, this`pendingPieceHashes, picker
      ensures Valid() && Shows(Pipeline.OnPieceHashCompleted(s, piece, hash))
      ensures pendingPieceHashes == old(pendingPieceHashes) - {piece}
      ensures var p := picker.pieceStatus;
              && |p| == |old(picker.pieceStatus)|
              && (p[piece] == Have <==> piece >= |hashSet| || hash == hashSet[piece])
              && (p[piece] != Have ==> p[piece] == Missing)
              && (forall i :: 0 <= i < |p| && i != piece ==> p[i] == old(picker.pieceStatus)[i])
              && forall k :: 0 <= k < |picker.downloadingPieces| ==> picker.downloadingPieces[k].index != piece
    {
      pendingPieceHashes := pendingPieceHashes - {piece};
      Closed(picker.State(), piece, if piece >= |hashSet| || hash == hashSet[piece] then Have else Missing);
      if piece < |hashSet| && hashSet[piece] != hash {
        picker.RestorePiece(piece);
      } else {
        picker.WeHave(piece);
        verified := if piece < |hashSet| then verified + {piece} else verified;
      }
    }

    /** A block read back is finished, and no hash is asked for; the last restore ends the loading. */
    method OnBlockRestoreCompleted(b: PieceBlock, ok: bool, ghost s: State) returns (closeAll: bool)
      requires Valid() && Shows(s) && picker.State().Valid(b)
      modifies this, picker
      ensures Valid() && Shows(if ok then s.(picker := Scheduler.WeHaveBlock(s.picker, b)) else s)
      ensures pendingResumeIO == (if old(pendingResumeIO) > 0 then old(pendingResumeIO) - 1 else 0)
      ensures closeAll == !ok && pause == (old(pause) || !ok)
      ensures state == if ok && pendingResumeIO == 0 then (if AllHave(picker.State()) then Over else Active)
              else old(state)
    {
      if pendingResumeIO > 0 {
        pendingResumeIO := pendingResumeIO - 1;
      }
      if !ok {
        pause := true;
        return true;
      }
      picker.WeHaveBlock(b);
      if pendingResumeIO == 0 {
        var finished := IsFinished();
        state := if finished then Over else Active;
      }
      return false;
    }

    /** `of` names the file the hashes are said to be of. */
    method SetHashSet(of: Hash, hashes: seq<Hash>, ghost s: State)
      requires Valid() && Shows(s)
      modifies this`hashSet
      ensures Valid() && Shows(Pipeline.SetHashSet(s, of == hash, hashes))
      ensures hashSet == if |old(hashSet)| == 0 && of == hash then hashes else old(hashSet)
    {
      if |hashSet| != 0 {
        return;
      }
      if hash != of {
        return;
      }
      hashSet := hashes;
    }
  }

  lemma {:induction false} HaveAll(status: seq<PieceState>)
    ensures NumHave(status) <= |status|
    ensures NumHave(status) == |status| <==> forall i :: 0 <= i < |status| ==> status[i] == Have
  {
    if |status| > 0 {
      var n := |status| - 1;
      HaveAll(status[..n]);
      assert forall i :: 0 <= i < n ==> status[..n][i] == status[i];
    }
  }

  lemma Closed(p: Picker, i: nat, s: PieceState)
    requires i < |p.status|
    ensures var q := Close(p, i, s);
            && |q.status| == |p.status| && q.status[i] == s
            && (forall j :: 0 <= j < |q.status| && j != i ==> q.status[j] == p.status[j])
            && forall k :: 0 <= k < |q.downloading| ==> q.downloading[k].index != i
  {
  }

  lemma SubmitIsFifo(q: Queue<Task>, t: Task)
    ensures Abs(DiskQueue.Submit(q, t)) == FifoSubmit(Abs(q), t)
  {
  }

  /** The download side of a connection; `id` names it in the states of the pipeline. */
  class Download {
    const transfer: Transfer
    const id: nat
    const peer: Scheduler.Peer
    var downloadQueue: seq<PieceBlock>

    constructor (transfer: Transfer, id: nat, peer: Scheduler.Peer)
      ensures this.transfer == transfer && this.id == id && this.peer == peer && downloadQueue == []
    {
      this.transfer, this.id, this.peer, downloadQueue := transfer, id, peer, [];
    }

    ghost predicate Shows(s: State)
      reads this, transfer, transfer.picker, transfer.disk
    {
      transfer.Shows(s) && downloadQueue == Waiting(s, id)
    }

    /** Answers whether the connection is to be closed, for there is nothing to ask for. */
    method RequestBlocks(speed: nat, available: seq<bool>, ghost s: State) returns (close: bool)
      requires transfer.Valid() && Shows(s)
      modifies this, transfer.picker
      ensures transfer.Valid()
      ensures Shows(if old(downloadQueue) == [] then Pipeline.RequestBlocks(s, id, peer, speed, available) else s)
      ensures close <==> old(downloadQueue) == [] && downloadQueue == []
    {
      if |downloadQueue| != 0 {
        return false;
      }
      PickSound(transfer.picker.State(), REQUEST_QUEUE_SIZE, peer, speed, available);
      var blocks := transfer.picker.PickPiecesWithAvailability(REQUEST_QUEUE_SIZE, peer, speed, available);
      Enlist(blocks);
      return |downloadQueue| == 0;
    }

    method Enlist(picked: seq<PieceBlock>)
      requires |downloadQueue| + |picked| <= REQUEST_QUEUE_SIZE
      modifies this
      ensures downloadQueue == old(downloadQueue) + picked
    {
      var blocks := picked;
      while |blocks| > 0 && |downloadQueue| < REQUEST_QUEUE_SIZE
        invariant downloadQueue + blocks == old(downloadQueue) + picked
        decreases |blocks|
      {
        downloadQueue := downloadQueue + [blocks[0]];
        blocks := blocks[1..];
      }
    }

    method RemovePending(b: PieceBlock)
      modifies this
      ensures downloadQueue == Except(old(downloadQueue), b)
    {
      var dst := [];
      for i := 0 to |downloadQueue|
        invariant downloadQueue == old(downloadQueue) && dst == Except(downloadQueue[..i], b)
      {
        assert downloadQueue[..i + 1][..i] == downloadQueue[..i];
        if downloadQueue[i] != b {
          dst := dst + [downloadQueue[i]];
        }
      }
      assert downloadQueue[..|downloadQueue|] == downloadQueue;
      downloadQueue := dst;
    }

    /** The last byte of a block has arrived. */
    method CompleteBlock(b: PieceBlock, buffer: Bytes, ghost s: State)
      requires transfer.Valid() && Shows(s) && transfer.picker.State().Valid(b)
      modifies this, transfer, transfer.picker, transfer.disk
      ensures transfer.Valid() && Shows(Pipeline.ReceiveBlock(s, id, b, buffer))
    {
      var wasFinished := transfer.picker.IsPieceFinished(b.piece);
      var wanted := transfer.picker.MarkAsWriting(b);
      RemovePending(b);
      ghost var s1 := s.(picker := transfer.picker.State(), queues := s.queues[id := downloadQueue]);
      if wanted {
        transfer.Submit(WriteTask(b, buffer), s1);
        var finished := transfer.picker.IsPieceFinished(b.piece);
        if finished && !wasFinished {
          var queued := transfer.QueuePieceHash(b.piece, Enqueue(s1, WriteTask(b, buffer)));
        }
      }
    }

    method AbortAllRequests(ghost s: State)
      requires transfer.Valid() && Shows(s) && AllValid(s.picker, downloadQueue)
      modifies this, transfer.picker
      ensures transfer.Valid() && Shows(Disconnect(s, id, peer))
    {
      var i := 0;
      ghost var last := AbortEach(s.picker, downloadQueue, peer);
      while i < |downloadQueue|
        invariant i <= |downloadQueue| && transfer.Valid() && downloadQueue == old(downloadQueue)
        invariant transfer.Shows(s.(picker := transfer.picker.State()))
        invariant AllValid(transfer.picker.State(), downloadQueue)
        invariant AllValid(transfer.picker.State(), downloadQueue[i..])
                  && AbortEach(transfer.picker.State(), downloadQueue[i..], peer) == last
      {
        assert downloadQueue[i..][1..] == downloadQueue[i + 1..] && downloadQueue[i..][0] == downloadQueue[i];
        assert downloadQueue[i] in downloadQueue;
        transfer.picker.AbortDownload(downloadQueue[i], peer);
        i := i + 1;
      }
      downloadQueue := [];
    }
  }
}
