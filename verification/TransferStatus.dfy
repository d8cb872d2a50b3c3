/** How much of a transfer is done, in total and per piece (transfer.go). */
module TransferStatus {
  import opened Geometry
  import opened Scheduler = BlockScheduler

  /** The picker belongs to a file of this size. */
  predicate Fits(p: Picker, size: nat) {
    Inv(p) && |p.status| == PieceCount(size) && p.blocksInLast == BlocksInLastPiece(size)
  }

  // ---------------------------------------------------------------- what is done

  /** Bytes of the blocks written or being written among the first n of an entry. */
  function DoneOf(d: DPiece, size: nat, n: nat): int
    requires n <= |d.blocks|
  {
    if n == 0 then 0
    else DoneOf(d, size, n - 1) + if d.blocks[n - 1].Downloaded() then BlockSize(PieceBlock(d.index, n - 1), size)
      else 0
  }

  function EntryDone(d: DPiece, size: nat): int { DoneOf(d, size, |d.blocks|) }

  function StartedDone(ds: seq<DPiece>, size: nat, i: nat): int {
    if Find(ds, i) < |ds| then EntryDone(ds[Find(ds, i)], size) else 0
  }

  /** Bytes done of piece i. */
  function PieceDone(p: Picker, size: nat, i: nat): int
    requires i < |p.status|
  {
    if p.status[i] == Have then PieceSize(size, i) else StartedDone(p.downloading, size, i)
  }

  function SumDone(p: Picker, size: nat, n: nat): int
    requires n <= |p.status|
  {
    if n == 0 then 0 else SumDone(p, size, n - 1) + PieceDone(p, size, n - 1)
  }

  function HadBytes(status: seq<PieceState>, size: nat, n: nat): int
    requires n <= |status|
  {
    if n == 0 then 0 else HadBytes(status, size, n - 1) + if status[n - 1] == Have then PieceSize(size, n - 1) else 0
  }

  function EntriesDone(ds: seq<DPiece>, size: nat): int {
    if |ds| == 0 then 0 else EntriesDone(ds[..|ds| - 1], size) + EntryDone(ds[|ds| - 1], size)
  }

  function StartedSum(ds: seq<DPiece>, size: nat, n: nat): int {
    if n == 0 then 0 else StartedSum(ds, size, n - 1) + StartedDone(ds, size, n - 1)
  }

  // ---------------------------------------------------------------- bounds

  lemma {:induction false} DoneAtMost(d: DPiece, size: nat, n: nat)
    requires d.index < PieceCount(size) && n <= |d.blocks| <= BlockCount(size, d.index)
    ensures 0 <= DoneOf(d, size, n) <= SumBlockSizes(size, d.index, n)
  {
    if n > 0 {
      DoneAtMost(d, size, n - 1);
      BlockInPiece(size, PieceBlock(d.index, n - 1));
    }
  }

  /** No piece has more bytes done than it has bytes. */
  lemma PieceDoneAtMost(p: Picker, size: nat, i: nat)
    requires Fits(p, size) && i < |p.status|
    ensures 0 <= PieceDone(p, size, i) <= PieceSize(size, i)
  {
    if p.status[i] != Have && InProgress(p, i) {
      var d := Entry(p, i);
      assert EntryOk(p, d);
      DoneAtMost(d, size, |d.blocks|);
      BlocksSumToPiece(size, i);
    }
  }

  lemma {:induction false} SumAtMost(p: Picker, size: nat, n: nat)
    requires Fits(p, size) && n <= |p.status|
    ensures 0 <= SumDone(p, size, n) <= Min(n * PIECE_SIZE, size)
  {
    PieceCountBounds(size);
    if n > 0 {
      SumAtMost(p, size, n - 1);
      PieceDoneAtMost(p, size, n - 1);
    }
  }

  // ---------------------------------------------------------------- by entry and by piece

  lemma {:induction false} SplitSum(p: Picker, size: nat, n: nat)
    requires Inv(p) && n <= |p.status|
    ensures SumDone(p, size, n) == HadBytes(p.status, size, n) + StartedSum(p.downloading, size, n)
  {
    if n > 0 {
      SplitSum(p, size, n - 1);
      assert p.status[n - 1] == Have ==> !InProgress(p, n - 1);
    }
  }

  lemma {:induction false} StartedAppend(ds: seq<DPiece>, d: DPiece, size: nat, n: nat)
    requires Find(ds, d.index) == |ds|
    ensures StartedSum(ds + [d], size, n) == StartedSum(ds, size, n) + if d.index < n then EntryDone(d, size) else 0
  {
    if n > 0 {
      StartedAppend(ds, d, size, n - 1);
      FindAppend(ds, d, n - 1);
    }
  }

  lemma {:induction false} NoneStarted(size: nat, n: nat)
    ensures StartedSum([], size, n) == 0
  {
    if n > 0 {
      NoneStarted(size, n - 1);
    }
  }

  /** Adding up by entry or by piece makes no difference, as no piece has two entries. */
  lemma {:induction false} EntriesSum(ds: seq<DPiece>, size: nat, n: nat)
    requires Distinct(ds) && forall k :: 0 <= k < |ds| ==> ds[k].index < n
    ensures EntriesDone(ds, size) == StartedSum(ds, size, n)
  {
    if |ds| == 0 {
      NoneStarted(size, n);
    } else {
      var k := |ds| - 1;
      EntriesSum(ds[..k], size, n);
      assert ds == ds[..k] + [ds[k]];
      StartedAppend(ds[..k], ds[k], size, n);
    }
  }

  // ---------------------------------------------------------------- what changes it

  /** Bytes of a block that count as done. */
  function Share(b: DBlock, block: PieceBlock, size: nat): int { if b.Downloaded() then BlockSize(block, size) else 0 }

  lemma {:induction false} DoneSet(d: DPiece, size: nat, n: nat, j: nat, b: DBlock)
    requires j < |d.blocks| && n <= |d.blocks|
    ensures var (e, block) := (d.(blocks := d.blocks[j := b]), PieceBlock(d.index, j));
            DoneOf(e, size, n) ==
              DoneOf(d, size, n) + if j < n then Share(b, block, size) - Share(d.blocks[j], block, size) else 0
  {
    if n > 0 {
      DoneSet(d, size, n - 1, j, b);
    }
  }

  /** Pieces other than i have the same bytes done. */
  ghost predicate SameElsewhere(p: Picker, q: Picker, size: nat, i: nat) {
    |q.status| == |p.status| && forall k: nat {:trigger PieceDone(q, size, k)} ::
      k < |p.status| && k != i ==> PieceDone(q, size, k) == PieceDone(p, size, k)
  }

  lemma {:induction false} SumChanges(p: Picker, q: Picker, size: nat, n: nat, i: nat)
    requires n <= |p.status| && i < |p.status| && SameElsewhere(p, q, size, i)
    ensures SumDone(q, size, n) ==
              SumDone(p, size, n) + if i < n then PieceDone(q, size, i) - PieceDone(p, size, i) else 0
  {
    if n > 0 {
      SumChanges(p, q, size, n - 1, i);
      assert n - 1 != i ==> PieceDone(q, size, n - 1) == PieceDone(p, size, n - 1);
    }
  }

  /** Changing a block of a started piece changes the total by the difference of what counts as done of it. */
  lemma BlockCounts(p: Picker, size: nat, b: PieceBlock, nb: DBlock)
    requires Fits(p, size) && p.Valid(b) && InProgress(p, b.piece) && b.block < |Entry(p, b.piece).blocks|
    ensures var q := SetBlock(p, b, nb);
            && |q.status| == |p.status|
            && SumDone(q, size, |p.status|) ==
                 SumDone(p, size, |p.status|) + Share(nb, b, size) - Share(BlockAt(p, b), b, size)
  {
    var k, q := Find(p.downloading, b.piece), SetBlock(p, b, nb);
    var d := p.downloading[k];
    var e := d.(blocks := d.blocks[b.block := nb]);
    DoneSet(d, size, |d.blocks|, b.block, nb);
    forall i: nat
      ensures Find(q.downloading, i) == Find(p.downloading, i)
    {
      FindAfterSet(p.downloading, k, e, i);
    }
    forall i: nat | i < |p.status| && i != b.piece
      ensures PieceDone(q, size, i) == PieceDone(p, size, i)
    {
      assert Find(p.downloading, i) < |p.downloading| ==> Find(p.downloading, i) != k;
    }
    SumChanges(p, q, size, |p.status|, b.piece);
    assert PieceDone(q, size, b.piece) == EntryDone(e, size) && PieceDone(p, size, b.piece) == EntryDone(d, size);
  }

  /** A delivered block adds its bytes to the total if it was still wanted, and nothing otherwise; finishing a block
      that is being written, or giving up one that is not delivered, adds and takes nothing. */
  lemma DeliveryCounts(p: Picker, size: nat, b: PieceBlock, peer: Scheduler.Peer)
    requires Fits(p, size) && p.Valid(b)
    ensures var (n, total) := (|p.status|, SumDone(p, size, |p.status|));
            var wanted := InProgress(p, b.piece) && BlockAt(p, b).state != Writing && BlockAt(p, b).state != Finished;
            && |MarkAsWriting(p, b).0.status| == n
            && SumDone(MarkAsWriting(p, b).0, size, n) == total + (if wanted then BlockSize(b, size) else 0)
            && (BlockAt(p, b).state == Writing ==>
                  |MarkAsFinished(p, b).status| == n && SumDone(MarkAsFinished(p, b), size, n) == total)
            && (BlockAt(p, b).state == Requested ==>
                  |AbortDownload(p, b, peer).status| == n && SumDone(AbortDownload(p, b, peer), size, n) == total)
  {
    if InProgress(p, b.piece) {
      assert EntryOk(p, Entry(p, b.piece));
      var d := BlockAt(p, b);
      BlockCounts(p, size, b, d.Write());
      BlockCounts(p, size, b, d.Finish());
      BlockCounts(p, size, b, d.Abort(peer));
    }
  }

  /** Accepting a piece counts all its bytes, resetting it none. */
  lemma CloseCounts(p: Picker, size: nat, i: nat)
    requires Fits(p, size) && i < |p.status|
    ensures var (n, rest) := (|p.status|, SumDone(p, size, |p.status|) - PieceDone(p, size, i));
            && |WeHave(p, i).status| == n && SumDone(WeHave(p, i), size, n) == rest + PieceSize(size, i)
            && |RestorePiece(p, i).status| == n && SumDone(RestorePiece(p, i), size, n) == rest
  {
    CloseElsewhere(p, size, i, Have);
    CloseElsewhere(p, size, i, Missing);
    SumChanges(p, WeHave(p, i), size, |p.status|, i);
    SumChanges(p, RestorePiece(p, i), size, |p.status|, i);
  }

  lemma CloseElsewhere(p: Picker, size: nat, i: nat, s: PieceState)
    requires Fits(p, size) && i < |p.status| && s != Downloading
    ensures var q := Close(p, i, s);
            SameElsewhere(p, q, size, i) && PieceDone(q, size, i) == if s == Have then PieceSize(size, i) else 0
  {
    var q := Close(p, i, s);
    forall k: nat | k < |p.status|
      ensures k != i ==> PieceDone(q, size, k) == PieceDone(p, size, k)
      ensures Find(q.downloading, i) == |q.downloading|
    {
      WithoutFind(p.downloading, i, k);
      WithoutFind(p.downloading, i, i);
    }
  }

  // ---------------------------------------------------------------- the reports

  /** TotalDone of the status: pieces had plus blocks downloaded, but never more than the size. That limit
      never applies, and the total is the sum over the pieces. */
  method TotalDone(p: Picker, size: nat) returns (totalDone: int)
    requires Fits(p, size)
    ensures totalDone == SumDone(p, size, |p.status|) <= size
  {
    totalDone := 0;
    for i := 0 to |p.status|
      invariant totalDone == HadBytes(p.status, size, i)
    {
      if p.status[i] == Have {
        totalDone := totalDone + PieceSize(size, i);
      }
    }
    var started := StartedBytes(p, size);
    totalDone := totalDone + started;
    TotalIsSum(p, size);
    if totalDone > size {
      totalDone := size;
    }
  }

  lemma TotalIsSum(p: Picker, size: nat)
    requires Fits(p, size)
    ensures HadBytes(p.status, size, |p.status|) + EntriesDone(p.downloading, size) ==
            SumDone(p, size, |p.status|) <= size
  {
    EntriesAreOfPieces(p);
    EntriesSum(p.downloading, size, |p.status|);
    SplitSum(p, size, |p.status|);
    SumAtMost(p, size, |p.status|);
  }

  method StartedBytes(p: Picker, size: nat) returns (n: int)
    requires Fits(p, size)
    ensures n == EntriesDone(p.downloading, size)
  {
    n := 0;
    for k := 0 to |p.downloading|
      invariant n == EntriesDone(p.downloading[..k], size)
    {
      var d := p.downloading[k];
      assert p.downloading[..k + 1][..k] == p.downloading[..k];
      StartedIsNotHad(p, k);
      if p.status[d.index] != Have {
        var m := EntryBytes(d, size);
        n := n + m;
      }
    }
    assert p.downloading[..|p.downloading|] == p.downloading;
  }

  lemma StartedIsNotHad(p: Picker, k: nat)
    requires Inv(p) && k < |p.downloading|
    ensures p.downloading[k].index < |p.status| && p.status[p.downloading[k].index] == Downloading
  {
    assert EntryOk(p, p.downloading[k]);
    FindUnique(p.downloading, k);
    assert InProgress(p, p.downloading[k].index);
  }

  method EntryBytes(d: DPiece, size: nat) returns (n: int)
    ensures n == EntryDone(d, size)
  {
    n := 0;
    for j := 0 to |d.blocks|
      invariant n == DoneOf(d, size, j)
    {
      if d.blocks[j].Downloaded() {
        n := n + BlockSize(PieceBlock(d.index, j), size);
      }
    }
  }

  lemma EntriesAreOfPieces(p: Picker)
    requires Inv(p)
    ensures forall k :: 0 <= k < |p.downloading| ==> p.downloading[k].index < |p.status|
  {
    forall k | 0 <= k < |p.downloading|
      ensures p.downloading[k].index < |p.status|
    {
      assert EntryOk(p, p.downloading[k]);
    }
  }

  datatype Snapshot = Snapshot(state: PieceState, totalBytes: int, doneBytes: int, receivedBytes: int,
                               blocksTotal: nat, blocksDone: nat, blocksWriting: nat, blocksPending: nat)

  /** What has arrived of requested blocks, by block number. */
  type Arrived = nat -> nat

  function ReceivedOf(d: DPiece, size: nat, arrived: Arrived, n: nat): int
    requires n <= |d.blocks|
  {
    if n == 0 then 0
    else
      var b := PieceBlock(d.index, n - 1);
      ReceivedOf(d, size, arrived, n - 1)
      + if d.blocks[n - 1].Downloaded() then BlockSize(b, size)
        else if d.blocks[n - 1].state == Requested then arrived(BlocksOffset(b)) else 0
  }

  /** The snapshot of a piece; the limit on its bytes done never applies. */
  method PieceSnapshot(p: Picker, size: nat, i: nat, arrived: Arrived) returns (s: Snapshot)
    requires Fits(p, size) && i < |p.status|
    ensures s.state == p.status[i] && s.totalBytes == PieceSize(size, i) && s.blocksTotal == p.Blocks(i)
    ensures s.doneBytes == PieceDone(p, size, i) <= s.totalBytes
    ensures p.status[i] == Downloading ==>
              var blocks := Entry(p, i).blocks;
              && s.blocksDone == CountState(blocks, Finished) && s.blocksWriting == CountState(blocks, Writing)
                 && s.blocksPending == CountState(blocks, Requested)
              && s.receivedBytes == Min(ReceivedOf(Entry(p, i), size, arrived, |blocks|), s.totalBytes)
    ensures p.status[i] == Have ==>
            s.receivedBytes == s.totalBytes && s.blocksDone == s.blocksTotal && s.blocksWriting == s.blocksPending == 0
    ensures p.status[i] == Missing ==> s.receivedBytes == 0 && s.blocksDone == s.blocksWriting == s.blocksPending == 0
  {
    var total := PieceSize(size, i);
    PieceDoneAtMost(p, size, i);
    if p.status[i] == Have {
      return Snapshot(Have, total, total, total, p.Blocks(i), p.Blocks(i), 0, 0);
    }
    s := Snapshot(Missing, total, 0, 0, p.Blocks(i), 0, 0, 0);
    if InProgress(p, i) {
      var d := Entry(p, i);
      s := s.(state := Downloading);
      for j := 0 to |d.blocks|
        invariant s.state == Downloading && s.totalBytes == total && s.blocksTotal == p.Blocks(i)
        invariant s.doneBytes == DoneOf(d, size, j) && s.receivedBytes == ReceivedOf(d, size, arrived, j)
        invariant s.blocksDone == CountState(d.blocks[..j], Finished)
        invariant s.blocksWriting == CountState(d.blocks[..j], Writing)
        invariant s.blocksPending == CountState(d.blocks[..j], Requested)
      {
        assert d.blocks[..j + 1][..j] == d.blocks[..j];
        var b := PieceBlock(i, j);
        match d.blocks[j].state
        case Finished => s := s.(blocksDone := s.blocksDone + 1, doneBytes := s.doneBytes + BlockSize(b, size),
                                 receivedBytes := s.receivedBytes + BlockSize(b, size));
        case Writing => s := s.(blocksWriting := s.blocksWriting + 1, doneBytes := s.doneBytes + BlockSize(b, size),
                                receivedBytes := s.receivedBytes + BlockSize(b, size));
        case Requested => s :=
          s.(blocksPending := s.blocksPending + 1, receivedBytes := s.receivedBytes + arrived(BlocksOffset(b)));
        case Free =>
      }
      assert d.blocks[..|d.blocks|] == d.blocks;
    }
    if s.receivedBytes > s.totalBytes {
      s := s.(receivedBytes := s.totalBytes);
    }
    if s.doneBytes > s.totalBytes {
      s := s.(doneBytes := s.totalBytes);
    }
  }

  function SumSnapshots(ss: seq<Snapshot>): int {
    if |ss| == 0 then 0 else SumSnapshots(ss[..|ss| - 1]) + ss[|ss| - 1].doneBytes
  }

  lemma SumNext(ss: seq<Snapshot>, s: Snapshot)
    ensures SumSnapshots(ss + [s]) == SumSnapshots(ss) + s.doneBytes
  {
    assert (ss + [s])[..|ss|] == ss;
  }

  predicate Snapped(p: Picker, size: nat, pieces: seq<Snapshot>) {
    |pieces| <= |p.status| && forall j {:trigger pieces[j]} :: 0 <= j < |pieces| ==>
      pieces[j].doneBytes == PieceDone(p, size, j) <= pieces[j].totalBytes == PieceSize(size, j)
  }

  lemma SnapNext(p: Picker, size: nat, pieces: seq<Snapshot>, s: Snapshot)
    requires Snapped(p, size, pieces) && |pieces| < |p.status| && SumSnapshots(pieces) == SumDone(p, size, |pieces|)
    requires s.doneBytes == PieceDone(p, size, |pieces|) <= s.totalBytes == PieceSize(size, |pieces|)
    ensures Snapped(p, size, pieces + [s]) && SumSnapshots(pieces + [s]) == SumDone(p, size, |pieces| + 1)
  {
    SumNext(pieces, s);
  }

  /** The snapshots of all pieces add up to the total of the status. */
  method PieceSnapshots(p: Picker, size: nat, arrived: Arrived) returns (pieces: seq<Snapshot>)
    requires Fits(p, size)
    ensures |pieces| == |p.status|
    ensures Snapped(p, size, pieces)
    ensures SumSnapshots(pieces) == SumDone(p, size, |p.status|) <= size
  {
    pieces := [];
    for i := 0 to |p.status|
      invariant |pieces| == i && SumSnapshots(pieces) == SumDone(p, size, i)
      invariant Snapped(p, size, pieces)
    {
      var s := PieceSnapshot(p, size, i, arrived);
      SnapNext(p, size, pieces, s);
      pieces := pieces + [s];
    }
    SumAtMost(p, size, |p.status|);
  }
}
