/** PiecePicker in the form of the source: slices changed in place by loops, each method proved against
    the function in BlockScheduler.dfy that says what it does (piece_picker.go, downloading_piece.go). */
module PiecePicking {
  import opened Geometry
  import opened Scheduler = BlockScheduler

  class PiecePicker {
    var pieceStatus: seq<PieceState>
    var downloadingPieces: seq<DPiece>
    const blocksInLast: nat

    ghost function State(): Picker
      reads this
    {
      Picker(pieceStatus, downloadingPieces, blocksInLast)
    }

    constructor (pieceCount: nat, blocksInLast: nat)
      requires 1 <= blocksInLast <= BLOCKS_PER_PIECE
      ensures State() == Picker(seq(pieceCount, _ => Missing), [], blocksInLast)
      ensures Inv(State())
    {
      pieceStatus := seq(pieceCount, _ => Missing);
      downloadingPieces := [];
      this.blocksInLast := blocksInLast;
    }

    /** Index of the entry for piece i; the number of entries stands for nil. */
    method GetDownloadingPiece(i: nat) returns (k: nat)
      ensures k == Find(downloadingPieces, i)
    {
      k := 0;
      while k < |downloadingPieces|
        invariant k <= |downloadingPieces|
        invariant forall j :: 0 <= j < k ==> downloadingPieces[j].index != i
      {
        if downloadingPieces[k].index == i {
          return;
        }
        k := k + 1;
      }
    }

    method SetBlockAt(k: nat, j: nat, nb: DBlock)
      requires k < |downloadingPieces| && j < |downloadingPieces[k].blocks|
      modifies this`downloadingPieces
      ensures downloadingPieces == old(downloadingPieces)[k :=
                                                          old(downloadingPieces[k]).(blocks :=
                                                            old(downloadingPieces[k].blocks)[j := nb])]
    {
      downloadingPieces :=
        downloadingPieces[k := downloadingPieces[k].(blocks := downloadingPieces[k].blocks[j := nb])];
    }

    method MarkAsFinished(b: PieceBlock) returns (ok: bool)
      requires Inv(State()) && State().Valid(b)
      modifies this`downloadingPieces
      ensures State() == Scheduler.MarkAsFinished(old(State()), b) && ok == InProgress(old(State()), b.piece)
      ensures Inv(State())
    {
      MarkAsFinishedKeeps(State(), b);
      var k := GetDownloadingPiece(b.piece);
      ok := k < |downloadingPieces|;
      if ok {
        assert EntryOk(State(), downloadingPieces[k]);
        SetBlockAt(k, b.block, downloadingPieces[k].blocks[b.block].Finish());
      }
    }

    method MarkAsWriting(b: PieceBlock) returns (wanted: bool)
      requires Inv(State()) && State().Valid(b)
      modifies this`downloadingPieces
      ensures (State(), wanted) == Scheduler.MarkAsWriting(old(State()), b)
      ensures Inv(State())
    {
      MarkAsWritingKeeps(State(), b);
      var k := GetDownloadingPiece(b.piece);
      wanted := false;
      if k < |downloadingPieces| {
        assert EntryOk(State(), downloadingPieces[k]);
        var cur := downloadingPieces[k].blocks[b.block];
        if cur.state == Free || cur.state == Requested {
          SetBlockAt(k, b.block, cur.Write());
          wanted := true;
        }
      }
    }

    method AbortDownload(b: PieceBlock, peer: Peer)
      requires Inv(State()) && State().Valid(b)
      modifies this`downloadingPieces
      ensures State() == Scheduler.AbortDownload(old(State()), b, peer)
      ensures Inv(State())
    {
      AbortDownloadKeeps(State(), b, peer);
      var k := GetDownloadingPiece(b.piece);
      if k < |downloadingPieces| {
        assert EntryOk(State(), downloadingPieces[k]);
        SetBlockAt(k, b.block, downloadingPieces[k].blocks[b.block].Abort(peer));
      }
    }

    method CalculateStateBlocks(blocks: seq<DBlock>, s: BlockState) returns (n: nat)
      ensures n == CountState(blocks, s)
    {
      n := 0;
      for j := 0 to |blocks|
        invariant n == CountState(blocks[..j], s)
      {
        assert blocks[..j + 1][..j] == blocks[..j];
        if blocks[j].state == s {
          n := n + 1;
        }
      }
      assert blocks[..|blocks|] == blocks;
    }

    method IsPieceFinished(i: nat) returns (r: bool)
      requires i < |pieceStatus|
      ensures r == Scheduler.IsPieceFinished(State(), i)
    {
      if pieceStatus[i] == Missing {
        return false;
      }
      if pieceStatus[i] == Have {
        return true;
      }
      var k := GetDownloadingPiece(i);
      if k == |downloadingPieces| {
        return false;
      }
      var f := CalculateStateBlocks(downloadingPieces[k].blocks, Finished);
      var w := CalculateStateBlocks(downloadingPieces[k].blocks, Writing);
      return |downloadingPieces[k].blocks| == f + w;
    }

    /** DownloadingPiece.PickBlocks on entry k. */
    method PickBlocks(k: nat, order: nat, a: Ask) returns (got: seq<PieceBlock>)
      requires k < |downloadingPieces|
      modifies this`downloadingPieces
      ensures downloadingPieces == old(downloadingPieces)[k := PickFrom(old(downloadingPieces[k]), 0, order, a).0]
      ensures got == PickFrom(old(downloadingPieces[k]), 0, order, a).1
    {
      got := [];
      ghost var d := downloadingPieces[k];
      var requested := CalculateStateBlocks(downloadingPieces[k].blocks, Requested);
      if !a.endGame && requested == |downloadingPieces[k].blocks| {
        CountAll(d.blocks, Requested);
        NothingPickable(d, 0, order, a);
        return;
      }
      var i := 0;
      while i < |downloadingPieces[k].blocks| && |got| < order
        invariant |downloadingPieces| == |old(downloadingPieces)| && i <= |downloadingPieces[k].blocks| == |d.blocks|
        invariant downloadingPieces == old(downloadingPieces)[k := downloadingPieces[k]]
                  && downloadingPieces[k].index == d.index
        invariant |got| <= order
        invariant PickFrom(d, 0, order, a).0 == PickFrom(downloadingPieces[k], i, order - |got|, a).0
        invariant PickFrom(d, 0, order, a).1 == got + PickFrom(downloadingPieces[k], i, order - |got|, a).1
        decreases |d.blocks| - i
      {
        var b := downloadingPieces[k].blocks[i];
        if Pickable(b, a) {
          SetBlockAt(k, i, b.Request(a.peer, a.speed));
          got := got + [PieceBlock(downloadingPieces[k].index, i)];
        }
        i := i + 1;
      }
    }

    /** addDownloadingBlocks: stops at the first entry that completes the order. */
    method AddDownloadingBlocks(order: nat, a: Ask, available: seq<bool>) returns (got: seq<PieceBlock>)
      modifies this`downloadingPieces
      ensures (downloadingPieces, got) == AddFrom(old(downloadingPieces), 0, order, a, available)
      ensures |got| <= order
    {
      got := [];
      var k := 0;
      while k < |downloadingPieces|
        invariant k <= |downloadingPieces| == |old(downloadingPieces)|
        invariant |got| <= order
        invariant AddFrom(old(downloadingPieces), 0, order, a, available).0 ==
                  AddFrom(downloadingPieces, k, order - |got|, a, available).0
        invariant AddFrom(old(downloadingPieces), 0, order, a, available).1 ==
                  got + AddFrom(downloadingPieces, k, order - |got|, a, available).1
      {
        if Allowed(available, downloadingPieces[k].index) {
          PickAtMost(downloadingPieces[k], 0, order - |got|, a);
          var more := PickBlocks(k, order - |got|, a);
          got := got + more;
          if |got| == order {
            NothingOrdered(downloadingPieces, k + 1, a, available);
            assert more + [] == more;
            return;
          }
        }
        k := k + 1;
      }
      assert got + [] == got;
    }

    method CountHave() returns (n: nat)
      ensures n == NumHave(pieceStatus)
    {
      n := 0;
      for i := 0 to |pieceStatus|
        invariant n == NumHave(pieceStatus[..i])
      {
        assert pieceStatus[..i + 1][..i] == pieceStatus[..i];
        if pieceStatus[i] == Have {
          n := n + 1;
        }
      }
      assert pieceStatus[..|pieceStatus|] == pieceStatus;
    }

    method ChooseNextPieceWithAvailability(available: seq<bool>) returns (started: bool)
      modifies this
      ensures var p := old(State()); var next := NextMissing(p, 0, available);
              && started == (next < |p.status|)
              && State() == if started then Open(p, next) else p
    {
      var i := 0;
      while i < |pieceStatus|
        invariant i <= |pieceStatus|
        invariant NextMissing(State(), 0, available) == NextMissing(State(), i, available)
      {
        if pieceStatus[i] == Missing && Allowed(available, i) {
          downloadingPieces :=
            downloadingPieces + [DPiece(i, seq(BlocksInPiece(|pieceStatus|, blocksInLast, i), _ => FRESH))];
          pieceStatus := pieceStatus[i := Downloading];
          return true;
        }
        i := i + 1;
      }
      return false;
    }

    /** The ordinary and the end-game pass of PickPiecesWithAvailability. */
    method PickFromStarted(order: nat, peer: Peer, speed: nat, available: seq<bool>) returns (got: seq<PieceBlock>)
      modifies this`downloadingPieces
      ensures (State(), got) == Round(old(State()), order, peer, speed, available)
      ensures |got| <= order
    {
      got := AddDownloadingBlocks(order, Ask(peer, speed, false), available);
      if speed != SLOW && |got| < order {
        var have := CountHave();
        if |pieceStatus| - have - |downloadingPieces| == 0 || |downloadingPieces| > END_GAME_LIMIT {
          var more := AddDownloadingBlocks(order - |got|, Ask(peer, speed, true), available);
          got := got + more;
        }
      }
    }

    method PickPiecesWithAvailability(order: nat, peer: Peer, speed: nat, available: seq<bool>)
      returns (got: seq<PieceBlock>)
      modifies this
      ensures (State(), got) == Pick(old(State()), order, peer, speed, available)
      decreases CountMissing(pieceStatus), 1
    {
      ghost var p := State();
      got := PickFromStarted(order, peer, speed, available);
      assert Pick(p, order, peer, speed, available) == GoOn(State(), got, order, peer, speed, available);
      var more := PickMore(got, order, peer, speed, available);
      got := got + more;
    }

    /** What follows a round that gave `got`. */
    method PickMore(got: seq<PieceBlock>, order: nat, peer: Peer, speed: nat, available: seq<bool>)
      returns (more: seq<PieceBlock>)
      modifies this
      ensures (State(), got + more) == GoOn(old(State()), got, order, peer, speed, available)
      decreases CountMissing(pieceStatus), 0
    {
      more := [];
      ghost var q := State();
      if |got| < order {
        var started := ChooseNextPieceWithAvailability(available);
        if started {
          CountMissingStarts(q.status, NextMissing(q, 0, available));
          more := PickPiecesWithAvailability(order - |got|, peer, speed, available);
        }
      }
      assert got + [] == got;
    }

    method Remove(i: nat)
      modifies this`downloadingPieces
      ensures downloadingPieces == Without(old(downloadingPieces), i)
    {
      var dst: seq<DPiece> := [];
      for k := 0 to |downloadingPieces|
        invariant downloadingPieces == old(downloadingPieces)
        invariant dst == Without(downloadingPieces[..k], i)
      {
        assert downloadingPieces[..k + 1][..k] == downloadingPieces[..k];
        if downloadingPieces[k].index != i {
          dst := dst + [downloadingPieces[k]];
        }
      }
      assert downloadingPieces[..|downloadingPieces|] == downloadingPieces;
      downloadingPieces := dst;
    }

    method WeHave(i: nat)
      requires Inv(State()) && i < |pieceStatus|
      modifies this
      ensures State() == Scheduler.WeHave(old(State()), i) && Inv(State())
    {
      CloseKeeps(State(), i, Have);
      Remove(i);
      pieceStatus := pieceStatus[i := Have];
    }

    method RestorePiece(i: nat)
      requires Inv(State()) && i < |pieceStatus|
      modifies this
      ensures State() == Scheduler.RestorePiece(old(State()), i) && Inv(State())
    {
      CloseKeeps(State(), i, Missing);
      var k := GetDownloadingPiece(i);
      if k < |downloadingPieces| {
        Remove(i);
      } else {
        WithoutNothing(downloadingPieces, i);
      }
      pieceStatus := pieceStatus[i := Missing];
    }

    method RestoreHave(i: nat)
      requires i < |pieceStatus|
      modifies this`pieceStatus
      ensures pieceStatus == old(pieceStatus)[i := Have]
    {
      pieceStatus := pieceStatus[i := Have];
    }

    method WeHaveBlock(b: PieceBlock)
      requires Inv(State()) && State().Valid(b)
      modifies this
      ensures State() == Scheduler.WeHaveBlock(old(State()), b) && Inv(State())
    {
      ghost var p := State();
      WeHaveBlockKeeps(p, b);
      var k := GetDownloadingPiece(b.piece);
      if k == |downloadingPieces| {
        OpenKeeps(p, b.piece);
        FindAppend(downloadingPieces, NewPiece(p, b.piece), b.piece);
        downloadingPieces :=
          downloadingPieces + [DPiece(b.piece, seq(BlocksInPiece(|pieceStatus|, blocksInLast, b.piece), _ => FRESH))];
        pieceStatus := pieceStatus[b.piece := Downloading];
        assert State() == Open(p, b.piece);
      }
      assert EntryOk(State(), downloadingPieces[k]);
      SetBlockAt(k, b.block, downloadingPieces[k].blocks[b.block].Finish());
    }
  }

  lemma {:induction false} NothingPickable(d: DPiece, i: nat, order: nat, a: Ask)
    requires forall j :: 0 <= j < |d.blocks| ==> !Pickable(d.blocks[j], a)
    ensures PickFrom(d, i, order, a) == (d, [])
    decreases |d.blocks| - i
  {
    if i < |d.blocks| && order > 0 {
      NothingPickable(d, i + 1, order, a);
    }
  }

  lemma PickAtMost(d: DPiece, i: nat, order: nat, a: Ask)
    ensures |PickFrom(d, i, order, a).1| <= order
    decreases |d.blocks| - i
  {
  }

  lemma {:induction false} NothingOrdered(ps: seq<DPiece>, k: nat, a: Ask, available: seq<bool>)
    ensures AddFrom(ps, k, 0, a, available) == (ps, [])
    decreases |ps| - k
  {
    if k < |ps| {
      assert ps[k := ps[k]] == ps;
      NothingOrdered(ps, k + 1, a, available);
      assert PickFrom(ps[k], 0, 0, a) == (ps[k], []);
      assert [] + AddFrom(ps, k + 1, 0, a, available).1 == [];
    }
  }

  lemma {:induction false} WithoutNothing(ps: seq<DPiece>, i: nat)
    requires forall k :: 0 <= k < |ps| ==> ps[k].index != i
    ensures Without(ps, i) == ps
  {
    if |ps| > 0 {
      WithoutNothing(ps[..|ps| - 1], i);
    }
  }
}
