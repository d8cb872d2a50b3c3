/** The block scheduler as values: what every PiecePicker and DownloadingPiece operation does to the
    piece table (piece_picker.go, downloading_piece.go). The class in PiecePicker.dfy is proved
    against these functions. */
module BlockScheduler {
  import opened Wrappers
  import opened Geometry

  /** A peer pointer; None is nil. */
  type Peer = Option<nat>

  const SLOW: nat := 0
  const END_GAME_LIMIT: nat := 4

  datatype BlockState = Free | Requested | Writing | Finished

  datatype DBlock = DBlock(state: BlockState, downloaders: nat, last: Peer, speed: nat) {
    function Request(p: Peer, s: nat): DBlock { DBlock(Requested, downloaders + 1, p, s) }

    function Write(): DBlock { DBlock(Writing, 0, None, speed) }

    function Finish(): DBlock { this.(state := Finished) }

    function Abort(p: Peer): DBlock {
      var n := if downloaders > 0 then downloaders - 1 else 0;
      DBlock(if n == 0 then Free else state, n, if last == p then None else last, speed)
    }

    predicate Downloaded() { state == Writing || state == Finished }

    /** The accounting the scheduler keeps per block. */
    predicate Consistent() {
      match state
      case Free => downloaders == 0
      case Requested => 1 <= downloaders <= 2
      case Writing => downloaders == 0
      case Finished => downloaders <= 2
    }
  }

  const FRESH: DBlock := DBlock(Free, 0, None, SLOW)

  datatype DPiece = DPiece(index: nat, blocks: seq<DBlock>)

  datatype PieceState = Missing | Downloading | Have

  datatype Picker = Picker(status: seq<PieceState>, downloading: seq<DPiece>, blocksInLast: nat) {
    function Blocks(i: nat): nat { BlocksInPiece(|status|, blocksInLast, i) }

    predicate Valid(b: PieceBlock) { b.piece < |status| && b.block < Blocks(b.piece) }
  }

  predicate AllValid(p: Picker, bs: seq<PieceBlock>) { forall b :: b in bs ==> p.Valid(b) }

  function NewPiece(p: Picker, i: nat): DPiece {
    DPiece(i, seq(p.Blocks(i), _ => FRESH))
  }

  /** Position of the entry for piece i, or |ps| when there is none. */
  function Find(ps: seq<DPiece>, i: nat): (k: nat)
    ensures k <= |ps|
    ensures k < |ps| ==> ps[k].index == i
    ensures forall j :: 0 <= j < k ==> ps[j].index != i
  {
    if |ps| == 0 then 0 else if ps[0].index == i then 0 else 1 + Find(ps[1..], i)
  }

  predicate InProgress(p: Picker, i: nat) { Find(p.downloading, i) < |p.downloading| }

  function Entry(p: Picker, i: nat): DPiece
    requires InProgress(p, i)
  {
    p.downloading[Find(p.downloading, i)]
  }

  /** State of a block; blocks of pieces without an entry are untouched. */
  function BlockAt(p: Picker, b: PieceBlock): DBlock {
    if InProgress(p, b.piece) && b.block < |Entry(p, b.piece).blocks| then Entry(p, b.piece).blocks[b.block] else FRESH
  }

  predicate Distinct(ps: seq<DPiece>) {
    forall i, j :: 0 <= i < j < |ps| ==> ps[i].index != ps[j].index
  }

  predicate EntryOk(p: Picker, d: DPiece) {
    && d.index < |p.status|
    && |d.blocks| == p.Blocks(d.index)
    && forall j :: 0 <= j < |d.blocks| ==> d.blocks[j].Consistent()
  }

  /** One entry for each piece marked Downloading, none for any other piece, block accounting consistent. */
  predicate Inv(p: Picker) {
    && 1 <= p.blocksInLast <= BLOCKS_PER_PIECE
    && Distinct(p.downloading)
    && (forall k :: 0 <= k < |p.downloading| ==> EntryOk(p, p.downloading[k]))
    && forall i: nat :: i < |p.status| ==> (p.status[i] == Downloading <==> InProgress(p, i))
  }

  lemma FindUnique(ps: seq<DPiece>, k: nat)
    requires Distinct(ps) && k < |ps|
    ensures Find(ps, ps[k].index) == k
  {
  }

  // ---------------------------------------------------------------- single-block operations

  function SetBlock(p: Picker, b: PieceBlock, nb: DBlock): Picker
    requires InProgress(p, b.piece) && b.block < |Entry(p, b.piece).blocks|
  {
    var k := Find(p.downloading, b.piece);
    var d := p.downloading[k];
    p.(downloading := p.downloading[k := d.(blocks := d.blocks[b.block := nb])])
  }

  lemma {:induction false} FindAfterSet(ps: seq<DPiece>, k: nat, d: DPiece, i: nat)
    requires k < |ps| && d.index == ps[k].index
    ensures Find(ps[k := d], i) == Find(ps, i)
  {
    var f, g := Find(ps, i), Find(ps[k := d], i);
    assert f < |ps| ==> ps[k := d][f].index == i;
    assert g < |ps| ==> ps[g].index == i;
  }

  lemma SetBlockAt(p: Picker, b: PieceBlock, nb: DBlock)
    requires InProgress(p, b.piece) && b.block < |Entry(p, b.piece).blocks|
    ensures forall c: PieceBlock {:trigger BlockAt(SetBlock(p, b, nb), c)} ::
              BlockAt(SetBlock(p, b, nb), c) == if c == b then nb else BlockAt(p, c)
    ensures forall i {:trigger InProgress(SetBlock(p, b, nb), i)} :: InProgress(SetBlock(p, b, nb), i) <==>
            InProgress(p, i)
    ensures Inv(p) && nb.Consistent() ==> Inv(SetBlock(p, b, nb))
  {
    var k := Find(p.downloading, b.piece);
    var d := p.downloading[k].(blocks := p.downloading[k].blocks[b.block := nb]);
    forall i
      ensures Find(SetBlock(p, b, nb).downloading, i) == Find(p.downloading, i)
    {
      FindAfterSet(p.downloading, k, d, i);
    }
    forall c: PieceBlock
      ensures BlockAt(SetBlock(p, b, nb), c) == if c == b then nb else BlockAt(p, c)
    {
      if c.piece != b.piece && InProgress(p, c.piece) {
        assert Find(p.downloading, c.piece) != k;
      }
    }
  }

  function MarkAsFinished(p: Picker, b: PieceBlock): Picker
    requires Inv(p) && p.Valid(b)
  {
    if InProgress(p, b.piece) then SetBlock(p, b, BlockAt(p, b).Finish()) else p
  }

  /** The second component is what DownloadingPiece.WriteBlock answers: was the block still wanted. */
  function MarkAsWriting(p: Picker, b: PieceBlock): (Picker, bool)
    requires Inv(p) && p.Valid(b)
  {
    if InProgress(p, b.piece) && !BlockAt(p, b).Downloaded() then (SetBlock(p, b, BlockAt(p, b).Write()), true)
    else (p, false)
  }

  function AbortDownload(p: Picker, b: PieceBlock, peer: Peer): Picker
    requires Inv(p) && p.Valid(b)
  {
    if InProgress(p, b.piece) then SetBlock(p, b, BlockAt(p, b).Abort(peer)) else p
  }

  lemma MarkAsFinishedKeeps(p: Picker, b: PieceBlock)
    requires Inv(p) && p.Valid(b)
    ensures Inv(MarkAsFinished(p, b)) && MarkAsFinished(p, b).status == p.status
    ensures forall c {:trigger BlockAt(MarkAsFinished(p, b), c)} ::
              BlockAt(MarkAsFinished(p, b), c) == if c == b && InProgress(p, b.piece) then BlockAt(p, b).Finish()
                else BlockAt(p, c)
  {
    if InProgress(p, b.piece) {
      SetBlockAt(p, b, BlockAt(p, b).Finish());
    }
  }

  lemma MarkAsWritingKeeps(p: Picker, b: PieceBlock)
    requires Inv(p) && p.Valid(b)
    ensures Inv(MarkAsWriting(p, b).0) && MarkAsWriting(p, b).0.status == p.status
    ensures MarkAsWriting(p, b).1 <==> InProgress(p, b.piece) && !BlockAt(p, b).Downloaded()
    ensures forall c {:trigger BlockAt(MarkAsWriting(p, b).0, c)} ::
              BlockAt(MarkAsWriting(p, b).0, c) == if c == b && MarkAsWriting(p, b).1 then BlockAt(p, b).Write()
                else BlockAt(p, c)
  {
    if MarkAsWriting(p, b).1 {
      SetBlockAt(p, b, BlockAt(p, b).Write());
    }
  }

  lemma AbortDownloadKeeps(p: Picker, b: PieceBlock, peer: Peer)
    requires Inv(p) && p.Valid(b)
    ensures Inv(AbortDownload(p, b, peer)) && AbortDownload(p, b, peer).status == p.status
    ensures forall c {:trigger BlockAt(AbortDownload(p, b, peer), c)} ::
              BlockAt(AbortDownload(p, b, peer), c) == if c == b && InProgress(p, b.piece)
                then BlockAt(p, b).Abort(peer) else BlockAt(p, c)
  {
    if InProgress(p, b.piece) {
      SetBlockAt(p, b, BlockAt(p, b).Abort(peer));
    }
  }

  // ---------------------------------------------------------------- whole-piece operations

  function Without(ps: seq<DPiece>, i: nat): (r: seq<DPiece>)
    ensures forall k :: 0 <= k < |r| ==> r[k].index != i
    ensures forall d :: d in r <==> d in ps && d.index != i
  {
    if |ps| == 0 then []
    else
      var r := Without(ps[..|ps| - 1], i);
      assert ps == ps[..|ps| - 1] + [ps[|ps| - 1]];
      if ps[|ps| - 1].index == i then r else r + [ps[|ps| - 1]]
  }

  lemma {:induction false} WithoutDistinct(ps: seq<DPiece>, i: nat)
    requires Distinct(ps)
    ensures Distinct(Without(ps, i))
  {
    if |ps| > 0 {
      var n := |ps| - 1;
      WithoutDistinct(ps[..n], i);
      var r := Without(ps[..n], i);
      forall k | 0 <= k < |r|
        ensures r[k].index != ps[n].index
      {
        assert r[k] in ps[..n];
        var j :| 0 <= j < n && ps[j] == r[k];
      }
    }
  }

  lemma FindByMember(ps: seq<DPiece>, d: DPiece)
    requires Distinct(ps) && d in ps
    ensures Find(ps, d.index) < |ps| && ps[Find(ps, d.index)] == d
  {
    var k :| 0 <= k < |ps| && ps[k] == d;
    FindUnique(ps, k);
  }

  lemma WithoutFind(ps: seq<DPiece>, i: nat, j: nat)
    requires Distinct(ps)
    ensures Find(Without(ps, i), j) < |Without(ps, i)| <==> j != i && Find(ps, j) < |ps|
    ensures j != i && Find(ps, j) < |ps| ==> Without(ps, i)[Find(Without(ps, i), j)] == ps[Find(ps, j)]
  {
    WithoutDistinct(ps, i);
    if Find(ps, j) < |ps| && j != i {
      assert ps[Find(ps, j)] in Without(ps, i);
      FindByMember(Without(ps, i), ps[Find(ps, j)]);
    }
    if Find(Without(ps, i), j) < |Without(ps, i)| {
      assert Without(ps, i)[Find(Without(ps, i), j)] in ps;
      FindByMember(ps, Without(ps, i)[Find(Without(ps, i), j)]);
    }
  }

  /** WeHave and RestorePiece differ only in the status they leave behind. */
  function Close(p: Picker, i: nat, s: PieceState): Picker
    requires i < |p.status|
  {
    p.(downloading := Without(p.downloading, i), status := p.status[i := s])
  }

  function WeHave(p: Picker, i: nat): Picker
    requires i < |p.status|
  {
    Close(p, i, Have)
  }

  function RestorePiece(p: Picker, i: nat): Picker
    requires i < |p.status|
  {
    Close(p, i, Missing)
  }

  lemma CloseKeeps(p: Picker, i: nat, s: PieceState)
    requires Inv(p) && i < |p.status| && s != Downloading
    ensures Inv(Close(p, i, s)) && |Close(p, i, s).status| == |p.status|
    ensures forall j: nat {:trigger Close(p, i, s).status[j]} ::
              j < |p.status| ==> Close(p, i, s).status[j] == if j == i then s else p.status[j]
    ensures forall j {:trigger InProgress(Close(p, i, s), j)} :: InProgress(Close(p, i, s), j) <==>
            j != i && InProgress(p, j)
    ensures forall c {:trigger BlockAt(Close(p, i, s), c)} ::
              BlockAt(Close(p, i, s), c) == if c.piece == i then FRESH else BlockAt(p, c)
  {
    var q := Close(p, i, s);
    WithoutDistinct(p.downloading, i);
    forall j
      ensures InProgress(q, j) <==> j != i && InProgress(p, j)
      ensures j != i && InProgress(p, j) ==> Entry(q, j) == Entry(p, j)
    {
      WithoutFind(p.downloading, i, j);
    }
    forall k | 0 <= k < |q.downloading|
      ensures EntryOk(q, q.downloading[k])
    {
      assert q.downloading[k] in p.downloading;
    }
  }

  /** Starting a missing piece appends an entry whose blocks are all free. */
  function Open(p: Picker, i: nat): Picker
    requires i < |p.status|
  {
    p.(downloading := p.downloading + [NewPiece(p, i)], status := p.status[i := Downloading])
  }

  lemma {:induction false} FindAppend(ps: seq<DPiece>, d: DPiece, i: nat)
    ensures Find(ps + [d], i) == if Find(ps, i) < |ps| then Find(ps, i) else if d.index == i then |ps| else |ps| + 1
  {
    var f, g := Find(ps, i), Find(ps + [d], i);
    assert g < |ps| ==> (ps + [d])[g] == ps[g];
    assert f < |ps| ==> (ps + [d])[f] == ps[f];
    assert (ps + [d])[|ps|] == d;
  }

  lemma OpenKeeps(p: Picker, i: nat)
    requires Inv(p) && i < |p.status| && !InProgress(p, i)
    ensures Inv(Open(p, i)) && |Open(p, i).status| == |p.status|
    ensures forall j: nat {:trigger Open(p, i).status[j]} ::
              j < |p.status| ==> Open(p, i).status[j] == if j == i then Downloading else p.status[j]
    ensures forall j {:trigger InProgress(Open(p, i), j)} :: InProgress(Open(p, i), j) <==> j == i || InProgress(p, j)
    ensures forall c {:trigger BlockAt(Open(p, i), c)} :: BlockAt(Open(p, i), c) == BlockAt(p, c)
  {
    var q := Open(p, i);
    var d := NewPiece(p, i);
    forall j
      ensures InProgress(q, j) <==> j == i || InProgress(p, j)
      ensures InProgress(q, j) ==> Entry(q, j) == if InProgress(p, j) then Entry(p, j) else d
    {
      FindAppend(p.downloading, d, j);
    }
    forall k | 0 <= k < |p.downloading|
      ensures p.downloading[k].index != i
    {
    }
    forall k | 0 <= k < |q.downloading|
      ensures EntryOk(q, q.downloading[k])
    {
      if k < |p.downloading| {
        assert EntryOk(p, p.downloading[k]);
      }
    }
  }

  function WeHaveBlock(p: Picker, b: PieceBlock): Picker
    requires Inv(p) && p.Valid(b)
  {
    var q := if InProgress(p, b.piece) then p else Open(p, b.piece);
    if InProgress(q, b.piece) && b.block < |Entry(q, b.piece).blocks| then SetBlock(q, b, BlockAt(q, b).Finish()) else q
  }

  lemma WeHaveBlockKeeps(p: Picker, b: PieceBlock)
    requires Inv(p) && p.Valid(b)
    ensures Inv(WeHaveBlock(p, b)) && |WeHaveBlock(p, b).status| == |p.status|
    ensures forall j: nat {:trigger WeHaveBlock(p, b).status[j]} ::
              j < |p.status| ==> WeHaveBlock(p, b).status[j] == if j == b.piece then Downloading else p.status[j]
    ensures forall j {:trigger InProgress(WeHaveBlock(p, b), j)} :: InProgress(WeHaveBlock(p, b), j) <==>
            j == b.piece || InProgress(p, j)
    ensures forall c {:trigger BlockAt(WeHaveBlock(p, b), c)} ::
              BlockAt(WeHaveBlock(p, b), c) == if c == b then BlockAt(p, b).Finish() else BlockAt(p, c)
  {
    var q := if InProgress(p, b.piece) then p else Open(p, b.piece);
    if !InProgress(p, b.piece) {
      OpenKeeps(p, b.piece);
    }
    SetBlockAt(q, b, BlockAt(q, b).Finish());
  }

  // ---------------------------------------------------------------- counts and piece status

  function CountState(blocks: seq<DBlock>, s: BlockState): nat {
    if |blocks| == 0 then 0
    else CountState(blocks[..|blocks| - 1], s) + if blocks[|blocks| - 1].state == s then 1 else 0
  }

  lemma {:induction false} CountAll(blocks: seq<DBlock>, s: BlockState)
    ensures CountState(blocks, s) <= |blocks|
    ensures CountState(blocks, s) == |blocks| <==> forall j :: 0 <= j < |blocks| ==> blocks[j].state == s
  {
    if |blocks| > 0 {
      var n := |blocks| - 1;
      CountAll(blocks[..n], s);
      assert forall j :: 0 <= j < n ==> blocks[..n][j] == blocks[j];
    }
  }

  lemma {:induction false} CountDownloaded(blocks: seq<DBlock>)
    ensures CountState(blocks, Finished) + CountState(blocks, Writing) <= |blocks|
    ensures CountState(blocks, Finished) + CountState(blocks, Writing) == |blocks|
            <==> forall j :: 0 <= j < |blocks| ==> blocks[j].Downloaded()
  {
    if |blocks| > 0 {
      var n := |blocks| - 1;
      CountDownloaded(blocks[..n]);
      assert forall j :: 0 <= j < n ==> blocks[..n][j] == blocks[j];
    }
  }

  function IsPieceFinished(p: Picker, i: nat): bool
    requires i < |p.status|
  {
    if p.status[i] == Missing then false
    else if p.status[i] == Have then true
    else if !InProgress(p, i) then false
    else
      var d := Entry(p, i);
      |d.blocks| == CountState(d.blocks, Finished) + CountState(d.blocks, Writing)
  }

  predicate AllDownloaded(p: Picker, i: nat) {
    forall j: nat :: j < p.Blocks(i) ==> BlockAt(p, PieceBlock(i, j)).Downloaded()
  }

  /** The count test answers whether the piece is had or every one of its blocks is written or being written. */
  lemma PieceFinishedMeaning(p: Picker, i: nat)
    requires Inv(p) && i < |p.status|
    ensures IsPieceFinished(p, i) <==> p.status[i] == Have || (p.status[i] == Downloading && AllDownloaded(p, i))
  {
    if InProgress(p, i) {
      var d := Entry(p, i);
      CountDownloaded(d.blocks);
      assert EntryOk(p, d);
      assert forall j: nat :: j < |d.blocks| ==> BlockAt(p, PieceBlock(i, j)) == d.blocks[j];
    }
  }

  // ---------------------------------------------------------------- picking

  datatype Ask = Ask(peer: Peer, speed: nat, endGame: bool)

  /** An empty availability map means nothing is known, so everything may be asked for. */
  predicate Allowed(available: seq<bool>, i: nat) {
    |available| == 0 || (i < |available| && available[i])
  }

  predicate Pickable(b: DBlock, a: Ask) {
    || b.state == Free
    || (a.endGame && b.state == Requested && b.downloaders < 2 && b.speed < a.speed && b.last != a.peer)
  }

  /** DownloadingPiece.PickBlocks from block i on: the entry afterwards and the blocks taken, in order. */
  function PickFrom(d: DPiece, i: nat, order: nat, a: Ask): (DPiece, seq<PieceBlock>)
    decreases |d.blocks| - i
  {
    if i >= |d.blocks| || order == 0 then (d, [])
    else if Pickable(d.blocks[i], a) then
      var r := PickFrom(d.(blocks := d.blocks[i := d.blocks[i].Request(a.peer, a.speed)]), i + 1, order - 1, a);
      (r.0, [PieceBlock(d.index, i)] + r.1)
    else PickFrom(d, i + 1, order, a)
  }

  /** addDownloadingBlocks from entry k on. */
  function AddFrom(ps: seq<DPiece>, k: nat, order: nat, a: Ask, available: seq<bool>): (seq<DPiece>, seq<PieceBlock>)
    decreases |ps| - k
  {
    if k >= |ps| then (ps, [])
    else if !Allowed(available, ps[k].index) then AddFrom(ps, k + 1, order, a, available)
    else
      var got := PickFrom(ps[k], 0, order, a);
      var rest := if |got.1| < order then order - |got.1| else 0;
      var r := AddFrom(ps[k := got.0], k + 1, rest, a, available);
      (r.0, got.1 + r.1)
  }

  function NumHave(status: seq<PieceState>): nat {
    if |status| == 0 then 0 else NumHave(status[..|status| - 1]) + if status[|status| - 1] == Have then 1 else 0
  }

  predicate IsEndGame(p: Picker) {
    || |p.status| - NumHave(p.status) - |p.downloading| == 0
    || |p.downloading| > END_GAME_LIMIT
  }

  /** First missing piece at or after i that the peer may be asked for; |status| when there is none. */
  function NextMissing(p: Picker, i: nat, available: seq<bool>): (k: nat)
    requires i <= |p.status|
    ensures i <= k <= |p.status|
    ensures k < |p.status| ==> p.status[k] == Missing && Allowed(available, k)
    ensures forall j :: i <= j < k ==> !(p.status[j] == Missing && Allowed(available, j))
    decreases |p.status| - i
  {
    if i == |p.status| then i
    else if p.status[i] == Missing && Allowed(available, i) then i
    else NextMissing(p, i + 1, available)
  }

  function CountMissing(status: seq<PieceState>): nat {
    if |status| == 0 then 0
    else CountMissing(status[..|status| - 1]) + if status[|status| - 1] == Missing then 1 else 0
  }

  lemma {:induction false} CountMissingStarts(status: seq<PieceState>, i: nat)
    requires i < |status| && status[i] == Missing
    ensures CountMissing(status[i := Downloading]) == CountMissing(status) - 1
  {
    var n := |status| - 1;
    if i < n {
      CountMissingStarts(status[..n], i);
      assert status[i := Downloading][..n] == status[..n][i := Downloading];
    } else {
      assert status[i := Downloading][..n] == status[..n];
    }
  }

  /** One round over the started pieces: an ordinary pass, then an end-game pass for peers that are not slow. */
  function Round(p: Picker, order: nat, peer: Peer, speed: nat, available: seq<bool>): (Picker, seq<PieceBlock>) {
    var r1 := AddFrom(p.downloading, 0, order, Ask(peer, speed, false), available);
    var p1 := p.(downloading := r1.0);
    if speed != SLOW && |r1.1| < order && IsEndGame(p1) then
      var r2 := AddFrom(p1.downloading, 0, order - |r1.1|, Ask(peer, speed, true), available);
      (p1.(downloading := r2.0), r1.1 + r2.1)
    else (p1, r1.1)
  }

  /** PickPiecesWithAvailability: a round, and then perhaps more. */
  function Pick(p: Picker, order: nat, peer: Peer, speed: nat, available: seq<bool>): (Picker, seq<PieceBlock>)
    decreases CountMissing(p.status), 1
  {
    var r := Round(p, order, peer, speed, available);
    GoOn(r.0, r.1, order, peer, speed, available)
  }

  /** After a round: when blocks are still wanted, start another missing piece and go on. Each further round
      has started a missing piece, so it ends. */
  function GoOn(q: Picker, got: seq<PieceBlock>, order: nat, peer: Peer, speed: nat,
                available: seq<bool>): (Picker, seq<PieceBlock>)
    decreases CountMissing(q.status), 0
  {
    var next := NextMissing(q, 0, available);
    if |got| < order && next < |q.status| then
      CountMissingStarts(q.status, next);
      var r := Pick(Open(q, next), order - |got|, peer, speed, available);
      (r.0, got + r.1)
    else (q, got)
  }

  predicate NoDup(bs: seq<PieceBlock>) {
    forall i, j :: 0 <= i < j < |bs| ==> bs[i] != bs[j]
  }

  /** Exactly the blocks in got change, each from a block that could be taken to one requested by the asker. */
  ghost predicate Took(p: Picker, q: Picker, got: seq<PieceBlock>, a: Ask, available: seq<bool>) {
    && NoDup(got)
    && (forall b: PieceBlock {:trigger b in got} ::
          b in got ==>
            p.Valid(b) && Allowed(available, b.piece) && p.status[b.piece] != Have && Pickable(BlockAt(p, b), a))
    && (forall b: PieceBlock {:trigger BlockAt(q, b)} ::
          BlockAt(q, b) == if b in got then BlockAt(p, b).Request(a.peer, a.speed) else BlockAt(p, b))
    && |q.status| == |p.status| && q.blocksInLast == p.blocksInLast
    && forall i: nat {:trigger q.status[i]} {:trigger p.status[i]} ::
         i < |p.status| ==> q.status[i] == p.status[i] || (p.status[i] == Missing && q.status[i] == Downloading)
  }

  ghost predicate NothingFree(p: Picker, available: seq<bool>) {
    forall b: PieceBlock {:trigger BlockAt(p, b)} ::
      p.Valid(b) && Allowed(available, b.piece) && p.status[b.piece] != Have ==> BlockAt(p, b).state != Free
  }

  // PickFrom changes only the entry's own blocks, in increasing order.

  predicate Increasing(bs: seq<PieceBlock>, index: nat, lo: nat, hi: nat) {
    && (forall k :: 0 <= k < |bs| ==> bs[k].piece == index && lo <= bs[k].block < hi)
    && forall i, j :: 0 <= i < j < |bs| ==> bs[i].block < bs[j].block
  }

  lemma {:induction false} PickFromTakes(d: DPiece, i: nat, order: nat, a: Ask)
    requires i <= |d.blocks|
    ensures var (d', got) := PickFrom(d, i, order, a);
            && d'.index == d.index && |d'.blocks| == |d.blocks|
            && |got| <= order
            && Increasing(got, d.index, i, |d.blocks|)
            && (forall j {:trigger d'.blocks[j]} {:trigger d.blocks[j]} :: 0 <= j < |d.blocks| ==>
                  if PieceBlock(d.index, j) in got
                  then Pickable(d.blocks[j], a) && d'.blocks[j] == d.blocks[j].Request(a.peer, a.speed)
                  else d'.blocks[j] == d.blocks[j])
    decreases |d.blocks| - i
  {
    if i < |d.blocks| && order > 0 {
      if Pickable(d.blocks[i], a) {
        var e := d.(blocks := d.blocks[i := d.blocks[i].Request(a.peer, a.speed)]);
        PickFromTakes(e, i + 1, order - 1, a);
        var (d', got) := PickFrom(d, i, order, a);
        assert got[1..] == PickFrom(e, i + 1, order - 1, a).1;
        assert PieceBlock(d.index, i) == got[0] && PieceBlock(d.index, i) !in got[1..];
        assert forall j :: 0 <= j < |d.blocks| && j != i ==>
            (PieceBlock(d.index, j) in got <==> PieceBlock(d.index, j) in got[1..]) && e.blocks[j] == d.blocks[j];
      } else {
        PickFromTakes(d, i + 1, order, a);
      }
    }
  }

  lemma {:induction false} PickFromSpends(d: DPiece, i: nat, order: nat, a: Ask)
    requires i <= |d.blocks|
    ensures var (d', got) := PickFrom(d, i, order, a);
            && |d'.blocks| == |d.blocks|
            && (forall j {:trigger d'.blocks[j]} :: 0 <= j < i ==> d'.blocks[j] == d.blocks[j])
            && (|got| < order ==> forall j {:trigger d'.blocks[j]} :: i <= j < |d.blocks| ==>
                !Pickable(d'.blocks[j], a))
    decreases |d.blocks| - i
  {
    if i < |d.blocks| && order > 0 {
      if Pickable(d.blocks[i], a) {
        PickFromSpends(d.(blocks := d.blocks[i := d.blocks[i].Request(a.peer, a.speed)]), i + 1, order - 1, a);
      } else {
        PickFromSpends(d, i + 1, order, a);
      }
    }
  }

  /** What one pass over the entries from k on does to a list with distinct pieces. */
  ghost predicate PassTook(ps: seq<DPiece>, k: nat, ps': seq<DPiece>, got: seq<PieceBlock>, a: Ask,
                           available: seq<bool>) {
    && |ps'| == |ps|
    && NoDup(got)
    && (forall m {:trigger ps'[m]} :: 0 <= m < |ps| ==>
        ps'[m].index == ps[m].index && |ps'[m].blocks| == |ps[m].blocks|)
    && (forall m, j {:trigger ps'[m].blocks[j]} :: 0 <= m < |ps| && 0 <= j < |ps[m].blocks| ==>
          ps'[m].blocks[j] == if PieceBlock(ps[m].index, j) in got then ps[m].blocks[j].Request(a.peer, a.speed)
            else ps[m].blocks[j])
    && (forall b {:trigger b in got} :: b in got ==> TakenFrom(ps, k, b, a, available))
  }

  ghost predicate TakenFrom(ps: seq<DPiece>, k: nat, b: PieceBlock, a: Ask, available: seq<bool>) {
    && Allowed(available, b.piece)
    && exists m ::
         k <= m < |ps| && ps[m].index == b.piece && b.block < |ps[m].blocks| && Pickable(ps[m].blocks[b.block], a)
  }

  predicate Spent(d: DPiece, a: Ask) {
    forall j :: 0 <= j < |d.blocks| ==> !Pickable(d.blocks[j], a)
  }

  lemma {:induction false} AddFromTakes(ps: seq<DPiece>, k: nat, order: nat, a: Ask, available: seq<bool>)
    requires Distinct(ps) && k <= |ps|
    ensures var (ps', got) := AddFrom(ps, k, order, a, available);
            && PassTook(ps, k, ps', got, a, available)
            && |got| <= order
            && (|got| < order ==> forall m :: k <= m < |ps| && Allowed(available, ps[m].index) ==> Spent(ps'[m], a))
    decreases |ps| - k
  {
    if k < |ps| {
      if !Allowed(available, ps[k].index) {
        AddFromTakes(ps, k + 1, order, a, available);
      } else {
        var (d', g1) := PickFrom(ps[k], 0, order, a);
        PickFromTakes(ps[k], 0, order, a);
        PickFromSpends(ps[k], 0, order, a);
        var qs := ps[k := d'];
        AddFromTakes(qs, k + 1, order - |g1|, a, available);
        var (ps', g2) := AddFrom(qs, k + 1, order - |g1|, a, available);
        AddStep(ps, k, d', g1, ps', g2, a, available);
      }
    }
  }

  lemma AddStep(ps: seq<DPiece>, k: nat, d': DPiece, g1: seq<PieceBlock>, ps': seq<DPiece>, g2: seq<PieceBlock>, a: Ask,
                available: seq<bool>)
    requires Distinct(ps) && k < |ps| && Allowed(available, ps[k].index)
    requires d'.index == ps[k].index && |d'.blocks| == |ps[k].blocks| && Increasing(g1, ps[k].index, 0, |ps[k].blocks|)
    requires forall j {:trigger d'.blocks[j]} :: 0 <= j < |ps[k].blocks| ==>
               if PieceBlock(ps[k].index, j) in g1
               then Pickable(ps[k].blocks[j], a) && d'.blocks[j] == ps[k].blocks[j].Request(a.peer, a.speed)
               else d'.blocks[j] == ps[k].blocks[j]
    requires PassTook(ps[k := d'], k + 1, ps', g2, a, available)
    ensures PassTook(ps, k, ps', g1 + g2, a, available)
    ensures forall m :: k == m ==> ps'[m] == d'
  {
    var qs := ps[k := d'];
    var i := ps[k].index;
    forall b | b in g2
      ensures b.piece != i && TakenFrom(ps, k, b, a, available)
    {
      assert TakenFrom(qs, k + 1, b, a, available);
      var m :| k + 1 <= m < |qs| && qs[m].index == b.piece && b.block < |qs[m].blocks|
        && Pickable(qs[m].blocks[b.block], a);
      assert ps[m] == qs[m];
    }
    forall b | b in g1
      ensures b.piece == i && TakenFrom(ps, k, b, a, available)
    {
      assert d'.blocks[b.block] == d'.blocks[b.block] && b == PieceBlock(i, b.block);
      assert Pickable(ps[k].blocks[b.block], a);
    }
    assert NoDup(g1 + g2);
    forall m, j | 0 <= m < |ps| && 0 <= j < |ps[m].blocks|
      ensures ps'[m].blocks[j] == if PieceBlock(ps[m].index, j) in g1 + g2 then ps[m].blocks[j].Request(a.peer, a.speed)
              else ps[m].blocks[j]
    {
      assert qs[m].index == ps[m].index;
      assert ps'[m].blocks[j] == if PieceBlock(qs[m].index, j) in g2 then qs[m].blocks[j].Request(a.peer, a.speed)
        else qs[m].blocks[j];
    }
    assert forall j :: 0 <= j < |d'.blocks| ==> ps'[k].blocks[j] == d'.blocks[j];
    assert ps'[k] == d';
  }

  lemma PassIsTook(p: Picker, got: seq<PieceBlock>, ps': seq<DPiece>, a: Ask, available: seq<bool>)
    requires Inv(p) && PassTook(p.downloading, 0, ps', got, a, available)
    ensures Inv(p.(downloading := ps'))
    ensures Took(p, p.(downloading := ps'), got, a, available)
    ensures (forall m :: 0 <= m < |ps'| && Allowed(available, ps'[m].index) ==> Spent(ps'[m], a)) ==>
              NothingLeft(p.(downloading := ps'), a, available)
  {
    var ps, q := p.downloading, p.(downloading := ps');
    forall b | b in got
      ensures p.Valid(b) && Allowed(available, b.piece) && p.status[b.piece] == Downloading
              && Pickable(BlockAt(p, b), a)
    {
      assert TakenFrom(ps, 0, b, a, available);
      var m :| 0 <= m < |ps| && ps[m].index == b.piece && b.block < |ps[m].blocks|
        && Pickable(ps[m].blocks[b.block], a);
      FindUnique(ps, m);
      assert EntryOk(p, ps[m]);
    }
    forall i
      ensures Find(ps', i) == Find(ps, i)
    {
      var f, g := Find(ps, i), Find(ps', i);
      assert f < |ps| ==> ps'[f].index == i;
      assert g < |ps| ==> ps'[g].index == ps[g].index;
    }
    forall b: PieceBlock
      ensures BlockAt(q, b) == if b in got then BlockAt(p, b).Request(a.peer, a.speed) else BlockAt(p, b)
    {
      var f := Find(ps, b.piece);
      if f < |ps| && b.block < |ps[f].blocks| {
        assert ps'[f].blocks[b.block] == if b in got then ps[f].blocks[b.block].Request(a.peer, a.speed)
          else ps[f].blocks[b.block];
      }
    }
    forall k | 0 <= k < |ps'|
      ensures EntryOk(q, ps'[k])
    {
      assert EntryOk(p, ps[k]);
      FindUnique(ps, k);
      forall j | 0 <= j < |ps'[k].blocks|
        ensures ps'[k].blocks[j].Consistent()
      {
        var b := PieceBlock(ps[k].index, j);
        assert BlockAt(p, b) == ps[k].blocks[j] && (b in got ==> Pickable(BlockAt(p, b), a));
      }
    }
  }

  lemma TookCompose(p: Picker, q: Picker, r: Picker, g1: seq<PieceBlock>, g2: seq<PieceBlock>, a: Ask,
                    available: seq<bool>)
    requires Took(p, q, g1, a, available) && Took(q, r, g2, a, available)
    ensures Took(p, r, g1 + g2, a, available)
  {
    forall b | b in g1
      ensures b !in g2
    {
      assert BlockAt(q, b) == BlockAt(p, b).Request(a.peer, a.speed);
      assert !Pickable(BlockAt(q, b), a);
    }
    forall b | b in g2
      ensures p.Valid(b) && Allowed(available, b.piece) && p.status[b.piece] != Have && Pickable(BlockAt(p, b), a)
    {
      assert b !in g1 && BlockAt(q, b) == BlockAt(p, b);
      assert q.status[b.piece] == p.status[b.piece] || q.status[b.piece] == Downloading;
    }
    forall b: PieceBlock
      ensures BlockAt(r, b) == if b in g1 + g2 then BlockAt(p, b).Request(a.peer, a.speed) else BlockAt(p, b)
    {
      assert BlockAt(q, b) == if b in g1 then BlockAt(p, b).Request(a.peer, a.speed) else BlockAt(p, b);
    }
  }

  lemma TookWiden(p: Picker, q: Picker, got: seq<PieceBlock>, peer: Peer, speed: nat, endGame: bool,
                  available: seq<bool>)
    requires Took(p, q, got, Ask(peer, speed, false), available)
    ensures Took(p, q, got, Ask(peer, speed, endGame), available)
  {
    assert forall b: DBlock :: Pickable(b, Ask(peer, speed, false)) ==> Pickable(b, Ask(peer, speed, endGame));
  }

  /** No block of an allowed started piece could be taken any more. */
  ghost predicate NothingLeft(p: Picker, a: Ask, available: seq<bool>) {
    forall b: PieceBlock {:trigger BlockAt(p, b)} ::
      p.Valid(b) && Allowed(available, b.piece) && p.status[b.piece] == Downloading ==> !Pickable(BlockAt(p, b), a)
  }

  ghost predicate NothingFreeStarted(p: Picker, available: seq<bool>) {
    forall b: PieceBlock {:trigger BlockAt(p, b)} ::
      p.Valid(b) && Allowed(available, b.piece) && p.status[b.piece] == Downloading ==> BlockAt(p, b).state != Free
  }

  lemma OnePass(p: Picker, order: nat, a: Ask, available: seq<bool>)
    requires Inv(p)
    ensures var (ps, got) := AddFrom(p.downloading, 0, order, a, available);
            var q := p.(downloading := ps);
            && Inv(q) && Took(p, q, got, a, available) && |got| <= order
            && (|got| < order ==> NothingLeft(q, a, available) && NothingFreeStarted(q, available))
  {
    AddFromTakes(p.downloading, 0, order, a, available);
    var (ps, got) := AddFrom(p.downloading, 0, order, a, available);
    PassIsTook(p, got, ps, a, available);
  }

  lemma RoundSound(p: Picker, order: nat, peer: Peer, speed: nat, available: seq<bool>)
    requires Inv(p)
    ensures var (q, got) := Round(p, order, peer, speed, available);
            && Inv(q) && Took(p, q, got, Ask(peer, speed, speed != SLOW), available)
            && q.status == p.status && |got| <= order
            && (|got| < order ==> NothingFreeStarted(q, available))
  {
    var a := Ask(peer, speed, speed != SLOW);
    var r1 := AddFrom(p.downloading, 0, order, Ask(peer, speed, false), available);
    OnePass(p, order, Ask(peer, speed, false), available);
    var p1 := p.(downloading := r1.0);
    TookWiden(p, p1, r1.1, peer, speed, speed != SLOW, available);
    if speed != SLOW && |r1.1| < order && IsEndGame(p1) {
      var r2 := AddFrom(p1.downloading, 0, order - |r1.1|, a, available);
      OnePass(p1, order - |r1.1|, a, available);
      TookCompose(p, p1, p1.(downloading := r2.0), r1.1, r2.1, a, available);
    }
  }

  /** What a sequence of rounds has achieved when it asked for `order` blocks. */
  ghost predicate PickResult(p: Picker, q: Picker, got: seq<PieceBlock>, order: nat, a: Ask, available: seq<bool>) {
    && Inv(q)
    && Took(p, q, got, a, available)
    && |got| <= order
    && (|got| < order ==> NothingFree(q, available))
  }

  lemma PickGoesOn(p: Picker, p2: Picker, next: nat, q: Picker, got: seq<PieceBlock>, rest: seq<PieceBlock>, order: nat,
                   a: Ask, available: seq<bool>)
    requires Inv(p2) && Took(p, p2, got, a, available) && |got| <= order
    requires next < |p2.status| && p2.status[next] == Missing
    requires PickResult(Open(p2, next), q, rest, order - |got|, a, available)
    ensures PickResult(p, q, got + rest, order, a, available)
  {
    OpenKeeps(p2, next);
    assert Took(p2, Open(p2, next), [], a, available);
    TookCompose(p2, Open(p2, next), q, [], rest, a, available);
    assert [] + rest == rest;
    TookCompose(p, p2, q, got, rest, a, available);
  }

  lemma PickStops(p: Picker, p2: Picker, got: seq<PieceBlock>, order: nat, a: Ask, available: seq<bool>)
    requires Inv(p2) && Took(p, p2, got, a, available) && |got| <= order
    requires |got| < order ==> NothingFreeStarted(p2, available) && NextMissing(p2, 0, available) == |p2.status|
    ensures PickResult(p, p2, got, order, a, available)
  {
  }

  /** PickPiecesWithAvailability hands out at most `order` distinct blocks, all of allowed pieces, each free
      or (end game, faster peer, first duplicate) requested once by somebody else; it hands out fewer only
      when no allowed piece has a free block left. */
  lemma {:induction false} PickSound(p: Picker, order: nat, peer: Peer, speed: nat, available: seq<bool>)
    requires Inv(p)
    ensures PickResult(p, Pick(p, order, peer, speed, available).0, Pick(p, order, peer, speed, available).1,
                       order, Ask(peer, speed, speed != SLOW), available)
    decreases CountMissing(p.status)
  {
    var a := Ask(peer, speed, speed != SLOW);
    RoundSound(p, order, peer, speed, available);
    var r := Round(p, order, peer, speed, available);
    var next := NextMissing(r.0, 0, available);
    if |r.1| < order && next < |r.0.status| {
      CountMissingStarts(r.0.status, next);
      OpenKeeps(r.0, next);
      PickSound(Open(r.0, next), order - |r.1|, peer, speed, available);
      var r3 := Pick(Open(r.0, next), order - |r.1|, peer, speed, available);
      PickGoesOn(p, r.0, next, r3.0, r.1, r3.1, order, a, available);
    } else {
      PickStops(p, r.0, r.1, order, a, available);
    }
  }

  /** Free blocks a peer with this availability could be given. */
  function FreeBlocks(p: Picker, available: seq<bool>): set<PieceBlock> {
    set i, j | 0 <= i < |p.status| && 0 <= j < p.Blocks(i) && Allowed(available, i) && p.status[i] != Have
               && BlockAt(p, PieceBlock(i, j)).state == Free :: PieceBlock(i, j)
  }

  lemma {:induction false} NoDupSize(bs: seq<PieceBlock>)
    requires NoDup(bs)
    ensures |set b | b in bs| == |bs|
  {
    if |bs| > 0 {
      var n := |bs| - 1;
      NoDupSize(bs[..n]);
      assert (set b | b in bs) == (set b | b in bs[..n]) + {bs[n]};
    }
  }

  lemma SubsetSize(a: set<PieceBlock>, b: set<PieceBlock>)
    requires a <= b
    ensures |a| <= |b| && (b <= a ==> |a| == |b|)
  {
    assert b == a + (b - a);
  }

  /** A slow peer gets exactly as many blocks as it asked for or as there are free ones, whichever is fewer. */
  lemma SlowPickExact(p: Picker, order: nat, peer: Peer, available: seq<bool>)
    requires Inv(p)
    ensures |Pick(p, order, peer, SLOW, available).1| == Min(order, |FreeBlocks(p, available)|)
  {
    var (q, got) := Pick(p, order, peer, SLOW, available);
    PickSound(p, order, peer, SLOW, available);
    SlowTakesFree(p, q, order, got, peer, available);
  }

  lemma SlowTakesFree(p: Picker, q: Picker, order: nat, got: seq<PieceBlock>, peer: Peer, available: seq<bool>)
    requires Took(p, q, got, Ask(peer, SLOW, false), available) && |got| <= order
    requires |got| < order ==> NothingFree(q, available)
    ensures |got| == Min(order, |FreeBlocks(p, available)|)
  {
    var free := FreeBlocks(p, available);
    var taken := set b | b in got;
    NoDupSize(got);
    forall b | b in got
      ensures b in free
    {
      assert Pickable(BlockAt(p, b), Ask(peer, SLOW, false)) && b == PieceBlock(b.piece, b.block);
    }
    if |got| < order {
      forall b | b in free
        ensures b in taken
      {
        assert BlockAt(q, b) == if b in got then BlockAt(p, b).Request(peer, SLOW) else BlockAt(p, b);
        assert q.Valid(b) && q.status[b.piece] != Have;
      }
    }
    SubsetSize(taken, free);
  }

  // ---------------------------------------------------------------- histories of operations

  datatype Op =
    | PickOp(order: nat, peer: Peer, speed: nat, available: seq<bool>)
    | AbortOp(block: PieceBlock, peer: Peer)
    | WriteOp(block: PieceBlock)
    | FinishOp(block: PieceBlock)
    | HaveOp(piece: nat)
    | RestoreOp(piece: nat)
    | HaveBlockOp(block: PieceBlock)

  /** The operation names a piece and a block of the transfer. */
  predicate Names(p: Picker, op: Op) {
    if op.PickOp? then true
    else if op.HaveOp? || op.RestoreOp? then op.piece < |p.status|
    else p.Valid(op.block)
  }

  function Apply(p: Picker, op: Op): Picker
    requires Inv(p) && Names(p, op)
  {
    match op
    case PickOp(order, peer, speed, available) => Pick(p, order, peer, speed, available).0
    case AbortOp(b, peer) => AbortDownload(p, b, peer)
    case WriteOp(b) => MarkAsWriting(p, b).0
    case FinishOp(b) => MarkAsFinished(p, b)
    case HaveOp(i) => WeHave(p, i)
    case RestoreOp(i) => RestorePiece(p, i)
    case HaveBlockOp(b) => WeHaveBlock(p, b)
  }

  lemma ApplyKeeps(p: Picker, op: Op)
    requires Inv(p) && Names(p, op)
    ensures Inv(Apply(p, op)) && |Apply(p, op).status| == |p.status| && Apply(p, op).blocksInLast == p.blocksInLast
  {
    match op
    case PickOp(order, peer, speed, available) => PickSound(p, order, peer, speed, available);
    case AbortOp(b, peer) => AbortDownloadKeeps(p, b, peer);
    case WriteOp(b) => MarkAsWritingKeeps(p, b);
    case FinishOp(b) => MarkAsFinishedKeeps(p, b);
    case HaveOp(i) => CloseKeeps(p, i, Have);
    case RestoreOp(i) => CloseKeeps(p, i, Missing);
    case HaveBlockOp(b) => WeHaveBlockKeeps(p, b);
  }

  function NewPicker(pieces: nat, blocksInLast: nat): Picker { Picker(seq(pieces, _ => Missing), [], blocksInLast) }

  function Replay(pieces: nat, blocksInLast: nat, ops: seq<Op>): (p: Picker)
    requires 1 <= blocksInLast <= BLOCKS_PER_PIECE
    requires forall k :: 0 <= k < |ops| ==> Names(NewPicker(pieces, blocksInLast), ops[k])
    ensures Inv(p) && |p.status| == pieces && p.blocksInLast == blocksInLast
  {
    if |ops| == 0 then NewPicker(pieces, blocksInLast)
    else
      var p := Replay(pieces, blocksInLast, ops[..|ops| - 1]);
      var op := ops[|ops| - 1];
      var empty := NewPicker(pieces, blocksInLast);
      assert Names(empty, op) && |empty.status| == |p.status| && empty.blocksInLast == p.blocksInLast;
      ApplyKeeps(p, op);
      Apply(p, op)
  }

  /** After any history there is exactly one entry for each piece marked Downloading, none for any other, and
      the downloaders of every block fit its state. */
  lemma HistoryAccounting(pieces: nat, blocksInLast: nat, ops: seq<Op>, i: nat)
    requires 1 <= blocksInLast <= BLOCKS_PER_PIECE && i < pieces
    requires forall k :: 0 <= k < |ops| ==> Names(NewPicker(pieces, blocksInLast), ops[k])
    ensures var p := Replay(pieces, blocksInLast, ops);
            && (p.status[i] == Downloading <==> exists k :: 0 <= k < |p.downloading| && p.downloading[k].index == i)
            && (forall k, m :: 0 <= k < m < |p.downloading| && p.downloading[k].index == i ==>
                p.downloading[m].index != i)
            && forall k, j ::
                 0 <= k < |p.downloading| && p.downloading[k].index == i && 0 <= j < |p.downloading[k].blocks| ==>
                 var b := p.downloading[k].blocks[j];
                 && (b.state == Free ==> b.downloaders == 0)
                 && (b.state == Requested ==> 1 <= b.downloaders <= 2)
                 && (b.state == Writing ==> b.downloaders == 0)
  {
    var p := Replay(pieces, blocksInLast, ops);
    if k :| 0 <= k < |p.downloading| && p.downloading[k].index == i {
      FindUnique(p.downloading, k);
    }
    forall k, j | 0 <= k < |p.downloading| && p.downloading[k].index == i && 0 <= j < |p.downloading[k].blocks|
      ensures p.downloading[k].blocks[j].Consistent()
    {
      assert EntryOk(p, p.downloading[k]);
    }
  }
}
