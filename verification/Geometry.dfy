/** Piece and block geometry: where blocks lie in the file and how byte ranges are cut into
    requests (data/piece_block.go, data/peer_request.go, blocks_enumerator.go, transfer.go). */
module Geometry {
  import opened Wrappers

  const PIECE_SIZE: nat := 9728000
  const BLOCK_SIZE: nat := 190 * 1024
  const BLOCKS_PER_PIECE: nat := 50

  datatype PieceBlock = PieceBlock(piece: nat, block: nat)

  datatype Range = Range(left: int, right: int)

  function Min(a: int, b: int): int {
    if a < b then a else b
  }

  function DivCeil(a: nat, b: nat): nat
    requires b > 0
  {
    (a + b - 1) / b
  }

  function PieceCount(size: nat): nat {
    DivCeil(size, PIECE_SIZE)
  }

  /** A size that is an exact multiple of the piece size gets a single block in its last piece. */
  function BlocksInLastPiece(size: nat): nat {
    var n := DivCeil(size % PIECE_SIZE, BLOCK_SIZE);
    if n == 0 then 1 else n
  }

  function BlocksInPiece(pieceCount: nat, blocksInLast: nat, piece: nat): nat {
    if piece == pieceCount - 1 then blocksInLast else BLOCKS_PER_PIECE
  }

  function BlockCount(size: nat, piece: nat): nat {
    BlocksInPiece(PieceCount(size), BlocksInLastPiece(size), piece)
  }

  function BlockRange(b: PieceBlock, size: nat): Range {
    var begin := b.piece * PIECE_SIZE + b.block * BLOCK_SIZE;
    var normalEnd := b.piece * PIECE_SIZE + (b.block + 1) * BLOCK_SIZE;
    Range(begin, Min(begin + BLOCK_SIZE, Min(normalEnd, size)))
  }

  function BlockSize(b: PieceBlock, size: nat): int {
    BlockRange(b, size).right - BlockRange(b, size).left
  }

  function BlocksOffset(b: PieceBlock): nat {
    b.piece * BLOCKS_PER_PIECE + b.block
  }

  function MakePieceBlock(offset: nat): PieceBlock {
    PieceBlock(offset / PIECE_SIZE, (offset % PIECE_SIZE) / BLOCK_SIZE)
  }

  /** Bytes of a piece (Transfer.pieceSize). */
  function PieceSize(size: nat, piece: nat): nat {
    var begin := piece * PIECE_SIZE;
    if begin >= size then 0 else Min(begin + PIECE_SIZE, size) - begin
  }

  /** The blocks the download ever asks for. */
  predicate ValidBlock(size: nat, b: PieceBlock) {
    b.piece < PieceCount(size) && b.block < BlockCount(size, b.piece)
  }

  predicate Covers(b: PieceBlock, size: nat, offset: int) {
    BlockRange(b, size).left <= offset < BlockRange(b, size).right
  }

  /** True of every piece except the last one of a file whose size is a multiple of the piece size. */
  predicate FullyBlocked(size: nat, piece: nat) {
    size % PIECE_SIZE != 0 || piece + 1 < PieceCount(size)
  }

  lemma PieceCountBounds(size: nat)
    ensures (PieceCount(size) - 1) * PIECE_SIZE < size <= PieceCount(size) * PIECE_SIZE || size == 0 == PieceCount(size)
    ensures size % PIECE_SIZE != 0 ==> PieceCount(size) == size / PIECE_SIZE + 1
    ensures size % PIECE_SIZE == 0 ==> PieceCount(size) == size / PIECE_SIZE
  {
  }

  lemma LastPieceBounds(size: nat)
    ensures 1 <= BlocksInLastPiece(size) <= BLOCKS_PER_PIECE
    ensures size % PIECE_SIZE != 0 ==>
              (BlocksInLastPiece(size) - 1) * BLOCK_SIZE < size % PIECE_SIZE <= BlocksInLastPiece(size) * BLOCK_SIZE
    ensures size % PIECE_SIZE == 0 ==> BlocksInLastPiece(size) == 1
  {
  }

  /** Every enumerated block is non-empty, no longer than a block, and inside both its piece and the file;
      its length is short only at the end of the file. */
  lemma BlockInPiece(size: nat, b: PieceBlock)
    requires ValidBlock(size, b)
    ensures 0 < BlockSize(b, size) <= BLOCK_SIZE
    ensures b.piece * PIECE_SIZE <= BlockRange(b, size).left
    ensures BlockRange(b, size).right <= Min((b.piece + 1) * PIECE_SIZE, size)
    ensures BlockSize(b, size) < BLOCK_SIZE ==> BlockRange(b, size).right == size
  {
    PieceCountBounds(size);
    LastPieceBounds(size);
  }

  /** Inside a piece the blocks follow each other without gap, starting at the piece's first byte;
      the last one ends where the piece ends, unless the last piece is cut short. */
  lemma BlocksAdjacent(size: nat, piece: nat, j: nat)
    requires ValidBlock(size, PieceBlock(piece, j))
    ensures BlockRange(PieceBlock(piece, 0), size).left == piece * PIECE_SIZE
    ensures j + 1 < BlockCount(size, piece) ==>
              BlockRange(PieceBlock(piece, j), size).right == BlockRange(PieceBlock(piece, j + 1), size).left
    ensures j + 1 == BlockCount(size, piece) ==>
              (BlockRange(PieceBlock(piece, j), size).right == piece * PIECE_SIZE + PieceSize(size, piece)
               <==> FullyBlocked(size, piece))
  {
    PieceCountBounds(size);
    LastPieceBounds(size);
  }

  /** Different blocks never share a byte. */
  lemma BlocksDisjoint(size: nat, a: PieceBlock, b: PieceBlock, offset: int)
    requires ValidBlock(size, a) && ValidBlock(size, b)
    requires Covers(a, size, offset) && Covers(b, size, offset)
    ensures a == b
  {
    BlockInPiece(size, a);
    BlockInPiece(size, b);
  }

  /** The block that MakePieceBlock names is the only one that can hold the offset. */
  lemma BlockOfOffset(size: nat, offset: nat)
    requires offset < size
    ensures Covers(MakePieceBlock(offset), size, offset)
    ensures MakePieceBlock(offset).piece < PieceCount(size)
    ensures MakePieceBlock(offset).block < BLOCKS_PER_PIECE
    ensures FullyBlocked(size, offset / PIECE_SIZE) ==> ValidBlock(size, MakePieceBlock(offset))
  {
    PieceCountBounds(size);
    LastPieceBounds(size);
  }

  ghost predicate Covered(size: nat, offset: nat) {
    exists b :: ValidBlock(size, b) && Covers(b, size, offset)
  }

  ghost predicate Tiled(size: nat) {
    forall offset: nat :: offset < size ==> Covered(size, offset)
  }

  /** The enumerated blocks cover the whole file exactly when its size is not a positive multiple
      of the piece size. */
  lemma TilingCondition(size: nat)
    ensures Tiled(size) <==> size == 0 || size % PIECE_SIZE != 0
  {
    if size == 0 || size % PIECE_SIZE != 0 {
      forall offset: nat | offset < size
        ensures Covered(size, offset)
      {
        BlockOfOffset(size, offset);
        assert ValidBlock(size, MakePieceBlock(offset)) && Covers(MakePieceBlock(offset), size, offset);
      }
    } else {
      PieceCountBounds(size);
      LastPieceBounds(size);
      forall b | ValidBlock(size, b)
        ensures !Covers(b, size, size - 1)
      {
        BlockInPiece(size, b);
      }
      assert !Covered(size, size - 1);
    }
  }

  function SumBlockSizes(size: nat, piece: nat, n: nat): int {
    if n == 0 then 0 else SumBlockSizes(size, piece, n - 1) + BlockSize(PieceBlock(piece, n - 1), size)
  }

  lemma {:induction false} BlocksSumToOffset(size: nat, piece: nat, n: nat)
    requires piece < PieceCount(size) && 0 < n <= BlockCount(size, piece)
    ensures SumBlockSizes(size, piece, n) == BlockRange(PieceBlock(piece, n - 1), size).right - piece * PIECE_SIZE
  {
    BlocksAdjacent(size, piece, n - 1);
    if n > 1 {
      BlocksAdjacent(size, piece, n - 2);
      BlocksSumToOffset(size, piece, n - 1);
    }
  }

  /** The blocks of a piece hold at most its bytes, and exactly its bytes unless it is cut short. */
  lemma BlocksSumToPiece(size: nat, piece: nat)
    requires piece < PieceCount(size)
    ensures SumBlockSizes(size, piece, BlockCount(size, piece)) <= PieceSize(size, piece)
    ensures SumBlockSizes(size, piece, BlockCount(size, piece)) == PieceSize(size, piece) <==> FullyBlocked(size, piece)
  {
    LastPieceBounds(size);
    PieceCountBounds(size);
    var n := BlockCount(size, piece);
    BlocksSumToOffset(size, piece, n);
    BlocksAdjacent(size, piece, n - 1);
    BlockInPiece(size, PieceBlock(piece, n - 1));
  }

  // ---------------------------------------------------------------- peer requests

  datatype PeerRequest = PeerRequest(piece: nat, start: nat, length: nat) {
    function ToRange(): Range {
      Range(piece * PIECE_SIZE + start, piece * PIECE_SIZE + start + length)
    }
  }

  function MakePeerRequest(begin: int, end: int): Result<PeerRequest> {
    if end <= begin || begin < 0 then Err
    else if end - begin > PIECE_SIZE then Err
    else Ok(PeerRequest(begin / PIECE_SIZE, begin % PIECE_SIZE, end - begin))
  }

  /** The requests cover [begin, end) from left to right without gap or overlap, each inside one piece. */
  predicate CutsRange(reqs: seq<PeerRequest>, begin: int, end: int) {
    if |reqs| == 0 then begin >= end
    else
      var last := reqs[|reqs| - 1];
      && begin < end
      && last.length > 0
      && last.start + last.length <= PIECE_SIZE
      && last.ToRange().right == end
      && (if |reqs| == 1 then last.ToRange().left == begin
          else CutsRange(reqs[..|reqs| - 1], begin, last.ToRange().left))
  }

  /** Cutting fails only for a negative, non-empty range. */
  method MakePeerRequests(begin: int, end: int, fsize: nat) returns (r: Result<seq<PeerRequest>>)
    ensures r.Err? <==> begin < 0 && begin < Min(end, fsize)
    ensures r.Ok? ==> CutsRange(r.value, Min(begin, fsize), Min(end, fsize))
  {
    var b, e := Min(begin, fsize), Min(end, fsize);
    var reqs: seq<PeerRequest> := [];
    var i := b;
    while i < e
      invariant b <= i && (i <= e || i == b)
      invariant |reqs| == 0 ==> i == b
      invariant |reqs| > 0 ==> 0 <= b && CutsRange(reqs, b, i)
    {
      if i < 0 {
        // the remainder of a negative offset is negative too, so the cut still starts at i and is refused
        assert MakePeerRequest(i, e).Err?;
        return Err;
      }
      var next := i + PIECE_SIZE - i % PIECE_SIZE;
      if next > e {
        next := e;
      }
      var pr := MakePeerRequest(i, next);
      assert pr.Ok? && pr.value.ToRange() == Range(i, next);
      ghost var before := reqs;
      reqs := reqs + [pr.value];
      assert reqs[..|reqs| - 1] == before;
      i := i + pr.value.length;
    }
    return Ok(reqs);
  }

  predicate AllPieces(reqs: seq<PeerRequest>, have: nat -> bool) {
    forall k :: 0 <= k < |reqs| ==> have(reqs[k].piece)
  }

  /** Asking every request's piece is asking the piece of every byte of the range. */
  lemma {:induction false} RequestsTouchAllPieces(reqs: seq<PeerRequest>, begin: nat, end: int, have: nat -> bool)
    requires CutsRange(reqs, begin, end)
    ensures AllPieces(reqs, have) <==> forall x: nat :: begin <= x < end ==> have(x / PIECE_SIZE)
    decreases |reqs|
  {
    if |reqs| > 0 {
      var k := |reqs| - 1;
      var last := reqs[k];
      var left := last.ToRange().left;
      if |reqs| > 1 {
        RequestsTouchAllPieces(reqs[..k], begin, left, have);
      }
      forall x: nat | left <= x < end
        ensures x / PIECE_SIZE == last.piece
      {
      }
      assert left / PIECE_SIZE == last.piece;
      assert have(last.piece) <==> forall x: nat :: left <= x < end ==> have(x / PIECE_SIZE);
      assert AllPieces(reqs, have) <==> have(last.piece) && AllPieces(reqs[..k], have);
      assert begin <= left;
    }
  }
}
