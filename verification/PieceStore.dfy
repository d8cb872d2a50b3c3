/** Blocks on their way to the file and to the piece hash: BlockManager puts blocks that arrive out of
    order back into order for hashing, PieceManager keeps one BlockManager per open piece and writes the
    file (block_manager.go, piece_manager.go). */
module PieceStore {
  import opened Wrappers
  import opened Geometry

  type Bytes = seq<bv8>
  type Hash = seq<bv8>

  // ---------------------------------------------------------------- BlockManager as a value

  datatype BlockMgr = BlockMgr(lastHashed: int, buffers: seq<Option<Bytes>>, hashed: Bytes)

  function NewBlockMgr(n: nat): BlockMgr {
    BlockMgr(-1, seq(n, _ => None), [])
  }

  /** Hash and free the contiguous buffers from i on. */
  function Flush(m: BlockMgr, i: nat): (BlockMgr, seq<Bytes>)
    decreases |m.buffers| - i
  {
    if i >= |m.buffers| || m.buffers[i].None? then (m, [])
    else
      var b := m.buffers[i].value;
      var r := Flush(BlockMgr(m.lastHashed + 1, m.buffers[i := None], m.hashed + b), i + 1);
      (r.0, [b] + r.1)
  }

  function Register(m: BlockMgr, i: nat, buffer: Bytes): (BlockMgr, seq<Bytes>)
    requires i < |m.buffers|
  {
    var m1 := m.(buffers := m.buffers[i := Some(buffer)]);
    if m.lastHashed + 1 == i then Flush(m1, i) else (m1, [])
  }

  function Concat(got: map<nat, Bytes>, k: nat): Bytes
    requires forall i: nat :: i < k ==> i in got
  {
    if k == 0 then [] else Concat(got, k - 1) + got[k - 1]
  }

  /** The manager after exactly the blocks of `got` were registered, each once, in whatever order:
      everything before the first missing block is hashed and released, the rest waits in its slot. */
  ghost predicate Holds(m: BlockMgr, got: map<nat, Bytes>) {
    && m.lastHashed >= -1
    && var k: nat := m.lastHashed + 1;
    && k <= |m.buffers|
    && (forall i: nat :: i < k ==> i in got)
    && (k < |m.buffers| ==> k !in got)
    && (forall i {:trigger i in got} :: i in got ==> i < |m.buffers|)
    && (forall i {:trigger m.buffers[i]} :: 0 <= i < |m.buffers| ==>
        m.buffers[i] == if i >= k && i in got then Some(got[i]) else None)
    && m.hashed == Concat(got, k)
  }

  lemma {:induction false} ConcatSame(a: map<nat, Bytes>, b: map<nat, Bytes>, k: nat)
    requires forall i: nat :: i < k ==> i in a && i in b && a[i] == b[i]
    ensures Concat(a, k) == Concat(b, k)
  {
    if k > 0 {
      ConcatSame(a, b, k - 1);
    }
  }

  /** The blocks of `got` from k to (not including) j, in order. */
  function Buffers(got: map<nat, Bytes>, k: nat, j: nat): seq<Bytes>
    requires forall i: nat :: k <= i < j ==> i in got
    decreases j - k
  {
    if k >= j then [] else [got[k]] + Buffers(got, k + 1, j)
  }

  /** Midway through a flush at i: blocks before i are hashed, the slots from i on still hold theirs. */
  lemma {:induction false} FlushHolds(m: BlockMgr, i: nat, got: map<nat, Bytes>)
    requires i <= |m.buffers| && m.lastHashed + 1 == i
    requires forall j: nat :: j < i ==> j in got
    requires forall j {:trigger j in got} :: j in got ==> j < |m.buffers|
    requires forall j {:trigger m.buffers[j]} :: 0 <= j < |m.buffers| ==>
             m.buffers[j] == if j >= i && j in got then Some(got[j]) else None
    requires m.hashed == Concat(got, i)
    ensures Holds(Flush(m, i).0, got) && |Flush(m, i).0.buffers| == |m.buffers|
    ensures var k := Flush(m, i).0.lastHashed + 1; i <= k && Flush(m, i).1 == Buffers(got, i, k)
    decreases |m.buffers| - i
  {
    if i < |m.buffers| && m.buffers[i].Some? {
      FlushHolds(BlockMgr(m.lastHashed + 1, m.buffers[i := None], m.hashed + m.buffers[i].value), i + 1, got);
    }
  }

  /** Registering a block that was not registered yet keeps the manager in order, and releases exactly
      the buffers that became hashed. */
  lemma RegisterHolds(m: BlockMgr, got: map<nat, Bytes>, i: nat, buffer: Bytes)
    requires Holds(m, got) && i < |m.buffers| && i !in got
    ensures Holds(Register(m, i, buffer).0, got[i := buffer])
    ensures |Register(m, i, buffer).0.buffers| == |m.buffers|
    ensures var k, k' := m.lastHashed + 1, Register(m, i, buffer).0.lastHashed + 1;
            k <= k' && Register(m, i, buffer).1 == Buffers(got[i := buffer], k, k')
  {
    var k := m.lastHashed + 1;
    var got' := got[i := buffer];
    ConcatSame(got, got', k);
    if k == i {
      FlushHolds(m.(buffers := m.buffers[i := Some(buffer)]), i, got');
    }
  }

  datatype Arrival = Arrival(block: nat, buffer: Bytes)

  function RegisterAll(m: BlockMgr, arrivals: seq<Arrival>): (BlockMgr, seq<Bytes>)
    requires forall k :: 0 <= k < |arrivals| ==> arrivals[k].block < |m.buffers|
    ensures |RegisterAll(m, arrivals).0.buffers| == |m.buffers|
  {
    if |arrivals| == 0 then (m, [])
    else
      var n := |arrivals| - 1;
      var r := RegisterAll(m, arrivals[..n]);
      RegisterSize(r.0, arrivals[n].block, arrivals[n].buffer);
      var s := Register(r.0, arrivals[n].block, arrivals[n].buffer);
      (s.0, r.1 + s.1)
  }

  lemma FlushSize(m: BlockMgr, i: nat)
    ensures |Flush(m, i).0.buffers| == |m.buffers|
    decreases |m.buffers| - i
  {
  }

  lemma RegisterSize(m: BlockMgr, i: nat, buffer: Bytes)
    requires i < |m.buffers|
    ensures |Register(m, i, buffer).0.buffers| == |m.buffers|
  {
    FlushSize(m.(buffers := m.buffers[i := Some(buffer)]), i);
  }

  function Content(arrivals: seq<Arrival>): map<nat, Bytes> {
    if |arrivals| == 0 then map[]
      else Content(arrivals[..|arrivals| - 1])[arrivals[|arrivals| - 1].block := arrivals[|arrivals| - 1].buffer]
  }

  ghost predicate OncePerBlock(arrivals: seq<Arrival>) {
    forall i, j :: 0 <= i < j < |arrivals| ==> arrivals[i].block != arrivals[j].block
  }

  lemma {:induction false} ContentKeys(arrivals: seq<Arrival>)
    ensures forall b :: b in Content(arrivals) <==> exists k :: 0 <= k < |arrivals| && arrivals[k].block == b
  {
    if |arrivals| > 0 {
      var n := |arrivals| - 1;
      ContentKeys(arrivals[..n]);
      forall b
        ensures b in Content(arrivals) <==> exists k :: 0 <= k < |arrivals| && arrivals[k].block == b
      {
        if b in Content(arrivals[..n]) {
          var k :| 0 <= k < n && arrivals[..n][k].block == b;
          assert arrivals[k].block == b;
        }
        if k :| 0 <= k < |arrivals| && arrivals[k].block == b {
          assert k < n ==> arrivals[..n][k].block == b;
        }
      }
    }
  }

  lemma BuffersJoin(got: map<nat, Bytes>, k: nat, j: nat, l: nat)
    requires k <= j <= l && forall i: nat :: k <= i < l ==> i in got
    ensures Buffers(got, k, l) == Buffers(got, k, j) + Buffers(got, j, l)
    decreases j - k
  {
  }

  lemma {:induction false} BuffersSame(a: map<nat, Bytes>, b: map<nat, Bytes>, k: nat, j: nat)
    requires forall i: nat :: k <= i < j ==> i in a && i in b && a[i] == b[i]
    ensures Buffers(a, k, j) == Buffers(b, k, j)
    decreases j - k
  {
    if k < j {
      BuffersSame(a, b, k + 1, j);
    }
  }

  lemma RegisterNext(m: BlockMgr, freed: seq<Bytes>, got: map<nat, Bytes>, i: nat, buffer: Bytes)
    requires Holds(m, got) && i < |m.buffers| && i !in got && freed == Buffers(got, 0, m.lastHashed + 1)
    ensures var r := Register(m, i, buffer);
            Holds(r.0, got[i := buffer]) && |r.0.buffers| == |m.buffers|
              && freed + r.1 == Buffers(got[i := buffer], 0, r.0.lastHashed + 1)
  {
    var got', m' := got[i := buffer], Register(m, i, buffer).0;
    RegisterHolds(m, got, i, buffer);
    BuffersSame(got, got', 0, m.lastHashed + 1);
    BuffersJoin(got', 0, m.lastHashed + 1, m'.lastHashed + 1);
  }

  lemma NotYet(arrivals: seq<Arrival>, n: nat)
    requires OncePerBlock(arrivals) && n < |arrivals|
    ensures arrivals[n].block !in Content(arrivals[..n])
  {
    ContentKeys(arrivals[..n]);
  }

  lemma {:induction false} RegisterAllHolds(n: nat, arrivals: seq<Arrival>)
    requires OncePerBlock(arrivals) && forall k :: 0 <= k < |arrivals| ==> arrivals[k].block < n
    ensures var (m, freed) := RegisterAll(NewBlockMgr(n), arrivals);
            && Holds(m, Content(arrivals)) && |m.buffers| == n
            && freed == Buffers(Content(arrivals), 0, m.lastHashed + 1)
  {
    if |arrivals| > 0 {
      var l := |arrivals| - 1;
      RegisterAllHolds(n, arrivals[..l]);
      NotYet(arrivals, l);
      var r := RegisterAll(NewBlockMgr(n), arrivals[..l]);
      RegisterNext(r.0, r.1, Content(arrivals[..l]), arrivals[l].block, arrivals[l].buffer);
    }
  }

  /** Registering every block of a piece once, in any order, hashes the blocks in index order, releases
      each buffer exactly once (in index order too) and leaves no slot occupied. */
  lemma AnyOrderHashesInOrder(n: nat, arrivals: seq<Arrival>)
    requires OncePerBlock(arrivals) && |arrivals| == n
    requires forall k :: 0 <= k < n ==> arrivals[k].block < n
    ensures forall i: nat :: i < n ==> i in Content(arrivals)
    ensures var (m, freed) := RegisterAll(NewBlockMgr(n), arrivals);
            && m.hashed == Concat(Content(arrivals), n)
            && freed == Buffers(Content(arrivals), 0, n)
            && forall i :: 0 <= i < n ==> m.buffers[i] == None
  {
    RegisterAllHolds(n, arrivals);
    ContentKeys(arrivals);
    AllArrive(n, arrivals);
  }

  lemma AllArrive(n: nat, arrivals: seq<Arrival>)
    requires OncePerBlock(arrivals) && |arrivals| == n
    requires forall k :: 0 <= k < n ==> arrivals[k].block < n
    ensures forall i: nat :: i < n ==> i in Content(arrivals)
  {
    ContentKeys(arrivals);
    var blocks := set k | 0 <= k < |arrivals| :: arrivals[k].block;
    BlockSetSize(arrivals);
    var all := Upto(n);
    assert blocks <= all;
    if i: nat :| i < n && i !in blocks {
      assert blocks <= all - {i};
      SubsetCard(blocks, all - {i});
      assert false;
    }
    forall i: nat | i < n
      ensures i in Content(arrivals)
    {
      assert i in blocks;
    }
  }

  lemma SubsetCard(a: set<int>, b: set<int>)
    requires a <= b
    ensures |a| <= |b|
  {
    assert b == a + (b - a);
  }

  function Upto(n: nat): (s: set<int>)
    ensures forall i :: i in s <==> 0 <= i < n
    ensures |s| == n
  {
    if n == 0 then {} else Upto(n - 1) + {n - 1}
  }

  lemma {:induction false} BlockSetSize(arrivals: seq<Arrival>)
    requires OncePerBlock(arrivals)
    ensures |set k | 0 <= k < |arrivals| :: arrivals[k].block| == |arrivals|
  {
    if |arrivals| > 0 {
      var n := |arrivals| - 1;
      BlockSetSize(arrivals[..n]);
      var shorter := set k | 0 <= k < n :: arrivals[..n][k].block;
      assert shorter == set k | 0 <= k < n :: arrivals[k].block;
      assert (set k | 0 <= k < |arrivals| :: arrivals[k].block) == shorter + {arrivals[n].block};
    }
  }

  // ---------------------------------------------------------------- the file

  /** Writing past the end of a file fills the gap with zeros. */
  function WriteAt(file: Bytes, offset: nat, data: Bytes): (r: Bytes)
    ensures |r| == if offset + |data| > |file| then offset + |data| else |file|
    ensures forall i {:trigger r[i]} :: 0 <= i < |r| ==>
              r[i] == if offset <= i < offset + |data| then data[i - offset] else if i < |file| then file[i] else 0
  {
    var n := if offset + |data| > |file| then offset + |data| else |file|;
    seq(n, i requires 0 <= i < n => if offset <= i < offset + |data| then data[i - offset]
        else if i < |file| then file[i] else 0)
  }

  datatype Store = Store(file: Bytes, mgrs: map<nat, BlockMgr>)

  function Offset(b: PieceBlock): nat { BlocksOffset(b) * BLOCK_SIZE }

  function Manager(st: Store, size: nat, piece: nat): BlockMgr {
    if piece in st.mgrs then st.mgrs[piece] else NewBlockMgr(BlockCount(size, piece))
  }

  function RegisterIn(st: Store, size: nat, b: PieceBlock, buffer: Bytes): (Store, seq<Bytes>)
    requires b.block < |Manager(st, size, b.piece).buffers|
  {
    var r := Register(Manager(st, size, b.piece), b.block, buffer);
    (st.(mgrs := st.mgrs[b.piece := r.0]), r.1)
  }

  function StoreBlock(st: Store, size: nat, b: PieceBlock, buffer: Bytes): (Store, seq<Bytes>)
    requires b.block < |Manager(st, size, b.piece).buffers|
  {
    RegisterIn(st.(file := WriteAt(st.file, Offset(b), buffer)), size, b, buffer)
  }

  function TakeHash(st: Store, size: nat, piece: nat, md4: Bytes -> Hash): (Store, Hash) {
    (st.(mgrs := st.mgrs - {piece}), md4(Manager(st, size, piece).hashed))
  }

  // ---------------------------------------------------------------- the source's form

  class BlockManager {
    const piece: nat
    const md4: Bytes -> Hash
    var lastHashedBlock: int
    var buffers: seq<Option<Bytes>>
    var hashed: Bytes
    var pieceHash: Option<Hash>

    ghost function State(): BlockMgr
      reads this
    {
      BlockMgr(lastHashedBlock, buffers, hashed)
    }

    constructor (piece: nat, buffersCount: nat, md4: Bytes -> Hash)
      ensures this.piece == piece && this.md4 == md4 && pieceHash == None
      ensures State() == NewBlockMgr(buffersCount)
    {
      this.piece, this.md4 := piece, md4;
      lastHashedBlock, buffers, hashed, pieceHash := -1, seq(buffersCount, _ => None), [], None;
    }

    method RegisterBlock(blockIndex: nat, buffer: Bytes) returns (freeBuffers: seq<Bytes>)
      requires blockIndex < |buffers|
      modifies this
      ensures (State(), freeBuffers) == Register(old(State()), blockIndex, buffer) && pieceHash == old(pieceHash)
    {
      freeBuffers := [];
      buffers := buffers[blockIndex := Some(buffer)];
      ghost var m1 := State();
      if lastHashedBlock + 1 == blockIndex {
        var i := blockIndex;
        while i < |buffers|
          invariant |buffers| == |m1.buffers| && i <= |buffers| && pieceHash == old(pieceHash)
          invariant Flush(m1, blockIndex).0 == Flush(State(), i).0
          invariant Flush(m1, blockIndex).1 == freeBuffers + Flush(State(), i).1
        {
          if buffers[i] == None {
            break;
          }
          lastHashedBlock := lastHashedBlock + 1;
          hashed := hashed + buffers[i].value;
          freeBuffers := freeBuffers + [buffers[i].value];
          buffers := buffers[i := None];
          i := i + 1;
        }
        assert freeBuffers + [] == freeBuffers;
      }
    }

    method PieceHash() returns (h: Hash)
      modifies this`pieceHash
      ensures h == if old(pieceHash).Some? then old(pieceHash).value else md4(hashed)
      ensures pieceHash == Some(h)
    {
      if pieceHash == None {
        pieceHash := Some(md4(hashed));
      }
      h := pieceHash.value;
    }
  }

  datatype Io = Works | NoFile | SeekFails | WriteFails(written: nat)

  /** `managers` is what the list of block managers stands for: one open manager per piece. */
  class PieceManager {
    const size: nat
    const md4: Bytes -> Hash
    var file: Bytes
    var blockMgrs: seq<BlockManager>
    ghost var managers: map<nat, BlockMgr>

    ghost function State(): Store
      reads this
    {
      Store(file, managers)
    }

    ghost predicate Listed(m: BlockManager)
      reads this`managers, m
    {
      && m.md4 == md4 && m.pieceHash == None
      && m.piece in managers && managers[m.piece] == m.State()
      && |m.buffers| == BlockCount(size, m.piece)
    }

    ghost predicate Served(p: nat)
      reads this`blockMgrs
    {
      exists i :: 0 <= i < |blockMgrs| && blockMgrs[i].piece == p
    }

    /** One manager per piece, and every one of them except possibly `m` is as recorded. */
    ghost predicate ValidBut(m: BlockManager?)
      reads this`blockMgrs, this`managers, blockMgrs
    {
      && (forall i, j :: 0 <= i < j < |blockMgrs| ==> blockMgrs[i].piece != blockMgrs[j].piece)
      && (forall i {:trigger blockMgrs[i]} :: 0 <= i < |blockMgrs| && blockMgrs[i] != m ==> Listed(blockMgrs[i]))
      && (forall p {:trigger Served(p)} :: p in managers ==> Served(p))
    }

    ghost predicate Valid()
      reads this`blockMgrs, this`managers, blockMgrs
    {
      ValidBut(null)
    }

    constructor (size: nat, md4: Bytes -> Hash, file: Bytes)
      ensures Valid() && blockMgrs == [] && State() == Store(file, map[]) && this.size == size && this.md4 == md4
    {
      this.size, this.md4, this.file := size, md4, file;
      blockMgrs, managers := [], map[];
    }

    method IndexOf(piece: nat) returns (i: nat)
      ensures i <= |blockMgrs|
      ensures i < |blockMgrs| ==> blockMgrs[i].piece == piece
      ensures forall j :: 0 <= j < i ==> blockMgrs[j].piece != piece
    {
      i := 0;
      while i < |blockMgrs| && blockMgrs[i].piece != piece
        invariant i <= |blockMgrs|
        invariant forall j :: 0 <= j < i ==> blockMgrs[j].piece != piece
      {
        i := i + 1;
      }
    }

    method GetBlockManager(piece: nat) returns (mgr: BlockManager)
      requires Valid()
      modifies this`blockMgrs, this`managers
      ensures Valid() && mgr in blockMgrs && mgr.piece == piece
      ensures mgr.State() == Manager(old(State()), size, piece)
      ensures managers == old(managers)[piece := Manager(old(State()), size, piece)]
      ensures forall m :: m in blockMgrs ==> m in old(blockMgrs) || fresh(m)
    {
      var i := IndexOf(piece);
      if i < |blockMgrs| {
        mgr := blockMgrs[i];
        assert Listed(mgr);
        assert managers == managers[piece := Manager(State(), size, piece)];
        return;
      }
      assert !Served(piece);
      mgr := new BlockManager(piece, BlocksInPiece(PieceCount(size), BlocksInLastPiece(size), piece), md4);
      blockMgrs := blockMgrs + [mgr];
      managers := managers[piece := mgr.State()];
      forall p | p in managers
        ensures Served(p)
      {
        if p in old(managers) {
          assert old(Served(p));
          var i :| 0 <= i < |old(blockMgrs)| && old(blockMgrs)[i].piece == p;
          assert blockMgrs[i].piece == p;
        } else {
          assert blockMgrs[|blockMgrs| - 1] == mgr;
        }
      }
    }

    /** Register with a manager of the list. */
    method RegisterWith(mgr: BlockManager, i: nat, buffer: Bytes) returns (freed: seq<Bytes>)
      requires Valid() && mgr in blockMgrs && i < |mgr.buffers|
      modifies this`managers, mgr
      ensures Valid() && (mgr.State(), freed) == Register(old(mgr.State()), i, buffer)
      ensures managers == old(managers)[mgr.piece := mgr.State()]
    {
      RegisterSize(mgr.State(), i, buffer);
      freed := mgr.RegisterBlock(i, buffer);
      managers := managers[mgr.piece := mgr.State()];
      forall j | 0 <= j < |blockMgrs|
        ensures Listed(blockMgrs[j])
      {
        assert old(Listed(blockMgrs[j]));
        assert blockMgrs[j] != mgr ==> blockMgrs[j].piece != mgr.piece;
      }
      assert old(Listed(mgr));
      forall p | p in managers
        ensures Served(p)
      {
        assert old(Served(p));
      }
    }

    method RegisterBlock(b: PieceBlock, buffer: Bytes) returns (freed: seq<Bytes>)
      requires Valid() && b.block < BlockCount(size, b.piece)
      modifies this`blockMgrs, this`managers, blockMgrs
      ensures Valid() && b.block < |Manager(old(State()), size, b.piece).buffers|
      ensures (State(), freed) == RegisterIn(old(State()), size, b, buffer)
      ensures forall m :: m in blockMgrs ==> m in old(blockMgrs) || fresh(m)
    {
      var mgr := GetBlockManager(b.piece);
      assert Listed(mgr);
      freed := RegisterWith(mgr, b.block, buffer);
      assert managers == old(managers)[b.piece := mgr.State()];
    }

    /** A failed seek or write closes the file and registers nothing; a failed write may have written a prefix. */
    method WriteBlock(b: PieceBlock, buffer: Bytes, io: Io) returns (r: Result<seq<Bytes>>)
      requires Valid() && ValidBlock(size, b)
      modifies this, blockMgrs
      ensures Valid()
      ensures r.Ok? <==> io == Works
      ensures r.Ok? ==> b.block < |Manager(old(State()), size, b.piece).buffers|
                        && (State(), r.value) == StoreBlock(old(State()), size, b, buffer)
      ensures r.Err? ==> managers == old(managers) && |file| >= |old(file)|
                         && forall i :: 0 <= i < |old(file)| && !(Offset(b) <= i < Offset(b) + |buffer|) ==>
                            file[i] == old(file)[i]
    {
      match io {
        case NoFile =>
          return Err;
        case SeekFails =>
          return Err;
        case WriteFails(n) =>
          file := WriteAt(file, BlocksOffset(b) * BLOCK_SIZE, if n < |buffer| then buffer[..n] else buffer);
          return Err;
        case Works =>
          file := WriteAt(file, BlocksOffset(b) * BLOCK_SIZE, buffer);
          var freed := RegisterBlock(b, buffer);
          return Ok(freed);
      }
    }

    /** Reads a block back from the file and registers it; a short file is an error. */
    method RestoreBlock(b: PieceBlock) returns (r: Result<(seq<Bytes>, Bytes)>)
      requires Valid() && ValidBlock(size, b)
      modifies this, blockMgrs
      ensures Valid() && file == old(file)
      ensures r.Ok? <==> Offset(b) + BlockSize(b, size) <= |file|
      ensures r.Ok? ==> var data := file[Offset(b)..Offset(b) + BlockSize(b, size)];
                        && r.value.1 == data && b.block < |Manager(old(State()), size, b.piece).buffers|
                        && (State(), r.value.0) == RegisterIn(old(State()), size, b, data)
      ensures r.Err? ==> State() == old(State())
    {
      var buffer := ReadBlock(b);
      if buffer.Err? {
        return Err;
      }
      var freed := RegisterBlock(b, buffer.value);
      return Ok((freed, buffer.value));
    }

    method ReadBlock(b: PieceBlock) returns (r: Result<Bytes>)
      requires ValidBlock(size, b)
      ensures BlockSize(b, size) > 0
      ensures r == if Offset(b) + BlockSize(b, size) <= |file| then Ok(file[Offset(b)..Offset(b) + BlockSize(b, size)])
              else Err
    {
      BlockInPiece(size, b);
      var offset := BlocksOffset(b) * BLOCK_SIZE;
      if offset + BlockSize(b, size) > |file| {
        return Err;
      }
      return Ok(file[offset..offset + BlockSize(b, size)]);
    }

    /** Take entry i out of the list. */
    method Remove(i: nat)
      requires i < |blockMgrs| && ValidBut(blockMgrs[i])
      modifies this`blockMgrs, this`managers
      ensures Valid() && managers == old(managers) - {old(blockMgrs[i].piece)}
    {
      ghost var listed := blockMgrs;
      blockMgrs := blockMgrs[..i] + blockMgrs[i + 1..];
      managers := managers - {listed[i].piece};
      assert forall j :: 0 <= j < |blockMgrs| ==> blockMgrs[j] == listed[if j < i then j else j + 1];
      forall j | 0 <= j < |blockMgrs|
        ensures Listed(blockMgrs[j])
      {
        assert old(Listed(listed[if j < i then j else j + 1]));
      }
      forall p | p in managers
        ensures Served(p)
      {
        assert old(Served(p));
        var l :| 0 <= l < |listed| && listed[l].piece == p;
        assert blockMgrs[if l < i then l else l - 1].piece == p;
      }
    }

    method HashPiece(piece: nat) returns (h: Hash)
      requires Valid()
      modifies this, blockMgrs
      ensures Valid() && (State(), h) == TakeHash(old(State()), size, piece, md4)
    {
      var mgr := GetBlockManager(piece);
      assert Listed(mgr);
      label before:
      h := mgr.PieceHash();
      forall j | 0 <= j < |blockMgrs| && blockMgrs[j] != mgr
        ensures Listed(blockMgrs[j])
      {
        assert old@before(Listed(blockMgrs[j]));
      }
      forall p | p in managers
        ensures Served(p)
      {
        assert old@before(Served(p));
      }
      var i := IndexOf(piece);
      Remove(i);
      assert managers == old(managers) - {piece};
    }
  }
}
