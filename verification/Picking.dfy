/** Exactly which blocks a peer is given: how many, in which order, and when it is given blocks that somebody else has
    requested (piece_picker.go, downloading_piece.go). */
module Picking {
  import opened Geometry
  import opened Scheduler = BlockScheduler

  // ---------------------------------------------------------------- end game

  function Where(status: seq<PieceState>, s: PieceState): set<nat> { set i: nat | i < |status| && status[i] == s }

  lemma {:induction false} NumHaveSize(status: seq<PieceState>)
    ensures NumHave(status) == |Where(status, Have)|
  {
    if |status| > 0 {
      var n := |status| - 1;
      NumHaveSize(status[..n]);
      assert Where(status, Have) == Where(status[..n], Have) + if status[n] == Have then {n} else {};
    }
  }

  lemma {:induction false} StatusSizes(status: seq<PieceState>)
    ensures |Where(status, Missing)| + |Where(status, Downloading)| + |Where(status, Have)| == |status|
  {
    if |status| > 0 {
      var n := |status| - 1;
      StatusSizes(status[..n]);
      AddStatus(status, Missing);
      AddStatus(status, Downloading);
      AddStatus(status, Have);
    }
  }

  lemma AddStatus(status: seq<PieceState>, s: PieceState)
    requires |status| > 0
    ensures var n := |status| - 1; |Where(status, s)| == |Where(status[..n], s)| + if status[n] == s then 1 else 0
  {
    var n := |status| - 1;
    assert Where(status, s) == Where(status[..n], s) + if status[n] == s then {n} else {};
  }

  function Indices(ps: seq<DPiece>): set<nat> { set k: nat | k < |ps| :: ps[k].index }

  lemma {:induction false} IndicesSize(ps: seq<DPiece>)
    requires Distinct(ps)
    ensures |Indices(ps)| == |ps|
  {
    if |ps| > 0 {
      var n := |ps| - 1;
      IndicesSize(ps[..n]);
      assert forall k :: 0 <= k < n ==> ps[..n][k] == ps[k];
      assert forall i :: i in Indices(ps[..n]) ==> exists k: nat :: k < n && ps[k].index == i;
      assert Indices(ps) == Indices(ps[..n]) + {ps[n].index};
    }
  }

  lemma StartedSize(p: Picker)
    requires Inv(p)
    ensures |p.downloading| == |Where(p.status, Downloading)|
  {
    IndicesSize(p.downloading);
    forall i: nat
      ensures i in Indices(p.downloading) <==> i in Where(p.status, Downloading)
    {
      if k: nat :| k < |p.downloading| && p.downloading[k].index == i {
        FindUnique(p.downloading, k);
        assert EntryOk(p, p.downloading[k]);
      }
    }
    assert Indices(p.downloading) == Where(p.status, Downloading);
  }

  predicate NoneMissing(p: Picker) { forall i: nat :: i < |p.status| ==> p.status[i] != Missing }

  /** The count of IsEndGame: every piece is had or started, or more than four are started. */
  lemma EndGameMeaning(p: Picker)
    requires Inv(p)
    ensures IsEndGame(p) <==> NoneMissing(p) || |p.downloading| > 4
  {
    var m, d, h := Where(p.status, Missing), Where(p.status, Downloading), Where(p.status, Have);
    NumHaveSize(p.status);
    StartedSize(p);
    StatusSizes(p.status);
    assert m == {} <==> NoneMissing(p) by {
      assert forall i: nat :: i < |p.status| && p.status[i] == Missing ==> i in m;
    }
  }

  function AllowedMissing(p: Picker, available: seq<bool>): set<nat> {
    set i: nat | i < |p.status| && p.status[i] == Missing && Allowed(available, i)
  }

  /** Is it end game once every missing piece the peer may be asked for has been started? */
  predicate EndGameFinally(p: Picker, available: seq<bool>) {
    || (forall i: nat :: i < |p.status| && p.status[i] == Missing ==> Allowed(available, i))
    || |p.downloading| + |AllowedMissing(p, available)| > 4
  }

  lemma StartedNow(p: Picker, available: seq<bool>)
    requires Inv(p)
    ensures IsEndGame(p) ==> EndGameFinally(p, available)
    ensures NextMissing(p, 0, available) == |p.status| ==> (IsEndGame(p) <==> EndGameFinally(p, available))
  {
    EndGameMeaning(p);
    if NextMissing(p, 0, available) == |p.status| {
      assert AllowedMissing(p, available) == {};
    }
  }

  lemma OpenFinally(p: Picker, i: nat, available: seq<bool>)
    requires Inv(p) && i < |p.status| && p.status[i] == Missing && Allowed(available, i)
    ensures EndGameFinally(Open(p, i), available) == EndGameFinally(p, available)
  {
    OpenKeeps(p, i);
    var q := Open(p, i);
    assert forall j: nat :: j < |p.status| ==> q.status[j] == if j == i then Downloading else p.status[j];
    assert AllowedMissing(p, available) == AllowedMissing(q, available) + {i};
  }

  // ---------------------------------------------------------------- how many

  /** Blocks a peer that asks like this could be given. */
  function Takable(p: Picker, a: Ask, available: seq<bool>): set<PieceBlock> {
    set i, j | 0 <= i < |p.status| && 0 <= j < p.Blocks(i) && Allowed(available, i) && p.status[i] != Have
               && Pickable(BlockAt(p, PieceBlock(i, j)), a) :: PieceBlock(i, j)
  }

  /** Blocks of allowed started pieces that are requested once, by another peer, at a lower speed. */
  function Duplicable(p: Picker, peer: Peer, speed: nat, available: seq<bool>): set<PieceBlock> {
    set i, j | 0 <= i < |p.status| && 0 <= j < p.Blocks(i) && Allowed(available, i) && p.status[i] == Downloading
               && BlockAt(p, PieceBlock(i, j)).state == Requested && BlockAt(p, PieceBlock(i, j)).downloaders == 1
               && BlockAt(p, PieceBlock(i, j)).last != peer && BlockAt(p, PieceBlock(i, j)).speed < speed ::
                  PieceBlock(i, j)
  }

  /** What a sequence of rounds has achieved when it asked for `order` blocks like `a` in the end. */
  ghost predicate TookAll(p: Picker, q: Picker, got: seq<PieceBlock>, order: nat, a: Ask, available: seq<bool>) {
    && Inv(q)
    && Took(p, q, got, a, available)
    && |got| <= order
    && (|got| < order ==> NothingLeft(q, a, available) && NextMissing(q, 0, available) == |q.status|)
  }

  lemma RoundTakes(p: Picker, order: nat, peer: Peer, speed: nat, available: seq<bool>, e: bool)
    requires Inv(p) && speed != SLOW && (IsEndGame(p) ==> e)
    ensures var (q, got) := Round(p, order, peer, speed, available);
            && Inv(q) && Took(p, q, got, Ask(peer, speed, e), available) && q.status == p.status
            && |q.downloading| == |p.downloading| && |got| <= order
            && (|got| < order ==> NothingLeft(q, Ask(peer, speed, IsEndGame(p)), available))
  {
    var (ps, g1) := AddFrom(p.downloading, 0, order, Ask(peer, speed, false), available);
    AddFromTakes(p.downloading, 0, order, Ask(peer, speed, false), available);
    OnePass(p, order, Ask(peer, speed, false), available);
    var p1 := p.(downloading := ps);
    if e {
      TookWiden(p, p1, g1, peer, speed, e, available);
    }
    if |g1| < order && IsEndGame(p1) {
      var (ps2, g2) := AddFrom(ps, 0, order - |g1|, Ask(peer, speed, true), available);
      AddFromTakes(ps, 0, order - |g1|, Ask(peer, speed, true), available);
      OnePass(p1, order - |g1|, Ask(peer, speed, true), available);
      TookCompose(p, p1, p1.(downloading := ps2), g1, g2, Ask(peer, speed, true), available);
    }
  }

  lemma {:induction false} FastPickTakes(p: Picker, order: nat, peer: Peer, speed: nat, available: seq<bool>)
    requires Inv(p) && speed != SLOW
    ensures TookAll(p, Pick(p, order, peer, speed, available).0, Pick(p, order, peer, speed, available).1, order,
                    Ask(peer, speed, EndGameFinally(p, available)), available)
    decreases CountMissing(p.status)
  {
    RoundTakesFinally(p, order, peer, speed, available);
    var r := Round(p, order, peer, speed, available);
    var next := NextMissing(r.0, 0, available);
    if |r.1| < order && next < |r.0.status| {
      CountMissingStarts(r.0.status, next);
      OpenKeeps(r.0, next);
      OpenFinally(r.0, next, available);
      FastPickTakes(Open(r.0, next), order - |r.1|, peer, speed, available);
      var r3 := Pick(Open(r.0, next), order - |r.1|, peer, speed, available);
      TakesOn(p, r.0, next, r3.0, r.1, r3.1, order, Ask(peer, speed, EndGameFinally(p, available)), available);
      assert Pick(p, order, peer, speed, available) == (r3.0, r.1 + r3.1);
    } else {
      assert Pick(p, order, peer, speed, available) == r;
    }
  }

  lemma RoundTakesFinally(p: Picker, order: nat, peer: Peer, speed: nat, available: seq<bool>)
    requires Inv(p) && speed != SLOW
    ensures var (q, got) := Round(p, order, peer, speed, available);
            var a := Ask(peer, speed, EndGameFinally(p, available));
            && Inv(q) && Took(p, q, got, a, available) && q.status == p.status && |got| <= order
            && EndGameFinally(q, available) == EndGameFinally(p, available)
            && (|got| < order && NextMissing(q, 0, available) == |q.status| ==> NothingLeft(q, a, available))
  {
    var e := EndGameFinally(p, available);
    StartedNow(p, available);
    RoundTakes(p, order, peer, speed, available, e);
    var q := Round(p, order, peer, speed, available).0;
    assert AllowedMissing(q, available) == AllowedMissing(p, available);
    assert IsEndGame(q) == IsEndGame(p);
    StartedNow(q, available);
  }

  lemma TakesOn(p: Picker, p2: Picker, next: nat, q: Picker, got: seq<PieceBlock>, rest: seq<PieceBlock>, order: nat,
                a: Ask, available: seq<bool>)
    requires Inv(p2) && Took(p, p2, got, a, available) && |got| <= order
    requires next < |p2.status| && p2.status[next] == Missing
    requires TookAll(Open(p2, next), q, rest, order - |got|, a, available)
    ensures TookAll(p, q, got + rest, order, a, available)
  {
    OpenKeeps(p2, next);
    assert Took(p2, Open(p2, next), [], a, available);
    TookCompose(p2, Open(p2, next), q, [], rest, a, available);
    assert [] + rest == rest;
    TookCompose(p, p2, q, got, rest, a, available);
  }

  lemma TakesExactly(p: Picker, q: Picker, got: seq<PieceBlock>, order: nat, a: Ask, available: seq<bool>)
    requires TookAll(p, q, got, order, a, available)
    ensures |got| == Min(order, |Takable(p, a, available)|)
  {
    var all := Takable(p, a, available);
    var taken := set b | b in got;
    NoDupSize(got);
    forall b | b in got
      ensures b in all
    {
      assert Pickable(BlockAt(p, b), a) && b == PieceBlock(b.piece, b.block);
    }
    if |got| < order {
      forall b | b in all
        ensures b in taken
      {
        assert BlockAt(q, b) == if b in got then BlockAt(p, b).Request(a.peer, a.speed) else BlockAt(p, b);
        assert q.Valid(b) && q.status[b.piece] != Have && q.status[b.piece] != Missing;
      }
    }
    SubsetSize(taken, all);
  }

  lemma TakableSize(p: Picker, peer: Peer, speed: nat, e: bool, available: seq<bool>)
    requires Inv(p)
    ensures |Takable(p, Ask(peer, speed, e), available)| ==
            |FreeBlocks(p, available)| + if e then |Duplicable(p, peer, speed, available)| else 0
  {
    var (all, free, dup) := (Takable(p, Ask(peer, speed, e), available), FreeBlocks(p, available),
                             Duplicable(p, peer, speed, available));
    forall b: PieceBlock | b in all
      ensures b in free || (e && b in dup)
    {
      assert b == PieceBlock(b.piece, b.block);
      if BlockAt(p, b).state == Requested {
        RequestedIsStarted(p, b);
      }
    }
    forall b: PieceBlock | b in free || (e && b in dup)
      ensures b in all
    {
    }
    assert all == if e then free + dup else free;
    assert free !! dup;
  }

  lemma RequestedIsStarted(p: Picker, b: PieceBlock)
    requires Inv(p) && p.Valid(b) && BlockAt(p, b).state == Requested
    ensures p.status[b.piece] == Downloading && BlockAt(p, b).downloaders >= 1
  {
    assert InProgress(p, b.piece) && EntryOk(p, Entry(p, b.piece));
  }

  /** A peer that is not slow gets exactly as many blocks as it asked for, or all free blocks and, if it is end game at
      the latest when every missing piece it may be asked for has been started, all blocks it may duplicate. */
  lemma FastPickExact(p: Picker, order: nat, peer: Peer, speed: nat, available: seq<bool>)
    requires Inv(p) && speed != SLOW
    ensures |Pick(p, order, peer, speed, available).1| ==
            Min(order, |FreeBlocks(p, available)|
                       + if EndGameFinally(p, available) then |Duplicable(p, peer, speed, available)| else 0)
  {
    FastPickTakes(p, order, peer, speed, available);
    var r := Pick(p, order, peer, speed, available);
    var e := EndGameFinally(p, available);
    TakesExactly(p, r.0, r.1, order, Ask(peer, speed, e), available);
    TakableSize(p, peer, speed, e, available);
  }

  /** When no piece is missing, a peer that is not slow is given all free blocks and all it may duplicate, up to its
      order; the pieces already had make no difference. */
  lemma NoneMissingPick(p: Picker, order: nat, peer: Peer, speed: nat, available: seq<bool>)
    requires Inv(p) && speed != SLOW && forall i: nat :: i < |p.status| ==> p.status[i] != Missing
    ensures |Pick(p, order, peer, speed, available).1| ==
            Min(order, |FreeBlocks(p, available)| + |Duplicable(p, peer, speed, available)|)
  {
    FastPickExact(p, order, peer, speed, available);
  }

  /** While a piece is missing that the peer may not be asked for and no more than four pieces can be started, nothing
      is duplicated: every block given was free. */
  lemma NeverDuplicated(p: Picker, order: nat, peer: Peer, speed: nat, available: seq<bool>, i: nat)
    requires Inv(p) && i < |p.status| && p.status[i] == Missing && !Allowed(available, i)
    requires |p.downloading| + |AllowedMissing(p, available)| <= 4
    ensures forall b :: b in Pick(p, order, peer, speed, available).1 ==> BlockAt(p, b).state == Free
    ensures |Pick(p, order, peer, speed, available).1| == Min(order, |FreeBlocks(p, available)|)
  {
    if speed == SLOW {
      PickSound(p, order, peer, speed, available);
      SlowPickExact(p, order, peer, available);
    } else {
      FastPickTakes(p, order, peer, speed, available);
      FastPickExact(p, order, peer, speed, available);
    }
  }

  // ---------------------------------------------------------------- in which order

  /** Where a piece comes up: started pieces in the order of their entries, then the missing ones by index. */
  function Place(p: Picker, i: nat): nat { if InProgress(p, i) then Find(p.downloading, i) else |p.downloading| + i }

  predicate Before(p: Picker, b: PieceBlock, c: PieceBlock) {
    Place(p, b.piece) < Place(p, c.piece) || (b.piece == c.piece && b.block < c.block)
  }

  predicate FreeFor(p: Picker, b: PieceBlock, available: seq<bool>) {
    p.Valid(b) && Allowed(available, b.piece) && p.status[b.piece] != Have && BlockAt(p, b).state == Free
  }

  /** The free blocks given are the first ones, in order. */
  ghost predicate FirstFree(p: Picker, got: seq<PieceBlock>, available: seq<bool>) {
    && (forall i, j :: 0 <= i < j < |got| && FreeFor(p, got[i], available) && FreeFor(p, got[j], available) ==>
          Before(p, got[i], got[j]))
    && forall b, j ::
         0 <= j < |got| && FreeFor(p, b, available) && FreeFor(p, got[j], available) && Before(p, b, got[j]) ==>
           b in got
  }

  /** A block that was not free comes after all free blocks of started pieces; and unless every piece is had or started
      or more than four are started, some piece has been started and asked for before. */
  ghost predicate DuplicatesLast(p: Picker, got: seq<PieceBlock>, available: seq<bool>) {
    forall j {:trigger got[j]} :: 0 <= j < |got| && !FreeFor(p, got[j], available) ==>
      && (forall b :: FreeFor(p, b, available) && p.status[b.piece] == Downloading ==> b in got[..j])
      && (NoneMissing(p) || |p.downloading| > 4 || StartedBefore(p, got, j))
  }

  ghost predicate StartedBefore(p: Picker, got: seq<PieceBlock>, j: nat) {
    exists i: nat :: i < j && i < |got| && got[i].piece < |p.status| && p.status[got[i].piece] == Missing
  }

  lemma {:induction false} PickFromFirst(d: DPiece, i: nat, order: nat, a: Ask)
    requires i <= |d.blocks|
    ensures var (_, got) := PickFrom(d, i, order, a);
            forall x, j :: 0 <= j < |got| && i <= x < got[j].block && x < |d.blocks| && Pickable(d.blocks[x], a) ==>
              PieceBlock(d.index, x) in got
    decreases |d.blocks| - i
  {
    if i < |d.blocks| && order > 0 {
      if Pickable(d.blocks[i], a) {
        var e := d.(blocks := d.blocks[i := d.blocks[i].Request(a.peer, a.speed)]);
        PickFromFirst(e, i + 1, order - 1, a);
        PickFromTakes(e, i + 1, order - 1, a);
        var (rest, got) := (PickFrom(e, i + 1, order - 1, a).1, PickFrom(d, i, order, a).1);
        assert got == [PieceBlock(d.index, i)] + rest;
        forall x, j | 0 <= j < |got| && i <= x < got[j].block && x < |d.blocks| && Pickable(d.blocks[x], a)
          ensures PieceBlock(d.index, x) in got
        {
          if x > i {
            assert rest[j - 1] == got[j] && e.blocks[x] == d.blocks[x];
          } else {
            assert got[0] == PieceBlock(d.index, x);
          }
        }
      } else {
        PickFromFirst(d, i + 1, order, a);
        PickFromTakes(d, i + 1, order, a);
      }
    }
  }

  predicate Sooner(ps: seq<DPiece>, b: PieceBlock, c: PieceBlock) {
    Find(ps, b.piece) < Find(ps, c.piece) || (b.piece == c.piece && b.block < c.block)
  }

  /** The blocks one pass takes are the first it could take, in order. */
  ghost predicate FirstTaken(ps: seq<DPiece>, k: nat, got: seq<PieceBlock>, a: Ask, available: seq<bool>) {
    && (forall i, j :: 0 <= i < j < |got| ==> Sooner(ps, got[i], got[j]))
    && forall b, j :: 0 <= j < |got| && TakenFrom(ps, k, b, a, available) && Sooner(ps, b, got[j]) ==> b in got
  }

  lemma {:induction false} PassInOrder(ps: seq<DPiece>, k: nat, order: nat, a: Ask, available: seq<bool>)
    requires Distinct(ps) && k <= |ps|
    ensures FirstTaken(ps, k, AddFrom(ps, k, order, a, available).1, a, available)
    decreases |ps| - k
  {
    if k < |ps| {
      if !Allowed(available, ps[k].index) {
        PassInOrder(ps, k + 1, order, a, available);
        SkipEntry(ps, k, a, available);
      } else {
        var (d', g1) := PickFrom(ps[k], 0, order, a);
        PickFromTakes(ps[k], 0, order, a);
        PassInOrder(ps[k := d'], k + 1, order - |g1|, a, available);
        ThenEntry(ps, k, order, a, available);
      }
    }
  }

  lemma ThenEntry(ps: seq<DPiece>, k: nat, order: nat, a: Ask, available: seq<bool>)
    requires Distinct(ps) && k < |ps| && Allowed(available, ps[k].index) && |PickFrom(ps[k], 0, order, a).1| <= order
    requires var (d', g1) := PickFrom(ps[k], 0, order, a);
             var qs := ps[k := d'];
             FirstTaken(qs, k + 1, AddFrom(qs, k + 1, order - |g1|, a, available).1, a, available)
    ensures FirstTaken(ps, k, AddFrom(ps, k, order, a, available).1, a, available)
  {
    var (d', g1) := PickFrom(ps[k], 0, order, a);
    PickFromTakes(ps[k], 0, order, a);
    PickFromSpends(ps[k], 0, order, a);
    PickFromFirst(ps[k], 0, order, a);
    var qs := ps[k := d'];
    AddFromTakes(qs, k + 1, order - |g1|, a, available);
    var g2 := AddFrom(qs, k + 1, order - |g1|, a, available).1;
    EntryTaken(ps, k, d', g1, g2, order, a, available);
    assert AddFrom(ps, k, order, a, available).1 == g1 + g2;
  }

  lemma SkipEntry(ps: seq<DPiece>, k: nat, a: Ask, available: seq<bool>)
    requires Distinct(ps) && k < |ps| && !Allowed(available, ps[k].index)
    ensures forall b :: TakenFrom(ps, k, b, a, available) ==> TakenFrom(ps, k + 1, b, a, available)
  {
  }

  lemma EntryTaken(ps: seq<DPiece>, k: nat, d': DPiece, g1: seq<PieceBlock>, g2: seq<PieceBlock>, order: nat, a: Ask,
                   available: seq<bool>)
    requires Distinct(ps) && k < |ps| && Allowed(available, ps[k].index)
    requires d'.index == ps[k].index && |d'.blocks| == |ps[k].blocks| && Increasing(g1, ps[k].index, 0, |ps[k].blocks|)
    requires forall x, j ::
             0 <= j < |g1| && 0 <= x < g1[j].block && x < |ps[k].blocks| && Pickable(ps[k].blocks[x], a) ==>
               PieceBlock(ps[k].index, x) in g1
    requires |g1| < order ==> forall x :: 0 <= x < |ps[k].blocks| && Pickable(ps[k].blocks[x], a) ==>
               PieceBlock(ps[k].index, x) in g1
    requires |g1| + |g2| <= order && FirstTaken(ps[k := d'], k + 1, g2, a, available)
    requires forall b {:trigger b in g2} :: b in g2 ==> TakenFrom(ps[k := d'], k + 1, b, a, available)
    ensures FirstTaken(ps, k, g1 + g2, a, available)
  {
    var (qs, got) := (ps[k := d'], g1 + g2);
    forall i
      ensures Find(qs, i) == Find(ps, i)
    {
      FindAfterSet(ps, k, d', i);
    }
    FindUnique(ps, k);
    forall b | TakenFrom(qs, k + 1, b, a, available) || (TakenFrom(ps, k, b, a, available) && b.piece != ps[k].index)
      ensures TakenFrom(qs, k + 1, b, a, available) && k < Find(ps, b.piece) < |ps|
    {
      LaterEntry(ps, k, d', b, a, available);
    }
    forall b, j | 0 <= j < |got| && TakenFrom(ps, k, b, a, available) && Sooner(ps, b, got[j])
      ensures b in got
    {
      if b.piece == ps[k].index {
        ThisEntry(ps, k, b, a, available);
        if j >= |g1| {
          assert g2[j - |g1|] in g2;
        }
      } else if j >= |g1| {
        assert g2[j - |g1|] == got[j];
      }
    }
    forall i, j | 0 <= i < j < |got|
      ensures Sooner(ps, got[i], got[j])
    {
      if j >= |g1| {
        assert g2[j - |g1|] == got[j] && got[j] in g2;
        if i >= |g1| {
          assert g2[i - |g1|] == got[i];
          assert Sooner(qs, g2[i - |g1|], g2[j - |g1|]);
        }
      }
    }
  }

  lemma LaterEntry(ps: seq<DPiece>, k: nat, d': DPiece, b: PieceBlock, a: Ask, available: seq<bool>)
    requires Distinct(ps) && k < |ps| && d'.index == ps[k].index
    requires TakenFrom(ps[k := d'], k + 1, b, a, available)
             || (TakenFrom(ps, k, b, a, available) && b.piece != ps[k].index)
    ensures TakenFrom(ps[k := d'], k + 1, b, a, available) && k < Find(ps, b.piece) < |ps|
  {
    var qs := ps[k := d'];
    assert forall m :: k < m < |ps| ==> qs[m] == ps[m];
    var m :| k < m < |ps| && ps[m].index == b.piece && b.block < |ps[m].blocks| && Pickable(ps[m].blocks[b.block], a);
    assert qs[m].index == b.piece;
    FindUnique(ps, m);
  }

  lemma ThisEntry(ps: seq<DPiece>, k: nat, b: PieceBlock, a: Ask, available: seq<bool>)
    requires Distinct(ps) && k < |ps| && TakenFrom(ps, k, b, a, available) && b.piece == ps[k].index
    ensures b.block < |ps[k].blocks| && Pickable(ps[k].blocks[b.block], a)
  {
  }

  /** What a round gives: first the first free blocks of the started pieces, then only duplicates, and these only when
      it is end game and no started piece has a free block left. */
  ghost predicate RoundInOrder(p: Picker, got: seq<PieceBlock>, order: nat, available: seq<bool>) {
    && FirstFree(p, got, available) && DuplicatesLast(p, got, available)
    && (forall i {:trigger got[i]} :: 0 <= i < |got| ==> p.Valid(got[i]) && p.status[got[i].piece] == Downloading)
    && (|got| < order ==> forall b :: FreeFor(p, b, available) && p.status[b.piece] == Downloading ==> b in got)
  }

  /** What the ordinary pass of a round gives. */
  ghost predicate OnlyFirstFree(p: Picker, got: seq<PieceBlock>, available: seq<bool>) {
    && (forall i, j :: 0 <= i < j < |got| ==> Before(p, got[i], got[j]))
    && (forall b :: b in got ==> FreeFor(p, b, available) && p.status[b.piece] == Downloading)
    && forall b, j :: 0 <= j < |got| && FreeFor(p, b, available) && Before(p, b, got[j]) ==> b in got
  }

  lemma FirstPassFree(p: Picker, order: nat, peer: Peer, speed: nat, available: seq<bool>)
    requires Inv(p)
    ensures OnlyFirstFree(p, AddFrom(p.downloading, 0, order, Ask(peer, speed, false), available).1, available)
  {
    var a := Ask(peer, speed, false);
    var (ps, got) := AddFrom(p.downloading, 0, order, a, available);
    AddFromTakes(p.downloading, 0, order, a, available);
    PassInOrder(p.downloading, 0, order, a, available);
    forall b | b in got
      ensures FreeFor(p, b, available) && p.status[b.piece] == Downloading
    {
      TakenIsStarted(p, b, a, available);
    }
    forall b, j | 0 <= j < |got| && FreeFor(p, b, available) && Before(p, b, got[j])
      ensures b in got
    {
      assert got[j] in got;
      StartedIsTaken(p, b, a, available);
    }
  }

  lemma TakenIsStarted(p: Picker, b: PieceBlock, a: Ask, available: seq<bool>)
    requires Inv(p) && TakenFrom(p.downloading, 0, b, a, available)
    ensures p.Valid(b) && Allowed(available, b.piece) && p.status[b.piece] == Downloading && Pickable(BlockAt(p, b), a)
  {
    var ps := p.downloading;
    var m :| 0 <= m < |ps| && ps[m].index == b.piece && b.block < |ps[m].blocks| && Pickable(ps[m].blocks[b.block], a);
    FindUnique(ps, m);
    assert EntryOk(p, ps[m]);
  }

  lemma StartedIsTaken(p: Picker, b: PieceBlock, a: Ask, available: seq<bool>)
    requires Inv(p) && FreeFor(p, b, available) && InProgress(p, b.piece)
    ensures TakenFrom(p.downloading, 0, b, a, available)
  {
    var m := Find(p.downloading, b.piece);
    assert EntryOk(p, p.downloading[m]);
    assert p.downloading[m].index == b.piece && Pickable(p.downloading[m].blocks[b.block], a);
  }

  /** Does a round make an end-game pass? */
  predicate TwoPasses(p: Picker, order: nat, peer: Peer, speed: nat, available: seq<bool>) {
    var (ps, g1) := AddFrom(p.downloading, 0, order, Ask(peer, speed, false), available);
    speed != SLOW && |g1| < order && IsEndGame(p.(downloading := ps))
  }

  lemma RoundOrder(p: Picker, order: nat, peer: Peer, speed: nat, available: seq<bool>)
    requires Inv(p)
    ensures RoundInOrder(p, Round(p, order, peer, speed, available).1, order, available)
  {
    if TwoPasses(p, order, peer, speed, available) {
      TwoPassOrder(p, order, peer, speed, available);
    } else {
      OnePassOrder(p, order, peer, speed, available);
    }
  }

  lemma OnePassOrder(p: Picker, order: nat, peer: Peer, speed: nat, available: seq<bool>)
    requires Inv(p) && !TwoPasses(p, order, peer, speed, available)
    ensures RoundInOrder(p, Round(p, order, peer, speed, available).1, order, available)
  {
    var got := AddFrom(p.downloading, 0, order, Ask(peer, speed, false), available).1;
    FirstPassFree(p, order, peer, speed, available);
    FirstPassAll(p, order, peer, speed, available);
    Alone(p, got, order, available);
    assert Round(p, order, peer, speed, available).1 == got;
  }

  lemma TwoPassOrder(p: Picker, order: nat, peer: Peer, speed: nat, available: seq<bool>)
    requires Inv(p) && TwoPasses(p, order, peer, speed, available)
    ensures RoundInOrder(p, Round(p, order, peer, speed, available).1, order, available)
  {
    var a := Ask(peer, speed, false);
    var (ps, g1) := AddFrom(p.downloading, 0, order, a, available);
    var p1 := p.(downloading := ps);
    var g2 := AddFrom(ps, 0, order - |g1|, Ask(peer, speed, true), available).1;
    FirstPassIsEndGame(p, order, a, available);
    DuplicatesOnly(p, order, a, available);
    FirstPassFree(p, order, peer, speed, available);
    FirstPassAll(p, order, peer, speed, available);
    Followed(p, g1, g2, order, available);
    assert Round(p, order, peer, speed, available).1 == g1 + g2;
  }

  lemma FirstPassIsEndGame(p: Picker, order: nat, a: Ask, available: seq<bool>)
    requires Inv(p)
    ensures IsEndGame(p.(downloading := AddFrom(p.downloading, 0, order, a, available).0)) ==>
              NoneMissing(p) || |p.downloading| > 4
  {
    OnePass(p, order, a, available);
    var p1 := p.(downloading := AddFrom(p.downloading, 0, order, a, available).0);
    StartedSize(p);
    StartedSize(p1);
    EndGameMeaning(p1);
  }

  lemma DuplicatesOnly(p: Picker, order: nat, a: Ask, available: seq<bool>)
    requires Inv(p)
    ensures var (ps, g1) := AddFrom(p.downloading, 0, order, a, available);
            |g1| < order ==>
              forall b :: b in AddFrom(ps, 0, order - |g1|, Ask(a.peer, a.speed, true), available).1 ==>
                p.Valid(b) && !FreeFor(p, b, available) && p.status[b.piece] == Downloading
  {
    var (ps, g1) := AddFrom(p.downloading, 0, order, a, available);
    OnePass(p, order, a, available);
    if |g1| < order {
      SecondPass(p, p.(downloading := ps), g1, order, a, available);
    }
  }

  lemma Alone(p: Picker, got: seq<PieceBlock>, order: nat, available: seq<bool>)
    requires OnlyFirstFree(p, got, available)
    requires |got| < order ==> forall b :: FreeFor(p, b, available) && p.status[b.piece] == Downloading ==> b in got
    ensures RoundInOrder(p, got, order, available)
  {
    assert forall i :: 0 <= i < |got| ==> got[i] in got;
  }

  lemma FirstPassAll(p: Picker, order: nat, peer: Peer, speed: nat, available: seq<bool>)
    requires Inv(p)
    ensures var got := AddFrom(p.downloading, 0, order, Ask(peer, speed, false), available).1;
            |got| < order ==> forall b :: FreeFor(p, b, available) && p.status[b.piece] == Downloading ==> b in got
  {
    var a := Ask(peer, speed, false);
    OnePass(p, order, a, available);
    var (ps, g1) := AddFrom(p.downloading, 0, order, a, available);
    var p1 := p.(downloading := ps);
    forall b | |g1| < order && FreeFor(p, b, available) && p.status[b.piece] == Downloading
      ensures b in g1
    {
      assert BlockAt(p1, b) == if b in g1 then BlockAt(p, b).Request(peer, speed) else BlockAt(p, b);
    }
  }

  lemma SecondPass(p: Picker, p1: Picker, g1: seq<PieceBlock>, order: nat, a: Ask, available: seq<bool>)
    requires Inv(p) && Inv(p1) && Took(p, p1, g1, a, available) && p1.status == p.status
    requires |g1| < order && NothingFreeStarted(p1, available)
    ensures forall b :: b in AddFrom(p1.downloading, 0, order - |g1|, Ask(a.peer, a.speed, true), available).1 ==>
              p.Valid(b) && !FreeFor(p, b, available) && p.status[b.piece] == Downloading
  {
    var e := Ask(a.peer, a.speed, true);
    AddFromTakes(p1.downloading, 0, order - |g1|, e, available);
    forall b | b in AddFrom(p1.downloading, 0, order - |g1|, e, available).1
      ensures p.Valid(b) && !FreeFor(p, b, available) && p.status[b.piece] == Downloading
    {
      TakenIsStarted(p1, b, e, available);
      assert BlockAt(p1, b) == if b in g1 then BlockAt(p, b).Request(a.peer, a.speed) else BlockAt(p, b);
    }
  }

  /** Duplicates behind the free blocks of a pass. */
  lemma Followed(p: Picker, g1: seq<PieceBlock>, g2: seq<PieceBlock>, order: nat, available: seq<bool>)
    requires OnlyFirstFree(p, g1, available) && (NoneMissing(p) || |p.downloading| > 4)
    requires forall b :: b in g2 ==> p.Valid(b) && !FreeFor(p, b, available) && p.status[b.piece] == Downloading
    requires forall b :: FreeFor(p, b, available) && p.status[b.piece] == Downloading ==> b in g1
    ensures RoundInOrder(p, g1 + g2, order, available)
  {
    var got := g1 + g2;
    forall j | 0 <= j < |got|
      ensures p.Valid(got[j]) && p.status[got[j].piece] == Downloading && (FreeFor(p, got[j], available) <==> j < |g1|)
    {
      assert if j < |g1| then got[j] in g1 else got[j] in g2;
    }
    forall j | |g1| <= j < |got|
      ensures forall b :: b in g1 ==> b in got[..j]
    {
      assert got[..j][..|g1|] == g1;
    }
    assert forall b :: b in g1 ==> b in got;
  }

  /** What is free once a round has not been enough and another piece has been started. */
  lemma FreeNext(p: Picker, q: Picker, g1: seq<PieceBlock>, next: nat, a: Ask, order: nat, available: seq<bool>,
                 b: PieceBlock)
    requires Inv(p) && Inv(q) && Took(p, q, g1, a, available) && q.status == p.status
    requires RoundInOrder(p, g1, order, available) && |g1| < order
    requires next < |q.status| && next == NextMissing(q, 0, available)
    ensures FreeFor(Open(q, next), b, available) <==> FreeFor(p, b, available) && p.status[b.piece] == Missing
    ensures b in g1 ==> !Pickable(BlockAt(Open(q, next), b), a)
  {
    OpenKeeps(q, next);
    var p2 := Open(q, next);
    assert BlockAt(p2, b) == BlockAt(q, b);
    assert BlockAt(q, b) == if b in g1 then BlockAt(p, b).Request(a.peer, a.speed) else BlockAt(p, b);
    assert b.piece < |p.status| ==> p2.status[b.piece] == if b.piece == next then Downloading else p.status[b.piece];
    if b in g1 {
      var i :| 0 <= i < |g1| && g1[i] == b;
      assert p.status[g1[i].piece] == Downloading;
    }
  }

  lemma NextPlace(p: Picker, q: Picker, next: nat, i: nat)
    requires Inv(p) && Inv(q) && q.status == p.status && next < |p.status| && i < |p.status| && p.status[i] == Missing
    ensures Place(Open(q, next), i) == if i == next then |p.downloading| else |p.downloading| + 1 + i
  {
    StartedSize(p);
    StartedSize(q);
    FindAppend(q.downloading, NewPiece(q, next), i);
  }

  lemma SameOrder(p: Picker, q: Picker, g1: seq<PieceBlock>, next: nat, a: Ask, order: nat, available: seq<bool>,
                  b: PieceBlock, c: PieceBlock)
    requires Inv(p) && Inv(q) && Took(p, q, g1, a, available) && q.status == p.status
    requires RoundInOrder(p, g1, order, available) && |g1| < order
    requires next < |q.status| && next == NextMissing(q, 0, available)
    requires FreeFor(Open(q, next), b, available) && FreeFor(Open(q, next), c, available)
    ensures Before(Open(q, next), b, c) <==> Before(p, b, c)
  {
    FreeNext(p, q, g1, next, a, order, available, b);
    FreeNext(p, q, g1, next, a, order, available, c);
    NextPlace(p, q, next, b.piece);
    NextPlace(p, q, next, c.piece);
    assert b.piece != next ==> b.piece > next;
    assert c.piece != next ==> c.piece > next;
  }

  lemma NextFree(p: Picker, q: Picker, g1: seq<PieceBlock>, next: nat, rest: seq<PieceBlock>, order: nat, a: Ask,
                 available: seq<bool>)
    requires Inv(p) && Inv(q) && Took(p, q, g1, a, available) && q.status == p.status
    requires RoundInOrder(p, g1, order, available) && |g1| < order
    requires next < |q.status| && next == NextMissing(q, 0, available)
    requires FirstFree(Open(q, next), rest, available)
    requires forall b :: b in rest ==> Pickable(BlockAt(Open(q, next), b), a)
    ensures FirstFree(p, g1 + rest, available)
  {
    var got, p2 := g1 + rest, Open(q, next);
    forall i, j | 0 <= i < j < |got| && FreeFor(p, got[i], available) && FreeFor(p, got[j], available)
      ensures Before(p, got[i], got[j])
    {
      FreeNext(p, q, g1, next, a, order, available, got[j]);
      FreeNext(p, q, g1, next, a, order, available, got[i]);
      if j < |g1| {
        assert g1[i] == got[i] && g1[j] == got[j];
      } else {
        assert got[j] == rest[j - |g1|] && got[j] in rest;
        if i < |g1| {
          assert got[i] == g1[i];
          StartedFirst(p, got[i], got[j], available);
        } else {
          assert got[i] == rest[i - |g1|] && got[i] in rest;
          SameOrder(p, q, g1, next, a, order, available, got[i], got[j]);
          assert Before(p2, rest[i - |g1|], rest[j - |g1|]);
        }
      }
    }
    forall b, j | 0 <= j < |got| && FreeFor(p, b, available) && FreeFor(p, got[j], available) && Before(p, b, got[j])
      ensures b in got
    {
      FreeNext(p, q, g1, next, a, order, available, got[j]);
      FreeNext(p, q, g1, next, a, order, available, b);
      if j < |g1| {
        assert g1[j] == got[j];
        assert b in g1;
      } else {
        assert got[j] == rest[j - |g1|] && got[j] in rest;
        if p.status[b.piece] == Missing {
          SameOrder(p, q, g1, next, a, order, available, b, got[j]);
          assert Before(p2, b, rest[j - |g1|]);
        }
      }
    }
  }

  lemma StartedFirst(p: Picker, b: PieceBlock, c: PieceBlock, available: seq<bool>)
    requires Inv(p) && p.Valid(b) && p.Valid(c) && p.status[b.piece] == Downloading && p.status[c.piece] == Missing
    ensures Before(p, b, c)
  {
  }

  lemma NextDuplicates(p: Picker, q: Picker, g1: seq<PieceBlock>, next: nat, rest: seq<PieceBlock>, order: nat, a: Ask,
                       available: seq<bool>)
    requires Inv(p) && Inv(q) && Took(p, q, g1, a, available) && q.status == p.status
    requires RoundInOrder(p, g1, order, available) && |g1| < order
    requires next < |q.status| && next == NextMissing(q, 0, available)
    requires DuplicatesLast(Open(q, next), rest, available)
    requires forall b :: b in rest ==> Pickable(BlockAt(Open(q, next), b), a)
    ensures DuplicatesLast(p, g1 + rest, available)
  {
    var got := g1 + rest;
    forall j | 0 <= j < |got| && !FreeFor(p, got[j], available)
      ensures forall b :: FreeFor(p, b, available) && p.status[b.piece] == Downloading ==> b in got[..j]
      ensures NoneMissing(p) || |p.downloading| > 4 || StartedBefore(p, got, j)
    {
      if j < |g1| {
        assert got[j] == g1[j] && got[..j] == g1[..j];
      } else {
        NextDuplicate(p, q, g1, next, rest, j - |g1|, order, a, available);
      }
    }
  }

  lemma NextDuplicate(p: Picker, q: Picker, g1: seq<PieceBlock>, next: nat, rest: seq<PieceBlock>, j: nat, order: nat,
                      a: Ask, available: seq<bool>)
    requires Inv(p) && Inv(q) && Took(p, q, g1, a, available) && q.status == p.status
    requires RoundInOrder(p, g1, order, available) && |g1| < order
    requires next < |q.status| && next == NextMissing(q, 0, available)
    requires DuplicatesLast(Open(q, next), rest, available) && j < |rest| && !FreeFor(p, rest[j], available)
    requires Pickable(BlockAt(Open(q, next), rest[j]), a)
    ensures forall b :: FreeFor(p, b, available) && p.status[b.piece] == Downloading ==> b in (g1 + rest)[..|g1| + j]
    ensures StartedBefore(p, g1 + rest, |g1| + j)
  {
    FreeNext(p, q, g1, next, a, order, available, rest[j]);
    NextFirst(p, q, g1, next, rest, j, order, a, available);
    assert (g1 + rest)[..|g1| + j] == g1 + rest[..j];
  }

  /** When the j-th of the later blocks was not free, the first block of the piece started next came before it. */
  lemma NextFirst(p: Picker, q: Picker, g1: seq<PieceBlock>, next: nat, rest: seq<PieceBlock>, j: nat, order: nat,
                  a: Ask, available: seq<bool>)
    requires Inv(p) && Inv(q) && Took(p, q, g1, a, available) && q.status == p.status
    requires RoundInOrder(p, g1, order, available) && |g1| < order
    requires next < |q.status| && next == NextMissing(q, 0, available)
    requires DuplicatesLast(Open(q, next), rest, available) && j < |rest| && !FreeFor(Open(q, next), rest[j], available)
    ensures StartedBefore(p, g1 + rest, |g1| + j)
  {
    var p2, first := Open(q, next), PieceBlock(next, 0);
    OpenKeeps(q, next);
    FreeNext(p, q, g1, next, a, order, available, first);
    assert FreeFor(p, first, available) && p2.status[next] == Downloading;
    assert first in rest[..j];
    var i :| 0 <= i < j && rest[i] == first;
    assert (g1 + rest)[|g1| + i] == first;
  }

  /** PickPiecesWithAvailability, for any peer: the free blocks given are the first ones in the order of the entries and
      then of the indexes, and duplicates come after them. */
  lemma {:induction false} PickInOrder(p: Picker, order: nat, peer: Peer, speed: nat, available: seq<bool>)
    requires Inv(p)
    ensures FirstFree(p, Pick(p, order, peer, speed, available).1, available)
    ensures DuplicatesLast(p, Pick(p, order, peer, speed, available).1, available)
    decreases CountMissing(p.status)
  {
    RoundSound(p, order, peer, speed, available);
    RoundOrder(p, order, peer, speed, available);
    var r := Round(p, order, peer, speed, available);
    var next := NextMissing(r.0, 0, available);
    if |r.1| < order && next < |r.0.status| {
      CountMissingStarts(r.0.status, next);
      OpenKeeps(r.0, next);
      var p2 := Open(r.0, next);
      PickInOrder(p2, order - |r.1|, peer, speed, available);
      PickSound(p2, order - |r.1|, peer, speed, available);
      var r3 := Pick(p2, order - |r.1|, peer, speed, available);
      NextFree(p, r.0, r.1, next, r3.1, order, Ask(peer, speed, speed != SLOW), available);
      NextDuplicates(p, r.0, r.1, next, r3.1, order, Ask(peer, speed, speed != SLOW), available);
    }
  }
}
