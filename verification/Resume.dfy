/** Saving what a transfer has, restoring it into a new transfer, and saving again (transfer.go,
    piece_picker.go). Restored blocks come back from the disk queue in the order they were asked for. */
module Resume {
  import opened Geometry
  import opened Scheduler = BlockScheduler
  import opened PieceStore
  import opened Policies
  import opened PiecePicking

  datatype ResumeData = ResumeData(hashes: seq<Hash>, pieces: seq<bool>, blocks: seq<PieceBlock>, peers: seq<Endpoint>)

  // ---------------------------------------------------------------- saving

  function FinishedOf(d: DPiece, n: nat): seq<PieceBlock>
    requires n <= |d.blocks|
  {
    if n == 0 then [] else FinishedOf(d, n - 1) + if d.blocks[n - 1].state == Finished then [PieceBlock(d.index, n - 1)]
      else []
  }

  /** Finished blocks, entry by entry. */
  function FinishedBlocks(ds: seq<DPiece>): seq<PieceBlock> {
    if |ds| == 0 then [] else FinishedBlocks(ds[..|ds| - 1]) + FinishedOf(ds[|ds| - 1], |ds[|ds| - 1].blocks|)
  }

  function HaveBits(status: seq<PieceState>): seq<bool> {
    seq(|status|, i requires 0 <= i < |status| => status[i] == Have)
  }

  function DefinedEndpoints(peers: seq<Policies.Peer>): seq<Endpoint> {
    if |peers| == 0 then []
    else DefinedEndpoints(peers[..|peers| - 1]) + if peers[|peers| - 1].endpoint.Defined()
      then [peers[|peers| - 1].endpoint] else []
  }

  function Save(p: Picker, hashSet: seq<Hash>, peers: seq<Policies.Peer>): ResumeData {
    ResumeData(hashSet, HaveBits(p.status), FinishedBlocks(p.downloading), DefinedEndpoints(peers))
  }

  lemma {:induction false} FinishedOfHas(d: DPiece, n: nat, b: PieceBlock)
    requires n <= |d.blocks|
    ensures b in FinishedOf(d, n) <==> b.piece == d.index && b.block < n && d.blocks[b.block].state == Finished
  {
    if n > 0 {
      FinishedOfHas(d, n - 1, b);
    }
  }

  lemma {:induction false} FinishedBlocksHave(ds: seq<DPiece>, b: PieceBlock)
    ensures b in FinishedBlocks(ds) <==>
              exists k :: 0 <= k < |ds| && ds[k].index == b.piece && b.block < |ds[k].blocks|
                && ds[k].blocks[b.block].state == Finished
  {
    if |ds| > 0 {
      var n := |ds| - 1;
      FinishedBlocksHave(ds[..n], b);
      FinishedOfHas(ds[n], |ds[n].blocks|, b);
      assert forall k :: 0 <= k < n ==> ds[..n][k] == ds[k];
    }
  }

  lemma {:induction false} DefinedHave(peers: seq<Policies.Peer>, e: Endpoint)
    ensures e in DefinedEndpoints(peers) <==>
            e.ip != 0 && e.port != 0 && exists i :: 0 <= i < |peers| && peers[i].endpoint == e
  {
    if |peers| > 0 {
      var n := |peers| - 1;
      DefinedHave(peers[..n], e);
      assert forall k :: 0 <= k < n ==> peers[..n][k] == peers[k];
    }
  }

  /** Saved are the hash set, which pieces are had, exactly the finished blocks of the pieces in progress, and exactly
      the endpoints of the peers that have an address and a port. */
  lemma SavedExactly(p: Picker, hashSet: seq<Hash>, peers: seq<Policies.Peer>)
    requires Inv(p)
    ensures var rd := Save(p, hashSet, peers);
            && rd.hashes == hashSet && |rd.pieces| == |p.status|
            && (forall i :: 0 <= i < |p.status| ==> (rd.pieces[i] <==> p.status[i] == Have))
            && (forall b :: b in rd.blocks <==>
                  p.Valid(b) && p.status[b.piece] == Downloading && BlockAt(p, b).state == Finished)
            && forall e :: e in rd.peers <==>
                 e.ip != 0 && e.port != 0 && exists i :: 0 <= i < |peers| && peers[i].endpoint == e
  {
    forall e: Endpoint
      ensures e in DefinedEndpoints(peers) <==>
                e.ip != 0 && e.port != 0 && exists i :: 0 <= i < |peers| && peers[i].endpoint == e
    {
      DefinedHave(peers, e);
    }
    forall b: PieceBlock
      ensures b in FinishedBlocks(p.downloading) <==>
                p.Valid(b) && p.status[b.piece] == Downloading && BlockAt(p, b).state == Finished
    {
      SavedBlock(p, b);
    }
  }

  lemma SavedBlock(p: Picker, b: PieceBlock)
    requires Inv(p)
    ensures b in FinishedBlocks(p.downloading) <==>
              p.Valid(b) && p.status[b.piece] == Downloading && BlockAt(p, b).state == Finished
  {
    FinishedBlocksHave(p.downloading, b);
    if k :| 0 <= k < |p.downloading| && p.downloading[k].index == b.piece && b.block < |p.downloading[k].blocks|
            && p.downloading[k].blocks[b.block].state == Finished {
      FindUnique(p.downloading, k);
      assert EntryOk(p, p.downloading[k]);
    }
    if p.Valid(b) && p.status[b.piece] == Downloading {
      assert InProgress(p, b.piece) && EntryOk(p, Entry(p, b.piece));
    }
  }

  method ResumeDataOf(p: Picker, hashSet: seq<Hash>, peers: seq<Policies.Peer>) returns (rd: ResumeData)
    ensures rd == Save(p, hashSet, peers)
  {
    var pieces := seq(|p.status|, _ => false);
    for i := 0 to |p.status|
      invariant |pieces| == |p.status| && forall j :: 0 <= j < |pieces| ==> pieces[j] == (j < i && p.status[j] == Have)
    {
      if p.status[i] == Have {
        pieces := pieces[i := true];
      }
    }
    var blocks := [];
    for k := 0 to |p.downloading|
      invariant blocks == FinishedBlocks(p.downloading[..k])
    {
      var d := p.downloading[k];
      assert p.downloading[..k + 1][..k] == p.downloading[..k];
      ghost var before := blocks;
      for j := 0 to |d.blocks|
        invariant blocks == before + FinishedOf(d, j)
      {
        if d.blocks[j].state == Finished {
          blocks := blocks + [PieceBlock(d.index, j)];
        }
      }
    }
    assert p.downloading[..|p.downloading|] == p.downloading;
    var endpoints := [];
    for k := 0 to |peers|
      invariant endpoints == DefinedEndpoints(peers[..k])
    {
      assert peers[..k + 1][..k] == peers[..k];
      if peers[k].endpoint.Defined() {
        endpoints := endpoints + [peers[k].endpoint];
      }
    }
    assert peers[..|peers|] == peers;
    rd := ResumeData(hashSet, pieces, blocks, endpoints);
  }

  // ---------------------------------------------------------------- restoring

  function RestoredStatus(pieces: seq<bool>): seq<PieceState> {
    seq(|pieces|, i requires 0 <= i < |pieces| => if pieces[i] then Have else Missing)
  }

  function RestoreBlocks(p: Picker, bs: seq<PieceBlock>): (q: Picker)
    requires Inv(p) && AllValid(p, bs)
    ensures Inv(q) && |q.status| == |p.status| && q.blocksInLast == p.blocksInLast
  {
    if |bs| == 0 then p
    else
      var n := |bs| - 1;
      assert p.Valid(bs[n]);
      var q := RestoreBlocks(p, bs[..n]);
      WeHaveBlockKeeps(q, bs[n]);
      WeHaveBlock(q, bs[n])
  }

  function RestorePeers(es: seq<Endpoint>): seq<Policies.Peer> {
    if |es| == 0 then []
    else
      var peers := RestorePeers(es[..|es| - 1]);
      var e := es[|es| - 1];
      if e.Defined() && |peers| < MAX_PEERS then Added(peers, Resumed(e)) else peers
  }

  function Restored(rd: ResumeData, blocksInLast: nat): Picker { Picker(RestoredStatus(rd.pieces), [], blocksInLast) }

  lemma RestoredInv(rd: ResumeData, blocksInLast: nat)
    requires 1 <= blocksInLast <= BLOCKS_PER_PIECE
    ensures Inv(Restored(rd, blocksInLast))
  {
  }

  /** restoreResumeData and the completions of the restored blocks, on a new picker and an empty peer list.
      Peers from resume data can all be connected to, so that a full list is not thinned out. */
  method RestoreResumeData(rd: ResumeData, picker: PiecePicker, policy: Policy)
    requires 1 <= picker.blocksInLast <= BLOCKS_PER_PIECE
             && picker.State() == NewPicker(|rd.pieces|, picker.blocksInLast)
    requires policy.peers == [] && AllValid(Restored(rd, picker.blocksInLast), rd.blocks)
    modifies picker, policy
    ensures Inv(Restored(rd, picker.blocksInLast))
            && picker.State() == RestoreBlocks(Restored(rd, picker.blocksInLast), rd.blocks)
    ensures policy.peers == RestorePeers(rd.peers)
  {
    RestoreBits(rd, picker);
    RestoredInv(rd, picker.blocksInLast);
    RestorePeerList(rd.peers, policy);
    RestoreBlockList(rd.blocks, picker);
  }

  method RestoreBits(rd: ResumeData, picker: PiecePicker)
    requires picker.State() == NewPicker(|rd.pieces|, picker.blocksInLast)
    modifies picker
    ensures picker.State() == Restored(rd, picker.blocksInLast)
  {
    for i := 0 to |rd.pieces|
      invariant picker.downloadingPieces == [] && |picker.pieceStatus| == |rd.pieces|
      invariant forall j :: 0 <= j < |rd.pieces| ==>
                picker.pieceStatus[j] == if j < i && rd.pieces[j] then Have else Missing
    {
      if rd.pieces[i] {
        picker.RestoreHave(i);
      }
    }
  }

  ghost predicate NoneErasable(peers: seq<Policies.Peer>) {
    forall i :: 0 <= i < |peers| ==> !IsEraseCandidate(peers[i])
  }

  /** A full list of such peers stays full, so that one more is refused. */
  method RestorePeer(e: Endpoint, policy: Policy)
    requires Sorted(policy.peers) && |policy.peers| <= MAX_PEERS && NoneErasable(policy.peers)
    modifies policy
    ensures policy.peers == if |old(policy.peers)| < MAX_PEERS then Added(old(policy.peers), Resumed(e))
            else old(policy.peers)
    ensures Sorted(policy.peers) && |policy.peers| <= MAX_PEERS && NoneErasable(policy.peers)
  {
    if |policy.peers| >= MAX_PEERS {
      ErasedMakesRoom(policy.peers, 0);
    }
    var outcome := policy.AddPeer(Resumed(e), 0);
  }

  method RestorePeerList(es: seq<Endpoint>, policy: Policy)
    requires policy.peers == []
    modifies policy
    ensures policy.peers == RestorePeers(es)
  {
    for k := 0 to |es|
      invariant Sorted(policy.peers) && policy.peers == RestorePeers(es[..k])
      invariant |policy.peers| <= MAX_PEERS && NoneErasable(policy.peers)
    {
      assert es[..k + 1][..k] == es[..k];
      if es[k].Defined() {
        RestorePeer(es[k], policy);
      }
    }
    assert es[..|es|] == es;
  }

  method RestoreBlockList(bs: seq<PieceBlock>, picker: PiecePicker)
    requires Inv(picker.State()) && AllValid(picker.State(), bs)
    modifies picker
    ensures picker.State() == RestoreBlocks(old(picker.State()), bs)
  {
    ghost var base := picker.State();
    for k := 0 to |bs|
      invariant AllValid(base, bs[..k]) && picker.State() == RestoreBlocks(base, bs[..k])
    {
      assert bs[..k] + [bs[k]] == bs[..k + 1] && base.Valid(bs[k]);
      RestoreBlocksLast(base, bs[..k], bs[k]);
      picker.WeHaveBlock(bs[k]);
    }
    assert bs[..|bs|] == bs;
  }

  // ---------------------------------------------------------------- one piece

  /** The entry that restoring leaves: nothing but the finished ones among the first n blocks. */
  function Only(d: DPiece, n: nat): DPiece {
    DPiece(d.index, seq(|d.blocks|,
                        j requires 0 <= j < |d.blocks| => if j < n && d.blocks[j].state == Finished then FRESH.Finish()
                        else FRESH))
  }

  function WithEntry(p: Picker, d: DPiece): Picker
    requires d.index < |p.status|
  {
    p.(downloading := p.downloading + [d], status := p.status[d.index := Downloading])
  }

  lemma {:induction false} FinishedValid(p: Picker, d: DPiece, n: nat)
    requires n <= |d.blocks| == p.Blocks(d.index) && d.index < |p.status|
    ensures AllValid(p, FinishedOf(d, n))
  {
    if n > 0 {
      FinishedValid(p, d, n - 1);
    }
  }

  lemma OpenIsFresh(p: Picker, d: DPiece)
    requires d.index < |p.status| && |d.blocks| == p.Blocks(d.index)
    ensures NewPiece(p, d.index) == Only(d, 0) && Open(p, d.index) == WithEntry(p, Only(d, 0))
  {
  }

  /** Restoring block n of a piece whose entry is the last one. */
  lemma NextBlock(p: Picker, d: DPiece, n: nat)
    requires Inv(p) && !InProgress(p, d.index) && d.index < |p.status| && n < |d.blocks| == p.Blocks(d.index)
             && d.blocks[n].state == Finished
    ensures var q := WithEntry(p, Only(d, n));
            InProgress(q, d.index) && Entry(q, d.index) == Only(d, n)
            && SetBlock(q, PieceBlock(d.index, n), BlockAt(q, PieceBlock(d.index, n)).Finish()) ==
               WithEntry(p, Only(d, n + 1))
  {
    var q := WithEntry(p, Only(d, n));
    FindAppend(p.downloading, Only(d, n), d.index);
    assert Only(d, n).blocks[n := FRESH.Finish()] == Only(d, n + 1).blocks;
    assert (p.downloading + [Only(d, n)])[|p.downloading| := Only(d, n + 1)] == p.downloading + [Only(d, n + 1)];
  }

  lemma {:induction false} RestorePiecePrefix(p: Picker, d: DPiece, n: nat)
    requires Inv(p) && !InProgress(p, d.index) && d.index < |p.status| && n <= |d.blocks| == p.Blocks(d.index)
    ensures AllValid(p, FinishedOf(d, n))
    ensures RestoreBlocks(p, FinishedOf(d, n)) == if FinishedOf(d, n) == [] then p else WithEntry(p, Only(d, n))
  {
    FinishedValid(p, d, n);
    if n > 0 {
      FinishedValid(p, d, n - 1);
      RestorePiecePrefix(p, d, n - 1);
      if d.blocks[n - 1].state == Finished {
        RestoreNext(p, d, n - 1);
      } else {
        RestoreSkip(d, n - 1);
      }
    }
  }

  lemma RestoreSkip(d: DPiece, n: nat)
    requires n < |d.blocks| && d.blocks[n].state != Finished
    ensures FinishedOf(d, n + 1) == FinishedOf(d, n) && Only(d, n + 1) == Only(d, n)
  {
  }

  lemma RestoreBlocksLast(p: Picker, bs: seq<PieceBlock>, b: PieceBlock)
    requires Inv(p) && AllValid(p, bs) && AllValid(p, bs + [b])
    ensures p.Valid(b) && RestoreBlocks(p, bs).Valid(b)
            && RestoreBlocks(p, bs + [b]) == WeHaveBlock(RestoreBlocks(p, bs), b)
  {
    assert (bs + [b])[|bs|] == b && (bs + [b])[..|bs|] == bs;
  }

  lemma RestoreNext(p: Picker, d: DPiece, n: nat)
    requires Inv(p) && !InProgress(p, d.index) && d.index < |p.status| && n < |d.blocks| == p.Blocks(d.index)
             && d.blocks[n].state == Finished
    requires AllValid(p, FinishedOf(d, n)) && AllValid(p, FinishedOf(d, n + 1))
    requires RestoreBlocks(p, FinishedOf(d, n)) == if FinishedOf(d, n) == [] then p else WithEntry(p, Only(d, n))
    ensures RestoreBlocks(p, FinishedOf(d, n + 1)) == WithEntry(p, Only(d, n + 1))
  {
    RestoreBlocksLast(p, FinishedOf(d, n), PieceBlock(d.index, n));
    NextBlock(p, d, n);
    if FinishedOf(d, n) == [] {
      NoneBefore(d, n);
      OpenIsFresh(p, d);
    }
  }

  lemma {:induction false} NoneBefore(d: DPiece, n: nat)
    requires n <= |d.blocks| && FinishedOf(d, n) == []
    ensures Only(d, n) == Only(d, 0)
  {
    if n > 0 {
      NoneBefore(d, n - 1);
    }
  }

  lemma {:induction false} OnlyFinished(d: DPiece, n: nat)
    requires n <= |d.blocks|
    ensures FinishedOf(Only(d, |d.blocks|), n) == FinishedOf(d, n)
  {
    if n > 0 {
      OnlyFinished(d, n - 1);
    }
  }

  // ---------------------------------------------------------------- all pieces

  lemma {:induction false} RestoreAppend(p: Picker, a: seq<PieceBlock>, b: seq<PieceBlock>)
    requires Inv(p) && AllValid(p, a + b)
    ensures AllValid(p, a) && AllValid(RestoreBlocks(p, a), b)
    ensures RestoreBlocks(p, a + b) == RestoreBlocks(RestoreBlocks(p, a), b)
  {
    assert forall x :: x in a || x in b ==> x in a + b;
    if |b| == 0 {
      assert a + b == a;
    } else {
      var n := |b| - 1;
      assert (a + b)[..|a + b| - 1] == a + b[..n];
      assert AllValid(p, a + b[..n]);
      RestoreAppend(p, a, b[..n]);
    }
  }

  /** The entries that restoring leaves: those with a finished block, in order, with nothing but those. */
  function Remaining(ds: seq<DPiece>): seq<DPiece> {
    if |ds| == 0 then []
    else
      var d := ds[|ds| - 1];
      Remaining(ds[..|ds| - 1]) + if FinishedOf(d, |d.blocks|) == [] then [] else [Only(d, |d.blocks|)]
  }

  lemma {:induction false} RemainingFinished(ds: seq<DPiece>)
    ensures FinishedBlocks(Remaining(ds)) == FinishedBlocks(ds)
  {
    if |ds| > 0 {
      var n := |ds| - 1;
      RemainingFinished(ds[..n]);
      var d, r := ds[n], Remaining(ds[..n]);
      OnlyFinished(d, |d.blocks|);
      assert (r + [Only(d, |d.blocks|)])[..|r|] == r;
      assert r + [] == r;
    }
  }

  lemma {:induction false} RemainingIndices(ds: seq<DPiece>, i: nat)
    requires Find(Remaining(ds), i) < |Remaining(ds)|
    ensures Find(ds, i) < |ds|
  {
    var n := |ds| - 1;
    var d, r := ds[n], Remaining(ds[..n]);
    assert ds == ds[..n] + [d];
    FindAppend(ds[..n], d, i);
    FindAppend(r, Only(d, |d.blocks|), i);
    assert r + [] == r;
    if d.index != i {
      RemainingIndices(ds[..n], i);
    }
  }

  /** Entries of pieces that are not had, one each, with as many blocks as the piece has. */
  ghost predicate Restorable(base: Picker, ds: seq<DPiece>) {
    && Inv(base) && base.downloading == [] && Distinct(ds)
    && forall k {:trigger ds[k]} :: 0 <= k < |ds| ==>
       ds[k].index < |base.status| && base.status[ds[k].index] != Have && |ds[k].blocks| == base.Blocks(ds[k].index)
  }

  /** What restoring the blocks of these entries gives. */
  ghost predicate RestoredTo(base: Picker, ds: seq<DPiece>, q: Picker) {
    && Inv(q) && q.downloading == Remaining(ds) && q.blocksInLast == base.blocksInLast && |q.status| == |base.status|
    && forall i :: 0 <= i < |base.status| ==> (q.status[i] == Have <==> base.status[i] == Have)
  }

  lemma {:induction false} RestoreEntries(base: Picker, ds: seq<DPiece>)
    requires Restorable(base, ds)
    ensures AllValid(base, FinishedBlocks(ds)) && RestoredTo(base, ds, RestoreBlocks(base, FinishedBlocks(ds)))
  {
    if |ds| > 0 {
      var n := |ds| - 1;
      FewerEntries(base, ds);
      RestoreEntries(base, ds[..n]);
      OneMoreEntry(base, ds, FinishedBlocks(ds[..n]), FinishedOf(ds[n], |ds[n].blocks|));
    }
  }

  lemma FewerEntries(base: Picker, ds: seq<DPiece>)
    requires |ds| > 0 && Restorable(base, ds)
    ensures Restorable(base, ds[..|ds| - 1])
  {
  }

  lemma OneMoreEntry(base: Picker, ds: seq<DPiece>, a: seq<PieceBlock>, b: seq<PieceBlock>)
    requires |ds| > 0 && Restorable(base, ds) && AllValid(base, a)
             && RestoredTo(base, ds[..|ds| - 1], RestoreBlocks(base, a))
    requires b == FinishedOf(ds[|ds| - 1], |ds[|ds| - 1].blocks|)
    ensures AllValid(base, a + b) && RestoredTo(base, ds, RestoreBlocks(base, a + b))
  {
    var n := |ds| - 1;
    var q := RestoreBlocks(base, a);
    FinishedValid(base, ds[n], |ds[n].blocks|);
    RestoreAlso(base, a, b);
    NotYet(base, ds, q);
    OneMorePiece(base, ds, q);
  }

  lemma RestoreAlso(p: Picker, a: seq<PieceBlock>, b: seq<PieceBlock>)
    requires Inv(p) && AllValid(p, a) && AllValid(p, b)
    ensures AllValid(p, a + b) && AllValid(RestoreBlocks(p, a), b)
    ensures RestoreBlocks(p, a + b) == RestoreBlocks(RestoreBlocks(p, a), b)
  {
    RestoreAppend(p, a, b);
  }

  lemma NotYet(base: Picker, ds: seq<DPiece>, q: Picker)
    requires |ds| > 0 && Restorable(base, ds) && RestoredTo(base, ds[..|ds| - 1], q)
    ensures !InProgress(q, ds[|ds| - 1].index)
  {
    var n := |ds| - 1;
    if InProgress(q, ds[n].index) {
      RemainingIndices(ds[..n], ds[n].index);
      assert false;
    }
  }

  lemma OneMorePiece(base: Picker, ds: seq<DPiece>, q: Picker)
    requires |ds| > 0 && Restorable(base, ds) && RestoredTo(base, ds[..|ds| - 1], q)
             && !InProgress(q, ds[|ds| - 1].index)
    ensures var d := ds[|ds| - 1];
            AllValid(q, FinishedOf(d, |d.blocks|)) && RestoredTo(base, ds, RestoreBlocks(q, FinishedOf(d, |d.blocks|)))
  {
    var d := ds[|ds| - 1];
    assert d.index < |base.status| && base.status[d.index] != Have;
    RestorePiecePrefix(q, d, |d.blocks|);
    assert Remaining(ds[..|ds| - 1]) + [] == Remaining(ds[..|ds| - 1]);
  }

  // ---------------------------------------------------------------- peers

  ghost predicate Ascending(es: seq<Endpoint>) { forall i, j :: 0 <= i < j < |es| ==> Compare(es[i], es[j]) < 0 }

  lemma {:induction false} DefinedListed(peers: seq<Policies.Peer>, i: nat)
    requires i < |DefinedEndpoints(peers)|
    ensures DefinedEndpoints(peers)[i].Defined() && exists k ::
            0 <= k < |peers| && peers[k].endpoint == DefinedEndpoints(peers)[i]
  {
    var n := |peers| - 1;
    if i < |DefinedEndpoints(peers[..n])| {
      DefinedListed(peers[..n], i);
      var k :| 0 <= k < n && peers[..n][k].endpoint == DefinedEndpoints(peers[..n])[i];
      assert peers[k].endpoint == DefinedEndpoints(peers)[i];
    }
  }

  lemma {:induction false} DefinedAscending(peers: seq<Policies.Peer>)
    requires Sorted(peers)
    ensures Ascending(DefinedEndpoints(peers)) && |DefinedEndpoints(peers)| <= |peers|
  {
    if |peers| > 0 {
      var n := |peers| - 1;
      DefinedAscending(peers[..n]);
      var es := DefinedEndpoints(peers[..n]);
      forall i | 0 <= i < |es|
        ensures Compare(es[i], peers[n].endpoint) < 0
      {
        DefinedListed(peers[..n], i);
        var k :| 0 <= k < n && peers[..n][k].endpoint == es[i];
        assert peers[k].endpoint == es[i];
      }
    }
  }

  function Resumed(e: Endpoint): Policies.Peer { NewPeer(e, true, {Source.Resume}) }

  lemma AddedLast(peers: seq<Policies.Peer>, peer: Policies.Peer)
    requires forall i :: 0 <= i < |peers| ==> Compare(peers[i].endpoint, peer.endpoint) < 0
    ensures Added(peers, peer) == peers + [peer]
  {
    assert Position(peers, peer.endpoint) == |peers|;
  }

  function ResumedAll(es: seq<Endpoint>): (r: seq<Policies.Peer>)
    ensures |r| == |es|
    ensures forall i :: 0 <= i < |es| ==> r[i].endpoint == es[i]
  {
    seq(|es|, i requires 0 <= i < |es| => Resumed(es[i]))
  }

  ghost predicate Savable(es: seq<Endpoint>) {
    Ascending(es) && |es| <= MAX_PEERS && forall i :: 0 <= i < |es| ==> es[i].Defined()
  }

  lemma SavableFirst(xs: seq<Endpoint>, e: Endpoint)
    requires Savable(xs + [e])
    ensures Savable(xs) && e.Defined() && |xs| < MAX_PEERS
    ensures forall i :: 0 <= i < |xs| ==> Compare(ResumedAll(xs)[i].endpoint, Resumed(e).endpoint) < 0
  {
    var es := xs + [e];
    assert es[|xs|] == e;
    forall i | 0 <= i < |xs|
      ensures xs[i].Defined() && Compare(xs[i], e) < 0
    {
      assert es[i] == xs[i];
    }
    forall i, j | 0 <= i < j < |xs|
      ensures Compare(xs[i], xs[j]) < 0
    {
      assert es[i] == xs[i] && es[j] == xs[j];
    }
  }

  lemma ResumedNext(xs: seq<Endpoint>, e: Endpoint)
    ensures ResumedAll(xs) + [Resumed(e)] == ResumedAll(xs + [e])
  {
  }

  lemma RestoreLast(xs: seq<Endpoint>, e: Endpoint)
    requires e.Defined() && |RestorePeers(xs)| < MAX_PEERS
    ensures RestorePeers(xs + [e]) == Added(RestorePeers(xs), Resumed(e))
  {
    assert (xs + [e])[..|xs|] == xs;
  }

  lemma RestoreOnePeer(xs: seq<Endpoint>, e: Endpoint)
    requires Savable(xs + [e]) && RestorePeers(xs) == ResumedAll(xs)
    ensures RestorePeers(xs + [e]) == ResumedAll(xs + [e])
  {
    SavableFirst(xs, e);
    AddedLast(ResumedAll(xs), Resumed(e));
    RestoreLast(xs, e);
    ResumedNext(xs, e);
  }

  lemma {:induction false} RestoredPeers(es: seq<Endpoint>)
    requires Savable(es)
    ensures RestorePeers(es) == ResumedAll(es)
  {
    if |es| > 0 {
      var xs, e := es[..|es| - 1], es[|es| - 1];
      assert es == xs + [e];
      SavableFirst(xs, e);
      RestoredPeers(xs);
      RestoreOnePeer(xs, e);
    }
  }

  lemma {:induction false} SavedPeers(peers: seq<Policies.Peer>, es: seq<Endpoint>)
    requires |peers| == |es| && forall i :: 0 <= i < |es| ==> es[i].Defined() && peers[i].endpoint == es[i]
    ensures DefinedEndpoints(peers) == es
  {
    if |es| > 0 {
      var n := |es| - 1;
      SavedPeers(peers[..n], es[..n]);
      assert es == es[..n] + [es[n]];
    }
  }

  // ---------------------------------------------------------------- the round trip

  /** Saving, restoring and saving again gives the same resume data. */
  lemma SaveRestoreSave(p: Picker, hashSet: seq<Hash>, peers: seq<Policies.Peer>)
    requires Inv(p) && Sorted(peers) && |peers| <= MAX_PEERS
    ensures var rd := Save(p, hashSet, peers);
            var base := Restored(rd, p.blocksInLast);
            && Inv(base) && AllValid(base, rd.blocks)
            && Save(RestoreBlocks(base, rd.blocks), [] + rd.hashes, RestorePeers(rd.peers)) == rd
  {
    PickerRoundTrip(p);
    PeersRoundTrip(peers);
    assert [] + hashSet == hashSet;
  }

  lemma PickerRoundTrip(p: Picker)
    requires Inv(p)
    ensures var base := Picker(RestoredStatus(HaveBits(p.status)), [], p.blocksInLast);
            && Inv(base) && AllValid(base, FinishedBlocks(p.downloading))
            && HaveBits(RestoreBlocks(base, FinishedBlocks(p.downloading)).status) == HaveBits(p.status)
            && FinishedBlocks(RestoreBlocks(base, FinishedBlocks(p.downloading)).downloading) ==
               FinishedBlocks(p.downloading)
  {
    var base := Picker(RestoredStatus(HaveBits(p.status)), [], p.blocksInLast);
    RestoredInv(Save(p, [], []), p.blocksInLast);
    EntriesRestorable(p, base);
    RestoreEntries(base, p.downloading);
    RemainingFinished(p.downloading);
    SameBits(RestoreBlocks(base, FinishedBlocks(p.downloading)).status, p.status);
  }

  lemma SameBits(a: seq<PieceState>, b: seq<PieceState>)
    requires |a| == |b| && forall i :: 0 <= i < |a| ==> (a[i] == Have <==> RestoredStatus(HaveBits(b))[i] == Have)
    ensures HaveBits(a) == HaveBits(b)
  {
  }

  lemma PeersRoundTrip(peers: seq<Policies.Peer>)
    requires Sorted(peers) && |peers| <= MAX_PEERS
    ensures DefinedEndpoints(RestorePeers(DefinedEndpoints(peers))) == DefinedEndpoints(peers)
  {
    var es := DefinedEndpoints(peers);
    DefinedAscending(peers);
    forall i | 0 <= i < |es|
      ensures es[i].Defined()
    {
      DefinedListed(peers, i);
    }
    RestoredPeers(es);
    SavedPeers(RestorePeers(es), es);
  }

  lemma EntriesRestorable(p: Picker, base: Picker)
    requires Inv(p) && Inv(base) && base == Picker(RestoredStatus(HaveBits(p.status)), [], p.blocksInLast)
    ensures Restorable(base, p.downloading)
  {
    forall k | 0 <= k < |p.downloading|
      ensures p.downloading[k].index < |base.status| && base.status[p.downloading[k].index] != Have
      ensures |p.downloading[k].blocks| == base.Blocks(p.downloading[k].index)
    {
      assert EntryOk(p, p.downloading[k]);
      FindUnique(p.downloading, k);
      assert InProgress(p, p.downloading[k].index);
    }
  }

  /** What is forgotten: after restoring no block is requested or being written. */
  lemma OnlyFinishedRemain(p: Picker, b: PieceBlock)
    requires Inv(p)
    ensures var rd := Save(p, [], []);
            var base := Restored(rd, p.blocksInLast);
            && Inv(base) && AllValid(base, rd.blocks)
            && BlockAt(RestoreBlocks(base, rd.blocks), b).state in {Free, Finished}
  {
    var rd := Save(p, [], []);
    var base := Restored(rd, p.blocksInLast);
    RestoredInv(rd, p.blocksInLast);
    EntriesRestorable(p, base);
    RestoreEntries(base, p.downloading);
    RemainingStates(p.downloading);
  }

  lemma {:induction false} RemainingStates(ds: seq<DPiece>)
    ensures forall k, j :: 0 <= k < |Remaining(ds)| && 0 <= j < |Remaining(ds)[k].blocks| ==>
            Remaining(ds)[k].blocks[j].state in {Free, Finished}
  {
    if |ds| > 0 {
      RemainingStates(ds[..|ds| - 1]);
    }
  }
}
