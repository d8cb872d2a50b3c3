/** The peer list of a transfer: sorted by endpoint, searched, and asked for the next peer to connect to
    (policy.go, peer.go). */
module Policies {
  import opened Wrappers

  const MAX_PEERS: nat := 100
  const RECONNECT: int := 10

  datatype Endpoint = Endpoint(ip: int, port: int) {
    predicate Defined() { ip != 0 && port != 0 }
  }

  datatype Source = Server | Dht | Incoming | Resume

  datatype Peer = Peer(endpoint: Endpoint, connectable: bool, connected: bool, failCount: nat, lastConnected: int,
                       nextConnection: int, sources: set<Source>)

  function NewPeer(e: Endpoint, connectable: bool, sources: set<Source>): Peer {
    Peer(e, connectable, false, 0, 0, 0, sources)
  }

  function Compare(a: Endpoint, b: Endpoint): int {
    if a.ip > b.ip then 1 else if a.ip < b.ip then -1 else if a.port > b.port then 1 else if a.port < b.port then -1
      else 0
  }

  /** Strictly increasing endpoints. */
  ghost predicate Sorted(peers: seq<Peer>) {
    forall i, j :: 0 <= i < j < |peers| ==> Compare(peers[i].endpoint, peers[j].endpoint) < 0
  }

  lemma CompareIsOrder(a: Endpoint, b: Endpoint, c: Endpoint)
    ensures Compare(a, b) == 0 <==> a == b
    ensures Compare(a, b) < 0 <==> Compare(b, a) > 0
    ensures Compare(a, b) < 0 && Compare(b, c) <= 0 ==> Compare(a, c) < 0
    ensures Compare(a, b) <= 0 && Compare(b, c) < 0 ==> Compare(a, c) < 0
  {
  }

  /** Where an endpoint is in a sorted list, or belongs. */
  function Position(peers: seq<Peer>, e: Endpoint): (k: nat)
    ensures k <= |peers|
    ensures forall i :: 0 <= i < k ==> Compare(peers[i].endpoint, e) < 0
    ensures k < |peers| ==> Compare(peers[k].endpoint, e) >= 0
  {
    if |peers| == 0 || Compare(peers[0].endpoint, e) >= 0 then 0 else 1 + Position(peers[1..], e)
  }

  predicate FoundAt(peers: seq<Peer>, k: nat, e: Endpoint) { k < |peers| && peers[k].endpoint == e }

  function Added(peers: seq<Peer>, peer: Peer): seq<Peer> {
    var k := Position(peers, peer.endpoint);
    if FoundAt(peers, k, peer.endpoint) then peers[k := peers[k].(sources := peers[k].sources + peer.sources)]
    else peers[..k] + [peer] + peers[k..]
  }

  lemma Apart(x: Endpoint, e: Endpoint)
    requires Compare(x, e) >= 0 && x != e
    ensures Compare(e, x) < 0
  {
  }

  lemma AfterPosition(peers: seq<Peer>, e: Endpoint, k: nat, i: nat)
    requires Sorted(peers) && k <= i < |peers| && Compare(peers[k].endpoint, e) >= 0 && peers[k].endpoint != e
    ensures Compare(e, peers[i].endpoint) < 0
  {
    Apart(peers[k].endpoint, e);
    if k < i {
      CompareIsOrder(e, peers[k].endpoint, peers[i].endpoint);
    }
  }

  lemma AddedSorted(peers: seq<Peer>, peer: Peer)
    requires Sorted(peers)
    ensures Sorted(Added(peers, peer))
  {
    var k := Position(peers, peer.endpoint);
    if !FoundAt(peers, k, peer.endpoint) {
      forall i | k <= i < |peers|
        ensures Compare(peer.endpoint, peers[i].endpoint) < 0
      {
        AfterPosition(peers, peer.endpoint, k, i);
      }
    }
  }

  lemma AddedHas(peers: seq<Peer>, peer: Peer, e: Endpoint)
    requires Listed(peers, e) || e == peer.endpoint
    ensures Listed(Added(peers, peer), e)
  {
    var k, r := Position(peers, peer.endpoint), Added(peers, peer);
    if i :| 0 <= i < |peers| && peers[i].endpoint == e {
      assert r[if FoundAt(peers, k, peer.endpoint) || i < k then i else i + 1].endpoint == e;
    }
    assert r[k].endpoint == peer.endpoint;
  }

  lemma AddedOnly(peers: seq<Peer>, peer: Peer, e: Endpoint)
    requires Listed(Added(peers, peer), e) && e != peer.endpoint
    ensures Listed(peers, e)
  {
    var k, r := Position(peers, peer.endpoint), Added(peers, peer);
    var i :| 0 <= i < |r| && r[i].endpoint == e;
    assert peers[if FoundAt(peers, k, peer.endpoint) || i < k then i else i - 1].endpoint == e;
  }

  /** The list stays sorted; the endpoint is in it afterwards, once, and no other endpoint comes or goes. */
  lemma AddedKeeps(peers: seq<Peer>, peer: Peer)
    requires Sorted(peers)
    ensures Sorted(Added(peers, peer))
    ensures forall e :: Listed(Added(peers, peer), e) <==> Listed(peers, e) || e == peer.endpoint
  {
    AddedSorted(peers, peer);
    forall e
      ensures Listed(Added(peers, peer), e) <==> Listed(peers, e) || e == peer.endpoint
    {
      if Listed(peers, e) || e == peer.endpoint {
        AddedHas(peers, peer, e);
      } else if Listed(Added(peers, peer), e) {
        AddedOnly(peers, peer, e);
      }
    }
  }

  /** One listed before keeps its place and everything, and only gains sources; nobody else changes. */
  lemma KnownGainsSources(peers: seq<Peer>, peer: Peer, i: nat)
    requires Sorted(peers) && i < |peers| && peers[i].endpoint == peer.endpoint
    ensures Added(peers, peer) == peers[i := peers[i].(sources := peers[i].sources + peer.sources)]
  {
    var k := Position(peers, peer.endpoint);
    CompareIsOrder(peers[i].endpoint, peer.endpoint, peer.endpoint);
    assert k == i;
  }

  /** A new peer is listed as it is, and nobody else changes. */
  lemma NewIsListed(peers: seq<Peer>, peer: Peer, p: Peer)
    requires Sorted(peers) && !Listed(peers, peer.endpoint)
    ensures p in Added(peers, peer) <==> p in peers || p == peer
  {
    var k := Position(peers, peer.endpoint);
    assert !FoundAt(peers, k, peer.endpoint);
    assert peers == peers[..k] + peers[k..];
  }

  ghost predicate Listed(peers: seq<Peer>, e: Endpoint) { exists i :: 0 <= i < |peers| && peers[i].endpoint == e }

  // ---------------------------------------------------------------- thinning out a full list

  const LOW_WATERMARK: nat := 95
  const MAX_SCAN: nat := 300

  predicate IsEraseCandidate(p: Peer) { !p.connected && !IsConnectCandidate(p) && p.failCount > 0 }

  /** Not connected, has failed, and is out of the question for a connection. */
  predicate Expendable(p: Peer) { !p.connected && p.failCount > 0 && (p.failCount > 10 || !p.connectable) }

  /** Peers known from resume data are erased at once, of the others only the worst. */
  predicate ErasedAtOnce(p: Peer) { Resume in p.sources }

  /** a is to be erased rather than b. */
  predicate Worse(a: Peer, b: Peer) {
    if a.failCount != b.failCount then a.failCount > b.failCount
    else if ErasedAtOnce(a) != ErasedAtOnce(b) then ErasedAtOnce(a)
    else !a.connectable && b.connectable
  }

  function Drop(peers: seq<Peer>, k: nat): seq<Peer>
    requires k < |peers|
  {
    peers[..k] + peers[k + 1..]
  }

  /** Midway through ErasePeers: the list, the position to look at, the worst candidate seen that is not erased at
      once. */
  datatype Scan = Scan(peers: seq<Peer>, at: nat, worst: Option<nat>) {
    predicate Ok() {
      worst.Some? ==> worst.value < |peers| && IsEraseCandidate(peers[worst.value]) && !ErasedAtOnce(peers[worst.value])
    }

    predicate Chosen(p: Peer)
      requires Ok()
    {
      IsEraseCandidate(p) && (worst.None? || !Worse(peers[worst.value], p))
    }
  }

  function Look(s: Scan, at: nat): (r: Scan)
    requires s.Ok() && at < |s.peers|
    ensures r.Ok()
  {
    if !s.Chosen(s.peers[at]) then s.(at := at + 1)
    else if ErasedAtOnce(s.peers[at]) then
      Scan(Drop(s.peers, at), at + 1, if s.worst.Some? && s.worst.value > at then Some(s.worst.value - 1) else s.worst)
    else s.(at := at + 1, worst := Some(at))
  }

  /** The loop of ErasePeers for n more rounds; None when it looks past the end of the list. After an erasure the
      position still goes on by one, so behind the last peer it is one too far. */
  function Sweep(s: Scan, n: nat): (r: Option<Scan>)
    requires s.Ok()
    ensures r.Some? ==> r.value.Ok()
    decreases n
  {
    if n == 0 || |s.peers| < LOW_WATERMARK then Some(s)
    else
      var at := if s.at == |s.peers| then 0 else s.at;
      if at >= |s.peers| then None else Sweep(Look(s, at), n - 1)
  }

  function Index(s: Scan): nat { if s.at == |s.peers| then 0 else s.at }

  ghost predicate Stepped(s: Scan, t: Scan) {
    s.Ok() && |s.peers| >= LOW_WATERMARK && Index(s) < |s.peers|
      && t == Look(Scan(s.peers, Index(s), s.worst), Index(s))
  }

  ghost predicate Stuck(s: Scan) { |s.peers| >= LOW_WATERMARK && Index(s) >= |s.peers| }

  /** The states of a scan, round by round. */
  ghost predicate Trace(ss: seq<Scan>) {
    && |ss| > 0 && ss[|ss| - 1].Ok()
    && (|ss| > 1 ==> Trace(ss[..|ss| - 1]) && Stepped(ss[|ss| - 2], ss[|ss| - 1]))
  }

  lemma {:induction false} TraceSweeps(ss: seq<Scan>, n: nat)
    requires Trace(ss) && n >= |ss| - 1
    ensures ss[0].Ok() && Sweep(ss[0], n) == Sweep(ss[|ss| - 1], n - (|ss| - 1))
    decreases |ss|
  {
    if |ss| > 1 {
      TraceSweeps(ss[..|ss| - 1], n);
    }
  }

  lemma TraceEnds(ss: seq<Scan>, n: nat)
    requires Trace(ss) && n >= |ss| - 1
    ensures var last, left := ss[|ss| - 1], n - (|ss| - 1);
            && ss[0].Ok()
            && (left > 0 && Stuck(last) ==> Sweep(ss[0], n).None?)
            && (left == 0 || |last.peers| < LOW_WATERMARK ==> Sweep(ss[0], n) == Some(last))
  {
    TraceSweeps(ss, n);
  }

  function AllRounds(peers: seq<Peer>): nat { if |peers| < MAX_SCAN then |peers| else MAX_SCAN }

  /** ErasePeers with the scan starting at a random position; None is an index past the end. */
  function Erased(peers: seq<Peer>, start: nat): Option<seq<Peer>> {
    var s := Sweep(Scan(peers, start, None), AllRounds(peers));
    if s.None? then None
      else Some(if s.value.worst.Some? then Drop(s.value.peers, s.value.worst.value) else s.value.peers)
  }

  /** Nothing is added, the order stays, and only erase candidates go. */
  ghost predicate Thinned(peers: seq<Peer>, rest: seq<Peer>) {
    && |rest| <= |peers|
    && (Sorted(peers) ==> Sorted(rest))
    && (forall p :: p in rest ==> p in peers)
    && (forall p :: p in peers && p !in rest ==> Expendable(p))
  }

  lemma DropThins(peers: seq<Peer>, k: nat)
    requires k < |peers| && IsEraseCandidate(peers[k])
    ensures Thinned(peers, Drop(peers, k))
  {
    assert peers == peers[..k] + [peers[k]] + peers[k + 1..];
  }

  lemma ThinnedThrough(a: seq<Peer>, b: seq<Peer>, c: seq<Peer>)
    requires Thinned(a, b) && Thinned(b, c)
    ensures Thinned(a, c)
  {
  }

  lemma {:induction false} SweepThins(s: Scan, n: nat)
    requires s.Ok()
    ensures Sweep(s, n).Some? ==> Thinned(s.peers, Sweep(s, n).value.peers)
    decreases n
  {
    if n > 0 && |s.peers| >= LOW_WATERMARK {
      var at := if s.at == |s.peers| then 0 else s.at;
      if at < |s.peers| {
        var t := Look(s, at);
        SweepThins(t, n - 1);
        if s.Chosen(s.peers[at]) && ErasedAtOnce(s.peers[at]) {
          DropThins(s.peers, at);
        }
        if Sweep(t, n - 1).Some? {
          ThinnedThrough(s.peers, t.peers, Sweep(t, n - 1).value.peers);
        }
      }
    }
  }

  /** Whatever is erased was an erase candidate, and the list stays sorted. */
  lemma ErasedThins(peers: seq<Peer>, start: nat)
    ensures Erased(peers, start).Some? ==> Thinned(peers, Erased(peers, start).value)
  {
    var s0 := Scan(peers, start, None);
    SweepThins(s0, AllRounds(peers));
    var s := Sweep(s0, AllRounds(peers));
    if s.Some? && s.value.worst.Some? {
      DropThins(s.value.peers, s.value.worst.value);
      ThinnedThrough(peers, s.value.peers, Erased(peers, start).value);
    }
  }

  /** Position looked at j rounds after `at`, as long as nothing has been erased. */
  function Round(at: nat, j: nat, len: nat): int { if at + j < len then at + j else at + j - len }

  /** None of the peers looked at in n rounds is an erase candidate. */
  predicate RoundsClear(peers: seq<Peer>, at: nat, n: nat)
    requires at <= |peers| && n <= |peers|
  {
    forall j {:trigger Round(at, j, |peers|)} :: 0 <= j < n ==> !IsEraseCandidate(peers[Round(at, j, |peers|)])
  }

  lemma RoundsShift(peers: seq<Peer>, at: nat, n: nat)
    requires at <= |peers| && 0 < n <= |peers|
    ensures var first := if at == |peers| then 0 else at;
            RoundsClear(peers, at, n) <==> !IsEraseCandidate(peers[first]) && RoundsClear(peers, first + 1, n - 1)
  {
    var first, next := if at == |peers| then 0 else at, if at == |peers| then 1 else at + 1;
    assert Round(at, 0, |peers|) == first;
    assert forall j :: 0 <= j < n - 1 ==> Round(next, j, |peers|) == Round(at, j + 1, |peers|);
    assert forall j :: 0 < j < n ==> Round(at, j, |peers|) == Round(next, j - 1, |peers|);
  }

  lemma {:induction false} SweepFindsNone(s: Scan, n: nat)
    requires s.worst.None? && LOW_WATERMARK <= |s.peers| && s.at <= |s.peers| && n <= |s.peers|
    ensures var t := Sweep(s, n);
            RoundsClear(s.peers, s.at, n) <==>
              t.Some? && |t.value.peers| == |s.peers| && t.value.worst.None?
    ensures Sweep(s, n).Some? && |Sweep(s, n).value.peers| == |s.peers| ==> Sweep(s, n).value.peers == s.peers
    decreases n
  {
    if n > 0 {
      var at := if s.at == |s.peers| then 0 else s.at;
      var t := Look(s, at);
      RoundsShift(s.peers, s.at, n);
      if s.Chosen(s.peers[at]) {
        SweepShrinks(t, n - 1);
        if t.worst.Some? {
          SweepKeepsWorst(t, n - 1);
        }
      } else {
        SweepFindsNone(t, n - 1);
      }
    }
  }

  lemma {:induction false} SweepShrinks(s: Scan, n: nat)
    requires s.Ok()
    ensures Sweep(s, n).Some? ==> |Sweep(s, n).value.peers| <= |s.peers|
    ensures Sweep(s, n).Some? && |Sweep(s, n).value.peers| == |s.peers| ==> Sweep(s, n).value.peers == s.peers
    decreases n
  {
    if n > 0 && |s.peers| >= LOW_WATERMARK {
      var at := if s.at == |s.peers| then 0 else s.at;
      if at < |s.peers| {
        SweepShrinks(Look(s, at), n - 1);
      }
    }
  }

  lemma {:induction false} SweepKeepsWorst(s: Scan, n: nat)
    requires s.Ok() && s.worst.Some?
    ensures Sweep(s, n).Some? ==> Sweep(s, n).value.worst.Some?
    decreases n
  {
    if n > 0 && |s.peers| >= LOW_WATERMARK {
      var at := if s.at == |s.peers| then 0 else s.at;
      if at < |s.peers| {
        SweepKeepsWorst(Look(s, at), n - 1);
      }
    }
  }

  lemma AllRoundsClear(peers: seq<Peer>, at: nat)
    requires at <= |peers|
    ensures RoundsClear(peers, at, |peers|) <==> forall i :: 0 <= i < |peers| ==> !IsEraseCandidate(peers[i])
  {
    if RoundsClear(peers, at, |peers|) {
      forall i | 0 <= i < |peers|
        ensures !IsEraseCandidate(peers[i])
      {
        var j := if i >= at then i - at else i + |peers| - at;
        assert Round(at, j, |peers|) == i;
      }
    }
  }

  /** A full list stays full exactly when it has no erase candidate. */
  lemma ErasedMakesRoom(peers: seq<Peer>, start: nat)
    requires LOW_WATERMARK <= |peers| <= MAX_SCAN && start < |peers|
    ensures Erased(peers, start) == Some(peers) <==> forall i :: 0 <= i < |peers| ==> !Expendable(peers[i])
    ensures Erased(peers, start).Some? && Erased(peers, start) != Some(peers) ==> |Erased(peers, start).value| < |peers|
  {
    var s := Scan(peers, start, None);
    SweepFindsNone(s, |peers|);
    SweepShrinks(s, |peers|);
    AllRoundsClear(peers, start);
    assert forall p :: IsEraseCandidate(p) <==> Expendable(p);
  }

  /** More failures first, then those known from resume data, then those that cannot be connected to. */
  lemma WorseMeaning(a: Peer, b: Peer)
    ensures Worse(a, b) <==>
            || a.failCount > b.failCount
            || (a.failCount == b.failCount && Resume in a.sources && Resume !in b.sources)
            || (a.failCount == b.failCount && (Resume in a.sources <==> Resume in b.sources)
                && !a.connectable && b.connectable)
  {
  }

  /** What n rounds of a scan that removes nobody have found. */
  ghost predicate Picked(s: Scan, n: nat, worst: Option<nat>)
    requires s.Ok() && s.at <= |s.peers| && n <= |s.peers|
  {
    && (worst.None? ==> RoundsClear(s.peers, s.at, n) && s.worst.None?)
    && (worst.Some? ==>
          && worst.value < |s.peers| && IsEraseCandidate(s.peers[worst.value])
          && RoundsBelow(s.peers, s.at, n, s.peers[worst.value])
          && (s.worst.Some? ==> !Worse(s.peers[s.worst.value], s.peers[worst.value])))
  }

  /** Without peers that are erased at once the scan removes nobody, and remembers one that none of those it has looked
      at is worse than. */
  lemma {:induction false} SweepPicks(s: Scan, n: nat)
    requires s.Ok() && LOW_WATERMARK <= |s.peers| && s.at <= |s.peers| && n <= |s.peers|
    requires forall i :: 0 <= i < |s.peers| ==> !GoesAtOnce(s.peers[i])
    ensures var t := Sweep(s, n); t.Some? && t.value.peers == s.peers && Picked(s, n, t.value.worst)
    decreases n
  {
    if n > 0 {
      var t := Look(s, if s.at == |s.peers| then 0 else s.at);
      SweepPicks(t, n - 1);
      PickedFirst(s, t, n, Sweep(t, n - 1).value.worst);
    }
  }

  lemma PickedFirst(s: Scan, t: Scan, n: nat, worst: Option<nat>)
    requires s.Ok() && s.at <= |s.peers| && 0 < n <= |s.peers|
    requires t == Look(s, if s.at == |s.peers| then 0 else s.at) && t.peers == s.peers && Picked(t, n - 1, worst)
    ensures Picked(s, n, worst)
  {
    RoundsShift(s.peers, s.at, n);
    if worst.Some? {
      RoundsFirst(s.peers, s.at, n, s.peers[worst.value]);
    }
  }

  /** None of the erase candidates looked at in n rounds is worse than p. */
  predicate RoundsBelow(peers: seq<Peer>, at: nat, n: nat, p: Peer)
    requires at <= |peers| && n <= |peers|
  {
    forall j {:trigger Round(at, j, |peers|)} :: 0 <= j < n && IsEraseCandidate(peers[Round(at, j, |peers|)]) ==>
      !Worse(peers[Round(at, j, |peers|)], p)
  }

  lemma RoundsFirst(peers: seq<Peer>, at: nat, n: nat, p: Peer)
    requires at <= |peers| && 0 < n <= |peers|
    ensures var first := if at == |peers| then 0 else at;
            RoundsBelow(peers, at, n, p) <==>
              (IsEraseCandidate(peers[first]) ==> !Worse(peers[first], p)) && RoundsBelow(peers, first + 1, n - 1, p)
  {
    var first, next := if at == |peers| then 0 else at, if at == |peers| then 1 else at + 1;
    assert Round(at, 0, |peers|) == first;
    assert forall j :: 0 <= j < n - 1 ==> Round(next, j, |peers|) == Round(at, j + 1, |peers|);
    assert forall j :: 0 < j < n ==> Round(at, j, |peers|) == Round(next, j - 1, |peers|);
  }

  /** When nobody is to be erased at once, exactly one peer goes from a full list that has expendable ones: one that no
      other expendable peer is worse than. */
  lemma WorstIsErased(peers: seq<Peer>, start: nat)
    requires LOW_WATERMARK <= |peers| <= MAX_SCAN && start < |peers|
    requires exists i :: 0 <= i < |peers| && Expendable(peers[i])
    requires forall i :: 0 <= i < |peers| && Expendable(peers[i]) ==> Resume !in peers[i].sources
    ensures exists k ::
              && 0 <= k < |peers| && Erased(peers, start) == Some(peers[..k] + peers[k + 1..]) && Expendable(peers[k])
              && forall i :: 0 <= i < |peers| && Expendable(peers[i]) ==> !Worse(peers[i], peers[k])
  {
    var s := Scan(peers, start, None);
    assert forall p :: IsEraseCandidate(p) <==> Expendable(p);
    SweepPicks(s, |peers|);
    AllRoundsClear(peers, start);
    var k := Sweep(s, |peers|).value.worst.value;
    forall i | 0 <= i < |peers| && Expendable(peers[i])
      ensures !Worse(peers[i], peers[k])
    {
      var j := if i >= start then i - start else i + |peers| - start;
      assert Round(start, j, |peers|) == i;
    }
    assert Erased(peers, start) == Some(peers[..k] + peers[k + 1..]);
  }

  predicate GoesAtOnce(p: Peer) { IsEraseCandidate(p) && ErasedAtOnce(p) }

  /** Looking at a peer leaves the position within the list and the last peer in place, or erases the last peer. */
  lemma LookStays(s: Scan, at: nat)
    requires s.Ok() && at < |s.peers|
    ensures var t := Look(s, at);
            || GoesAtOnce(s.peers[|s.peers| - 1])
            || (t.at <= |t.peers| && |t.peers| > 0 && t.peers[|t.peers| - 1] == s.peers[|s.peers| - 1])
  {
  }

  lemma {:induction false} SweepFails(s: Scan, n: nat)
    requires s.Ok() && s.at <= |s.peers| && Sweep(s, n).None?
    ensures |s.peers| > 0 && GoesAtOnce(s.peers[|s.peers| - 1])
    decreases n
  {
    var at := if s.at == |s.peers| then 0 else s.at;
    LookStays(s, at);
    if !GoesAtOnce(s.peers[|s.peers| - 1]) {
      SweepFails(Look(s, at), n - 1);
    }
  }

  /** ErasePeers never looks past the end unless the last peer is one that is erased at once. */
  lemma FailsOnlyAtLast(peers: seq<Peer>, start: nat)
    requires start < |peers| && Erased(peers, start).None?
    ensures GoesAtOnce(peers[|peers| - 1])
  {
    SweepFails(Scan(peers, start, None), AllRounds(peers));
  }

  /** The last peer is looked at with no worst candidate yet: it is erased, and the next round looks past the end. */
  lemma LastLookFails(peers: seq<Peer>, n: nat)
    requires LOW_WATERMARK < |peers| && GoesAtOnce(peers[|peers| - 1]) && n > 1
    ensures Sweep(Scan(peers, |peers| - 1, None), n).None?
  {
    var s := Scan(peers, |peers| - 1, None);
    var t := Look(s, |peers| - 1);
    assert |t.peers| == |peers| - 1 && t.at == |peers|;
    assert Sweep(t, n - 1).None?;
  }

  /** Exactly when ErasePeers can look past the end, the start of its scan being random: when the last peer is to be
      erased at once. */
  lemma FailsForSomeStart(peers: seq<Peer>)
    requires LOW_WATERMARK < |peers|
    ensures (exists start: nat :: start < |peers| && Erased(peers, start).None?) <==> GoesAtOnce(peers[|peers| - 1])
  {
    if start: nat :| start < |peers| && Erased(peers, start).None? {
      FailsOnlyAtLast(peers, start);
    }
    if GoesAtOnce(peers[|peers| - 1]) {
      LastLookFails(peers, AllRounds(peers));
      assert Erased(peers, |peers| - 1).None?;
    }
  }

  lemma {:induction false} SweepToLast(peers: seq<Peer>, at: nat, n: nat)
    requires at < |peers| && LOW_WATERMARK < |peers| && GoesAtOnce(peers[|peers| - 1])
    requires forall i :: 0 <= i < |peers| - 1 ==> !IsEraseCandidate(peers[i])
    ensures Sweep(Scan(peers, at, None), n).None? <==> n > |peers| - at
    decreases n
  {
    if n > 0 && at < |peers| - 1 {
      SweepToLast(peers, at + 1, n - 1);
    }
  }

  /** It does look past the end when the last peer is the only one to be erased, for every random start but the first
      position: such a list makes AddPeer fail. */
  lemma FailsAtLast(peers: seq<Peer>, start: nat)
    requires start < |peers| && LOW_WATERMARK < |peers| <= MAX_SCAN && GoesAtOnce(peers[|peers| - 1])
    requires forall i :: 0 <= i < |peers| - 1 ==> !IsEraseCandidate(peers[i])
    ensures Erased(peers, start).None? <==> start > 0
  {
    SweepToLast(peers, start, |peers|);
  }

  /** What AddPeer answers. */
  datatype Outcome = New | Known | Refused | OutOfRange

  /** The list that a new peer is added to: a full one is thinned out first. */
  function Room(peers: seq<Peer>, start: nat): Option<seq<Peer>> {
    if |peers| >= MAX_PEERS then Erased(peers, start) else Some(peers)
  }

  ghost function OutcomeOf(peers: seq<Peer>, peer: Peer, start: nat): Outcome {
    var room := Room(peers, start);
    if room.None? then OutOfRange
    else if |room.value| >= MAX_PEERS then Refused
    else if Listed(room.value, peer.endpoint) then Known
    else New
  }

  /** Whatever peer is added, AddPeer can fail exactly when the list is full and its last peer is to be erased at
      once. */
  lemma AddingCanFail(peers: seq<Peer>, peer: Peer)
    ensures (exists start: nat :: (|peers| > 0 ==> start < |peers|) && OutcomeOf(peers, peer, start) == OutOfRange) <==>
              |peers| >= MAX_PEERS && GoesAtOnce(peers[|peers| - 1])
  {
    if |peers| >= MAX_PEERS {
      FailsForSomeStart(peers);
      if start: nat :| start < |peers| && Erased(peers, start).None? {
        assert OutcomeOf(peers, peer, start) == OutOfRange;
      }
      if start: nat :| start < |peers| && OutcomeOf(peers, peer, start) == OutOfRange {
        assert Erased(peers, start).None?;
      }
    }
  }

  // ---------------------------------------------------------------- which peer to connect to

  predicate IsConnectCandidate(p: Peer) { !p.connected && p.connectable && p.failCount <= 10 }

  function SourceRank(s: set<Source>): nat {
    (if Server in s then 32 else 0) + (if Dht in s then 16 else 0) + (if Incoming in s then 8 else 0) + if Resume in s
      then 4 else 0
  }

  /** a is strictly to be preferred. `isLocal` tells which addresses are in a local network. */
  predicate Better(a: Peer, b: Peer, isLocal: int -> bool) {
    if a.failCount != b.failCount then a.failCount < b.failCount
    else if isLocal(a.endpoint.ip) != isLocal(b.endpoint.ip) then isLocal(a.endpoint.ip)
    else if a.lastConnected != b.lastConnected then a.lastConnected < b.lastConnected
    else if a.nextConnection != b.nextConnection then a.nextConnection < b.nextConnection
    else SourceRank(a.sources) > SourceRank(b.sources)
  }

  lemma BetterIsOrder(a: Peer, b: Peer, c: Peer, isLocal: int -> bool)
    ensures !Better(a, a, isLocal)
    ensures Better(a, b, isLocal) && !Better(c, b, isLocal) ==> Better(a, c, isLocal)
    ensures !Better(a, b, isLocal) && !Better(b, c, isLocal) ==> !Better(a, c, isLocal)
  {
  }

  /** Fewer failures first, then a local address, then the earlier last connection, then the earlier next one, and then
      the most valued source that only one of the two has: a server, the network, an incoming connection, resume
      data. */
  lemma BetterMeaning(a: Peer, b: Peer, isLocal: int -> bool)
    ensures Better(a, b, isLocal) <==>
            || a.failCount < b.failCount
            || (a.failCount == b.failCount && isLocal(a.endpoint.ip) && !isLocal(b.endpoint.ip))
            || (a.failCount == b.failCount && isLocal(a.endpoint.ip) == isLocal(b.endpoint.ip)
                && (|| a.lastConnected < b.lastConnected
                    || (a.lastConnected == b.lastConnected && a.nextConnection < b.nextConnection)
                    || (a.lastConnected == b.lastConnected && a.nextConnection == b.nextConnection
                        && MoreValued(a.sources, b.sources))))
  {
  }

  predicate MoreValued(a: set<Source>, b: set<Source>) {
    if (Server in a) != (Server in b) then Server in a
    else if (Dht in a) != (Dht in b) then Dht in a
    else if (Incoming in a) != (Incoming in b) then Incoming in a
    else Resume in a && Resume !in b
  }

  /** Seconds are milliseconds times 1000 here. */
  predicate Eligible(p: Peer, now: int) {
    && !p.connected && p.connectable && p.failCount < 11
    && !(p.nextConnection != 0 && p.nextConnection < now)
    && !(p.lastConnected != 0 && now < p.lastConnected + (p.failCount + 1) * 1000 * RECONNECT)
  }

  class Policy {
    var roundRobin: nat
    var peers: seq<Peer>

    constructor ()
      ensures peers == [] && roundRobin == 0
    {
      roundRobin, peers := 0, [];
    }

    method Get(e: Endpoint) returns (k: Option<nat>)
      ensures k.None? <==> !Listed(peers, e)
      ensures k.Some? ==> FoundAt(peers, k.value, e)
    {
      for i := 0 to |peers|
        invariant forall j :: 0 <= j < i ==> peers[j].endpoint != e
      {
        if peers[i].endpoint == e {
          return Some(i);
        }
      }
      return None;
    }

    method BinarySearch(e: Endpoint) returns (k: nat, found: bool)
      requires Sorted(peers)
      ensures k == Position(peers, e) && found == FoundAt(peers, k, e)
    {
      var lo, hi := 0, |peers|;
      while lo < hi
        invariant 0 <= lo <= hi <= |peers|
        invariant forall i :: 0 <= i < lo ==> Compare(peers[i].endpoint, e) < 0
        invariant forall i :: hi <= i < |peers| ==> Compare(peers[i].endpoint, e) >= 0
      {
        var mid := (lo + hi) / 2;
        if Compare(peers[mid].endpoint, e) < 0 {
          Below(peers, mid, e);
          lo := mid + 1;
        } else {
          Above(peers, mid, e);
          hi := mid;
        }
      }
      k, found := lo, lo < |peers| && Compare(peers[lo].endpoint, e) == 0;
      if lo < |peers| {
        CompareIsOrder(peers[lo].endpoint, e, e);
      }
    }

    /** The binary search finds what the linear search finds. */
    method FindPeer(e: Endpoint) returns (k: Option<nat>)
      requires Sorted(peers)
      ensures k.None? <==> !Listed(peers, e)
      ensures k.Some? ==> FoundAt(peers, k.value, e)
    {
      var pos, found := BinarySearch(e);
      k := if found then Some(pos) else None;
      FoundIsListed(peers, e);
    }

    /** Looks at one peer, and erases it when it goes at once. */
    method Visit(at: nat, worst: Option<nat>) returns (next: Option<nat>)
      requires Scan(peers, at, worst).Ok() && at < |peers|
      modifies this`peers
      ensures Scan(peers, at + 1, next) == Look(Scan(old(peers), at, worst), at)
    {
      next := worst;
      var pe := peers[at];
      if IsEraseCandidate(pe) && (worst.None? || !Worse(peers[worst.value], pe)) {
        if ErasedAtOnce(pe) {
          if worst.Some? && worst.value > at {
            next := Some(worst.value - 1);
          }
          peers := peers[..at] + peers[at + 1..];
        } else {
          next := Some(at);
        }
      }
    }

    /** One round of the scan; false when it looks past the end. */
    method OneRound(at: nat, worst: Option<nat>) returns (ok: bool, at': nat, worst': Option<nat>)
      requires Scan(peers, at, worst).Ok() && |peers| >= LOW_WATERMARK
      modifies this`peers
      ensures Scan(peers, at', worst').Ok()
      ensures if ok then Stepped(Scan(old(peers), at, worst), Scan(peers, at', worst'))
              else Stuck(Scan(old(peers), at, worst))
    {
      at', worst' := at, worst;
      if at' == |peers| {
        at' := 0;
      }
      if at' >= |peers| {
        return false, at', worst';
      }
      worst' := Visit(at', worst');
      at' := at' + 1;
      ok := true;
    }

    method ScanPeers(start: nat) returns (ok: bool, worst: Option<nat>)
      requires start < |peers|
      modifies this`peers
      ensures var s := Sweep(Scan(old(peers), start, None), AllRounds(old(peers)));
              ok == s.Some? && (ok ==> s.value.peers == peers && s.value.worst == worst && s.value.Ok())
    {
      var at: nat, rounds: nat := start, if |peers| < MAX_SCAN then |peers| else MAX_SCAN;
      ok, worst := true, None;
      ghost var n, trace := rounds, [Scan(peers, at, None)];
      while rounds > 0 && |peers| >= LOW_WATERMARK
        invariant Trace(trace) && trace[0] == Scan(old(peers), start, None)
                  && trace[|trace| - 1] == Scan(peers, at, worst)
        invariant ok && |trace| - 1 + rounds == n
        decreases rounds
      {
        ok, at, worst := OneRound(at, worst);
        assert (trace + [Scan(peers, at, worst)])[..|trace|] == trace;
        if !ok {
          TraceEnds(trace, n);
          return;
        }
        rounds, trace := rounds - 1, trace + [Scan(peers, at, worst)];
      }
      TraceEnds(trace, n);
    }

    /** Thins the list out, beginning at a random position; false means an index past the end, on which the program
        stops. */
    method ErasePeers(start: nat) returns (ok: bool)
      requires start < |peers|
      modifies this`peers
      ensures ok <==> Erased(old(peers), start).Some?
      ensures ok ==> peers == Erased(old(peers), start).value
    {
      var worst: Option<nat>;
      ok, worst := ScanPeers(start);
      if ok && worst.Some? {
        peers := peers[..worst.value] + peers[worst.value + 1..];
      }
    }

    /** A full list is first thinned out, beginning at the random position `start`. */
    method AddPeer(peer: Peer, start: nat) returns (outcome: Outcome)
      requires Sorted(peers) && (|peers| >= MAX_PEERS ==> start < |peers|)
      modifies this`peers
      ensures outcome == OutcomeOf(old(peers), peer, start)
      ensures outcome == Refused ==> peers == Room(old(peers), start).value
      ensures outcome == New || outcome == Known ==> peers == Added(Room(old(peers), start).value, peer)
      ensures outcome != OutOfRange ==> Sorted(peers)
      ensures outcome != OutOfRange && |old(peers)| <= MAX_PEERS ==> |peers| <= MAX_PEERS
    {
      if |peers| >= MAX_PEERS {
        ErasedThins(peers, start);
        var ok := ErasePeers(start);
        if !ok {
          return OutOfRange;
        }
        if |peers| >= MAX_PEERS {
          return Refused;
        }
      }
      AddedKeeps(peers, peer);
      var pos, found := BinarySearch(peer.endpoint);
      var known := FindPeer(peer.endpoint);
      FoundIsListed(peers, peer.endpoint);
      if found {
        peers := peers[pos := peers[pos].(sources := peers[pos].sources + peer.sources)];
        return Known;
      }
      peers := peers[..pos] + [peer] + peers[pos..];
      return New;
    }

    /** Looks at every peer once, from the round-robin position on, and returns an eligible peer that no other
        eligible peer beats; none when none is eligible. */
    method FindConnectCandidate(now: int, isLocal: int -> bool) returns (candidate: Option<nat>)
      requires |peers| <= MAX_PEERS
      modifies this`roundRobin
      ensures candidate.None? <==> forall i :: 0 <= i < |peers| ==> !Eligible(peers[i], now)
      ensures candidate.Some? ==> candidate.value < |peers| && Eligible(peers[candidate.value], now)
                                  && forall i :: 0 <= i < |peers| && Eligible(peers[i], now) ==>
                                     !Better(peers[i], peers[candidate.value], isLocal)
    {
      candidate := None;
      if roundRobin >= |peers| {
        roundRobin := 0;
      }
      ghost var start := roundRobin;
      for iteration := 0 to |peers|
        invariant roundRobin <= |peers| && (start < |peers| || |peers| == 0)
        invariant roundRobin == if start + iteration <= |peers| then start + iteration else start + iteration - |peers|
        invariant Best(peers, start, iteration, candidate, now, isLocal)
      {
        if roundRobin >= |peers| {
          roundRobin := 0;
        }
        var current, pe := roundRobin, peers[roundRobin];
        roundRobin := roundRobin + 1;
        SeenNext(peers, start, iteration, current);
        if !IsConnectCandidate(pe) {
          continue;
        }
        if candidate.Some? && Better(peers[candidate.value], pe, isLocal) {
          LosesToBest(peers, start, iteration, candidate.value, current, now, isLocal);
          continue;
        }
        if pe.nextConnection != 0 && pe.nextConnection < now {
          continue;
        }
        if pe.lastConnected != 0 && now < pe.lastConnected + (pe.failCount + 1) * 1000 * RECONNECT {
          continue;
        }
        BecomesBest(peers, start, iteration, candidate, current, now, isLocal);
        candidate := Some(current);
      }
      assert forall i: nat :: i < |peers| ==> Seen(peers, start, |peers|, i);
    }
  }

  lemma Below(peers: seq<Peer>, mid: nat, e: Endpoint)
    requires Sorted(peers) && mid < |peers| && Compare(peers[mid].endpoint, e) < 0
    ensures forall i :: 0 <= i <= mid ==> Compare(peers[i].endpoint, e) < 0
  {
    forall i | 0 <= i < mid
      ensures Compare(peers[i].endpoint, e) < 0
    {
      CompareIsOrder(peers[i].endpoint, peers[mid].endpoint, e);
    }
  }

  lemma Above(peers: seq<Peer>, mid: nat, e: Endpoint)
    requires Sorted(peers) && mid < |peers| && Compare(peers[mid].endpoint, e) >= 0
    ensures forall i :: mid <= i < |peers| ==> Compare(peers[i].endpoint, e) >= 0
  {
    forall i | mid < i < |peers|
      ensures Compare(peers[i].endpoint, e) >= 0
    {
      CompareIsOrder(peers[mid].endpoint, peers[i].endpoint, e);
      CompareIsOrder(peers[i].endpoint, e, e);
    }
  }

  lemma FoundIsListed(peers: seq<Peer>, e: Endpoint)
    requires Sorted(peers)
    ensures FoundAt(peers, Position(peers, e), e) <==> Listed(peers, e)
  {
    if i :| 0 <= i < |peers| && peers[i].endpoint == e {
      var pos := Position(peers, e);
      CompareIsOrder(e, e, e);
      if pos < i {
        CompareIsOrder(peers[pos].endpoint, peers[i].endpoint, e);
      }
    }
  }

  /** Peer i is among the first n looked at from `start` on. */
  predicate Seen(peers: seq<Peer>, start: nat, n: nat, i: nat) {
    i < |peers| && (start <= i < start + n || i + |peers| < start + n)
  }

  lemma SeenNext(peers: seq<Peer>, start: nat, n: nat, current: nat)
    requires n < |peers| && start < |peers| && current == if start + n < |peers| then start + n else start + n - |peers|
    ensures forall i: nat :: Seen(peers, start, n + 1, i) <==> Seen(peers, start, n, i) || i == current
  {
    forall i: nat
      ensures Seen(peers, start, n + 1, i) <==> Seen(peers, start, n, i) || i == current
    {
      assert start <= i < start + n + 1 <==> start <= i < start + n || i == start + n;
    }
  }

  ghost predicate Best(peers: seq<Peer>, start: nat, n: nat, candidate: Option<nat>, now: int, isLocal: int -> bool) {
    match candidate
    case None => forall i: nat {:trigger peers[i]} :: Seen(peers, start, n, i) ==> !Eligible(peers[i], now)
    case Some(c) =>
      && c < |peers| && Eligible(peers[c], now)
      && forall i: nat {:trigger peers[i]} :: Seen(peers, start, n, i) && Eligible(peers[i], now) ==>
         !Better(peers[i], peers[c], isLocal)
  }

  lemma LosesToBest(peers: seq<Peer>, start: nat, n: nat, c: nat, current: nat, now: int, isLocal: int -> bool)
    requires Best(peers, start, n, Some(c), now, isLocal) && current < |peers|
             && Better(peers[c], peers[current], isLocal)
    ensures !Better(peers[current], peers[c], isLocal)
  {
    BetterIsOrder(peers[c], peers[current], peers[c], isLocal);
  }

  lemma BecomesBest(peers: seq<Peer>, start: nat, n: nat, candidate: Option<nat>, current: nat, now: int,
                    isLocal: int -> bool)
    requires Best(peers, start, n, candidate, now, isLocal) && current < |peers| && Eligible(peers[current], now)
    requires candidate.Some? ==> !Better(peers[candidate.value], peers[current], isLocal)
    ensures Best(peers, start, n, Some(current), now, isLocal)
    ensures !Better(peers[current], peers[current], isLocal)
  {
    BetterIsOrder(peers[current], peers[current], peers[current], isLocal);
    if candidate.Some? {
      forall i: nat | Seen(peers, start, n, i) && Eligible(peers[i], now)
        ensures !Better(peers[i], peers[current], isLocal)
      {
        BetterIsOrder(peers[i], peers[candidate.value], peers[current], isLocal);
      }
    }
  }
}
