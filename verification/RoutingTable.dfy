/** The Kademlia routing table: 128 buckets of live and replacement nodes, and which identifiers to refresh
    (kad_routing.go). Times are seconds. */
module RoutingTable {
  import opened Wrappers
  import opened KadId
  import opened Ordered

  class KadRoutingNode {
    const id: ID
    var addr: Option<nat>
    var tcpPort: nat
    var version: nat
    var pinged: bool
    var failCount: nat
    var firstSeen: Option<int>
    var lastSeen: int

    constructor (id: ID, addr: Option<nat>, tcpPort: nat, version: nat)
      ensures this.id == id && this.addr == addr && this.tcpPort == tcpPort && this.version == version
      ensures !pinged && failCount == 0
    {
      this.id, this.addr, this.tcpPort, this.version := id, addr, tcpPort, version;
      pinged, failCount, firstSeen, lastSeen := false, 0, None, 0;
    }

    predicate KnownID() { id != INVALID }
  }

  type Nodes = seq<KadRoutingNode>

  datatype Bucket = Bucket(live: Nodes, replacements: Nodes, lastActive: int)

  const LIVE_LIMIT: int := 15 * 60
  const REFRESH_GAP: int := 45
  const MAX_FAILS: nat := 20

  // ---------------------------------------------------------------- what a bucket keeps

  ghost predicate DistinctIds(nodes: Nodes) {
    forall i, j :: 0 <= i < j < |nodes| ==> nodes[i].id != nodes[j].id
  }

  ghost predicate BucketOk(self: ID, index: nat, size: nat, b: Bucket) {
    && |b.live| <= size && |b.replacements| <= size
    && DistinctIds(b.live + b.replacements)
    && forall n :: n in b.live + b.replacements ==> n.KnownID() && BucketIndex(self, n.id) == index
  }

  ghost predicate AllOk(self: ID, size: nat, buckets: seq<Bucket>) {
    forall i :: 0 <= i < |buckets| ==> BucketOk(self, i, size, buckets[i])
  }

  lemma OneReplaced(self: ID, size: nat, buckets: seq<Bucket>, i: nat, c: Bucket)
    requires AllOk(self, size, buckets) && i < |buckets| && BucketOk(self, i, size, c)
    ensures AllOk(self, size, buckets[i := c])
  {
  }

  /** An identifier is stored at one place of one bucket only. */
  lemma StoredOnce(self: ID, size: nat, buckets: seq<Bucket>, i: nat, j: nat, a: nat, b: nat)
    requires AllOk(self, size, buckets) && i < |buckets| && j < |buckets|
    requires a < |buckets[i].live + buckets[i].replacements| && b < |buckets[j].live + buckets[j].replacements|
    requires (buckets[i].live + buckets[i].replacements)[a].id == (buckets[j].live + buckets[j].replacements)[b].id
    ensures i == j && a == b
  {
    assert BucketOk(self, i, size, buckets[i]) && BucketOk(self, j, size, buckets[j]);
    assert BucketIndex(self, (buckets[i].live + buckets[i].replacements)[a].id) == i;
    assert BucketIndex(self, (buckets[j].live + buckets[j].replacements)[b].id) == j;
  }

  function Remove(nodes: Nodes, pos: nat): Nodes
    requires pos < |nodes|
  {
    nodes[..pos] + nodes[pos + 1..]
  }

  /** What NodeSeen (confirmed) and HeardAbout do to the lists of a bucket, when the node was found at `l`
      among the live nodes and at `r` among the replacements (the length of the list when not found). */
  function Added(b: Bucket, size: nat, node: KadRoutingNode, confirmed: bool, l: nat, r: nat, now: int): Bucket
    requires l <= |b.live| && r <= |b.replacements|
  {
    if l < |b.live| then Bucket(Remove(b.live, l) + [b.live[l]], b.replacements, now)
    else if r < |b.replacements| then
      var rest, found := Remove(b.replacements, r), [b.replacements[r]];
      if !confirmed then b.(lastActive := now)
      else if |b.live| < size then Bucket(b.live + found, rest, now)
      else Bucket(b.live, rest + found, now)
    else if |b.live| < size then Bucket(b.live + [node], b.replacements, now)
    else if |b.replacements| < size then Bucket(b.live, b.replacements + [node], now)
    else Bucket(b.live, (if |b.replacements| > 0 then b.replacements[1..] else []) + [node], now)
  }

  /** What NodeFailed does, `pinged` and `fails` being those of the live node found. */
  function Failed(b: Bucket, l: nat, r: nat, pinged: bool, fails: nat): Bucket
    requires l <= |b.live| && r <= |b.replacements|
  {
    if l < |b.live| then
      if !pinged then b.(live := Remove(b.live, l))
      else if |b.replacements| > 0 then b.(live := b.live[l := b.replacements[0]], replacements := b.replacements[1..])
      else if fails + 1 >= MAX_FAILS then b.(live := Remove(b.live, l))
      else b
    else if r < |b.replacements| then b.(replacements := Remove(b.replacements, r))
    else b
  }

  /** Every list built from distinct positions of a list with distinct identifiers has distinct identifiers. */
  lemma Rearranged(from: Nodes, to: Nodes, at: seq<nat>)
    requires DistinctIds(from) && |at| == |to|
    requires forall i :: 0 <= i < |to| ==> at[i] < |from| && to[i] == from[at[i]]
    requires forall i, j :: 0 <= i < j < |to| ==> at[i] != at[j]
    ensures DistinctIds(to)
    ensures forall n :: n in to ==> n in from
  {
  }

  lemma MovedLive(b: Bucket, l: nat)
    requires l < |b.live| && DistinctIds(b.live + b.replacements)
    ensures var to := Remove(b.live, l) + [b.live[l]] + b.replacements;
            DistinctIds(to) && forall x :: x in to ==> x in b.live + b.replacements
  {
    var n, m := |b.live|, |b.replacements|;
    Rearranged(b.live + b.replacements, Remove(b.live, l) + [b.live[l]] + b.replacements,
               seq(n + m, i requires 0 <= i < n + m => if i < l || i >= n then i else if i == n - 1 then l else i + 1));
  }

  lemma Promoted(b: Bucket, r: nat)
    requires r < |b.replacements| && DistinctIds(b.live + b.replacements)
    ensures var to := b.live + [b.replacements[r]] + Remove(b.replacements, r);
            DistinctIds(to) && forall x :: x in to ==> x in b.live + b.replacements
  {
    var n, m := |b.live|, |b.replacements|;
    Rearranged(b.live + b.replacements, b.live + [b.replacements[r]] + Remove(b.replacements, r),
               seq(n + m, i requires 0 <= i < n + m => if i < n then i else if i == n then n + r
                   else if i <= n + r then i - 1 else i));
  }

  lemma Confirmed(b: Bucket, r: nat)
    requires r < |b.replacements| && DistinctIds(b.live + b.replacements)
    ensures var to := b.live + (Remove(b.replacements, r) + [b.replacements[r]]);
            DistinctIds(to) && forall x :: x in to ==> x in b.live + b.replacements
  {
    var n, m := |b.live|, |b.replacements|;
    Rearranged(b.live + b.replacements, b.live + (Remove(b.replacements, r) + [b.replacements[r]]),
               seq(n + m, i requires 0 <= i < n + m => if i < n + r then i else if i == n + m - 1 then n + r
                   else i + 1));
  }

  lemma Inserted(from: Nodes, k: nat, node: KadRoutingNode)
    requires k <= |from| && DistinctIds(from) && forall x :: x in from ==> x.id != node.id
    ensures DistinctIds(from[..k] + [node] + from[k..])
  {
  }

  lemma AddedKeeps(self: ID, index: nat, size: nat, b: Bucket, node: KadRoutingNode, confirmed: bool, l: nat, r: nat,
                   now: int)
    requires BucketOk(self, index, size, b) && size > 0
    requires l <= |b.live| && r <= |b.replacements| && node.KnownID() && BucketIndex(self, node.id) == index
    requires l == |b.live| && r == |b.replacements| ==> forall n :: n in b.live + b.replacements ==> n.id != node.id
    ensures BucketOk(self, index, size, Added(b, size, node, confirmed, l, r, now))
  {
    if l < |b.live| {
      MovedLive(b, l);
    } else if r < |b.replacements| {
      Promoted(b, r);
      Confirmed(b, r);
    } else {
      NewKeeps(self, index, size, b, node, confirmed, now);
    }
  }

  lemma NewKeeps(self: ID, index: nat, size: nat, b: Bucket, node: KadRoutingNode, confirmed: bool, now: int)
    requires BucketOk(self, index, size, b) && size > 0 && node.KnownID() && BucketIndex(self, node.id) == index
    requires forall n :: n in b.live + b.replacements ==> n.id != node.id
    ensures BucketOk(self, index, size, Added(b, size, node, confirmed, |b.live|, |b.replacements|, now))
  {
    var all := b.live + b.replacements;
    if |b.live| < size {
      Inserted(all, |b.live|, node);
      assert all[..|b.live|] == b.live && all[|b.live|..] == b.replacements;
    } else {
      var rest := if |b.replacements| < size then b.replacements else b.replacements[1..];
      var dropped := |b.replacements| - |rest|;
      Rearranged(all, b.live + rest,
                 seq(|b.live| + |rest|,
                     i requires 0 <= i < |b.live| + |rest| => if i < |b.live| then i else i + dropped));
      Inserted(b.live + rest, |b.live + rest|, node);
      assert (b.live + rest)[..|b.live + rest|] + [node] + (b.live + rest)[|b.live + rest|..] ==
        b.live + (rest + [node]);
    }
  }

  lemma Replaced(b: Bucket, l: nat)
    requires l < |b.live| && |b.replacements| > 0 && DistinctIds(b.live + b.replacements)
    ensures var to := b.live[l := b.replacements[0]] + b.replacements[1..];
            DistinctIds(to) && forall x :: x in to ==> x in b.live + b.replacements
  {
    var n, m := |b.live|, |b.replacements|;
    Rearranged(b.live + b.replacements, b.live[l := b.replacements[0]] + b.replacements[1..],
               seq(n + m - 1, i requires 0 <= i < n + m - 1 => if i == l then n else if i < n then i else i + 1));
  }

  lemma DroppedLive(b: Bucket, l: nat)
    requires l < |b.live| && DistinctIds(b.live + b.replacements)
    ensures var to := Remove(b.live, l) + b.replacements;
            DistinctIds(to) && forall x :: x in to ==> x in b.live + b.replacements
  {
    var n, m := |b.live|, |b.replacements|;
    Rearranged(b.live + b.replacements, Remove(b.live, l) + b.replacements,
               seq(n + m - 1, i requires 0 <= i < n + m - 1 => if i < l then i else i + 1));
  }

  lemma DroppedReplacement(b: Bucket, r: nat)
    requires r < |b.replacements| && DistinctIds(b.live + b.replacements)
    ensures var to := b.live + Remove(b.replacements, r);
            DistinctIds(to) && forall x :: x in to ==> x in b.live + b.replacements
  {
    var n, m := |b.live|, |b.replacements|;
    Rearranged(b.live + b.replacements, b.live + Remove(b.replacements, r),
               seq(n + m - 1, i requires 0 <= i < n + m - 1 => if i < n + r then i else i + 1));
  }

  lemma FailedKeeps(self: ID, index: nat, size: nat, b: Bucket, l: nat, r: nat, pinged: bool, fails: nat)
    requires BucketOk(self, index, size, b)
    requires l <= |b.live| && r <= |b.replacements|
    ensures BucketOk(self, index, size, Failed(b, l, r, pinged, fails))
  {
    if l < |b.live| {
      DroppedLive(b, l);
      if |b.replacements| > 0 {
        Replaced(b, l);
      }
    } else if r < |b.replacements| {
      DroppedReplacement(b, r);
    }
  }

  lemma Stays(nodes: Nodes, pos: nat, n: KadRoutingNode)
    requires pos < |nodes| && n in nodes && n != nodes[pos]
    ensures n in Remove(nodes, pos)
  {
    var k :| 0 <= k < |nodes| && nodes[k] == n;
    assert Remove(nodes, pos)[if k < pos then k else k - 1] == n;
  }

  /** Seeing or hearing of a node loses no live node, keeps the node itself, and drops a replacement only when
      both lists are full: then the one at the front. */
  lemma AddedLoses(b: Bucket, size: nat, node: KadRoutingNode, confirmed: bool, l: nat, r: nat, now: int,
                   n: KadRoutingNode)
    requires size > 0 && l <= |b.live| && r <= |b.replacements| && n in b.live + b.replacements
    ensures var c := Added(b, size, node, confirmed, l, r, now);
            && (n in b.live ==> n in c.live)
            && (l == |b.live| && r == |b.replacements| ==> node in c.live + c.replacements)
            && (n !in c.live + c.replacements ==>
                  l == |b.live| && r == |b.replacements| && size <= |b.live| && size <= |b.replacements|
                    && n == b.replacements[0])
  {
    var c := Added(b, size, node, confirmed, l, r, now);
    if l < |b.live| && n in b.live && n != b.live[l] {
      Stays(b.live, l, n);
    }
    if r < |b.replacements| && n in b.replacements && n != b.replacements[r] {
      Stays(b.replacements, r, n);
    }
    if |b.replacements| > 0 && n in b.replacements && n != b.replacements[0] {
      var k :| 0 <= k < |b.replacements| && b.replacements[k] == n;
      assert b.replacements[1..][k - 1] == n;
    }
  }

  /** A failure loses nobody but the node found, and only when it was never confirmed, can be replaced, or has
      failed twenty times; its replacement is the one at the front, in its place. */
  lemma FailedLoses(b: Bucket, l: nat, r: nat, pinged: bool, fails: nat, n: KadRoutingNode)
    requires l <= |b.live| && r <= |b.replacements| && n in b.live + b.replacements
    ensures var c := Failed(b, l, r, pinged, fails);
            && (n !in c.live + c.replacements ==>
                  if l < |b.live| then n == b.live[l] && (!pinged || |b.replacements| > 0 || fails + 1 >= MAX_FAILS)
                  else r < |b.replacements| && n == b.replacements[r])
            && (l < |b.live| && pinged && |b.replacements| > 0 ==>
                |c.live| == |b.live| && c.live[l] == b.replacements[0])
  {
    var c := Failed(b, l, r, pinged, fails);
    if l < |b.live| && n in b.live && n != b.live[l] {
      Stays(b.live, l, n);
      var k :| 0 <= k < |b.live| && b.live[k] == n;
      assert |b.replacements| > 0 ==> b.live[l := b.replacements[0]][k] == n;
    }
    if l < |b.live| && |b.replacements| > 0 && n in b.replacements {
      var k :| 0 <= k < |b.replacements| && b.replacements[k] == n;
      assert if k == 0 then b.live[l := b.replacements[0]][l] == n else b.replacements[1..][k - 1] == n;
    }
    if l == |b.live| && r < |b.replacements| && n in b.replacements && n != b.replacements[r] {
      Stays(b.replacements, r, n);
    }
  }

  lemma Gone(nodes: Nodes, pos: nat)
    requires pos < |nodes| && DistinctIds(nodes)
    ensures forall n :: n in Remove(nodes, pos) <==> n in nodes && n != nodes[pos]
  {
    forall n | n in nodes && n != nodes[pos]
      ensures n in Remove(nodes, pos)
    {
      Stays(nodes, pos, n);
    }
  }

  lemma PartsDistinct(b: Bucket)
    requires DistinctIds(b.live + b.replacements)
    ensures DistinctIds(b.live) && DistinctIds(b.replacements) && forall n :: n in b.live ==> n !in b.replacements
  {
    var all := b.live + b.replacements;
    assert forall i :: 0 <= i < |b.live| ==> all[i] == b.live[i];
    assert forall i :: 0 <= i < |b.replacements| ==> all[|b.live| + i] == b.replacements[i];
  }

  /** Exactly who is live and who is a replacement after a failure. A live node that was never confirmed goes; a
      confirmed one goes when a replacement can take its place, which is then the one at the front, or with its
      twentieth failure; a replacement goes. Nobody else comes, goes or changes sides. */
  lemma FailedExactly(b: Bucket, l: nat, r: nat, pinged: bool, fails: nat, n: KadRoutingNode)
    requires l <= |b.live| && r <= |b.replacements| && DistinctIds(b.live + b.replacements)
    ensures var c := Failed(b, l, r, pinged, fails);
            var replaced := l < |b.live| && pinged && |b.replacements| > 0;
            && (n in c.live <==>
                  || (replaced && n == b.replacements[0])
                  || (n in b.live && !(l < |b.live| && n == b.live[l]
                                       && (!pinged || |b.replacements| > 0 || fails >= 19))))
            && (n in c.replacements <==>
                  && n in b.replacements
                  && !(replaced && n == b.replacements[0])
                  && !(l == |b.live| && r < |b.replacements| && n == b.replacements[r]))
            && (replaced ==> |c.live| == |b.live| && c.live[l] == b.replacements[0])
            && c.lastActive == b.lastActive
  {
    PartsDistinct(b);
    var c := Failed(b, l, r, pinged, fails);
    if l < |b.live| {
      Gone(b.live, l);
      if pinged && |b.replacements| > 0 {
        Gone(b.replacements, 0);
        SetOne(b.live, l, b.replacements[0]);
        assert c.replacements == Remove(b.replacements, 0);
        var live := b.live[l := b.replacements[0]];
        assert c.live == live && live[l] == b.replacements[0];
      } else {
        assert c.live == if !pinged || fails >= 19 then Remove(b.live, l) else b.live;
        assert c.replacements == b.replacements;
      }
    } else if r < |b.replacements| {
      Gone(b.replacements, r);
    }
  }

  lemma SetOne(nodes: Nodes, pos: nat, x: KadRoutingNode)
    requires pos < |nodes| && DistinctIds(nodes)
    ensures forall n :: n in nodes[pos := x] <==> n == x || (n in nodes && n != nodes[pos])
  {
    forall n | n in nodes && n != nodes[pos]
      ensures n in nodes[pos := x]
    {
      var k :| 0 <= k < |nodes| && nodes[k] == n;
      assert nodes[pos := x][k] == n;
    }
    assert nodes[pos := x][pos] == x;
  }

  /** Exactly who is live and who is a replacement after a node was seen or heard of. It becomes live when it was not
      and there is room, if it is new or a replacement now confirmed; otherwise a new one becomes a replacement, in the
      place of the oldest when there is no room. Whoever was seen comes last in its list, and the bucket is active
      now. */
  lemma AddedExactly(b: Bucket, size: nat, node: KadRoutingNode, confirmed: bool, l: nat, r: nat, now: int,
                     n: KadRoutingNode)
    requires size > 0 && l <= |b.live| && r <= |b.replacements| && DistinctIds(b.live + b.replacements)
    requires |b.live| <= size && |b.replacements| <= size
    requires l == |b.live| && r == |b.replacements| ==> node !in b.live + b.replacements
    ensures var c := Added(b, size, node, confirmed, l, r, now);
            var isNew := l == |b.live| && r == |b.replacements|;
            var who := if l < |b.live| then b.live[l] else if r < |b.replacements| then b.replacements[r] else node;
            var rises := l == |b.live| && |b.live| < size && (isNew || confirmed);
            && (n in c.live <==> n in b.live || (rises && n == who))
            && (n in c.replacements <==>
                  || (isNew && !rises && n == who)
                  || (n in b.replacements && !(rises && n == who)
                      && !(isNew && !rises && |b.replacements| == size && n == b.replacements[0])))
            && (l < |b.live| || rises ==> |c.live| > 0 && c.live[|c.live| - 1] == who)
            && (l == |b.live| && !rises && (isNew || confirmed) ==>
                  |c.replacements| > 0 && c.replacements[|c.replacements| - 1] == who)
            && c.lastActive == now
  {
    PartsDistinct(b);
    if l < |b.live| {
      Gone(b.live, l);
    } else if r < |b.replacements| {
      Gone(b.replacements, r);
    } else if |b.live| == size && |b.replacements| == size {
      Gone(b.replacements, 0);
      assert b.replacements[1..] == Remove(b.replacements, 0);
    }
  }

  // ---------------------------------------------------------------- looking nodes up

  /** Same identifier or same address. */
  predicate Matches(n: KadRoutingNode, needle: KadRoutingNode)
    reads n, needle
  {
    || (n.KnownID() && needle.KnownID() && n.id == needle.id)
    || (n.addr.Some? && needle.addr.Some? && n.addr == needle.addr)
  }

  function FindPos(nodes: Nodes, needle: KadRoutingNode): (pos: nat)
    reads nodes, needle
    ensures pos <= |nodes|
    ensures pos < |nodes| ==> Matches(nodes[pos], needle)
    ensures forall k :: 0 <= k < pos ==> !Matches(nodes[k], needle)
  {
    if |nodes| == 0 || Matches(nodes[0], needle) then 0 else 1 + FindPos(nodes[1..], needle)
  }

  method FindKadNode(nodes: Nodes, needle: KadRoutingNode) returns (pos: nat)
    ensures pos == FindPos(nodes, needle)
    ensures forall k :: 0 <= k < |nodes| && k <= pos ==>
              (k == pos <==> (nodes[k].id == needle.id && needle.id != INVALID)
                             || (nodes[k].addr == needle.addr && needle.addr != None))
  {
    pos := 0;
    while pos < |nodes| && !Matches(nodes[pos], needle)
      invariant pos <= |nodes|
      invariant forall k :: 0 <= k < pos ==> !Matches(nodes[k], needle)
    {
      pos := pos + 1;
    }
  }

  /** Not found by address nor by identifier means the identifier is new to the list. */
  lemma NotFoundIsNew(nodes: Nodes, needle: KadRoutingNode)
    requires needle.KnownID() && FindPos(nodes, needle) == |nodes|
    ensures forall n :: n in nodes ==> n.id != needle.id
  {
    forall n | n in nodes
      ensures n.id != needle.id
    {
      assert !Matches(n, needle);
    }
  }

  lemma AddedOk(self: ID, index: nat, size: nat, b: Bucket, node: KadRoutingNode, confirmed: bool, now: int)
    requires BucketOk(self, index, size, b) && size > 0 && node.KnownID() && BucketIndex(self, node.id) == index
    ensures BucketOk(self, index, size,
                     Added(b, size, node, confirmed, FindPos(b.live, node), FindPos(b.replacements, node), now))
  {
    var l, r := FindPos(b.live, node), FindPos(b.replacements, node);
    if l == |b.live| && r == |b.replacements| {
      NotFoundIsNew(b.live, node);
      NotFoundIsNew(b.replacements, node);
    }
    AddedKeeps(self, index, size, b, node, confirmed, l, r, now);
  }

  /** The node that takes over the contact data: the one found, or else the new one. */
  function Touched(b: Bucket, node: KadRoutingNode): KadRoutingNode
    reads node, b.live, b.replacements
  {
    var l, r := FindPos(b.live, node), FindPos(b.replacements, node);
    if l < |b.live| then b.live[l] else if r < |b.replacements| then b.replacements[r] else node
  }

  twostate predicate Updated(x: KadRoutingNode, node: KadRoutingNode, confirmed: bool, now: int)
    reads x, node
  {
    && x.addr == old(node.addr) && x.tcpPort == old(node.tcpPort) && x.version == old(node.version) && x.lastSeen == now
    && x.pinged == (confirmed || old(x.pinged)) && x.failCount == if confirmed then 0 else old(x.failCount)
  }

  // ---------------------------------------------------------------- the table

  class KadRoutingTable {
    const self: ID
    const bucketSize: nat
    var buckets: seq<Bucket>
    var lastRefresh: Option<int>
    var lastSelfRefresh: Option<int>

    ghost predicate Valid()
      reads this
    {
      bucketSize > 0 && |buckets| == ID_BITS && AllOk(self, bucketSize, buckets)
    }

    constructor (self: ID, bucketSize: int, now: int)
      ensures Valid() && this.self == self && this.bucketSize == if bucketSize <= 0 then 10 else bucketSize
      ensures buckets == seq(ID_BITS, _ => Bucket([], [], now)) && lastRefresh == None && lastSelfRefresh == None
    {
      this.self, this.bucketSize := self, if bucketSize <= 0 then 10 else bucketSize;
      buckets, lastRefresh, lastSelfRefresh := seq(ID_BITS, _ => Bucket([], [], now)), None, None;
    }

    function Home(id: ID): Bucket
      requires |buckets| == ID_BITS
      reads this
    {
      buckets[BucketIndex(self, id)]
    }

    method AddNode(node: KadRoutingNode, confirmed: bool, now: int)
      requires Valid()
      modifies this`buckets, Touched(Home(node.id), node)
      ensures Valid()
      ensures !node.KnownID() ==> buckets == old(buckets) && unchanged(old(Touched(Home(node.id), node)))
      ensures node.KnownID() ==>
                var b := old(Home(node.id));
                && buckets == old(buckets)[BucketIndex(self, node.id) :=
                     Added(b, bucketSize, node, confirmed, old(FindPos(Home(node.id).live, node)),
                           old(FindPos(Home(node.id).replacements, node)), now)]
                && Updated(old(Touched(Home(node.id), node)), node, confirmed, now)
    {
      if !node.KnownID() {
        return;
      }
      var i := KadBucketIndex(self, node.id);
      var b := buckets[i];
      AddedOk(self, i, bucketSize, b, node, confirmed, now);
      var c := AddToBucket(b, bucketSize, node, confirmed, now);
      OneReplaced(self, bucketSize, buckets, i, c);
      buckets := buckets[i := c];
    }

    static method AddToBucket(b: Bucket, size: nat, node: KadRoutingNode, confirmed: bool, now: int) returns (c: Bucket)
      requires size > 0
      modifies Touched(b, node)
      ensures c == Added(b, size, node, confirmed, old(FindPos(b.live, node)), old(FindPos(b.replacements, node)), now)
      ensures Updated(old(Touched(b, node)), node, confirmed, now)
    {
      c := b.(lastActive := now);
      var l := FindKadNode(b.live, node);
      if l < |b.live| {
        Update(b.live[l], node, confirmed, now);
        c := c.(live := Remove(b.live, l) + [b.live[l]]);
        return;
      }
      var r := FindKadNode(b.replacements, node);
      if r < |b.replacements| {
        var existing := b.replacements[r];
        Update(existing, node, confirmed, now);
        if confirmed {
          c := c.(replacements := Remove(b.replacements, r));
          if |c.live| < size {
            c := c.(live := c.live + [existing]);
          } else {
            c := c.(replacements := c.replacements + [existing]);
          }
        }
        return;
      }
      node.lastSeen := now;
      if node.firstSeen == None {
        node.firstSeen := Some(now);
      }
      if confirmed {
        node.pinged, node.failCount := true, 0;
      }
      if |b.live| < size {
        c := c.(live := b.live + [node]);
      } else if |b.replacements| < size {
        c := c.(replacements := b.replacements + [node]);
      } else {
        c := c.(replacements := b.replacements[1..] + [node]);
      }
    }

    static method Update(existing: KadRoutingNode, node: KadRoutingNode, confirmed: bool, now: int)
      modifies existing
      ensures Updated(existing, node, confirmed, now)
    {
      existing.addr, existing.tcpPort, existing.version, existing.lastSeen :=
        node.addr, node.tcpPort, node.version, now;
      if confirmed {
        existing.pinged, existing.failCount := true, 0;
      }
    }

    method NodeFailed(node: KadRoutingNode)
      requires Valid()
      modifies this`buckets, Home(node.id).live`failCount
      ensures Valid()
      ensures !node.KnownID() ==> buckets == old(buckets)
      ensures node.KnownID() ==>
                var b, i := old(Home(node.id)), BucketIndex(self, node.id);
                var l, r := old(FindPos(Home(node.id).live, node)), old(FindPos(Home(node.id).replacements, node));
                && buckets == old(buckets)[i := Failed(b, l, r, l < |b.live| && b.live[l].pinged,
                                                       if l < |b.live| then old(b.live[l].failCount) else 0)]
                && forall k :: 0 <= k < |b.live| ==>
                   b.live[k].failCount == old(b.live[k].failCount) + if l < |b.live| && b.live[k] == b.live[l]
                   && b.live[l].pinged then 1 else 0
    {
      if !node.KnownID() {
        return;
      }
      var i := KadBucketIndex(self, node.id);
      var b := buckets[i];
      ghost var l, r := FindPos(b.live, node), FindPos(b.replacements, node);
      ghost var pinged, fails := l < |b.live| && b.live[l].pinged, if l < |b.live| then b.live[l].failCount else 0;
      FailedKeeps(self, i, bucketSize, b, l, r, pinged, fails);
      OneReplaced(self, bucketSize, buckets, i, Failed(b, l, r, pinged, fails));
      var c := FailInBucket(b, node);
      buckets := buckets[i := c];
    }

    static method FailInBucket(b: Bucket, node: KadRoutingNode) returns (c: Bucket)
      modifies b.live`failCount
      ensures var l, r := old(FindPos(b.live, node)), old(FindPos(b.replacements, node));
              && c == Failed(b, l, r, l < |b.live| && b.live[l].pinged,
                             if l < |b.live| then old(b.live[l].failCount) else 0)
              && forall k :: 0 <= k < |b.live| ==>
                 b.live[k].failCount == old(b.live[k].failCount) + if l < |b.live| && b.live[k] == b.live[l]
                 && b.live[l].pinged then 1 else 0
    {
      c := b;
      var l := FindKadNode(b.live, node);
      if l < |b.live| {
        var existing := b.live[l];
        if !existing.pinged {
          return b.(live := Remove(b.live, l));
        }
        existing.failCount := existing.failCount + 1;
        if |b.replacements| > 0 {
          c := Bucket(b.live[l := b.replacements[0]], b.replacements[1..], b.lastActive);
        } else if existing.failCount >= MAX_FAILS {
          c := b.(live := Remove(b.live, l));
        }
        return;
      }
      var r := FindKadNode(b.replacements, node);
      if r < |b.replacements| {
        c := b.(replacements := Remove(b.replacements, r));
      }
    }

    method TouchBucket(target: ID, now: int)
      requires Valid()
      modifies this`buckets
      ensures Valid()
      ensures buckets == old(buckets)[BucketIndex(self, target) := old(Home(target)).(lastActive := now)]
    {
      var i := KadBucketIndex(self, target);
      buckets := buckets[i := buckets[i].(lastActive := now)];
    }

    /** Which identifier to look up next, if any: self every 15 minutes, otherwise one in the bucket that has
        been inactive longest, when that is 15 minutes or more and the last refresh is 45 seconds old. */
    method NeedRefresh(now: int, random: Option<ID>) returns (target: Option<ID>)
      requires Valid()
      modifies this`lastRefresh, this`lastSelfRefresh
      ensures Valid()
      ensures var selfDue := old(lastSelfRefresh) == None || now - old(lastSelfRefresh).value >= 900;
              var gap := old(lastRefresh) == None || now - old(lastRefresh).value >= 45;
              var stale := Stalest(buckets, now);
              && target == (if selfDue then Some(self)
                            else if stale == None || !gap then None
                            else if random == None then Some(self)
                            else Some(WithinBucket(stale.value, self, random.value)))
              && lastSelfRefresh == (if selfDue then Some(now) else old(lastSelfRefresh))
              && lastRefresh == (if !selfDue && target != None then Some(now) else old(lastRefresh))
    {
      if lastSelfRefresh == None || now - lastSelfRefresh.value >= LIVE_LIMIT {
        lastSelfRefresh := Some(now);
        return Some(self);
      }
      var index := None;
      for i := 0 to |buckets|
        invariant index == Stalest(buckets[..i], now)
      {
        assert buckets[..i + 1] == buckets[..i] + [buckets[i]];
        var last := buckets[i].lastActive;
        if now - last >= LIVE_LIMIT && (index == None || last < buckets[index.value].lastActive) {
          index := Some(i);
        }
      }
      assert buckets[..|buckets|] == buckets;
      if index == None || (lastRefresh != None && now - lastRefresh.value < REFRESH_GAP) {
        return None;
      }
      lastRefresh := Some(now);
      var id := RandomKadIDWithinBucket(index.value, self, random);
      return Some(id);
    }

    /** A started refresh: the target NeedRefresh chose is looked up, which touches its bucket. It is the very
        bucket that was inactive longest, whatever the random bytes were. */
    method StartRefresh(now: int, random: Option<ID>) returns (target: Option<ID>)
      requires Valid()
      modifies this
      ensures Valid()
      ensures target == None ==> buckets == old(buckets)
      ensures target != None && random != None && lastSelfRefresh == old(lastSelfRefresh) != Some(now) ==>
                exists i :: 0 <= i < ID_BITS && IsStalest(old(buckets), now, i) && BucketIndex(self, target.value) == i
                            && buckets == old(buckets)[i := old(buckets)[i].(lastActive := now)]
    {
      target := NeedRefresh(now, random);
      if target != None {
        ghost var stale := Stalest(buckets, now);
        StalestMeaning(buckets, now);
        TouchBucket(target.value, now);
        if random != None && lastSelfRefresh == old(lastSelfRefresh) != Some(now) {
          WithinBucketFalls(stale.value, self, random.value);
          assert IsStalest(old(buckets), now, stale.value);
        }
      }
    }

    /** The `limit` confirmed live nodes nearest to the target, or all of them when there are fewer or no limit. */
    method FindClosest(target: ID, limit: int, includeUnconfirmed: bool) returns (nodes: Nodes)
      requires Valid()
      ensures forall n :: n in nodes ==> IsCandidate(buckets, n, includeUnconfirmed)
      ensures StrictlySorted(nodes, target)
      ensures limit > 0 ==> |nodes| <= limit
      ensures forall n :: IsCandidate(buckets, n, includeUnconfirmed) && n !in nodes ==>
                limit > 0 && |nodes| == limit && forall m :: m in nodes ==> Dist(m.id, target) < Dist(n.id, target)
    {
      nodes := [];
      for i := 0 to |buckets|
        invariant forall n :: n in nodes <==> IsCandidate(buckets[..i], n, includeUnconfirmed)
        invariant forall n :: n in nodes ==> BucketIndex(self, n.id) < i
        invariant DistinctIds(nodes)
      {
        assert buckets[..i + 1] == buckets[..i] + [buckets[i]];
        var more := Eligible(buckets[i].live, includeUnconfirmed);
        assert BucketOk(self, i, bucketSize, buckets[i]);
        LiveOk(self, i, bucketSize, buckets[i]);
        EligibleMeaning(buckets[i].live, includeUnconfirmed);
        forall x | x in more
          ensures BucketIndex(self, x.id) == i
        {
          assert x in buckets[i].live;
        }
        TwoDistinct(nodes, more);
        CandidatesGrow(buckets[..i], buckets[i], includeUnconfirmed);
        nodes := nodes + more;
      }
      assert buckets[..|buckets|] == buckets;
      var all := nodes;
      nodes := SortByDistance(all, target);
      ghost var sorted := nodes;
      if limit > 0 && |nodes| > limit {
        nodes := nodes[..limit];
      }
      assert forall n :: n in nodes ==> n in sorted;
    }
  }

  predicate IsCandidate(buckets: seq<Bucket>, n: KadRoutingNode, includeUnconfirmed: bool)
    reads n
  {
    (includeUnconfirmed || n.pinged) && exists i :: 0 <= i < |buckets| && n in buckets[i].live
  }

  ghost predicate StrictlySorted(nodes: Nodes, target: ID) {
    forall i, j :: 0 <= i < j < |nodes| ==> Dist(nodes[i].id, target) < Dist(nodes[j].id, target)
  }

  lemma CandidatesGrow(bs: seq<Bucket>, b: Bucket, includeUnconfirmed: bool)
    ensures forall n :: IsCandidate(bs + [b], n, includeUnconfirmed) <==>
                        IsCandidate(bs, n, includeUnconfirmed) || ((includeUnconfirmed || n.pinged) && n in b.live)
  {
    forall n: KadRoutingNode
      ensures IsCandidate(bs + [b], n, includeUnconfirmed) <==>
              IsCandidate(bs, n, includeUnconfirmed) || ((includeUnconfirmed || n.pinged) && n in b.live)
    {
      if i :| 0 <= i < |bs| && n in bs[i].live {
        assert (bs + [b])[i] == bs[i];
      }
      assert (bs + [b])[|bs|] == b;
    }
  }

  lemma LiveOk(self: ID, index: nat, size: nat, b: Bucket)
    requires BucketOk(self, index, size, b)
    ensures DistinctIds(b.live) && forall n :: n in b.live ==> BucketIndex(self, n.id) == index
  {
    assert forall i :: 0 <= i < |b.live| ==> (b.live + b.replacements)[i] == b.live[i];
  }

  lemma TwoDistinct(a: Nodes, b: Nodes)
    requires DistinctIds(a) && DistinctIds(b)
    requires forall x, y :: x in a && y in b ==> x.id != y.id
    ensures DistinctIds(a + b)
  {
  }

  function Eligible(nodes: Nodes, includeUnconfirmed: bool): (r: Nodes)
    reads nodes
    ensures forall x :: x in r ==> x in nodes
  {
    if |nodes| == 0 then []
    else
      var n := |nodes| - 1;
      assert nodes == nodes[..n] + [nodes[n]];
      Eligible(nodes[..n], includeUnconfirmed) + if includeUnconfirmed || nodes[n].pinged then [nodes[n]] else []
  }

  lemma {:induction false} EligibleMeaning(nodes: Nodes, includeUnconfirmed: bool)
    requires DistinctIds(nodes)
    ensures forall n :: n in Eligible(nodes, includeUnconfirmed) <==> n in nodes && (includeUnconfirmed || n.pinged)
    ensures DistinctIds(Eligible(nodes, includeUnconfirmed))
  {
    if |nodes| > 0 {
      var n := |nodes| - 1;
      EligibleMeaning(nodes[..n], includeUnconfirmed);
      assert nodes == nodes[..n] + [nodes[n]];
      forall x | x in nodes[..n]
        ensures x.id != nodes[n].id
      {
        var k :| 0 <= k < n && nodes[k] == x;
      }
      var before, last := Eligible(nodes[..n], includeUnconfirmed), if includeUnconfirmed || nodes[n].pinged
        then [nodes[n]] else [];
      assert forall x :: x in before ==> x in nodes[..n];
      TwoDistinct(before, last);
    }
  }

  /** Where a node belongs in a sorted list. */
  function Place(sorted: Nodes, node: KadRoutingNode, target: ID): (k: nat)
    ensures k <= |sorted|
    ensures forall i :: 0 <= i < k ==> Compare(sorted[i].id, node.id, target) < 0
    ensures k < |sorted| ==> Compare(sorted[k].id, node.id, target) >= 0
  {
    if |sorted| == 0 || Compare(sorted[0].id, node.id, target) >= 0 then 0 else 1 + Place(sorted[1..], node, target)
  }

  lemma PlaceSplits(sorted: Nodes, node: KadRoutingNode, target: ID, i: nat)
    requires StrictlySorted(sorted, target) && (forall n :: n in sorted ==> n.id != node.id) && i < |sorted|
    ensures if i < Place(sorted, node, target) then Dist(sorted[i].id, target) < Dist(node.id, target)
            else Dist(sorted[i].id, target) > Dist(node.id, target)
  {
    var k := Place(sorted, node, target);
    CompareIsDist(sorted[i].id, node.id, target);
    if k <= i {
      CompareIsDist(sorted[k].id, node.id, target);
    }
  }

  /** The distances of a list of nodes. */
  function Distances(nodes: Nodes, target: ID): (r: seq<nat>)
    ensures |r| == |nodes|
  {
    seq(|nodes|, i requires 0 <= i < |nodes| => Dist(nodes[i].id, target))
  }

  lemma ByDistances(nodes: Nodes, target: ID)
    ensures Increasing(Distances(nodes, target)) <==> StrictlySorted(nodes, target)
  {
    var ds := Distances(nodes, target);
    assert forall i :: 0 <= i < |nodes| ==> ds[i] == Dist(nodes[i].id, target);
  }

  lemma DistancesSplice(nodes: Nodes, k: nat, node: KadRoutingNode, target: ID)
    requires k <= |nodes|
    ensures Distances(nodes[..k] + [node] + nodes[k..], target) ==
            Splice(Distances(nodes, target), k, Dist(node.id, target))
  {
  }

  lemma PlaceKeepsSorted(sorted: Nodes, node: KadRoutingNode, target: ID)
    requires StrictlySorted(sorted, target) && forall n :: n in sorted ==> n.id != node.id
    ensures var k := Place(sorted, node, target);
            StrictlySorted(sorted[..k] + [node] + sorted[k..], target)
  {
    var k := Place(sorted, node, target);
    var s := Distances(sorted, target);
    forall i | 0 <= i < |sorted|
      ensures if i < k then s[i] < Dist(node.id, target) else Dist(node.id, target) < s[i]
    {
      PlaceSplits(sorted, node, target, i);
    }
    ByDistances(sorted, target);
    Spliced(s, k, Dist(node.id, target));
    DistancesSplice(sorted, k, node, target);
    ByDistances(sorted[..k] + [node] + sorted[k..], target);
  }

  /** Sorting by distance; with distinct identifiers the order is the only possible one. */
  method SortByDistance(nodes: Nodes, target: ID) returns (sorted: Nodes)
    requires DistinctIds(nodes)
    ensures StrictlySorted(sorted, target)
    ensures forall n :: n in sorted <==> n in nodes
  {
    sorted := [];
    for i := 0 to |nodes|
      invariant StrictlySorted(sorted, target)
      invariant forall n :: n in sorted <==> n in nodes[..i]
    {
      assert nodes[..i + 1] == nodes[..i] + [nodes[i]];
      var k := Place(sorted, nodes[i], target);
      PlaceKeepsSorted(sorted, nodes[i], target);
      assert sorted == sorted[..k] + sorted[k..];
      sorted := sorted[..k] + [nodes[i]] + sorted[k..];
    }
    assert nodes[..|nodes|] == nodes;
  }

  // ---------------------------------------------------------------- refresh

  predicate IsStale(b: Bucket, now: int) { now - b.lastActive >= LIVE_LIMIT }

  /** The first of the longest inactive buckets among the stale ones. */
  function Stalest(buckets: seq<Bucket>, now: int): (r: Option<nat>)
    ensures r.Some? ==> r.value < |buckets|
  {
    if |buckets| == 0 then None
    else
      var n := |buckets| - 1;
      var before := Stalest(buckets[..n], now);
      if IsStale(buckets[n], now) && (before == None || buckets[n].lastActive < buckets[before.value].lastActive)
        then Some(n) else before
  }

  ghost predicate IsStalest(buckets: seq<Bucket>, now: int, i: nat) {
    && i < |buckets| && now - buckets[i].lastActive >= 900
    && (forall j :: 0 <= j < |buckets| ==> buckets[i].lastActive <= buckets[j].lastActive)
    && forall j :: 0 <= j < i ==> buckets[i].lastActive < buckets[j].lastActive
  }

  lemma {:induction false} StalestMeaning(buckets: seq<Bucket>, now: int)
    ensures Stalest(buckets, now).None? <==> forall i :: 0 <= i < |buckets| ==> now - buckets[i].lastActive < 900
    ensures Stalest(buckets, now).Some? ==> IsStalest(buckets, now, Stalest(buckets, now).value)
  {
    if |buckets| > 0 {
      var n := |buckets| - 1;
      StalestMeaning(buckets[..n], now);
      assert forall i :: 0 <= i < n ==> buckets[..n][i] == buckets[i];
    }
  }
}
