/** The upload slots: who waits, who uploads, in which order, and who is kicked (upload_queue.go and the
    upload state of peer_connection.go). Times are milliseconds. */
module UploadQueues {
  import opened Wrappers

  const MAX_UPLOAD_TIME: int := 60 * 60 * 1000
  const MAX_UPLOAD_DATA: int := 10 * 1024 * 1024
  const MIN_SLOTS: nat := 2
  const MAX_SLOTS: nat := 250
  const RANKS: nat := 65536

  datatype UploadState = NotUploading | OnQueue | Uploading

  /** What the queue itself keeps about a client; `requests` are the blocks asked for, by number, served or not. */
  datatype Slot = Slot(state: UploadState, waitStart: int, startTime: int, sessionBase: int, addNext: bool,
                       requests: seq<nat>) {
    function SetState(s: UploadState): Slot { this.(state := s, startTime := if s == Uploading then startTime else 0) }
  }

  /** What a peer connection keeps for uploading; `file` is the transfer it is attached to. */
  class PeerConnection {
    var slot: Slot
    var rank: nat
    var friend: bool
    var disconnecting: bool
    var connected: bool
    var lowID: bool
    var file: Option<nat>
    var powerShare: bool
    var uploaded: int
    var endpoint: int

    function StartDelay(now: int): int
      reads this
    {
      if slot.startTime == 0 then 0 else now - slot.startTime
    }

    function Session(): int
      reads this
    {
      if uploaded < slot.sessionBase then 0 else uploaded - slot.sessionBase
    }

    /** A client with a low ID can only upload while it is connected. */
    predicate Reachable()
      reads this
    {
      !lowID || (connected && !disconnecting)
    }

    predicate IsVip()
      reads this
    {
      friend || (file.Some? && powerShare)
    }
  }

  type Clients = seq<PeerConnection>

  /** A score for each client; the source computes it from waiting time and credits. */
  type Scores = PeerConnection -> nat

  ghost predicate NoDup(s: Clients) { forall i, j :: 0 <= i < j < |s| ==> s[i] != s[j] }

  ghost predicate Disjoint(a: Clients, b: Clients) { forall c :: c in a ==> c !in b }

  ghost predicate OnlyFrom(s: Clients, a: Clients, b: Clients) { forall i :: 0 <= i < |s| ==> s[i] in a || s[i] in b }

  lemma OnlyFromThrough(s: Clients, w: Clients, u: Clients, c: PeerConnection, a: Clients, b: Clients)
    requires OnlyFrom(s, w + [c], u) && OnlyFrom(w, a, b) && OnlyFrom(u, a, b) && (c in a || c in b)
    ensures OnlyFrom(s, a, b)
  {
    forall i | 0 <= i < |s|
      ensures s[i] in a || s[i] in b
    {
      if s[i] in u {
        var j :| 0 <= j < |u| && u[j] == s[i];
      } else if s[i] != c {
        var j :| 0 <= j < |w| && w[j] == s[i];
      }
    }
  }

  lemma StayThrough(a: Clients, b: Clients, s: Clients, c: PeerConnection)
    requires forall i {:trigger a[i]} :: 0 <= i < |a| && a[i] != c ==> a[i] in b
    requires forall i {:trigger b[i]} :: 0 <= i < |b| && b[i] != c ==> b[i] in s
    ensures forall i {:trigger a[i]} :: 0 <= i < |a| && a[i] != c ==> a[i] in s
  {
    forall i | 0 <= i < |a| && a[i] != c
      ensures a[i] in s
    {
      var j :| 0 <= j < |b| && b[j] == a[i];
    }
  }

  lemma MovedOver(w: Clients, u: Clients, i: nat)
    requires i < |w|
    ensures OnlyFrom(Drop(w, i), w + [w[i]], u) && OnlyFrom(u + [w[i]], w + [w[i]], u)
    ensures OnlyFrom(w, Drop(w, i), u + [w[i]]) && OnlyFrom(u, Drop(w, i), u + [w[i]])
  {
    forall j | 0 <= j < |w|
      ensures w[j] in Drop(w, i) || w[j] in u + [w[i]]
    {
      assert j != i ==> Drop(w, i)[if j < i then j else j - 1] == w[j];
    }
  }

  function IndexOf(s: Clients, c: PeerConnection): (i: nat)
    ensures i <= |s| && (i < |s| <==> c in s) && (i < |s| ==> s[i] == c)
  {
    if |s| == 0 then 0 else if s[0] == c then 0 else 1 + IndexOf(s[1..], c)
  }

  function Drop(s: Clients, i: nat): Clients
    requires i < |s|
  {
    s[..i] + s[i + 1..]
  }

  lemma DropKeeps(s: Clients, i: nat)
    requires NoDup(s) && i < |s|
    ensures NoDup(Drop(s, i)) && forall c :: c in Drop(s, i) <==> c in s && c != s[i]
  {
    forall c | c in s && c != s[i]
      ensures c in Drop(s, i)
    {
      var k :| 0 <= k < |s| && s[k] == c;
      assert Drop(s, i)[if k < i then k else k - 1] == c;
    }
  }

  lemma DropStays(s: Clients, i: nat)
    requires NoDup(s) && i < |s|
    ensures OnlyFrom(Drop(s, i), s, []) && OnlyFrom(Drop(s, i), [], s)
    ensures forall j {:trigger s[j]} :: 0 <= j < |s| && s[j] != s[i] ==> s[j] in Drop(s, i)
  {
    DropKeeps(s, i);
  }

  // ---------------------------------------------------------------- order of the waiting list

  /** Higher score first, then longer waiting, then the smaller endpoint. */
  predicate Before(a: PeerConnection, b: PeerConnection, score: Scores)
    reads a`slot, a`endpoint, b`slot, b`endpoint
  {
    || score(a) > score(b)
    || (score(a) == score(b) && a.slot.waitStart < b.slot.waitStart)
    || (score(a) == score(b) && a.slot.waitStart == b.slot.waitStart && a.endpoint < b.endpoint)
  }

  ghost predicate InOrder(s: Clients, score: Scores)
    reads s`slot, s`endpoint
  {
    forall i, j :: 0 <= i < j < |s| ==> !Before(s[j], s[i], score)
  }

  /** A list in order has falling scores; equal scores have rising starts of waiting, and equal starts rising
      endpoints. */
  lemma OrderMeaning(s: Clients, score: Scores, i: nat, j: nat)
    requires InOrder(s, score) && i < j < |s|
    ensures var (a, b) := (s[i], s[j]);
            && score(a) >= score(b)
            && (score(a) == score(b) ==> a.slot.waitStart <= b.slot.waitStart)
            && (score(a) == score(b) && a.slot.waitStart == b.slot.waitStart ==> a.endpoint <= b.endpoint)
  {
    assert !Before(s[j], s[i], score);
  }

  /** Where a client goes in a sorted list: behind every client it does not precede. */
  function Place(s: Clients, c: PeerConnection, score: Scores): (k: nat)
    reads s`slot, s`endpoint, c`slot, c`endpoint
    ensures k <= |s|
    ensures k < |s| ==> Before(c, s[k], score)
    ensures forall i :: 0 <= i < k ==> !Before(c, s[i], score)
  {
    if |s| == 0 || Before(c, s[0], score) then 0 else 1 + Place(s[1..], c, score)
  }

  lemma BeforeIsOrder(a: PeerConnection, b: PeerConnection, c: PeerConnection, score: Scores)
    ensures !(Before(a, b, score) && Before(b, a, score))
    ensures Before(a, b, score) && !Before(c, b, score) ==> Before(a, c, score)
  {
  }

  lemma PlaceKeepsOrder(s: Clients, c: PeerConnection, score: Scores)
    requires InOrder(s, score)
    ensures var k := Place(s, c, score); InOrder(s[..k] + [c] + s[k..], score)
  {
    var k := Place(s, c, score);
    forall i | k <= i < |s|
      ensures !Before(s[i], c, score)
    {
      BeforeIsOrder(c, s[k], s[i], score);
      BeforeIsOrder(c, s[i], s[i], score);
    }
  }

  /** The stable sort of the source: clients that compare equal keep their order. */
  function Sorted(s: Clients, score: Scores): (r: Clients)
    reads s`slot, s`endpoint
    ensures |r| == |s| && forall c :: c in r ==> c in s
  {
    if |s| == 0 then []
    else
      var n := |s| - 1;
      var r := Sorted(s[..n], score);
      assert s == s[..n] + [s[n]];
      assert forall i :: 0 <= i < |r| ==> r[i] in r && r[i] in s;
      var k := Place(r, s[n], score);
      r[..k] + [s[n]] + r[k..]
  }

  lemma InsertKeeps(r: Clients, k: nat, c: PeerConnection)
    requires NoDup(r) && k <= |r| && c !in r
    ensures NoDup(r[..k] + [c] + r[k..]) && forall x :: x in r[..k] + [c] + r[k..] <==> x in r || x == c
  {
    assert r == r[..k] + r[k..];
  }

  /** Sorting yields a permutation in order. */
  lemma {:induction false} SortedMeaning(s: Clients, score: Scores)
    requires NoDup(s)
    ensures NoDup(Sorted(s, score)) && (forall c :: c in Sorted(s, score) <==> c in s)
            && InOrder(Sorted(s, score), score)
  {
    if |s| > 0 {
      var n := |s| - 1;
      SortedMeaning(s[..n], score);
      var r := Sorted(s[..n], score);
      var k := Place(r, s[n], score);
      assert s == s[..n] + [s[n]];
      InsertKeeps(r, k, s[n]);
      PlaceKeepsOrder(r, s[n], score);
    }
  }

  // ---------------------------------------------------------------- what the queue keeps

  /** Clients waiting have their state and, modulo 2^16, their position as rank. */
  predicate WaitingOk(s: Clients)
    reads s`slot, s`rank
  {
    forall i :: 0 <= i < |s| ==> s[i].slot.state == OnQueue && s[i].rank == (i + 1) % RANKS
  }

  predicate UploadingOk(s: Clients)
    reads s`slot, s`rank
  {
    forall i :: 0 <= i < |s| ==> s[i].slot.state == Uploading && s[i].rank == 0
  }

  class UploadQueue {
    const queueLimit: int
    var waiting: Clients
    var uploading: Clients
    var lastStartUpload: int
    var lastSort: int
    var allowKicking: bool
    var lastSlotHighID: bool
    var suspended: set<nat>

    ghost predicate Valid()
      reads this`waiting, this`uploading, waiting`slot, waiting`rank, uploading`slot, uploading`rank
    {
      && NoDup(waiting) && NoDup(uploading) && Disjoint(waiting, uploading)
      && WaitingOk(waiting) && UploadingOk(uploading) && |uploading| <= MAX_SLOTS + 1
    }

    constructor (queueLimit: int)
      ensures Valid() && waiting == [] && uploading == [] && this.queueLimit == queueLimit
    {
      this.queueLimit := queueLimit;
      waiting, uploading, suspended := [], [], {};
      lastStartUpload, lastSort, allowKicking, lastSlotHighID := 0, 0, false, true;
    }

    method RecomputeRanks()
      requires NoDup(waiting)
      modifies waiting`rank
      ensures forall i :: 0 <= i < |waiting| ==> waiting[i].rank == (i + 1) % RANKS
    {
      for i := 0 to |waiting|
        invariant forall j :: 0 <= j < i ==> waiting[j].rank == (j + 1) % RANKS
      {
        waiting[i].rank := (i + 1) % RANKS;
      }
    }

    /** Everybody waiting is in the right state; the ranks are yet to be recomputed. */
    predicate WaitingStates()
      reads this`waiting, waiting`slot
    {
      forall i :: 0 <= i < |waiting| ==> waiting[i].slot.state == OnQueue
    }

    method SortWaiting(score: Scores, now: int)
      requires NoDup(waiting) && WaitingStates()
      modifies this`waiting, this`lastSort, waiting`rank
      ensures NoDup(waiting) && WaitingOk(waiting) && lastSort == now
      ensures waiting == old(Sorted(waiting, score)) && InOrder(waiting, score)
      ensures forall c :: c in waiting <==> c in old(waiting)
    {
      SortedMeaning(waiting, score);
      waiting := Sorted(waiting, score);
      lastSort := now;
      assert forall i :: 0 <= i < |waiting| ==> waiting[i] in waiting;
      RecomputeRanks();
    }

    method RemoveFromWaitingQueue(client: PeerConnection) returns (removed: bool)
      requires Valid()
      modifies this`waiting, waiting`rank, client`slot, client`rank
      ensures removed <==> client in old(waiting)
      ensures client.slot.requests == old(client.slot.requests)
      ensures waiting == if removed then Drop(old(waiting), IndexOf(old(waiting), client)) else old(waiting)
      ensures removed ==> client.slot.state == NotUploading && client.rank == 0 && client.slot.waitStart == 0
      ensures !removed ==> client.slot == old(client.slot) && client.rank == old(client.rank)
      ensures Valid() && client !in waiting
    {
      var i := IndexOf(waiting, client);
      if i == |waiting| {
        return false;
      }
      DropKeeps(waiting, i);
      waiting := Drop(waiting, i);
      client.slot := client.slot.SetState(NotUploading).(waitStart := 0);
      client.rank := 0;
      RecomputeRanks();
      return true;
    }

    method RemoveFromUploadQueue(client: PeerConnection) returns (removed: bool)
      requires Valid()
      modifies this`waiting, this`uploading, waiting`rank, client`slot, client`rank
      ensures removed <==> client in old(waiting) || client in old(uploading)
      ensures waiting == if client in old(waiting) then Drop(old(waiting), IndexOf(old(waiting), client))
              else old(waiting)
      ensures uploading == if client in old(uploading) then Drop(old(uploading), IndexOf(old(uploading), client))
              else old(uploading)
      ensures removed ==> client.slot.state == NotUploading && client.rank == 0 && client.slot.requests == []
      ensures !removed ==> client.slot == old(client.slot) && client.rank == old(client.rank)
      ensures Valid() && client !in waiting && client !in uploading
      ensures OnlyFrom(waiting, old(waiting), []) && OnlyFrom(uploading, [], old(uploading)) && OthersStay(client)
    {
      removed := false;
      var i := IndexOf(uploading, client);
      if i < |uploading| {
        DropKeeps(uploading, i);
        DropStays(uploading, i);
        uploading := Drop(uploading, i);
        removed := true;
      }
      if client in waiting {
        DropStays(waiting, IndexOf(waiting, client));
      }
      var waited := RemoveFromWaitingQueue(client);
      removed := removed || waited;
      if removed {
        client.slot := client.slot.SetState(NotUploading).(requests := []);
      }
    }

    /** Give a client that is in neither list an upload slot. */
    method Promote(client: PeerConnection, now: int)
      requires Valid() && |uploading| <= MAX_SLOTS && client !in waiting && client !in uploading
      modifies this`uploading, this`lastSlotHighID, client`slot, client`rank
      ensures Valid() && uploading == old(uploading) + [client] && lastSlotHighID == !client.lowID
      ensures client.slot ==
              Slot(Uploading, old(client.slot.waitStart), now, client.uploaded, false, old(client.slot.requests))
    {
      client.rank := 0;
      client.slot := client.slot.(state := Uploading, addNext := false, startTime := now,
                                  sessionBase := client.uploaded);
      uploading := uploading + [client];
      lastSlotHighID := !client.lowID;
    }

    /** The longest waiting client that can be reached now gets a slot; those passed over are remembered. */
    method AddUpNextClient(now: int)
      requires Valid() && |uploading| <= MAX_SLOTS
      modifies this`waiting, this`uploading, this`lastSlotHighID, waiting`slot, waiting`rank
      ensures Valid()
      ensures var i := old(FirstReachable(waiting));
              if i == |old(waiting)|
                then waiting == old(waiting) && uploading == old(uploading) && lastSlotHighID == old(lastSlotHighID)
              else waiting == Drop(old(waiting), i) && uploading == old(uploading) + [old(waiting)[i]]
      ensures var i := old(FirstReachable(waiting));
              i < |old(waiting)| ==>
                var c := old(waiting)[i];
                c.slot.startTime == now && c.slot.sessionBase == c.uploaded && !c.slot.addNext
                  && lastSlotHighID == !c.lowID
    {
      var best := PassOver();
      if best == |waiting| {
        return;
      }
      var client := waiting[best];
      DropKeeps(waiting, best);
      waiting := Drop(waiting, best);
      RecomputeRanks();
      Promote(client, now);
    }

    /** Clients that cannot be reached now are noted as next in line when they connect. */
    method PassOver() returns (best: nat)
      requires Valid()
      modifies waiting`slot
      ensures Valid() && best == old(FirstReachable(waiting))
      ensures forall j :: 0 <= j < |waiting| ==>
                waiting[j].slot == if j < best then old(waiting[j].slot).(addNext := true) else old(waiting[j].slot)
    {
      best := 0;
      while best < |waiting| && !waiting[best].Reachable()
        invariant best <= |waiting|
        invariant forall j :: 0 <= j < best ==> !waiting[j].Reachable()
        invariant forall j :: 0 <= j < |waiting| ==>
                    waiting[j].slot == if j < best then old(waiting[j].slot).(addNext := true) else old(waiting[j].slot)
      {
        waiting[best].slot := waiting[best].slot.(addNext := true);
        best := best + 1;
      }
    }

    /** Whether the client has to give up its slot: at most one client per round, never a friend, and a power
        share client only while more than half of the slots are taken by such clients and friends. */
    method CheckForTimeOver(client: PeerConnection, slots: nat, now: int) returns (over: bool)
      modifies this`allowKicking
      ensures over <==> old(allowKicking) && !client.friend && TimeIsOver(client, now)
                        && (client.file.Some? && client.powerShare ==> Vips(uploading) > slots / 2)
      ensures allowKicking == (old(allowKicking) && !over)
    {
      if !allowKicking || client.friend {
        return false;
      }
      if client.file.Some? && client.powerShare {
        var vips := 0;
        for i := 0 to |uploading|
          invariant vips == Vips(uploading[..i]) && allowKicking == old(allowKicking)
        {
          assert uploading[..i + 1][..i] == uploading[..i];
          if uploading[i].IsVip() {
            vips := vips + 1;
          }
        }
        assert uploading[..|uploading|] == uploading;
        if vips <= slots / 2 {
          return false;
        }
      }
      if client.StartDelay(now) > MAX_UPLOAD_TIME || client.Session() > MAX_UPLOAD_DATA {
        allowKicking := false;
        return true;
      }
      return false;
    }

    predicate IsSuspended(client: PeerConnection)
      reads this, client
    {
      client.file.Some? && client.file.value in suspended
    }

    /** Append to the waiting list and sort. */
    method Enqueue(client: PeerConnection, score: Scores, now: int)
      requires Valid() && client !in waiting && client !in uploading
      modifies this`waiting, this`lastSort, waiting`rank, client`slot, client`rank
      ensures Valid() && uploading == old(uploading)
      ensures forall c :: c in waiting <==> c in old(waiting) || c == client
      ensures InOrder(waiting, score)
      ensures client.slot == old(client.slot).(state := OnQueue, waitStart := now, startTime := 0)
    {
      client.slot := client.slot.SetState(OnQueue).(waitStart := now);
      waiting := waiting + [client];
      SortWaiting(score, now);
    }

    /** Nobody in the lists but who was there before, and the client; and nobody is lost. */
    twostate predicate SameClients(client: PeerConnection)
      reads this
    {
      && OnlyFrom(waiting, old(waiting) + [client], old(uploading))
         && OnlyFrom(uploading, old(waiting) + [client], old(uploading))
      && OnlyFrom(old(waiting), waiting, uploading) && OnlyFrom(old(uploading), waiting, uploading)
    }

    /** Nobody but the client enters or leaves the lists. */
    twostate predicate OthersStay(client: PeerConnection)
      reads this`waiting, this`uploading
    {
      && (forall i {:trigger old(waiting)[i]} :: 0 <= i < |old(waiting)| && old(waiting)[i] != client ==>
            old(waiting)[i] in waiting)
      && forall i {:trigger old(uploading)[i]} :: 0 <= i < |old(uploading)| && old(uploading)[i] != client ==>
           old(uploading)[i] in uploading
    }

    /** Nobody else's slot changes, nor do the lists. */
    twostate predicate Untouched(client: PeerConnection)
      reads this`waiting, this`uploading, waiting`slot, uploading`slot
    {
      && waiting == old(waiting) && uploading == old(uploading)
      && (forall i :: 0 <= i < |waiting| && waiting[i] != client ==> waiting[i].slot == old(waiting[i].slot))
      && forall i :: 0 <= i < |uploading| && uploading[i] != client ==> uploading[i].slot == old(uploading[i].slot)
    }

    /** A client that waits asks again: when it has been passed over and there is a slot now, it gets it. */
    method AskAgain(client: PeerConnection, slots: nat, now: int)
      requires Valid() && MIN_SLOTS <= slots <= MAX_SLOTS && client in waiting
      modifies this`waiting, this`uploading, this`lastSlotHighID, waiting`slot, waiting`rank
      ensures Valid() && SameClients(client) && OthersStay(client)
      ensures client in uploading <==>
              old(client.slot.addNext && |uploading| < if lastSlotHighID then slots + 1 else slots)
      ensures client in uploading ==> uploading == old(uploading) + [client]
      ensures client in uploading ==> client.slot.startTime == now && !client.slot.addNext && !lastSlotHighID
      ensures client.slot.requests == old(client.slot.requests)
      ensures client !in uploading ==>
                Untouched(client) && client.slot == old(client.slot) && lastSlotHighID == old(lastSlotHighID)
    {
      var maxSlots := if client.slot.addNext && lastSlotHighID then slots + 1 else slots;
      if client.slot.addNext && |uploading| < maxSlots {
        MoveOver(client, now);
      }
    }

    /** A waiting client gets a slot now. */
    method MoveOver(client: PeerConnection, now: int)
      requires Valid() && |uploading| <= MAX_SLOTS && client in waiting
      modifies this`waiting, this`uploading, this`lastSlotHighID, waiting`rank, client`slot, client`rank
      ensures Valid() && SameClients(client) && OthersStay(client)
      ensures uploading == old(uploading) + [client] && !lastSlotHighID
      ensures client.slot.startTime == now && !client.slot.addNext && client.slot.requests == old(client.slot.requests)
    {
      client.slot := client.slot.(addNext := false);
      ghost var w, u := waiting, uploading;
      var removed := RemoveFromWaitingQueue(client);
      Promote(client, now);
      ghost var i := IndexOf(w, client);
      assert waiting == Drop(w, i) && uploading == u + [w[i]];
      MovedOver(w, u, i);
      DropStays(w, i);
      lastSlotHighID := false;
    }

    /** A new client gets a free slot when nobody waits, and waits otherwise. */
    method Admit(client: PeerConnection, slots: nat, score: Scores, now: int)
      requires Valid() && MIN_SLOTS <= slots <= MAX_SLOTS && client !in waiting && client !in uploading
      modifies this`waiting, this`uploading, this`lastSlotHighID, this`lastStartUpload, this`lastSort, waiting`slot,
               waiting`rank, client`slot, client`rank
      ensures Valid() && SameClients(client) && OthersStay(client)
      ensures client in uploading <==> old(waiting == [] && now - lastStartUpload >= 1000 && |uploading| < slots)
      ensures client in uploading ==> uploading == old(uploading) + [client]
      ensures client !in uploading ==> client in waiting
      ensures client in uploading ==> client.slot.startTime == now && lastStartUpload == now
      ensures client !in uploading ==> client.slot.waitStart == now && lastStartUpload == old(lastStartUpload)
      ensures client.slot.requests == old(client.slot.requests)
    {
      client.slot := client.slot.(waitStart := 0);
      if |waiting| == 0 && now - lastStartUpload >= 1000 && |uploading| < slots {
        Promote(client, now);
        lastStartUpload := now;
        return;
      }
      Enqueue(client, score, now);
    }

    /** A client that is in neither list may be taken in. */
    predicate Welcome(client: PeerConnection)
      reads this, client
    {
      !client.disconnecting && client.file.Some? && !IsSuspended(client) && (queueLimit <= 0 || |waiting| < queueLimit)
    }

    /** A client asks for an upload slot. `slots` is the number of slots at this moment. */
    method AddClientToQueue(client: PeerConnection, slots: nat, score: Scores, now: int)
      requires Valid() && MIN_SLOTS <= slots <= MAX_SLOTS
      modifies this, waiting`slot, waiting`rank, client`slot, client`rank
      ensures Valid() && allowKicking == old(allowKicking) && SameClients(client) && OthersStay(client)
      ensures client in old(uploading) ==> Untouched(client) && client.slot == old(client.slot)
      ensures client in uploading && client !in old(uploading) ==>
              |old(uploading)| <= slots && uploading == old(uploading) + [client]
      ensures client in old(waiting) ==>
                (client in uploading <==>
                 old(!client.disconnecting && client.slot.addNext && |uploading| < if lastSlotHighID then slots + 1
                     else slots))
      ensures client in old(waiting) ==> client in waiting || client in uploading
      ensures client !in old(waiting) && client !in old(uploading) ==>
                && (client in waiting || client in uploading <==> old(Welcome(client)))
                && (client in uploading <==>
                    old(Welcome(client) && waiting == [] && now - lastStartUpload >= 1000 && |uploading| < slots))
      ensures client.slot.requests == old(client.slot.requests)
      ensures client in uploading && client !in old(uploading) ==> client.slot.startTime == now
      ensures client in waiting && client !in old(waiting) ==> client.slot.waitStart == now
      ensures client in waiting && client in old(waiting) ==> Untouched(client) && client.slot == old(client.slot)
    {
      if client.disconnecting {
        return;
      }
      if client in waiting {
        AskAgain(client, slots, now);
        return;
      }
      if client in uploading || client.file.None? || IsSuspended(client) {
        return;
      }
      if queueLimit > 0 && |waiting| >= queueLimit {
        return;
      }
      Admit(client, slots, score, now);
    }

    /** A client whose time is over loses its slot and asks again. */
    method Kick(client: PeerConnection, slots: nat, score: Scores, now: int)
      requires Valid() && MIN_SLOTS <= slots <= MAX_SLOTS
      modifies this, waiting`slot, waiting`rank, uploading`slot, uploading`rank, client`slot, client`rank
      ensures Valid() && allowKicking == old(allowKicking) && OthersStay(client)
      ensures client in old(uploading) ==>
                && (client in waiting || client in uploading <==> old(Welcome(client)))
                && (old(waiting) != [] ==> client !in uploading)
                && client.slot.requests == [] && (client in waiting ==> client.slot.waitStart == now)
      ensures OnlyFrom(waiting, old(waiting) + [client], old(uploading))
              && OnlyFrom(uploading, old(waiting) + [client], old(uploading))
    {
      ghost var w, u := waiting, uploading;
      var removed := RemoveFromUploadQueue(client);
      ghost var w1, u1 := waiting, uploading;
      AddClientToQueue(client, slots, score, now);
      OnlyFromThrough(waiting, w1, u1, client, w + [client], u);
      OnlyFromThrough(uploading, w1, u1, client, w + [client], u);
      StayThrough(w, w1, waiting, client);
      StayThrough(u, u1, uploading, client);
    }

    /** One round for an uploading client. What happens to its next block is decided outside the queue. */
    method SendBlockData(client: PeerConnection, score: Scores, m: Moment) returns (kicked: bool)
      requires Valid() && MIN_SLOTS <= m.slots <= MAX_SLOTS
      modifies this, waiting`slot, waiting`rank, uploading`slot, uploading`rank, client`slot, client`rank
      ensures Valid()
      ensures kicked <==>
              old(client.slot.state == Uploading && allowKicking && !client.friend && TimeIsOver(client, m.now)
                  && (client.file.Some? && client.powerShare ==> Vips(uploading) > m.slots / 2))
      ensures allowKicking == (old(allowKicking) && !kicked)
      ensures OnlyFrom(waiting, old(waiting) + [client], old(uploading))
              && OnlyFrom(uploading, old(waiting) + [client], old(uploading))
      ensures OthersStay(client)
      ensures old(client.slot.state) != Uploading || (!kicked && (m.outcome == Nothing || m.outcome == Sent)) ==>
                Untouched(client) && client.slot == old(client.slot)
      ensures old(client.slot.state) == Uploading && !kicked && m.outcome == NotHad && client in old(uploading) ==>
                Untouched(client) && client.slot == old(client.slot).(requests := [])
      ensures kicked && client in old(uploading) ==>
                && (client in waiting || client in uploading <==> old(Welcome(client)))
                && (old(waiting) != [] ==> client !in uploading) && client.slot.requests == []
      ensures old(client.slot.state) == Uploading && !kicked && m.outcome == Broken ==>
                client !in waiting && client !in uploading
                  && (client in old(uploading) ==> client.slot.state == NotUploading)
    {
      if client.slot.state != Uploading {
        return false;
      }
      kicked := CheckForTimeOver(client, m.slots, m.now);
      if kicked {
        Kick(client, m.slots, score, m.now);
        return;
      }
      match m.outcome
      case Nothing | Sent =>
      case NotHad =>
        client.slot := client.slot.(requests := []);
        AddClientToQueue(client, m.slots, score, m.now);
      case Broken => var removed := RemoveFromUploadQueue(client);
    }

    /** One run: perhaps a new slot, then a round for every uploading client, then perhaps a sort. It kicks at
        most one client, only if somebody waited and no slot was free at the start, and never a friend. */
    method Process(slots: nat, score: Scores, now: int, moments: nat -> Moment) returns (kicked: Clients)
      requires Valid() && MIN_SLOTS <= slots <= MAX_SLOTS
      requires forall i :: MIN_SLOTS <= moments(i).slots <= MAX_SLOTS
      modifies this, waiting`slot, waiting`rank, uploading`slot, uploading`rank
      ensures Valid()
      ensures |kicked| <= 1
      ensures forall c :: c in kicked ==> !c.friend && c.connected && !c.disconnecting && c in old(uploading)
      ensures kicked != [] ==> old(waiting) != [] && now - old(lastStartUpload) >= 1000 && |old(uploading)| >= slots
      ensures now - lastSort <= 120000
      ensures Seen(old(uploading), |old(uploading)|, moments, kicked)
    {
      ghost var first := uploading;
      OpenSlot(slots, now);
      ghost var clients := uploading;
      assert |first| <= |clients| && clients[..|first|] == first;
      kicked := ProcessEach(score, moments);
      SeenFirst(clients, first, moments, kicked);
      assert kicked != [] ==> kicked[0] in kicked;
      SortLate(first, moments, kicked, score, now);
    }

    /** The waiting list is sorted again when that was more than two minutes ago. */
    method SortLate(ghost first: Clients, ghost moments: nat -> Moment, ghost kicked: Clients, score: Scores, now: int)
      requires Valid() && Seen(first, |first|, moments, kicked)
      modifies this`waiting, this`lastSort, waiting`rank
      ensures Valid() && now - lastSort <= 120000 && Seen(first, |first|, moments, kicked)
    {
      if now - lastSort > 120000 {
        SortWaiting(score, now);
      }
    }

    lemma SeenFirst(clients: Clients, first: Clients, moments: nat -> Moment, kicked: Clients)
      requires |first| <= |clients| && clients[..|first|] == first && Seen(clients, |clients|, moments, kicked)
      ensures Seen(first, |first|, moments, kicked)
    {
      assert forall j {:trigger first[j]} :: 0 <= j < |first| ==> first[j] == clients[j];
    }

    /** A client that is connected and met no broken read or connection keeps its slot; one that is not, or did, loses
        it. */
    predicate Stays(c: PeerConnection, m: Moment)
      reads c`connected, c`disconnecting
    {
      c.connected && !c.disconnecting && (m.outcome == Nothing || m.outcome == Sent || m.outcome == NotHad)
    }

    predicate Leaves(c: PeerConnection, m: Moment)
      reads c`connected, c`disconnecting
    {
      !c.connected || c.disconnecting || m.outcome == Broken
    }

    /** The start of a run: is there a slot to give away, or may somebody be kicked? */
    method OpenSlot(slots: nat, now: int)
      requires Valid() && MIN_SLOTS <= slots <= MAX_SLOTS
      modifies this, waiting`slot, waiting`rank
      ensures Valid()
      ensures OnlyFrom(waiting, old(waiting), old(uploading)) && OnlyFrom(uploading, old(waiting), old(uploading))
      ensures allowKicking <==> old(waiting) != [] && now - old(lastStartUpload) >= 1000 && |old(uploading)| >= slots
      ensures allowKicking ==> uploading == old(uploading)
      ensures var opens := old(waiting) != [] && now - old(lastStartUpload) >= 1000 && |old(uploading)| < slots;
              var i := old(FirstReachable(waiting));
              && lastStartUpload == (if opens then now else old(lastStartUpload))
              && if opens && i < |old(waiting)|
                 then waiting == Drop(old(waiting), i) && uploading == old(uploading) + [old(waiting)[i]]
                 else waiting == old(waiting) && uploading == old(uploading)
    {
      if |waiting| == 0 || now - lastStartUpload < 1000 {
        allowKicking := false;
      } else if |uploading| < slots {
        allowKicking := false;
        lastStartUpload := now;
        AddUpNextClient(now);
      } else {
        allowKicking := true;
      }
    }

    method ProcessEach(score: Scores, moments: nat -> Moment) returns (kicked: Clients)
      requires Valid() && forall i :: MIN_SLOTS <= moments(i).slots <= MAX_SLOTS
      modifies this, waiting`slot, waiting`rank, uploading`slot, uploading`rank
      ensures Valid() && |kicked| <= 1
      ensures OnlyFrom(waiting, old(waiting), old(uploading)) && OnlyFrom(uploading, old(waiting), old(uploading))
      ensures forall c :: c in kicked ==>
                old(allowKicking) && !c.friend && c.connected && !c.disconnecting && c in old(uploading)
      ensures Seen(old(uploading), |old(uploading)|, moments, kicked)
    {
      kicked := [];
      var clients := uploading;
      for i := 0 to |clients|
        invariant Valid()
        invariant OnlyFrom(waiting, old(waiting), old(uploading)) && OnlyFrom(uploading, old(waiting), old(uploading))
        invariant allowKicking == (old(allowKicking) && kicked == []) && |kicked| <= 1
        invariant forall c :: c in kicked ==>
                    old(allowKicking) && !c.friend && c.connected && !c.disconnecting && c in clients
        invariant Seen(clients, i, moments, kicked)
      {
        var over := ProcessNext(clients, i, score, moments, kicked, old(waiting));
        kicked := if over then kicked + [clients[i]] else kicked;
      }
    }

    /** The first i clients have had their round. */
    predicate Seen(clients: Clients, i: nat, moments: nat -> Moment, kicked: Clients)
      reads this`waiting, this`uploading, clients`connected, clients`disconnecting
    {
      forall j {:trigger clients[j]} :: 0 <= j < |clients| ==>
        if j >= i then clients[j] in uploading
        else
          && (Stays(clients[j], moments(j)) && clients[j] !in kicked ==> clients[j] in uploading)
          && (Leaves(clients[j], moments(j)) && clients[j] !in kicked ==>
              clients[j] !in uploading && clients[j] !in waiting)
    }

    method ProcessNext(clients: Clients, i: nat, score: Scores, moments: nat -> Moment, ghost kicked: Clients,
                       ghost a: Clients)
      returns (over: bool)
      requires Valid() && i < |clients| && NoDup(clients) && MIN_SLOTS <= moments(i).slots <= MAX_SLOTS
      requires OnlyFrom(waiting, a, clients) && OnlyFrom(uploading, a, clients) && Seen(clients, i, moments, kicked)
      modifies this, waiting`slot, waiting`rank, uploading`slot, uploading`rank
      ensures Valid() && OnlyFrom(waiting, a, clients) && OnlyFrom(uploading, a, clients)
      ensures over ==>
                old(allowKicking) && !clients[i].friend && clients[i].connected && !clients[i].disconnecting
      ensures allowKicking == (old(allowKicking) && !over)
      ensures Seen(clients, i + 1, moments, if over then kicked + [clients[i]] else kicked)
    {
      var client, m := clients[i], moments(i);
      ghost var w, u := waiting, uploading;
      assert client in uploading;
      over := ProcessOne(client, score, m);
      OnlyFromThrough(waiting, w, u, client, a, clients);
      OnlyFromThrough(uploading, w, u, client, a, clients);
      forall j | 0 <= j < |clients| && j != i
        ensures clients[j] != client
        ensures clients[j] in u ==> clients[j] in uploading
        ensures clients[j] !in u && clients[j] !in w ==> clients[j] !in uploading && clients[j] !in waiting
      {
        if clients[j] in u {
          var k :| 0 <= k < |u| && u[k] == clients[j];
        }
      }
    }

    method ProcessOne(client: PeerConnection, score: Scores, m: Moment) returns (over: bool)
      requires Valid() && MIN_SLOTS <= m.slots <= MAX_SLOTS
      modifies this, waiting`slot, waiting`rank, uploading`slot, uploading`rank, client`slot, client`rank
      ensures Valid()
      ensures over <==>
              old(client.connected && !client.disconnecting && client.slot.state == Uploading && allowKicking
                  && !client.friend && TimeIsOver(client, m.now)
                  && (client.file.Some? && client.powerShare ==> Vips(uploading) > m.slots / 2))
      ensures allowKicking == (old(allowKicking) && !over)
      ensures OthersStay(client)
              && OnlyFrom(waiting, old(waiting) + [client], old(uploading))
              && OnlyFrom(uploading, old(waiting) + [client], old(uploading))
      ensures client in old(uploading) && over && old(waiting) != [] ==>
                client !in uploading && (client in waiting <==> old(Welcome(client)))
      ensures client in old(uploading) && !over ==>
                && (Stays(client, m) ==>
                    && client in uploading && Untouched(client)
                    && client.slot == if m.outcome == NotHad then old(client.slot).(requests := [])
                       else old(client.slot))
                && (Leaves(client, m) ==> client !in uploading && client !in waiting)
    {
      over := false;
      if client.disconnecting || !client.connected {
        var removed := RemoveFromUploadQueue(client);
      } else {
        over := SendBlockData(client, score, m);
      }
    }

    /** Uploads of a file stop; unless for good, its clients go back to the waiting list. */
    method SuspendUpload(file: nat, terminate: bool, score: Scores, now: int) returns (removed: nat)
      requires Valid()
      modifies this, waiting`slot, waiting`rank, uploading`slot, uploading`rank
      ensures Valid() && suspended == if terminate then old(suspended) else old(suspended) + {file}
      ensures |uploading| <= |old(uploading)| && removed == (|old(uploading)| - |uploading|) % RANKS
      ensures forall i :: 0 <= i < |uploading| ==> uploading[i] in old(uploading) && uploading[i].file != Some(file)
      ensures forall i {:trigger old(uploading)[i]} :: 0 <= i < |old(uploading)| ==>
                var c := old(uploading)[i];
                if c.file != Some(file) then c in uploading else terminate || c in waiting
      ensures forall i {:trigger old(waiting)[i]} :: 0 <= i < |old(waiting)| ==> old(waiting)[i] in waiting
    {
      if !terminate {
        suspended := suspended + {file};
      }
      removed := SuspendServed(file, terminate, score, now);
    }

    /** Every client that is served the file loses its slot. */
    method SuspendServed(file: nat, terminate: bool, score: Scores, now: int) returns (removed: nat)
      requires Valid()
      modifies this`waiting, this`uploading, this`lastSort, waiting`slot, waiting`rank, uploading`slot, uploading`rank
      ensures Valid()
      ensures |uploading| <= |old(uploading)| && removed == (|old(uploading)| - |uploading|) % RANKS
      ensures forall i :: 0 <= i < |uploading| ==> uploading[i] in old(uploading) && uploading[i].file != Some(file)
      ensures forall i {:trigger old(uploading)[i]} :: 0 <= i < |old(uploading)| ==>
                var c := old(uploading)[i];
                if c.file != Some(file) then c in uploading else terminate || c in waiting
      ensures forall i {:trigger old(waiting)[i]} :: 0 <= i < |old(waiting)| ==> old(waiting)[i] in waiting
    {
      removed := 0;
      var clients := uploading;
      ghost var first, gone: nat := waiting, 0;
      for i := 0 to |clients|
        invariant Valid() && Halfway(first, clients, i, file, terminate)
        invariant |uploading| + gone == |clients| && removed == gone % RANKS
      {
        var served := SuspendNext(first, clients, i, file, terminate, score, now);
        if served {
          removed, gone := (removed + 1) % RANKS, gone + 1;
          CountOn(gone - 1);
        }
      }
    }

    /** The first i of the clients that were uploading have been seen to; `first` were waiting before. */
    ghost predicate Halfway(first: Clients, clients: Clients, i: nat, file: nat, terminate: bool)
      reads this`waiting, this`uploading, clients`file
    {
      && OnlyFrom(waiting, first, clients) && OnlyFrom(uploading, [], clients)
      && (forall j {:trigger clients[j]} :: 0 <= j < |clients| ==>
          (clients[j] in uploading <==> j >= i || clients[j].file != Some(file)))
      && (forall j {:trigger clients[j]} :: 0 <= j < |clients| && j < i && clients[j].file == Some(file) ==>
          terminate || clients[j] in waiting)
      && forall j {:trigger first[j]} :: 0 <= j < |first| ==> first[j] in waiting
    }

    method SuspendNext(ghost first: Clients, clients: Clients, i: nat, file: nat, terminate: bool, score: Scores,
                       now: int) returns (served: bool)
      requires Valid() && i < |clients| && NoDup(clients) && Halfway(first, clients, i, file, terminate)
      modifies this`waiting, this`uploading, this`lastSort, waiting`slot, waiting`rank, uploading`slot, uploading`rank
      ensures Valid() && Halfway(first, clients, i + 1, file, terminate)
      ensures |uploading| == |old(uploading)| - if served then 1 else 0
    {
      served := clients[i].file == Some(file);
      if served {
        Suspend(clients[i], terminate, score, now, first, clients);
      }
    }

    method Suspend(client: PeerConnection, terminate: bool, score: Scores, now: int, ghost a: Clients, ghost b: Clients)
      requires Valid() && client in uploading && OnlyFrom(waiting, a, b) && OnlyFrom(uploading, [], b)
      modifies this`waiting, this`uploading, this`lastSort, waiting`slot, waiting`rank, uploading`slot, uploading`rank
      ensures Valid() && OnlyFrom(waiting, a, b) && OnlyFrom(uploading, [], b)
      ensures uploading == Drop(old(uploading), IndexOf(old(uploading), client)) && |uploading| == |old(uploading)| - 1
      ensures client !in uploading && (terminate || client in waiting)
      ensures forall c :: c in old(uploading) && c != client ==> c in uploading
      ensures forall c :: c in old(waiting) ==> c in waiting
    {
      ghost var w, u := waiting, uploading;
      DropKeeps(uploading, IndexOf(uploading, client));
      var gone := RemoveFromUploadQueue(client);
      if !terminate {
        Enqueue(client, score, now);
      }
      assert client in b by {
        var i :| 0 <= i < |u| && u[i] == client;
      }
      assert OnlyFrom(waiting, w + [client], []);
      OnlyFromThrough(waiting, w, [], client, a, b);
    }
  }

  /** What one round of SendBlockData meets: the time, the slots, and what becomes of the next block asked for. */
  datatype Outcome = Nothing | Sent | NotHad | Broken

  datatype Moment = Moment(now: int, slots: nat, outcome: Outcome)

  lemma CountOn(n: nat)
    ensures (n % RANKS + 1) % RANKS == (n + 1) % RANKS
  {
  }

  function Vips(s: Clients): nat
    reads s
  {
    if |s| == 0 then 0 else Vips(s[..|s| - 1]) + if s[|s| - 1].IsVip() then 1 else 0
  }

  predicate TimeIsOver(c: PeerConnection, now: int)
    reads c
    ensures TimeIsOver(c, now) <==>
            || (c.slot.startTime != 0 && now - c.slot.startTime > 3600000)
            || c.uploaded - c.slot.sessionBase > 10485760
  {
    c.StartDelay(now) > MAX_UPLOAD_TIME || c.Session() > MAX_UPLOAD_DATA
  }

  function VipAt(s: Clients): set<nat>
    reads s
  {
    set i: nat | i < |s| && (s[i].friend || (s[i].file.Some? && s[i].powerShare))
  }

  /** Friends and clients of a power share file are counted, and nobody else. */
  lemma {:induction false} VipsAreCounted(s: Clients)
    ensures Vips(s) == |VipAt(s)|
  {
    if |s| > 0 {
      var n := |s| - 1;
      VipsAreCounted(s[..n]);
      assert VipAt(s) == VipAt(s[..n]) + if s[n].IsVip() then {n} else {};
    }
  }

  function FirstReachable(s: Clients): (i: nat)
    reads s
    ensures i <= |s| && (i < |s| ==> s[i].Reachable())
    ensures forall j :: 0 <= j < i ==> !s[j].Reachable()
    ensures i < |s| ==> !s[i].lowID || (s[i].connected && !s[i].disconnecting)
    ensures forall j :: 0 <= j < i ==> s[j].lowID && (!s[j].connected || s[j].disconnecting)
  {
    if |s| == 0 || s[0].Reachable() then 0 else 1 + FirstReachable(s[1..])
  }
}
