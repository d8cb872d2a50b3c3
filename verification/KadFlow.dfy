/** What happens to every query and to every contact a reply brings, over whole runs of the lookups (kad_node.go,
    kad_traversal.go, kad_rpc.go). */
module KadFlow {
  import opened Wrappers
  import opened KadId
  import opened KadTraversal
  import opened Rpc = KadRpc
  import opened KadNode
  import opened KadNodeInv

  // ---------------------------------------------------------------- what a step leaves alone

  /** The observer is the same node; one queried before is still queried, and with `frozen` wholly unchanged. */
  predicate Grown(o: Observer, p: Observer, frozen: bool) {
    && p.id == o.id && p.endpoint == o.endpoint && p.noId == o.noId
    && (o.queried ==> p.queried && (frozen ==> p == o))
  }

  ghost predicate Grows(t: Traversal, u: Traversal, frozen: bool) {
    && u.kind == t.kind && u.target == t.target && u.numTargetNodes == t.numTargetNodes && |u.pool| >= |t.pool|
    && forall k {:trigger u.pool[k]} :: 0 <= k < |t.pool| ==> Grown(t.pool[k], u.pool[k], frozen)
  }

  predicate Here(n: Node, r: Ref) { r.t < |n.traversals| && r.k < |n.traversals[r.t].pool| }

  function At(n: Node, r: Ref): Observer
    requires Here(n, r)
  {
    n.traversals[r.t].pool[r.k]
  }

  predicate Queried(n: Node, r: Ref) { Here(n, r) && At(n, r).queried }

  /** The transaction is a query to the observer's node, waiting for the reply that belongs to the kind of its
      lookup. */
  predicate Names(n: Node, tx: Tx) {
    tx.observer.Some? ==>
      && Here(n, tx.observer.value) && tx.endpoint == At(n, tx.observer.value).endpoint
      && var u := n.traversals[tx.observer.value.t];
      && (u.kind == Bootstrap ==> tx.opcode == 0x09 && tx.target == None && !tx.multi)
      && (u.kind == FindSources || u.kind == FindKeywords || u.kind == Refresh ==>
            tx.opcode == 0x29 && tx.target == Some(u.target) && !tx.multi)
      && (u.kind == SearchSources || u.kind == SearchKeyword ==>
            tx.opcode == 0x3B && tx.target == Some(u.target) && tx.multi)
      && (u.kind == Firewalled ==> tx.opcode == 0x58 && tx.target == None && !tx.multi)
  }

  /** A query sent between n and m to an observer not queried before. */
  predicate NewQuery(n: Node, m: Node, tx: Tx, now: int) {
    && tx.sent == now && tx.observer.Some? && !tx.shortTimed
    && !Queried(n, tx.observer.value) && Queried(m, tx.observer.value) && Names(m, tx)
  }

  ghost predicate OnlyNewQueries(n: Node, m: Node, now: int) {
    && |n.txs| <= |m.txs| && m.txs[..|n.txs|] == n.txs
    && forall i {:trigger m.txs[i]} :: |n.txs| <= i < |m.txs| ==> NewQuery(n, m, m.txs[i], now)
  }

  /** From n to m only observers not queried before have been queried, and nothing else has happened to the lookups of
      n, but, without `frozen`, to the flags of observers queried before. */
  ghost predicate Frame(n: Node, m: Node, now: int, frozen: bool) {
    && |n.traversals| <= |m.traversals|
    && (forall s {:trigger m.traversals[s]} :: 0 <= s < |n.traversals| ==>
          Grows(n.traversals[s], m.traversals[s], frozen))
    && OnlyNewQueries(n, m, now)
  }

  ghost predicate SameOffers(n: Node, m: Node) {
    && |n.traversals| <= |m.traversals|
    && forall s {:trigger m.traversals[s]} :: 0 <= s < |n.traversals| ==>
       m.traversals[s].offered == n.traversals[s].offered
  }

  lemma GrowsThrough(t: Traversal, u: Traversal, v: Traversal, frozen: bool)
    requires Grows(t, u, frozen) && Grows(u, v, frozen)
    ensures Grows(t, v, frozen)
  {
    forall k | 0 <= k < |t.pool|
      ensures Grown(t.pool[k], v.pool[k], frozen)
    {
      assert Grown(t.pool[k], u.pool[k], frozen);
    }
  }

  lemma QueriedStays(n: Node, m: Node, now: int, frozen: bool, r: Ref)
    requires Frame(n, m, now, frozen) && Here(n, r)
    ensures Here(m, r) && Grown(At(n, r), At(m, r), frozen)
  {
    assert Grows(n.traversals[r.t], m.traversals[r.t], frozen);
    assert Grown(n.traversals[r.t].pool[r.k], m.traversals[r.t].pool[r.k], frozen);
  }

  lemma NamesStay(n: Node, m: Node, now: int, frozen: bool, tx: Tx)
    requires Frame(n, m, now, frozen) && Names(n, tx)
    ensures Names(m, tx)
  {
    if tx.observer.Some? {
      QueriedStays(n, m, now, frozen, tx.observer.value);
      assert Grows(n.traversals[tx.observer.value.t], m.traversals[tx.observer.value.t], frozen);
    }
  }

  lemma FrameThrough(n: Node, m: Node, o: Node, now: int, frozen: bool)
    requires Frame(n, m, now, frozen) && Frame(m, o, now, frozen)
    ensures Frame(n, o, now, frozen)
  {
    forall s | 0 <= s < |n.traversals|
      ensures Grows(n.traversals[s], o.traversals[s], frozen)
    {
      assert Grows(n.traversals[s], m.traversals[s], frozen);
      GrowsThrough(n.traversals[s], m.traversals[s], o.traversals[s], frozen);
    }
    assert o.txs[..|n.txs|] == m.txs[..|n.txs|];
    forall i | |n.txs| <= i < |o.txs|
      ensures NewQuery(n, o, o.txs[i], now)
    {
      NewThrough(n, m, o, now, frozen, i);
    }
  }

  lemma NewThrough(n: Node, m: Node, o: Node, now: int, frozen: bool, i: nat)
    requires Frame(n, m, now, frozen) && Frame(m, o, now, frozen) && |n.txs| <= i < |o.txs|
    ensures NewQuery(n, o, o.txs[i], now)
  {
    if i < |m.txs| {
      assert o.txs[i] == o.txs[..|m.txs|][i] == m.txs[i];
      assert NewQuery(n, m, m.txs[i], now);
      QueriedStays(m, o, now, frozen, m.txs[i].observer.value);
      NamesStay(m, o, now, frozen, m.txs[i]);
    } else {
      assert NewQuery(m, o, o.txs[i], now);
      var r := o.txs[i].observer.value;
      if Queried(n, r) {
        QueriedStays(n, m, now, frozen, r);
      }
    }
  }

  lemma Melt(n: Node, m: Node, now: int)
    requires Frame(n, m, now, true)
    ensures Frame(n, m, now, false)
  {
    forall s | 0 <= s < |n.traversals|
      ensures Grows(n.traversals[s], m.traversals[s], false)
    {
      assert Grows(n.traversals[s], m.traversals[s], true);
      forall k | 0 <= k < |n.traversals[s].pool|
        ensures Grown(n.traversals[s].pool[k], m.traversals[s].pool[k], false)
      {
        assert Grown(n.traversals[s].pool[k], m.traversals[s].pool[k], true);
      }
    }
  }

  /** Who waits for a query does so until it is taken off the list. */
  lemma {:induction false} NewDontWait(n: Node, m: Node, txs: seq<Tx>, now: int, r: Ref)
    requires Queried(n, r) && forall i :: 0 <= i < |txs| ==> NewQuery(n, m, txs[i], now)
    ensures Waits(txs, r) == 0
  {
    if |txs| > 0 {
      NewDontWait(n, m, txs[..|txs| - 1], now, r);
      assert NewQuery(n, m, txs[|txs| - 1], now);
    }
  }

  lemma WaitsOn(n: Node, m: Node, now: int, r: Ref)
    requires OnlyNewQueries(n, m, now) && Queried(n, r)
    ensures Waits(m.txs, r) == Waits(n.txs, r)
  {
    var more := m.txs[|n.txs|..];
    assert m.txs == n.txs + more;
    forall i | 0 <= i < |more|
      ensures NewQuery(n, m, more[i], now)
    {
      assert more[i] == m.txs[|n.txs| + i];
    }
    NewDontWait(n, m, more, now, r);
    WaitsAppend(n.txs, more, r);
  }

  // ---------------------------------------------------------------- asking for more

  predicate SentNew(t: Traversal, u: Traversal, sent: seq<nat>) {
    forall j {:trigger sent[j]} :: 0 <= j < |sent| ==>
      sent[j] < |t.pool| && sent[j] < |u.pool| && !t.pool[sent[j]].queried && u.pool[sent[j]].queried
  }

  /** The observers sent to had not been queried. */
  lemma {:induction false} SentAreNew(t: Traversal, sends: nat -> bool, i: nat, wanted: nat)
    requires Refs(t)
    ensures SentNew(t, Requests(t, sends, i, wanted).0, Requests(t, sends, i, wanted).1)
    decreases |t.results| - i
  {
    if !(i >= |t.results| || wanted == 0 || t.invokeCount >= t.branchFactor) {
      var k := t.results[i];
      var left := if t.pool[k].alive then wanted - 1 else wanted;
      if t.pool[k].queried {
        SentAreNew(t, sends, i + 1, left);
      } else {
        var q := Query(t, k, sends(k));
        SentAreNew(q, sends, i + 1, left);
        RequestsOnlyQuery(q, sends, i + 1, left);
        FirstSent(t, k, sends(k), Requests(q, sends, i + 1, left).0, Requests(q, sends, i + 1, left).1);
      }
    }
  }

  lemma FirstSent(t: Traversal, k: nat, goes: bool, u: Traversal, rest: seq<nat>)
    requires k < |t.pool| && !t.pool[k].queried && OnlyQueries(Query(t, k, goes), u)
             && SentNew(Query(t, k, goes), u, rest)
    ensures SentNew(t, u, if goes then [k] + rest else rest)
  {
    var q := Query(t, k, goes);
    assert Asked(q.pool[k], u.pool[k]);
    forall j | 0 <= j < |rest|
      ensures rest[j] < |t.pool| && !t.pool[rest[j]].queried && u.pool[rest[j]].queried
    {
      assert !q.pool[rest[j]].queried;
    }
  }

  lemma QueriesGrow(t: Traversal, u: Traversal)
    requires OnlyQueries(t, u)
    ensures Grows(t, u, true) && u.offered == t.offered
  {
    forall k | 0 <= k < |t.pool|
      ensures Grown(t.pool[k], u.pool[k], true)
    {
      assert Asked(t.pool[k], u.pool[k]);
    }
  }

  lemma {:induction false} TxsAre(u: Traversal, t: nat, sent: seq<nat>, now: int, i: nat)
    requires InPool(u, sent) && i < |sent|
    ensures NewTxs(u, t, sent, now)[i] == NewTx(u, t, sent[i], now)
  {
    if i < |sent| - 1 {
      TxsAre(u, t, sent[..|sent| - 1], now, i);
    }
  }

  lemma NewTxIsNew(n: Node, m: Node, t: nat, k: nat, now: int)
    requires t < |m.traversals| && k < |m.traversals[t].pool| && m.traversals[t].pool[k].queried
             && !Queried(n, Ref(t, k))
    ensures NewQuery(n, m, NewTx(m.traversals[t], t, k, now), now)
  {
  }

  /** Lookup t asks for more. */
  lemma PutFrame(n: Node, t: nat, env: Env)
    requires Has(n, t)
    ensures var r := AddRequests(n.traversals[t], SendsOf(env, t));
            Frame(n, Put(n, t, r.0, r.1, env), env.now, true) && SameOffers(n, Put(n, t, r.0, r.1, env))
  {
    var u0 := n.traversals[t];
    var (u, sent) := AddRequests(u0, SendsOf(env, t));
    RequestsOnlyQuery(u0, SendsOf(env, t), 0, u0.numTargetNodes);
    SentAreNew(u0, SendsOf(env, t), 0, u0.numTargetNodes);
    QueriesGrow(u0, u);
    var m := Put(n, t, u, sent, env);
    assert SentNew(u0, u, sent);
    NewFrom(n, m, t, u, sent, env);
  }

  lemma NewFrom(n: Node, m: Node, t: nat, u: Traversal, sent: seq<nat>, env: Env)
    requires InPool(u, sent) && t < |m.traversals| && m.traversals[t] == u
             && m.txs == n.txs + NewTxs(u, t, sent, env.now)
    requires forall j {:trigger sent[j]} :: 0 <= j < |sent| ==> u.pool[sent[j]].queried && !Queried(n, Ref(t, sent[j]))
    ensures OnlyNewQueries(n, m, env.now)
  {
    forall i | |n.txs| <= i < |m.txs|
      ensures NewQuery(n, m, m.txs[i], env.now)
    {
      var j := i - |n.txs|;
      TxsAre(u, t, sent, env.now, j);
      NewTxIsNew(n, m, t, sent[j], env.now);
    }
  }

  /** A new lookup is pushed and started. */
  lemma LaunchFrame(n: Node, p: Node, env: Env)
    requires |p.traversals| == |n.traversals| + 1 && p.traversals[..|n.traversals|] == n.traversals && p.txs == n.txs
    requires Refs(p.traversals[|n.traversals|])
    ensures var m := Launched(p, |n.traversals|, env);
            Frame(n, m, env.now, true) && SameOffers(n, m)
  {
    var t := |n.traversals|;
    var u0 := p.traversals[t];
    var (u, sent) := Launch(u0, env.routers(t), SendsOf(env, t));
    var m := Launched(p, t, env);
    LaunchSent(u0, env.routers(t), SendsOf(env, t));
    NewFrom(n, m, t, u, sent, env);
    OthersStay(n, p, m);
  }

  lemma OthersStay(n: Node, p: Node, m: Node)
    requires |m.traversals| == |p.traversals| == |n.traversals| + 1 && p.traversals[..|n.traversals|] == n.traversals
    requires forall s {:trigger m.traversals[s]} :: 0 <= s < |n.traversals| ==> m.traversals[s] == p.traversals[s]
    ensures forall s {:trigger m.traversals[s]} :: 0 <= s < |n.traversals| ==>
              m.traversals[s] == n.traversals[s] && Grows(n.traversals[s], m.traversals[s], true)
  {
    forall s | 0 <= s < |n.traversals|
      ensures m.traversals[s] == n.traversals[s]
    {
      assert p.traversals[..|n.traversals|][s] == p.traversals[s];
    }
  }

  lemma LaunchSent(t: Traversal, routers: seq<Contact>, sends: nat -> bool)
    requires Refs(t)
    ensures var (u, sent) := Launch(t, routers, sends);
            forall j {:trigger sent[j]} :: 0 <= j < |sent| ==> u.pool[sent[j]].queried
  {
    var wanted := if t.kind == Refresh then 1 else if IsSearch(t.kind) then |t.results| else t.numTargetNodes;
    var t1 := t.(started := true, branchFactor := SEARCH_BRANCHING, numTargetNodes := wanted);
    var t2 := if |t.results| == 0 then AddEntries(t1, routers) else t1;
    SentAreNew(t2, sends, 0, t2.numTargetNodes);
    assert SentNew(t2, Launch(t, routers, sends).0, Launch(t, routers, sends).1);
  }

  /** Finishing changes nothing but the count of completions. */
  lemma FinishFrame(n: Node, m: Node, t: nat, now: int)
    requires Frame(n, m, now, true) && SameOffers(n, m) && t < |m.traversals|
    ensures Frame(n, Finish(m, t), now, true) && SameOffers(n, Finish(m, t))
  {
    var f := Finish(m, t);
    forall s | 0 <= s < |n.traversals|
      ensures Grows(n.traversals[s], f.traversals[s], true) && f.traversals[s].offered == n.traversals[s].offered
    {
      assert Grows(n.traversals[s], m.traversals[s], true) && m.traversals[s].offered == n.traversals[s].offered;
      FinishGrows(n.traversals[s], m.traversals[s], f.traversals[s]);
    }
    forall i | |n.txs| <= i < |f.txs|
      ensures NewQuery(n, f, f.txs[i], now)
    {
      assert NewQuery(n, m, m.txs[i], now);
    }
  }

  lemma FinishGrows(t: Traversal, u: Traversal, v: Traversal)
    requires Grows(t, u, true) && v == u.(completions := v.completions)
    ensures Grows(t, v, true)
  {
    forall k | 0 <= k < |t.pool|
      ensures Grown(t.pool[k], v.pool[k], true)
    {
      assert Grown(t.pool[k], u.pool[k], true);
    }
  }

  lemma NothingFrame(n: Node, now: int)
    ensures Frame(n, n, now, true) && SameOffers(n, n)
  {
  }

  lemma StartLastFrame(n: Node, p: Node, env: Env)
    requires |p.traversals| == |n.traversals| + 1 && p.traversals[..|n.traversals|] == n.traversals && p.txs == n.txs
    requires Refs(p.traversals[|n.traversals|])
    ensures var m := StartLast(p, |n.traversals|, env); Frame(n, m, env.now, true) && SameOffers(n, m)
  {
    var t := |n.traversals|;
    if KeyOf(p.traversals[t]) in p.running {
      OthersStay(n, p, p);
    } else {
      LaunchFrame(n, p, env);
      FinishFrame(n, Launched(p, t, env), t, env.now);
    }
  }

  lemma DoneFrame(n: Node, t: nat, env: Env)
    requires Has(n, t)
    ensures Frame(n, Done(n, t, env), env.now, true) && SameOffers(n, Done(n, t, env))
  {
    NothingFrame(n, env.now);
    FinishFrame(n, n, t, env.now);
    if IsFind(n.traversals[t].kind) {
      var m := Finish(n, t);
      var p := Push(m, Direct(n.traversals[t], env)).(direct := m.direct[t := |m.traversals|]);
      StartLastFrame(m, p, env);
      FrameThrough(n, m, StartLast(p, |m.traversals|, env), env.now, true);
    }
  }

  /** Concluding an observer changes that observer, asks for more, and may start the search that follows. */
  lemma ConclusionFrame(n: Node, t: nat, k: nat, alive: bool, env: Env)
    requires Has(n, t) && k < |n.traversals[t].pool|
    ensures var c := SetTraversal(n, t, Conclude(n.traversals[t], k, alive));
            Frame(c, Conclusion(n, t, k, alive, env), env.now, true) && SameOffers(n, Conclusion(n, t, k, alive, env))
  {
    var c := SetTraversal(n, t, Conclude(n.traversals[t], k, alive));
    PutFrame(c, t, env);
    var r := Concluded(n.traversals[t], k, alive, SendsOf(env, t));
    var m := Put(n, t, r.0, r.1, env);
    assert m == Put(c, t, r.0, r.1, env) by {
      assert n.traversals[t := r.0] == c.traversals[t := r.0];
    }
    if Over(m, t) {
      DoneFrame(m, t, env);
      FrameThrough(c, m, Done(m, t, env), env.now, true);
    }
    assert forall s :: 0 <= s < |n.traversals| ==> c.traversals[s].offered == n.traversals[s].offered;
  }

  lemma SetFrame(n: Node, t: nat, u: Traversal, now: int, frozen: bool)
    requires t < |n.traversals| && Grows(n.traversals[t], u, frozen)
    ensures Frame(n, SetTraversal(n, t, u), now, frozen)
  {
  }

  /** What becomes of an observer that is answered for good or given up. */
  function Ended(o: Observer, alive: bool): Observer {
    o.(done := true, alive := o.alive || alive, failed := o.failed || !alive)
  }

  lemma EndFrame(n: Node, t: nat, k: nat, alive: bool, now: int)
    requires Has(n, t) && k < |n.traversals[t].pool|
    ensures Frame(n, SetTraversal(n, t, Conclude(n.traversals[t], k, alive)), now, false)
  {
    SetFrame(n, t, Conclude(n.traversals[t], k, alive), now, false);
  }

  /** Of the observers queried before, only r0 has changed, to p. */
  ghost predicate Changed(n: Node, m: Node, now: int, r0: Ref, p: Observer) {
    && Frame(n, m, now, false)
    && forall r {:trigger Queried(n, r)} :: Queried(n, r) ==> Here(m, r) && At(m, r) == if r == r0 then p else At(n, r)
  }

  function Told(offered: set<ID>, told: bool, contacts: seq<Contact>): set<ID> {
    if told then offered + Ids(contacts) else offered
  }

  ghost predicate ToldOnly(n: Node, m: Node, t: nat, contacts: seq<Contact>) {
    && |n.traversals| <= |m.traversals|
    && forall s {:trigger m.traversals[s]} :: 0 <= s < |n.traversals| ==>
         m.traversals[s].offered == Told(n.traversals[s].offered, s == t, contacts)
  }

  lemma StillChanged(n: Node, o: Node, m: Node, now: int, r0: Ref, p: Observer)
    requires Frame(n, o, now, true) && Changed(o, m, now, r0, p)
    ensures Changed(n, m, now, r0, p)
  {
    Melt(n, o, now);
    FrameThrough(n, o, m, now, false);
    forall r | Queried(n, r)
      ensures Here(m, r) && At(m, r) == if r == r0 then p else At(n, r)
    {
      QueriedStays(n, o, now, true, r);
      assert Queried(o, r);
    }
  }

  lemma ConclusionFate(n: Node, t: nat, k: nat, alive: bool, env: Env)
    requires Has(n, t) && k < |n.traversals[t].pool|
    ensures var m := Conclusion(n, t, k, alive, env);
            SameOffers(n, m) && Changed(n, m, env.now, Ref(t, k), Ended(n.traversals[t].pool[k], alive))
  {
    var m, c := Conclusion(n, t, k, alive, env), SetTraversal(n, t, Conclude(n.traversals[t], k, alive));
    ConclusionFrame(n, t, k, alive, env);
    EndFrame(n, t, k, alive, env.now);
    Melt(c, m, env.now);
    FrameThrough(n, c, m, env.now, false);
    forall r | Queried(n, r)
      ensures Here(m, r) && At(m, r) == if r == Ref(t, k) then Ended(At(n, r), alive) else At(n, r)
    {
      QueriedStays(c, m, env.now, true, r);
    }
  }

  // ---------------------------------------------------------------- replies

  lemma {:induction false} EntriesGrow(t: Traversal, cs: seq<Contact>)
    requires Refs(t)
    ensures Grows(t, AddEntries(t, cs), true) && AddEntries(t, cs).offered == t.offered + Ids(cs)
    ensures |cs| > 0 ==> |AddEntries(t, cs).results| > 0
  {
    if |cs| > 0 {
      var n := |cs| - 1;
      EntriesGrow(t, cs[..n]);
      IdsAppend(cs[..n], cs[n]);
      assert cs == cs[..n] + [cs[n]];
      var u := AddEntries(t, cs[..n]);
      EntryGrows(u, cs[n]);
      GrowsThrough(t, u, AddEntries(t, cs), true);
    }
  }

  lemma EntryGrows(t: Traversal, c: Contact)
    requires Refs(t)
    ensures Grows(t, AddEntry(t, c), true) && AddEntry(t, c).offered == t.offered + {c.id}
            && |AddEntry(t, c).results| > 0
  {
  }

  /** The contacts of a reply are offered, and the observer that gave it is done. */
  lemma OffersFate(n: Node, t: nat, k: nat, contacts: seq<Contact>, env: Env)
    requires Has(n, t) && k < |n.traversals[t].pool| && n.traversals[t].pool[k].queried
    ensures var u := AddEntries(n.traversals[t], contacts);
            && k < |u.pool|
            && var m := Conclusion(SetTraversal(n, t, u), t, k, true, env);
            ToldOnly(n, m, t, contacts) && Changed(n, m, env.now, Ref(t, k), Ended(n.traversals[t].pool[k], true))
  {
    var u := AddEntries(n.traversals[t], contacts);
    EntriesGrow(n.traversals[t], contacts);
    var o := SetTraversal(n, t, u);
    var m := Conclusion(o, t, k, true, env);
    SetFrame(n, t, u, env.now, true);
    ConclusionFate(o, t, k, true, env);
    QueriedStays(n, o, env.now, true, Ref(t, k));
    StillChanged(n, o, m, env.now, Ref(t, k), Ended(n.traversals[t].pool[k], true));
    forall s | 0 <= s < |n.traversals|
      ensures m.traversals[s].offered == Told(n.traversals[s].offered, s == t, contacts)
    {
      assert m.traversals[s].offered == o.traversals[s].offered;
    }
  }

  lemma ReplyFate(n: Node, t: nat, k: nat, now: int)
    requires Has(n, t) && k < |n.traversals[t].pool|
    ensures var m := SetTraversal(n, t, Reply(n.traversals[t], k));
            var o := n.traversals[t].pool[k];
            SameOffers(n, m) && Changed(n, m, now, Ref(t, k), o.(responses := o.responses + 1))
  {
    SetFrame(n, t, Reply(n.traversals[t], k), now, false);
    var m := SetTraversal(n, t, Reply(n.traversals[t], k));
    forall r | Queried(n, r)
      ensures At(m, r) == if r == Ref(t, k) then At(n, r).(responses := At(n, r).responses + 1) else At(n, r)
    {
      assert r == Ref(r.t, r.k);
    }
  }

  /** The reply answers the i-th pending transaction: no earlier one fits it. */
  predicate AnswersTx(txs: seq<Tx>, i: nat, e: Event)
    requires e.Receive?
  {
    && i < |txs| && Hits(txs[i], e.endpoint, e.opcode, e.replyTarget)
    && forall j :: 0 <= j < i ==> !Hits(txs[j], e.endpoint, e.opcode, e.replyTarget)
  }

  lemma AnswersIsMatch(txs: seq<Tx>, i: nat, e: Event)
    requires e.Receive?
    ensures AnswersTx(txs, i, e) <==> i < |txs| && i == Match(txs, e.endpoint, e.opcode, e.replyTarget)
  {
    FirstHit(txs, e.endpoint, e.opcode, e.replyTarget);
    var m := Match(txs, e.endpoint, e.opcode, e.replyTarget);
    if i < m {
      assert !Hits(txs[i], e.endpoint, e.opcode, e.replyTarget);
    }
  }

  /** The reply answers a query of lookup t and brings contacts. */
  ghost predicate Informs(n: Node, e: Event, t: nat) {
    e.Receive? && (e.opcode == 0x29 || e.opcode == 0x09)
      && exists i: nat :: AnswersTx(n.txs, i, e) && n.txs[i].observer.Some? && n.txs[i].observer.value.t == t
  }

  /** The reply answers the query to this observer. */
  ghost predicate Replies(n: Node, e: Event, r: Ref)
    requires e.Receive?
  {
    exists i: nat :: AnswersTx(n.txs, i, e) && n.txs[i].observer == Some(r)
  }

  /** An observer that replies has one reply more, or is done and alive; another is left as it is. */
  predicate Hears(n: Node, m: Node, e: Event, r: Ref, replies: bool)
    requires e.Receive? && Here(n, r)
  {
    Here(m, r) && At(m, r) ==
      if !replies then At(n, r)
      else if e.opcode == 0x3B then At(n, r).(responses := At(n, r).responses + 1)
      else Ended(At(n, r), true)
  }

  /** What a reply does to the observer that gave it, to the others, and to what the lookups have been offered. */
  ghost predicate Received(n: Node, b: Node, m: Node, e: Event, now: int)
    requires e.Receive?
  {
    && Frame(b, m, now, false) && |n.traversals| <= |m.traversals|
    && (forall s {:trigger m.traversals[s]} :: 0 <= s < |n.traversals| ==>
          m.traversals[s].offered == Told(n.traversals[s].offered, Informs(n, e, s), e.found))
    && forall r {:trigger Queried(n, r)} :: Queried(n, r) ==> Hears(n, m, e, r, Replies(n, e, r))
  }

  /** The transactions that are left before new queries are sent. */
  function Base(n: Node, e: Event, env: Env): Node
    requires Enabled(n, e)
  {
    match e
    case Receive(endpoint, opcode, target, _) =>
      var i := Match(n.txs, endpoint, opcode, target);
      if i < |n.txs| then n.(txs := Answered(n.txs, i)) else n
    case TimerTick => n.(txs := Kept(n.txs, env.now))
    case SendHello(peer, op) => Hello(n, peer, op, env)
    case BeginLookup(_, _, _) => n
  }

  /** The same for the transaction that is answered. */
  ghost predicate ReceivedFor(n: Node, b: Node, m: Node, e: Event, observer: Option<Ref>, now: int)
    requires e.Receive?
  {
    && Frame(b, m, now, false) && |n.traversals| <= |m.traversals|
    && (forall s {:trigger m.traversals[s]} :: 0 <= s < |n.traversals| ==>
          m.traversals[s].offered ==
            Told(n.traversals[s].offered, (e.opcode == 0x29 || e.opcode == 0x09) && observer.Some?
                                                                   && observer.value.t == s, e.found))
    && forall r {:trigger Queried(n, r)} :: Queried(n, r) ==> Hears(n, m, e, r, observer == Some(r))
  }

  lemma OnlyAnswer(n: Node, b: Node, m: Node, e: Event, i: nat, now: int)
    requires e.Receive? && AnswersTx(n.txs, i, e) && ReceivedFor(n, b, m, e, n.txs[i].observer, now)
    ensures Received(n, b, m, e, now)
  {
    forall j: nat
      ensures AnswersTx(n.txs, j, e) <==> j == i
    {
      AnswersIsMatch(n.txs, j, e);
      AnswersIsMatch(n.txs, i, e);
    }
    forall r | Queried(n, r)
      ensures Hears(n, m, e, r, Replies(n, e, r))
    {
    }
  }

  lemma NoAnswer(n: Node, e: Event, now: int)
    requires e.Receive? && Match(n.txs, e.endpoint, e.opcode, e.replyTarget) == |n.txs|
    ensures Received(n, n, n, e, now)
  {
    forall j: nat
      ensures !AnswersTx(n.txs, j, e)
    {
      AnswersIsMatch(n.txs, j, e);
    }
    NothingFrame(n, now);
    Melt(n, n, now);
  }

  lemma ChangedFor(n: Node, b: Node, m: Node, e: Event, r0: Ref, p: Observer, now: int)
    requires e.Receive? && b.traversals == n.traversals && Queried(n, r0) && Changed(b, m, now, r0, p)
    requires p == if e.opcode == 0x3B then At(n, r0).(responses := At(n, r0).responses + 1) else Ended(At(n, r0), true)
    requires if e.opcode == 0x29 || e.opcode == 0x09 then ToldOnly(b, m, r0.t, e.found) else SameOffers(b, m)
    ensures ReceivedFor(n, b, m, e, Some(r0), now)
  {
    forall r | Queried(n, r)
      ensures Hears(n, m, e, r, Some(r0) == Some(r))
    {
      assert Queried(b, r) && At(b, r) == At(n, r);
    }
    assert Frame(b, m, now, false);
  }

  /** Which step the node takes for a reply to a query of observer r. */
  lemma ReplyTaken(n: Node, e: Event, env: Env, i: nat, r: Ref)
    requires KadNodeInv.Ok(n, [], None, -1) && e.Receive? && Enabled(n, e)
    requires i < |n.txs| && i == Match(n.txs, e.endpoint, e.opcode, e.replyTarget) && n.txs[i].observer == Some(r)
    ensures Has(n, r.t) && r.k < |n.traversals[r.t].pool| && Queried(n, r)
    ensures var b := Base(n, e, env);
            Next(n, e, env) ==
              if e.opcode == 0x3B then SetTraversal(b, r.t, Reply(n.traversals[r.t], r.k))
              else if e.opcode == 0x29 || e.opcode == 0x09
              then OffersAndEnds(b, r, e.found, env)
              else Conclusion(b, r.t, r.k, true, env)
  {
    var b := Base(n, e, env);
    AnsweredLookup(n, i);
    assert TxOk(n, n.txs[i]);
    if e.opcode == RES || e.opcode == BOOTSTRAP_RES {
      AnsweredOk(n, i);
      OffersOk(b, r.t, r.k, e.found, env);
    }
  }

  /** A reply that brings contacts: they are offered, and the observer is concluded as alive. */
  function OffersAndEnds(b: Node, r: Ref, contacts: seq<Contact>, env: Env): Node
    requires Has(b, r.t) && r.k < |b.traversals[r.t].pool|
  {
    EntriesGrow(b.traversals[r.t], contacts);
    Conclusion(SetTraversal(b, r.t, AddEntries(b.traversals[r.t], contacts)), r.t, r.k, true, env)
  }

  lemma IncomingFor(n: Node, e: Event, env: Env, i: nat)
    requires KadNodeInv.Ok(n, [], None, -1) && e.Receive? && Enabled(n, e)
    requires i < |n.txs| && i == Match(n.txs, e.endpoint, e.opcode, e.replyTarget)
    ensures ReceivedFor(n, Base(n, e, env), Next(n, e, env), e, n.txs[i].observer, env.now)
  {
    var b := Base(n, e, env);
    if n.txs[i].observer.Some? {
      ReplyTaken(n, e, env, i, n.txs[i].observer.value);
      TakenFor(n, b, Next(n, e, env), e, n.txs[i].observer.value, env);
    } else {
      Unobserved(n, b, e, env.now);
    }
  }

  lemma Unobserved(n: Node, b: Node, e: Event, now: int)
    requires e.Receive? && b.traversals == n.traversals
    ensures ReceivedFor(n, b, b, e, None, now)
  {
    NothingFrame(b, now);
    Melt(b, b, now);
    assert forall r :: Queried(n, r) ==> Hears(n, b, e, r, false);
  }

  lemma TakenFor(n: Node, b: Node, m: Node, e: Event, r: Ref, env: Env)
    requires e.Receive? && b.traversals == n.traversals
    requires Has(n, r.t) && r.k < |n.traversals[r.t].pool| && Queried(n, r)
    requires m == if e.opcode == 0x3B then SetTraversal(b, r.t, Reply(n.traversals[r.t], r.k))
                  else if e.opcode == 0x29 || e.opcode == 0x09 then OffersAndEnds(b, r, e.found, env)
                  else Conclusion(b, r.t, r.k, true, env)
    ensures ReceivedFor(n, b, m, e, Some(r), env.now)
  {
    var p := At(n, r);
    if e.opcode == 0x3B {
      ReplyFate(b, r.t, r.k, env.now);
      ChangedFor(n, b, m, e, r, p.(responses := p.responses + 1), env.now);
    } else {
      if e.opcode == 0x29 || e.opcode == 0x09 {
        OffersFate(b, r.t, r.k, e.found, env);
      } else {
        ConclusionFate(b, r.t, r.k, true, env);
      }
      ChangedFor(n, b, m, e, r, Ended(p, true), env.now);
    }
  }

  lemma IncomingFate(n: Node, e: Event, env: Env)
    requires KadNodeInv.Ok(n, [], None, -1) && e.Receive? && Enabled(n, e)
    ensures Received(n, Base(n, e, env), Next(n, e, env), e, env.now)
  {
    var i := Match(n.txs, e.endpoint, e.opcode, e.replyTarget);
    if i < |n.txs| {
      AnswersIsMatch(n.txs, i, e);
      IncomingFor(n, e, env, i);
      OnlyAnswer(n, Base(n, e, env), Next(n, e, env), e, i, env.now);
    } else {
      NoAnswer(n, e, env.now);
    }
  }

  // ---------------------------------------------------------------- ticks

  lemma OneShort(n: Node, tx: Tx, limbo: seq<Tx>, now: int)
    requires KadNodeInv.Ok(n, limbo, None, -1) && (tx.observer.Some? ==> Flying(n, tx.observer.value))
    ensures var m := ShortTimeoutOf(n, tx);
            && KadNodeInv.Ok(m, limbo, None, -1) && Frame(n, m, now, false) && SameOffers(n, m) && m.txs == n.txs
            && (forall r {:trigger Flying(m, r)} :: Flying(m, r) <==> Flying(n, r))
            && forall r {:trigger Queried(n, r)} :: Queried(n, r) ==>
                 Here(m, r) && At(m, r) == At(n, r).(short := At(n, r).short || tx.observer == Some(r))
  {
    NothingFrame(n, now);
    Melt(n, n, now);
    if tx.observer.Some? {
      var r := tx.observer.value;
      FlyingIsRunning(n, r, -1);
      assert Accounts(n.traversals[r.t]);
      ShortTimeoutAccounts(n.traversals[r.t], r.k);
      SetOk(n, r.t, ShortTimeout(n.traversals[r.t], r.k), limbo, None);
      ShortFrame(n, r, now);
    }
  }

  lemma ShortFrame(n: Node, r: Ref, now: int)
    requires Has(n, r.t) && r.k < |n.traversals[r.t].pool|
    ensures var m := SetTraversal(n, r.t, ShortTimeout(n.traversals[r.t], r.k));
            && Frame(n, m, now, false) && SameOffers(n, m) && m.txs == n.txs
            && forall q {:trigger Queried(n, q)} :: Queried(n, q) ==>
                 Here(m, q) && At(m, q) == At(n, q).(short := At(n, q).short || q == r)
  {
    SetFrame(n, r.t, ShortTimeout(n.traversals[r.t], r.k), now, false);
    var m := SetTraversal(n, r.t, ShortTimeout(n.traversals[r.t], r.k));
    forall q | Queried(n, q)
      ensures At(m, q) == At(n, q).(short := At(n, q).short || q == r)
    {
      assert q == Ref(q.t, q.k) && r == Ref(r.t, r.k);
    }
  }

  lemma {:induction false} ShortTimeoutsFate(n: Node, txs: seq<Tx>, limbo: seq<Tx>, now: int)
    requires KadNodeInv.Ok(n, limbo, None, -1) && AllFly(n, txs)
    ensures var m := ShortTimeouts(n, txs); Frame(n, m, now, false) && SameOffers(n, m) && m.txs == n.txs
    ensures forall r {:trigger Queried(n, r)} :: Queried(n, r) ==>
            Shortened(n, ShortTimeouts(n, txs), r, Waits(txs, r) > 0)
    decreases |txs|
  {
    if |txs| == 0 {
      NothingFrame(n, now);
      Melt(n, n, now);
    } else {
      var o := ShortTimeoutOf(n, txs[0]);
      var m := ShortTimeouts(o, txs[1..]);
      OneShort(n, txs[0], limbo, now);
      ShortTimeoutsFate(o, txs[1..], limbo, now);
      FrameThrough(n, o, m, now, false);
      forall r | Queried(n, r)
        ensures Shortened(n, m, r, Waits(txs, r) > 0)
      {
        WaitsFirst(txs, r);
        QueriedStays(n, o, now, false, r);
        assert Queried(o, r);
      }
    }
  }

  predicate Shortened(n: Node, m: Node, r: Ref, short: bool)
    requires Here(n, r)
  {
    Here(m, r) && At(m, r) == At(n, r).(short := At(n, r).short || short)
  }

  /** Has the lookup of the observer got what it asked the observer for, when the query times out? */
  predicate HasReplied(n: Node, r: Ref)
    requires Here(n, r)
  {
    (n.traversals[r.t].kind == SearchSources || n.traversals[r.t].kind == SearchKeyword) && At(n, r).responses > 0
  }

  predicate TimedOut(n: Node, m: Node, r: Ref, late: bool)
    requires Here(n, r)
  {
    Here(m, r) && At(m, r) == if late then Ended(At(n, r), HasReplied(n, r)) else At(n, r)
  }

  lemma OneTimeout(n: Node, txs: seq<Tx>, env: Env)
    requires KadNodeInv.Ok(n, txs, None, -1) && |txs| > 0
    ensures var m := TimeoutOf(n, txs[0], env);
            && KadNodeInv.Ok(m, txs[1..], None, -1) && Frame(n, m, env.now, false) && SameOffers(n, m)
            && forall r {:trigger Queried(n, r)} :: Queried(n, r) ==> TimedOut(n, m, r, txs[0].observer == Some(r))
  {
    LimboFirst(n, txs);
    TimeoutOk(n, txs, env);
    NothingFrame(n, env.now);
    Melt(n, n, env.now);
    if txs[0].observer.Some? {
      var r := txs[0].observer.value;
      ConclusionFate(n, r.t, r.k, HasReplied(n, r), env);
    }
  }

  lemma {:induction false} TimeoutsFate(n: Node, txs: seq<Tx>, env: Env)
    requires KadNodeInv.Ok(n, txs, None, -1)
    ensures Frame(n, Timeouts(n, txs, env), env.now, false) && SameOffers(n, Timeouts(n, txs, env))
    ensures forall r {:trigger Queried(n, r)} :: Queried(n, r) ==>
              TimedOut(n, Timeouts(n, txs, env), r, Waits(txs, r) > 0)
    decreases |txs|
  {
    if |txs| == 0 {
      NothingFrame(n, env.now);
      Melt(n, n, env.now);
    } else {
      var o := TimeoutOf(n, txs[0], env);
      OneTimeout(n, txs, env);
      TimeoutsFate(o, txs[1..], env);
      FrameThrough(n, o, Timeouts(o, txs[1..], env), env.now, false);
      forall r | Queried(n, r)
        ensures TimedOut(n, Timeouts(n, txs, env), r, Waits(txs, r) > 0)
      {
        LateOnce(n, o, Timeouts(o, txs[1..], env), txs, r, env.now);
      }
    }
  }

  lemma LateOnce(n: Node, o: Node, m: Node, txs: seq<Tx>, r: Ref, now: int)
    requires KadNodeInv.Ok(n, txs, None, -1) && |txs| > 0 && Queried(n, r) && Frame(n, o, now, false)
    requires TimedOut(n, o, r, txs[0].observer == Some(r))
    requires Queried(o, r) ==> TimedOut(o, m, r, Waits(txs[1..], r) > 0)
    ensures TimedOut(n, m, r, Waits(txs, r) > 0)
  {
    WaitsFirst(txs, r);
    QueriedStays(n, o, now, false, r);
    assert Waits(n.txs, r) + Waits(txs, r) <= 1;
    assert Grows(n.traversals[r.t], o.traversals[r.t], false);
  }

  lemma TickFate(n: Node, env: Env)
    requires KadNodeInv.Ok(n, [], None, -1)
    ensures var (b, m) := (n.(txs := Kept(n.txs, env.now)), Tick(n, env));
            && Frame(b, m, env.now, false) && SameOffers(n, m)
            && forall r {:trigger Queried(n, r)} :: Queried(n, r) ==>
                 Ticked(n, m, r, Waits(ShortTimed(n.txs, env.now), r) > 0, Waits(Expired(n.txs, env.now), r) > 0)
  {
    var (b, short, e) := (n.(txs := Kept(n.txs, env.now)), ShortTimed(n.txs, env.now), Expired(n.txs, env.now));
    var o := ShortTimeouts(b, short);
    TickedOk(n, env.now);
    ShortTimedFly(n, env.now);
    ShortTimeoutsOk(b, short, e);
    ShortTimeoutsFate(b, short, e, env.now);
    TimeoutsFate(o, e, env);
    FrameThrough(b, o, Tick(n, env), env.now, false);
    forall r | Queried(n, r)
      ensures Ticked(n, Tick(n, env), r, Waits(short, r) > 0, Waits(e, r) > 0)
    {
      assert Queried(b, r);
      QueriedStays(b, o, env.now, false, r);
      assert Queried(o, r) && Grows(b.traversals[r.t], o.traversals[r.t], false);
    }
  }

  predicate Ticked(n: Node, m: Node, r: Ref, short: bool, late: bool)
    requires Here(n, r)
  {
    && Here(m, r)
    && var o := At(n, r).(short := At(n, r).short || short);
       At(m, r) == if late then Ended(o, HasReplied(n, r)) else o
  }

  lemma {:induction false} WaitsTwice(txs: seq<Tx>, i: nat, j: nat, r: Ref)
    requires i < j < |txs| && txs[i].observer == Some(r) && txs[j].observer == Some(r)
    ensures Waits(txs, r) >= 2
  {
    var m := |txs| - 1;
    if j < m {
      WaitsTwice(txs[..m], i, j, r);
    } else {
      MemberWaits(txs[..m], i, r);
    }
  }

  lemma WaitsIn(txs: seq<Tx>, tx: Tx, r: Ref)
    requires tx in txs && tx.observer == Some(r)
    ensures Waits(txs, r) > 0
  {
    var i :| 0 <= i < |txs| && txs[i] == tx;
    MemberWaits(txs, i, r);
  }

  /** The only query to an observer decides whether the observer times out at a tick. */
  lemma TimesOutExactly(txs: seq<Tx>, i: nat, r: Ref, now: int)
    requires i < |txs| && txs[i].observer == Some(r) && Waits(txs, r) == 1
    ensures Waits(Expired(txs, now), r) > 0 <==> now - txs[i].sent >= 12000
    ensures Waits(ShortTimed(txs, now), r) > 0 <==> !txs[i].shortTimed && now - txs[i].sent >= 2000
  {
    var tx := txs[i];
    TickPartitions(txs, now, r);
    ExpiredExactly(txs, now);
    LeftExactly(txs, now);
    ShortTimedExactly(txs, now);
    assert tx in txs;
    if now - tx.sent >= 12000 {
      WaitsIn(Expired(txs, now), tx.(shortTimed := true), r);
    } else {
      WaitsIn(Kept(txs, now), tx.(shortTimed := tx.shortTimed || now - tx.sent >= 2000), r);
    }
    if !tx.shortTimed && now - tx.sent >= 2000 {
      WaitsIn(ShortTimed(txs, now), tx.(shortTimed := true), r);
    } else if Waits(ShortTimed(txs, now), r) > 0 {
      WaitingMember(ShortTimed(txs, now), r);
      var k :| 0 <= k < |ShortTimed(txs, now)| && ShortTimed(txs, now)[k].observer == Some(r);
      assert ShortTimed(txs, now)[k] in ShortTimed(txs, now);
      OnlyOne(txs, i, ShortTimed(txs, now)[k], now, r);
    }
  }

  lemma OnlyOne(txs: seq<Tx>, i: nat, x: Tx, now: int, r: Ref)
    requires i < |txs| && txs[i].observer == Some(r) && Waits(txs, r) == 1 && x.observer == Some(r)
    requires exists tx :: tx in txs && !tx.shortTimed && now - tx.sent >= 2000 && x == tx.(shortTimed := true)
    ensures !txs[i].shortTimed && now - txs[i].sent >= 2000
  {
    var tx :| tx in txs && !tx.shortTimed && now - tx.sent >= 2000 && x == tx.(shortTimed := true);
    var j :| 0 <= j < |txs| && txs[j] == tx;
    if i < j {
      WaitsTwice(txs, i, j, r);
    } else if j < i {
      WaitsTwice(txs, j, i, r);
    }
  }

  // ---------------------------------------------------------------- new lookups

  /** What a lookup begun in this step has been offered at first. */
  function FirstOffers(n: Node, e: Event, env: Env): set<ID>
    requires e.BeginLookup?
  {
    Ids(e.contacts) +
      if e.contacts == [] && Key(e.kind, e.target) !in n.running then Ids(env.routers(|n.traversals|)) else {}
  }

  /** The answers a lookup wants when it is started. */
  function WantedFrom(t: Traversal): nat {
    if t.kind == Refresh then 1
    else if t.kind == SearchSources || t.kind == SearchKeyword then |t.results|
    else t.numTargetNodes
  }

  /** How many answers a lookup begun from outside wants: one for a refresh; else one from each seed, or twice the
      bucket size when it has none or is a bootstrap, 20 without a bucket size. */
  function FirstWanted(n: Node, e: Event, env: Env): nat
    requires e.BeginLookup?
  {
    if e.kind == Refresh && Key(e.kind, e.target) !in n.running then 1
    else if e.kind != Bootstrap && |e.contacts| > 0 then |e.contacts|
    else if env.bucketSize > 0 then 2 * env.bucketSize
    else 20
  }

  lemma LaunchOffers(t: Traversal, routers: seq<Contact>, sends: nat -> bool)
    requires Refs(t)
    ensures Launch(t, routers, sends).0.offered == t.offered + if t.results == [] then Ids(routers) else {}
  {
    var wanted := if t.kind == Refresh then 1 else if IsSearch(t.kind) then |t.results| else t.numTargetNodes;
    var t1 := t.(started := true, branchFactor := SEARCH_BRANCHING, numTargetNodes := wanted);
    EntriesGrow(t1, routers);
    var t2 := if |t.results| == 0 then AddEntries(t1, routers) else t1;
    RequestsOnlyQuery(t2, sends, 0, t2.numTargetNodes);
  }

  lemma StartFate(n: Node, u: Traversal, env: Env)
    requires Refs(u)
    ensures var (m, t) := (Start(Push(n, u), |n.traversals|, env), |n.traversals|);
            && Frame(n, m, env.now, true) && SameOffers(n, m) && t < |m.traversals|
               && KeyOf(m.traversals[t]) == KeyOf(u)
            && m.traversals[t].offered ==
                 u.offered + (if u.results == [] && KeyOf(u) !in n.running then Ids(env.routers(t)) else {})
            && m.traversals[t].numTargetNodes ==
                 if KeyOf(u) in n.running then u.numTargetNodes else WantedFrom(u)
  {
    var t, p := |n.traversals|, Push(n, u);
    if KeyOf(u) in n.running {
      OthersStay(n, p, p);
    } else {
      LaunchFrame(n, p, env);
      LaunchOffers(u, env.routers(t), SendsOf(env, t));
      LaunchKind(u, env.routers(t), SendsOf(env, t));
      DoneAfter(n, Launched(p, t, env), t, env);
    }
  }

  lemma DoneAfter(n: Node, m: Node, t: nat, env: Env)
    requires Has(m, t) && Frame(n, m, env.now, true) && SameOffers(n, m)
    ensures var d := Done(m, t, env);
            && Frame(n, d, env.now, true) && SameOffers(n, d) && t < |d.traversals|
            && KeyOf(d.traversals[t]) == KeyOf(m.traversals[t]) && d.traversals[t].offered == m.traversals[t].offered
            && d.traversals[t].numTargetNodes == m.traversals[t].numTargetNodes
  {
    var d := Done(m, t, env);
    DoneFrame(m, t, env);
    FrameThrough(n, m, d, env.now, true);
    assert Grows(m.traversals[t], d.traversals[t], true);
    forall s | 0 <= s < |n.traversals|
      ensures d.traversals[s].offered == n.traversals[s].offered
    {
      assert m.traversals[s].offered == n.traversals[s].offered;
    }
  }

  lemma BeginFate(n: Node, e: Event, env: Env)
    requires e.BeginLookup? && Enabled(n, e)
    ensures var (m, t) := (Next(n, e, env), |n.traversals|);
            && Frame(n, m, env.now, true) && SameOffers(n, m)
            && t < |m.traversals| && m.traversals[t].offered == FirstOffers(n, e, env)
            && m.traversals[t].numTargetNodes == FirstWanted(n, e, env)
            && KeyOf(m.traversals[t]) == Key(e.kind, e.target)
  {
    NewLookupIs(n, e, env);
    StartFate(n, NewLookup(n, e, env), env);
  }

  /** A lookup begun from outside, before it is started. */
  function NewLookup(n: Node, e: Event, env: Env): (u: Traversal)
    requires e.BeginLookup?
    ensures Refs(u)
  {
    var empty := NewTraversal(e.kind, e.target, if IsFind(e.kind) then Some(|n.traversals|) else None, env.bucketSize);
    if e.kind == Bootstrap then AddEntries(empty, e.contacts) else Seeds(empty, e.contacts)
  }

  lemma NewLookupIs(n: Node, e: Event, env: Env)
    requires e.BeginLookup?
    ensures var u := NewLookup(n, e, env);
            && u.offered == Ids(e.contacts) && KeyOf(u) == Key(e.kind, e.target)
               && (u.results == [] <==> e.contacts == [])
            && u.numTargetNodes == if e.kind != Bootstrap && |e.contacts| > 0 then |e.contacts|
                                   else if env.bucketSize > 0 then 2 * env.bucketSize else 20
  {
    FirstEntries(NewTraversal(e.kind, e.target, if IsFind(e.kind) then Some(|n.traversals|) else None, env.bucketSize),
                 e.contacts);
  }

  /** Both ways of giving a new lookup its first entries offer it all of them. */
  lemma FirstEntries(t: Traversal, cs: seq<Contact>)
    requires t.pool == [] && t.results == [] && t.offered == {}
    ensures AddEntries(t, cs).offered == Ids(cs) && KeyOf(AddEntries(t, cs)) == KeyOf(t)
    ensures Seeds(t, cs).offered == Ids(cs) && KeyOf(Seeds(t, cs)) == KeyOf(t)
    ensures (AddEntries(t, cs).results == [] <==> cs == []) && (Seeds(t, cs).results == [] <==> cs == [])
    ensures AddEntries(t, cs).numTargetNodes == t.numTargetNodes
    ensures Seeds(t, cs).numTargetNodes == if |cs| == 0 then t.numTargetNodes else |cs|
  {
    EntriesGrow(t, cs);
    SeedsOffered(t, cs);
    SeedsShape(t, cs);
    SeedsKind(t, cs);
    if |cs| > 0 {
      SeedsShape(t, cs[..|cs| - 1]);
    }
  }

  lemma {:induction false} SeedsKind(t: Traversal, cs: seq<Contact>)
    requires Refs(t)
    ensures KeyOf(Seeds(t, cs)) == KeyOf(t)
  {
    if |cs| > 0 {
      SeedsKind(t, cs[..|cs| - 1]);
    }
  }

  lemma LaunchKind(t: Traversal, routers: seq<Contact>, sends: nat -> bool)
    requires Refs(t)
    ensures KeyOf(Launch(t, routers, sends).0) == KeyOf(t)
            && Launch(t, routers, sends).0.numTargetNodes == WantedFrom(t)
  {
    var wanted := if t.kind == Refresh then 1 else if IsSearch(t.kind) then |t.results| else t.numTargetNodes;
    var t1 := t.(started := true, branchFactor := SEARCH_BRANCHING, numTargetNodes := wanted);
    EntriesGrow(t1, routers);
    var t2 := if |t.results| == 0 then AddEntries(t1, routers) else t1;
    RequestsOnlyQuery(t2, sends, 0, t2.numTargetNodes);
  }

  // ---------------------------------------------------------------- whole runs

  lemma NextFrame(n: Node, e: Event, env: Env)
    requires KadNodeInv.Ok(n, [], None, -1) && Enabled(n, e)
    ensures Frame(Base(n, e, env), Next(n, e, env), env.now, false)
  {
    match e
    case BeginLookup(_, _, _) =>
      BeginFate(n, e, env);
      Melt(n, Next(n, e, env), env.now);
    case Receive(_, _, _, _) => IncomingFate(n, e, env);
    case TimerTick => TickFate(n, env);
    case SendHello(_, _) =>
      NothingFrame(Next(n, e, env), env.now);
      Melt(Next(n, e, env), Next(n, e, env), env.now);
  }

  /** A pending transaction was pending before, up to its mark, or is a new query, or nobody's. */
  lemma Provenance(n: Node, e: Event, env: Env, x: Tx)
    requires KadNodeInv.Ok(n, [], None, -1) && Enabled(n, e) && x in Next(n, e, env).txs && x.observer.Some?
    ensures || (exists y :: y in n.txs && x == y.(shortTimed := x.shortTimed))
            || NewQuery(n, Next(n, e, env), x, env.now)
  {
    NextFrame(n, e, env);
    var b, m := Base(n, e, env), Next(n, e, env);
    var i :| 0 <= i < |m.txs| && m.txs[i] == x;
    if i < |b.txs| {
      assert m.txs[..|b.txs|][i] == b.txs[i] == x;
      assert x in b.txs;
      LeftExactly(n.txs, env.now);
    } else {
      assert NewQuery(b, m, m.txs[i], env.now);
    }
  }

  lemma {:induction false} NamesAlways(ns: seq<Node>, es: seq<Event>, envs: seq<Env>, j: nat, x: Tx)
    requires Run(ns, es, envs) && j < |ns| && x in ns[j].txs
    ensures Names(ns[j], x)
  {
    if j > 0 {
      var n := ns[j - 1];
      RunOk(ns, es, envs, j - 1);
      forall y | y in n.txs
        ensures Names(n, y)
      {
        NamesAlways(ns, es, envs, j - 1, y);
      }
      assert Enabled(n, es[j - 1]);
      NamesStep(n, es[j - 1], envs[j - 1], x);
    }
  }

  lemma NamesStep(n: Node, e: Event, env: Env, x: Tx)
    requires KadNodeInv.Ok(n, [], None, -1) && Enabled(n, e) && x in Next(n, e, env).txs
    requires forall y :: y in n.txs ==> Names(n, y)
    ensures Names(Next(n, e, env), x)
  {
    if x.observer.Some? {
      Provenance(n, e, env, x);
      if !NewQuery(n, Next(n, e, env), x, env.now) {
        var y :| y in n.txs && x == y.(shortTimed := x.shortTimed);
        assert Names(n, y) && Names(n, x);
        NamesKept(n, e, env, x);
      }
    }
  }

  lemma NamesKept(n: Node, e: Event, env: Env, x: Tx)
    requires KadNodeInv.Ok(n, [], None, -1) && Enabled(n, e) && Names(n, x)
    ensures Names(Next(n, e, env), x)
  {
    NextFrame(n, e, env);
    assert Names(Base(n, e, env), x);
    NamesStay(Base(n, e, env), Next(n, e, env), env.now, false, x);
  }

  /** Step b of the run sent the query. */
  ghost predicate SentAt(ns: seq<Node>, envs: seq<Env>, b: nat, tx: Tx)
    requires b < |envs| && b + 1 < |ns| && tx.observer.Some?
  {
    tx.sent == envs[b].now && !Queried(ns[b], tx.observer.value) && Queried(ns[b + 1], tx.observer.value)
  }

  lemma {:induction false} SentOnce(ns: seq<Node>, es: seq<Event>, envs: seq<Env>, j: nat, x: Tx)
    requires Run(ns, es, envs) && j < |ns| && x in ns[j].txs && x.observer.Some?
    ensures exists b: nat :: b < j && SentAt(ns, envs, b, x)
  {
    if j > 0 {
      var (n, e, env) := (ns[j - 1], es[j - 1], envs[j - 1]);
      RunOk(ns, es, envs, j - 1);
      Provenance(n, e, env, x);
      if NewQuery(n, ns[j], x, env.now) {
        assert SentAt(ns, envs, j - 1, x);
      } else {
        var y :| y in n.txs && x == y.(shortTimed := x.shortTimed);
        SentOnce(ns, es, envs, j - 1, y);
        var b: nat :| b < j - 1 && SentAt(ns, envs, b, y);
        assert SentAt(ns, envs, b, x);
      }
    }
  }

  /** What happens in one step to a query that is pending: whom it was sent to and when, and what becomes of its
      observer. At a tick the observer times out exactly when the query is twelve seconds old, and is then failed unless
      it belongs to a search and has replied; it is short from two seconds on. A reply that fits this query first ends
      it with the observer alive, or counts as one of several replies to a search. Nothing else touches it. */
  lemma QueryFate(ns: seq<Node>, es: seq<Event>, envs: seq<Env>, j: nat, i: nat)
    requires Run(ns, es, envs) && j < |es| && i < |ns[j].txs| && ns[j].txs[i].observer.Some?
    ensures var (n, m, e, now, tx, r) :=
            (ns[j], ns[j + 1], es[j], envs[j].now, ns[j].txs[i], ns[j].txs[i].observer.value);
            && Here(n, r) && Here(m, r) && Names(n, tx)
            && (exists b: nat :: b < j && SentAt(ns, envs, b, tx))
            && var (o, p) := (At(n, r), At(m, r));
            && o.queried && !o.failed && !o.done && !o.alive
            && (e.TimerTick? ==>
                  var short := o.short || (!tx.shortTimed && now - tx.sent >= 2000);
                  p == if now - tx.sent < 12000 then o.(short := short)
                       else o.(short := short, done := true, alive := HasReplied(n, r), failed := !HasReplied(n, r)))
            && (e.Receive? ==>
                  p == if !AnswersTx(n.txs, i, e) then o
                       else if e.opcode == 0x3B then o.(responses := o.responses + 1)
                       else o.(done := true, alive := true))
            && (e.BeginLookup? || e.SendHello? ==> p == o)
  {
    var (n, e, env, tx, r) := (ns[j], es[j], envs[j], ns[j].txs[i], ns[j].txs[i].observer.value);
    RunOk(ns, es, envs, j);
    assert tx in n.txs && Enabled(n, e);
    NamesAlways(ns, es, envs, j, tx);
    SentOnce(ns, es, envs, j, tx);
    PendingFlies(n, i);
    NextFate(n, e, env, i, r);
  }

  lemma PendingFlies(n: Node, i: nat)
    requires KadNodeInv.Ok(n, [], None, -1) && i < |n.txs| && n.txs[i].observer.Some?
    ensures var r := n.txs[i].observer.value;
            Queried(n, r) && At(n, r).InFlight() && !At(n, r).alive && Waits(n.txs, r) == 1
  {
    var r := n.txs[i].observer.value;
    TxFlies(n, [], i);
    MemberWaits(n.txs, i, r);
    assert Waits(n.txs, r) + Waits([], r) == if Flying(n, r) then 1 else 0;
    assert Accounts(n.traversals[r.t]);
  }

  lemma NextFate(n: Node, e: Event, env: Env, i: nat, r: Ref)
    requires KadNodeInv.Ok(n, [], None, -1) && Enabled(n, e) && i < |n.txs| && n.txs[i].observer == Some(r)
    requires Queried(n, r) && Waits(n.txs, r) == 1
    ensures var (m, now, tx, o) := (Next(n, e, env), env.now, n.txs[i], At(n, r));
            && Here(m, r)
            && (e.TimerTick? ==> Ticked(n, m, r, !tx.shortTimed && now - tx.sent >= 2000, now - tx.sent >= 12000))
            && (e.Receive? ==> Hears(n, m, e, r, AnswersTx(n.txs, i, e)))
            && (e.BeginLookup? || e.SendHello? ==> At(m, r) == o)
  {
    match e
    case BeginLookup(_, _, _) =>
      BeginFate(n, e, env);
      QueriedStays(n, Next(n, e, env), env.now, true, r);
    case Receive(_, _, _, _) =>
      IncomingFate(n, e, env);
      AnswerIsOnly(n, e, i, r);
    case TimerTick =>
      TickFate(n, env);
      TimesOutExactly(n.txs, i, r, env.now);
    case SendHello(_, _) =>
  }

  lemma AnswerIsOnly(n: Node, e: Event, i: nat, r: Ref)
    requires e.Receive? && i < |n.txs| && n.txs[i].observer == Some(r) && Waits(n.txs, r) == 1
    ensures Replies(n, e, r) <==> AnswersTx(n.txs, i, e)
  {
    if Replies(n, e, r) {
      var k: nat :| AnswersTx(n.txs, k, e) && n.txs[k].observer == Some(r);
      if i < k {
        WaitsTwice(n.txs, i, k, r);
      } else if k < i {
        WaitsTwice(n.txs, k, i, r);
      }
    }
  }

  /** A query fails by timeout only at a tick, and only twelve seconds after the step that sent it, or later. */
  lemma TimeoutsAreLate(ns: seq<Node>, es: seq<Event>, envs: seq<Env>, j: nat, r: Ref)
    requires Run(ns, es, envs) && j < |es| && Flying(ns[j], r) && !Flying(ns[j + 1], r)
    ensures Here(ns[j], r) && Here(ns[j + 1], r)
    ensures At(ns[j + 1], r).failed ==>
              es[j].TimerTick? && exists b: nat ::
                b < j && envs[j].now - envs[b].now >= 12000 && !Queried(ns[b], r) && Queried(ns[b + 1], r)
  {
    RunOk(ns, es, envs, j);
    assert Waits(ns[j].txs, r) + Waits([], r) == 1;
    WaitingMember(ns[j].txs, r);
    var i :| 0 <= i < |ns[j].txs| && ns[j].txs[i].observer == Some(r);
    QueryFate(ns, es, envs, j, i);
    var b: nat :| b < j && SentAt(ns, envs, b, ns[j].txs[i]);
  }

  /** What lookup t has heard of between steps b and j: the contacts in the replies to its own queries. */
  ghost function Heard(ns: seq<Node>, es: seq<Event>, t: nat, b: nat, j: nat): set<ID>
    requires b <= j <= |es| < |ns|
    decreases j - b
  {
    if j == b then {}
    else Heard(ns, es, t, b, j - 1) + if Informs(ns[j - 1], es[j - 1], t) then Ids(es[j - 1].found) else {}
  }

  lemma OffersNext(n: Node, e: Event, env: Env, t: nat)
    requires KadNodeInv.Ok(n, [], None, -1) && Enabled(n, e) && t < |n.traversals|
    ensures var m := Next(n, e, env);
            && t < |m.traversals| && m.traversals[t].numTargetNodes == n.traversals[t].numTargetNodes
            && m.traversals[t].offered == n.traversals[t].offered + if Informs(n, e, t) then Ids(e.found) else {}
  {
    NextFrame(n, e, env);
    assert Grows(Base(n, e, env).traversals[t], Next(n, e, env).traversals[t], false);
    match e
    case BeginLookup(_, _, _) => BeginFate(n, e, env);
    case Receive(_, _, _, _) => IncomingFate(n, e, env);
    case TimerTick => TickFate(n, env);
    case SendHello(_, _) =>
  }

  /** In step j lookup t is offered nothing but the contacts in replies to its queries. */
  ghost predicate TellsAt(ns: seq<Node>, es: seq<Event>, t: nat, j: nat)
    requires j < |es| < |ns|
  {
    t < |ns[j].traversals| ==>
      && t < |ns[j + 1].traversals| && ns[j + 1].traversals[t].numTargetNodes == ns[j].traversals[t].numTargetNodes
      && ns[j + 1].traversals[t].offered ==
           ns[j].traversals[t].offered + if Informs(ns[j], es[j], t) then Ids(es[j].found) else {}
  }

  lemma {:induction false} HeardSoFar(ns: seq<Node>, es: seq<Event>, t: nat, b: nat, j: nat)
    requires b <= j <= |es| < |ns| && t < |ns[b].traversals|
    requires forall s: nat {:trigger TellsAt(ns, es, t, s)} :: b <= s < j ==> TellsAt(ns, es, t, s)
    ensures t < |ns[j].traversals| && ns[j].traversals[t].numTargetNodes == ns[b].traversals[t].numTargetNodes
            && ns[j].traversals[t].offered == ns[b].traversals[t].offered + Heard(ns, es, t, b, j)
    decreases j - b
  {
    if b < j {
      HeardSoFar(ns, es, t, b, j - 1);
      assert TellsAt(ns, es, t, j - 1);
    }
  }

  /** In every run, what a lookup begun from outside has been offered is exactly its seeds, the routers when it was
      started without seeds, and the contacts in the replies to its own queries; and it wants as many answers as at
      first. */
  lemma OffersAreHeard(ns: seq<Node>, es: seq<Event>, envs: seq<Env>, b: nat, j: nat)
    requires Run(ns, es, envs) && b < j <= |es| && es[b].BeginLookup?
    ensures var t := |ns[b].traversals|;
            && t < |ns[j].traversals| && ns[j].traversals[t].numTargetNodes == FirstWanted(ns[b], es[b], envs[b])
            && ns[j].traversals[t].offered == FirstOffers(ns[b], es[b], envs[b]) + Heard(ns, es, t, b + 1, j)
  {
    var t := |ns[b].traversals|;
    OffersAtFirst(ns, es, envs, b);
    forall s: nat | b + 1 <= s < j
      ensures TellsAt(ns, es, t, s)
    {
      OffersThen(ns, es, envs, s, t);
    }
    HeardSoFar(ns, es, t, b + 1, j);
  }

  lemma OffersAtFirst(ns: seq<Node>, es: seq<Event>, envs: seq<Env>, b: nat)
    requires Run(ns, es, envs) && b < |es| && es[b].BeginLookup?
    ensures var t := |ns[b].traversals|;
            && t < |ns[b + 1].traversals| && ns[b + 1].traversals[t].offered == FirstOffers(ns[b], es[b], envs[b])
            && ns[b + 1].traversals[t].numTargetNodes == FirstWanted(ns[b], es[b], envs[b])
  {
    assert Enabled(ns[b], es[b]);
    BeginFate(ns[b], es[b], envs[b]);
  }

  lemma OffersThen(ns: seq<Node>, es: seq<Event>, envs: seq<Env>, j: nat, t: nat)
    requires Run(ns, es, envs) && j < |es|
    ensures TellsAt(ns, es, t, j)
  {
    RunOk(ns, es, envs, j);
    assert Enabled(ns[j], es[j]);
    if t < |ns[j].traversals| {
      OffersNext(ns[j], es[j], envs[j], t);
    }
  }

  // ---------------------------------------------------------------- whom a lookup asks

  ghost predicate DistinctEntries(t: Traversal) {
    forall a, b :: 0 <= a < b < |t.results| ==> t.results[a] != t.results[b]
  }

  /** Entry j has been asked for more in this step. */
  predicate NewlyAsked(t: Traversal, u: Traversal, j: nat)
    requires Refs(t) && Refs(u) && j < |t.results| && u.results == t.results && |u.pool| == |t.pool|
  {
    !Listed(t, j).queried && Listed(u, j).queried
  }

  /** When entry j has been asked, so have the entries from i up to it, and these have not given as many answers as are
      wanted. */
  ghost predicate InTurn(t: Traversal, u: Traversal, i: nat, wanted: nat, j: nat)
    requires Refs(t) && Refs(u) && j < |t.results| && u.results == t.results && |u.pool| == |t.pool|
  {
    NewlyAsked(t, u, j) ==> Answers(t, i, j) < wanted && forall a :: i <= a < j ==> Listed(u, a).queried
  }

  /** A lookup asks its entries in order, nearest first, none behind one that has not been asked, and none when the
      entries before it have given as many answers as are wanted. */
  lemma {:induction false} AskedInOrder(t: Traversal, sends: nat -> bool, i: nat, wanted: nat, j: nat)
    requires Refs(t) && DistinctEntries(t) && i <= j < |t.results|
    ensures var u := Requests(t, sends, i, wanted).0;
            u.results == t.results && |u.pool| == |t.pool| && InTurn(t, u, i, wanted, j)
    decreases |t.results| - i
  {
    RequestsOnlyQuery(t, sends, i, wanted);
    if i < j && wanted > 0 && t.invokeCount < t.branchFactor {
      var k := t.results[i];
      var q := if t.pool[k].queried then t else Query(t, k, sends(k));
      var left := if t.pool[k].alive then wanted - 1 else wanted;
      AskedInOrder(q, sends, i + 1, left, j);
      RequestsOnlyQuery(q, sends, i + 1, left);
      TurnStep(t, q, Requests(q, sends, i + 1, left).0, i, wanted, j, sends(k));
    }
  }

  lemma TurnStep(t: Traversal, q: Traversal, u: Traversal, i: nat, wanted: nat, j: nat, goes: bool)
    requires Refs(t) && Refs(u) && DistinctEntries(t) && i < j < |t.results| && wanted > 0
    requires q == (if Listed(t, i).queried then t else Query(t, t.results[i], goes)) && OnlyQueries(q, u)
    requires InTurn(q, u, i + 1, if Listed(t, i).alive then wanted - 1 else wanted, j)
    ensures InTurn(t, u, i, wanted, j)
  {
    assert t.results[j] != t.results[i] && Listed(q, j) == Listed(t, j);
    assert Asked(q.pool[t.results[i]], u.pool[t.results[i]]);
    SameAnswers(t, q, i + 1, j);
  }

  /** An observer is asked once: it has then been queried, has failed exactly when its packet could not be sent, and is
      waited for otherwise; nobody else changes. */
  lemma {:induction false} AskedExactly(t: Traversal, sends: nat -> bool, i: nat, wanted: nat, k: nat)
    requires Refs(t) && k < |t.pool|
    ensures var (u, sent) := Requests(t, sends, i, wanted);
            && |u.pool| == |t.pool|
            && (u.pool[k] == t.pool[k] ==> t.pool[k].queried || k !in sent)
            && (u.pool[k] != t.pool[k] ==>
                  && !t.pool[k].queried
                  && u.pool[k] == t.pool[k].(queried := true, failed := t.pool[k].failed || !sends(k))
                  && (k in sent <==> sends(k)))
    decreases |t.results| - i
  {
    if !(i >= |t.results| || wanted == 0 || t.invokeCount >= t.branchFactor) {
      var first := t.results[i];
      var q := if t.pool[first].queried then t else Query(t, first, sends(first));
      var left := if t.pool[first].alive then wanted - 1 else wanted;
      AskedExactly(q, sends, i + 1, left, k);
      SentAreNew(q, sends, i + 1, left);
      var rest := Requests(q, sends, i + 1, left).1;
      assert k in rest ==> !q.pool[k].queried by {
        if k in rest {
          var j :| 0 <= j < |rest| && rest[j] == k;
        }
      }
    }
  }

  lemma {:induction false} SameAnswers(t: Traversal, q: Traversal, i: nat, j: nat)
    requires Refs(t) && Refs(q) && q.results == t.results && |q.pool| == |t.pool| && j <= |t.results|
    requires forall k :: 0 <= k < |t.pool| ==> q.pool[k].alive == t.pool[k].alive
    ensures Answers(q, i, j) == Answers(t, i, j)
    decreases j - i
  {
    if i < j {
      SameAnswers(t, q, i + 1, j);
    }
  }

  /** The storage point, when there is one, and behind it the nodes that have not failed. */
  function DirectContacts(u: Traversal, env: Env): seq<Contact>
    requires Refs(u)
  {
    (if env.storage.Some? then [Contact(u.target, env.storage.value, false)] else []) + Survivors(u, |u.results|)
  }

  lemma DirectIsSeeded(u: Traversal, env: Env)
    requires Refs(u) && IsFind(u.kind)
    ensures Direct(u, env) ==
            Seeds(NewTraversal(if u.kind == FindSources then SearchSources else SearchKeyword, u.target,
                                                 u.listener, env.bucketSize), DirectContacts(u, env))
  {
    var d0 := NewTraversal(if u.kind == FindSources then SearchSources else SearchKeyword, u.target, u.listener,
                           env.bucketSize);
    if env.storage.Some? {
      var storage := [Contact(u.target, env.storage.value, false)];
      assert storage[..0] == [];
      assert Seeds(d0, storage) == Seed(d0, storage[0]);
      SeedsAppend(d0, storage, Survivors(u, |u.results|));
    } else {
      assert [] + Survivors(u, |u.results|) == Survivors(u, |u.results|);
    }
  }

  /** The search that follows a find lookup asks the storage point first and then the nodes that have not failed, in the
      order of the result list; and it wants an answer from every one. */
  lemma DirectSeeds(u: Traversal, env: Env, routers: seq<Contact>, sends: nat -> bool)
    requires Refs(u) && IsFind(u.kind)
    ensures var (d, cs) := (Direct(u, env), DirectContacts(u, env));
            && |d.results| == |d.pool| == |cs| && d.target == u.target
            && d.kind == (if u.kind == FindSources then SearchSources else SearchKeyword)
            && (forall i :: 0 <= i < |cs| ==>
                  && d.results[i] == i && d.pool[i].id == cs[i].id && d.pool[i].endpoint == cs[i].endpoint
                  && !d.pool[i].queried && !d.pool[i].failed && !d.pool[i].done && d.pool[i].responses == 0)
            && Launch(d, routers, sends).0.numTargetNodes == |cs|
  {
    var d0 := NewTraversal(if u.kind == FindSources then SearchSources else SearchKeyword, u.target, u.listener,
                           env.bucketSize);
    DirectIsSeeded(u, env);
    SeedsShape(d0, DirectContacts(u, env));
    SeedsKind(d0, DirectContacts(u, env));
    LaunchKind(Direct(u, env), routers, sends);
  }

  lemma {:induction false} SeedsAppend(t: Traversal, a: seq<Contact>, b: seq<Contact>)
    requires Refs(t)
    ensures Seeds(Seeds(t, a), b) == Seeds(t, a + b)
  {
    if |b| > 0 {
      var n := |b| - 1;
      SeedsAppend(t, a, b[..n]);
      assert (a + b)[..|a| + n] == a + b[..n];
    } else {
      assert a + b == a;
    }
  }

  /** Where in the list of nodes that have not failed an entry comes: behind those before it. */
  lemma {:induction false} SurvivorsInOrder(u: Traversal, i: nat, j: nat)
    requires Refs(u) && j < i <= |u.results| && !Listed(u, j).failed
    ensures |Survivors(u, j)| < |Survivors(u, i)|
            && Survivors(u, i)[|Survivors(u, j)|] == Contact(Listed(u, j).id, Listed(u, j).endpoint, false)
    decreases i
  {
    if j < i - 1 {
      SurvivorsInOrder(u, i - 1, j);
    }
  }
}
