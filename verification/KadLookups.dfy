/** The lookups as the program runs them, step by step; every method is proved against the functions of
    KadTraversal and KadNode (kad_traversal.go, kad_node.go). */
module KadLookups {
  import opened Wrappers
  import opened KadId
  import opened KadTraversal
  import opened Rpc = KadRpc
  import opened KadNode
  import RoutingTable

  ghost predicate Remaining(all: (Traversal, seq<nat>), sent: seq<nat>, rest: (Traversal, seq<nat>)) {
    all == (rest.0, sent + rest.1)
  }

  lemma RequestsNext(all: (Traversal, seq<nat>), t: Traversal, sends: nat -> bool, i: nat, wanted: nat, sent: seq<nat>)
    requires Refs(t) && i < |t.results| && wanted > 0 && t.invokeCount < t.branchFactor
    requires Remaining(all, sent, Requests(t, sends, i, wanted))
    ensures var k := t.results[i];
            var (u, left) := (if t.pool[k].queried then t else Query(t, k, sends(k)),
                              if t.pool[k].alive then wanted - 1 else wanted);
            Remaining(all, if !t.pool[k].queried && sends(k) then sent + [k] else sent, Requests(u, sends, i + 1, left))
  {
    var k := t.results[i];
    var rest := Requests(Query(t, k, sends(k)), sends, i + 1, if t.pool[k].alive then wanted - 1 else wanted).1;
    assert sent + ([k] + rest) == (sent + [k]) + rest;
  }

  /** One lookup, updated in place; `completions`, `offered` and `asked` record history. */
  class Lookup {
    const kind: Kind
    const target: ID
    const listener: Option<nat>
    var pool: seq<Observer>
    var results: seq<nat>
    var invokeCount: nat
    var branchFactor: nat
    var numTargetNodes: nat
    var started: bool
    var completions: nat
    var offered: set<ID>
    var asked: seq<nat>

    function View(): Traversal
      reads this
    {
      Traversal(kind, target, listener, pool, results, invokeCount, branchFactor, numTargetNodes, started, completions,
                offered, asked)
    }

    constructor (kind: Kind, target: ID, listener: Option<nat>, bucketSize: nat)
      ensures View() == NewTraversal(kind, target, listener, bucketSize)
    {
      this.kind, this.target, this.listener := kind, target, listener;
      pool, results, invokeCount, branchFactor, started := [], [], 0, 0, false;
      numTargetNodes := if bucketSize > 0 then 2 * bucketSize else 20;
      completions, offered, asked := 0, {}, [];
    }

    method AddEntry(c: Contact)
      requires Refs(View())
      modifies this
      ensures View() == KadTraversal.AddEntry(old(View()), c)
    {
      var lo, hi := 0, |results|;
      while lo < hi
        invariant 0 <= lo <= hi <= |results| && View() == old(View())
        invariant Search(View(), c.id, lo, hi) == Search(View(), c.id, 0, |results|)
      {
        var mid := (lo + hi) / 2;
        var d := DistanceCompare(pool[results[mid]].id, c.id, target);
        if d >= 0 {
          hi := mid;
        } else {
          lo := mid + 1;
        }
      }
      InsertAt(lo, c);
    }

    /** The end of addEntry: the position is known. */
    method InsertAt(pos: nat, c: Contact)
      requires Refs(View()) && pos == Search(View(), c.id, 0, |results|)
      modifies this
      ensures View() == KadTraversal.AddEntry(old(View()), c)
    {
      offered := offered + {c.id};
      if pos < |results| && pool[results[pos]].id == c.id {
        return;
      }
      var observer := |pool|;
      if pos < MAX_RESULTS {
        pool := pool + [NewObserver(c)];
      }
      results := results[..pos] + [observer] + results[pos..];
      if |results| > MAX_RESULTS {
        results := results[..MAX_RESULTS];
      }
    }

    method AddNode(c: Contact)
      requires Refs(View())
      modifies this
      ensures View() == Seed(old(View()), c)
    {
      results := results + [|pool|];
      pool := pool + [NewObserver(c)];
      numTargetNodes := |results|;
      offered := offered + {c.id};
    }

    /** Marks an observer as queried; `goesOut` tells whether its packet could be sent. */
    method Ask(k: nat, goesOut: bool)
      requires k < |pool|
      modifies this
      ensures View() == Query(old(View()), k, goesOut)
    {
      pool := pool[k := pool[k].(queried := true)];
      asked := asked + [k];
      if goesOut {
        invokeCount := invokeCount + 1;
      } else {
        pool := pool[k := pool[k].(failed := true)];
      }
      assert pool == old(pool)[k := pool[k]];
    }

    /** `sent` lists the observers whose query went out. */
    method AddRequests(sends: nat -> bool) returns (sent: seq<nat>)
      requires Refs(View())
      modifies this
      ensures (View(), sent) == KadTraversal.AddRequests(old(View()), sends)
    {
      sent := [];
      var wanted, i := numTargetNodes, 0;
      ghost var all := KadTraversal.AddRequests(View(), sends);
      assert [] + all.1 == all.1;
      while i < |results| && wanted > 0 && invokeCount < branchFactor
        invariant i <= |results| && Refs(View())
        invariant Remaining(all, sent, Requests(View(), sends, i, wanted))
        decreases |results| - i
      {
        var k := results[i];
        ghost var view, before, left := View(), sent, wanted;
        if pool[k].alive {
          wanted := wanted - 1;
        }
        if !pool[k].queried {
          Ask(k, sends(k));
          sent := if sends(k) then sent + [k] else sent;
        }
        i := i + 1;
        RequestsNext(all, view, sends, i - 1, left, before);
      }
      assert sent + [] == sent;
    }

    method ShortTimeout(k: nat)
      requires Refs(View()) && k < |pool|
      modifies this
      ensures View() == KadTraversal.ShortTimeout(old(View()), k)
    {
      if pool[k].short {
        return;
      }
      branchFactor := branchFactor + 1;
      pool := pool[k := pool[k].(short := true)];
    }

    /** timeout, up to the check whether the lookup is over. */
    method Failed(k: nat, sends: nat -> bool) returns (sent: seq<nat>)
      requires Refs(View()) && k < |pool|
      modifies this
      ensures (View(), sent) == Concluded(old(View()), k, false, sends)
    {
      pool := pool[k := pool[k].(done := true)];
      pool := pool[k := pool[k].(failed := true)];
      if pool[k].short && branchFactor > 1 {
        branchFactor := branchFactor - 1;
      }
      if invokeCount > 0 {
        invokeCount := invokeCount - 1;
      }
      assert View() == Conclude(old(View()), k, false);
      sent := AddRequests(sends);
    }

    /** done, up to the check whether the lookup is over. */
    method Finished(k: nat, sends: nat -> bool) returns (sent: seq<nat>)
      requires Refs(View()) && k < |pool|
      modifies this
      ensures (View(), sent) == Concluded(old(View()), k, true, sends)
    {
      pool := pool[k := pool[k].(done := true)];
      if pool[k].short && branchFactor > 1 {
        branchFactor := branchFactor - 1;
      }
      pool := pool[k := pool[k].(alive := true)];
      if invokeCount > 0 {
        invokeCount := invokeCount - 1;
      }
      assert View() == Conclude(old(View()), k, true);
      sent := AddRequests(sends);
    }

    method Start(routers: seq<Contact>, sends: nat -> bool) returns (sent: seq<nat>)
      requires Refs(View())
      modifies this
      ensures (View(), sent) == Launch(old(View()), routers, sends)
    {
      started, branchFactor := true, SEARCH_BRANCHING;
      if kind == Refresh {
        numTargetNodes := 1;
      }
      if IsSearch(kind) {
        numTargetNodes := |results|;
      }
      if |results| == 0 {
        ghost var before := View();
        for i := 0 to |routers|
          invariant Refs(View()) && View() == AddEntries(before, routers[..i])
        {
          assert routers[..i + 1][..i] == routers[..i];
          AddEntry(routers[i]);
        }
        assert routers[..|routers|] == routers;
      }
      sent := AddRequests(sends);
    }
  }

  /** The node: which lookups run, and the callbacks of the RPC layer. Lookups are kept as values here. */
  class KadNodeImpl {
    const rpc: KadRpcManager
    var traversals: seq<Traversal>
    var running: map<Key, nat>
    ghost var calls: seq<nat>
    ghost var direct: map<nat, nat>

    ghost function View(): Node
      reads this, rpc
    {
      Node(traversals, rpc.transactions, running, calls, direct)
    }

    constructor ()
      ensures View() == Node([], [], map[], [], map[]) && fresh(rpc)
    {
      rpc := new KadRpcManager();
      traversals, running, calls, direct := [], map[], [], map[];
    }

    method AddTraversal(t: nat) returns (ok: bool)
      requires t < |traversals|
      modifies this
      ensures ok <==> KeyOf(old(traversals)[t]) !in old(running)
      ensures View() == if ok then Register(old(View()), t) else old(View())
    {
      var key := KeyOf(traversals[t]);
      if key in running {
        return false;
      }
      running := running[key := t];
      return true;
    }

    /** node.invoke for each query of lookup t that went out, once the lookup has become u. */
    method Invoked(t: nat, u: Traversal, sent: seq<nat>, env: Env)
      requires t < |traversals| && InPool(u, sent)
      modifies this, rpc
      ensures View() == Put(old(View()), t, u, sent, env)
    {
      traversals := traversals[t := u];
      ghost var before := rpc.transactions;
      for i := 0 to |sent|
        invariant View() == old(View()).(traversals := old(traversals)[t := u],
                                         txs := before + NewTxs(u, t, sent[..i], env.now))
      {
        assert sent[..i + 1][..i] == sent[..i];
        rpc.Invoke(NewTx(u, t, sent[i], env.now), env.now);
      }
      assert sent[..|sent|] == sent;
    }

    /** What done does for every kind, and the call of the listener of a search. */
    method RemoveTraversal(t: nat)
      requires t < |traversals|
      modifies this
      ensures View() == Finish(old(View()), t)
    {
      var u := traversals[t];
      running := running - {KeyOf(u)};
      traversals := traversals[t := u.(completions := u.completions + 1)];
      if IsSearch(u.kind) && u.listener.Some? {
        calls := calls + [u.listener.value];
      }
    }

    static method DirectSearch(u: Traversal, env: Env) returns (d: Traversal)
      requires Refs(u) && IsFind(u.kind)
      ensures d == Direct(u, env)
    {
      d := NewTraversal(if u.kind == FindSources then SearchSources else SearchKeyword, u.target, u.listener,
                        env.bucketSize);
      if env.storage.Some? {
        d := Seed(d, Contact(u.target, env.storage.value, false));
      }
      ghost var first := d;
      for i := 0 to |u.results|
        invariant Refs(d) && d == Seeds(first, Survivors(u, i))
      {
        var o := Listed(u, i);
        if !o.failed {
          SeedsLast(first, Survivors(u, i), Contact(o.id, o.endpoint, false));
          d := Seed(d, Contact(o.id, o.endpoint, false));
        } else {
          assert Survivors(u, i) + [] == Survivors(u, i);
        }
      }
    }

    method Done(t: nat, env: Env)
      requires t < |traversals| && Refs(traversals[t])
      modifies this, rpc
      ensures View() == KadNode.Done(old(View()), t, env)
    {
      var u := traversals[t];
      RemoveTraversal(t);
      if IsFind(u.kind) {
        var d := DirectSearch(u, env);
        traversals, direct := traversals + [d], direct[t := |traversals|];
        StartLast(|traversals| - 1, env);
      }
    }

    method StartLast(t: nat, env: Env)
      requires t < |traversals| && Refs(traversals[t])
      modifies this, rpc
      ensures View() == KadNode.StartLast(old(View()), t, env)
    {
      var ok := AddTraversal(t);
      if ok {
        var r := Launch(traversals[t], env.routers(t), SendsOf(env, t));
        Invoked(t, r.0, r.1, env);
        if traversals[t].invokeCount == 0 {
          RemoveTraversal(t);
        }
      }
    }

    method Start(t: nat, env: Env) returns (ok: bool)
      requires t < |traversals| && Refs(traversals[t])
      modifies this, rpc
      ensures ok <==> KeyOf(old(traversals)[t]) !in old(running)
      ensures View() == KadNode.Start(old(View()), t, env)
    {
      ok := AddTraversal(t);
      if ok {
        var r := Launch(traversals[t], env.routers(t), SendsOf(env, t));
        Invoked(t, r.0, r.1, env);
        if traversals[t].invokeCount == 0 {
          Done(t, env);
        }
      }
    }

    method Conclude(t: nat, k: nat, alive: bool, env: Env)
      requires t < |traversals| && Refs(traversals[t]) && k < |traversals[t].pool|
      modifies this, rpc
      ensures View() == Conclusion(old(View()), t, k, alive, env)
    {
      var r := Concluded(traversals[t], k, alive, SendsOf(env, t));
      Invoked(t, r.0, r.1, env);
      if traversals[t].invokeCount == 0 {
        Done(t, env);
      }
    }

    /** A response packet: the transaction it answers is taken, the contacts it brings are offered to the
        lookup, and the observer is done; a search observer only notes one more reply. */
    method Receive(endpoint: nat, opcode: nat, target: Option<ID>, contacts: seq<Contact>, env: Env)
      requires AllKnown(View())
      modifies this, rpc
      ensures View() == KadNode.Incoming(old(View()), endpoint, opcode, target, contacts, env)
    {
      ghost var i := Match(rpc.transactions, endpoint, opcode, target);
      assert i < |rpc.transactions| ==> rpc.transactions[i] in View().txs;
      var tx := rpc.Incoming(endpoint, opcode, target);
      if tx.None? || tx.value.observer.None? {
        return;
      }
      var r := tx.value.observer.value;
      if opcode == SEARCH_RES {
        traversals := traversals[r.t := Reply(traversals[r.t], r.k)];
      } else if opcode == RES || opcode == BOOTSTRAP_RES {
        ghost var before := View();
        for j := 0 to |contacts|
          invariant r.t < |traversals| && Refs(traversals[r.t])
          invariant Refs(before.traversals[r.t])
          invariant View() == SetTraversal(before, r.t, AddEntries(before.traversals[r.t], contacts[..j]))
        {
          assert contacts[..j + 1][..j] == contacts[..j];
          traversals := traversals[r.t := KadTraversal.AddEntry(traversals[r.t], contacts[j])];
        }
        assert contacts[..|contacts|] == contacts;
        if r.k < |traversals[r.t].pool| && !traversals[r.t].pool[r.k].done {
          Conclude(r.t, r.k, true, env);
        }
      } else if opcode == FIREWALLED_RES && !traversals[r.t].pool[r.k].done {
        Conclude(r.t, r.k, true, env);
      }
    }

    predicate Holds(r: Ref)
      reads this
    {
      r.t < |traversals| && Refs(traversals[r.t]) && r.k < |traversals[r.t].pool|
    }

    /** tick: the RPC layer reports short and final timeouts, and the observers take them in that order. */
    method Tick(env: Env)
      requires forall t :: 0 <= t < |traversals| ==> Refs(traversals[t])
      modifies this, rpc
      ensures View() == KadNode.Tick(old(View()), env)
    {
      var short, expired := rpc.Tick(env.now);
      ghost var all := KadNode.Tick(old(View()), env);
      var i := 0;
      while i < |short|
        invariant i <= |short|
        invariant forall t :: 0 <= t < |traversals| ==> Refs(traversals[t])
        invariant all == Timeouts(ShortTimeouts(View(), short[i..]), expired, env)
      {
        assert short[i..][1..] == short[i + 1..];
        if short[i].observer.Some? && Holds(short[i].observer.value) {
          var r := short[i].observer.value;
          traversals := traversals[r.t := KadTraversal.ShortTimeout(traversals[r.t], r.k)];
        }
        i := i + 1;
      }
      i := 0;
      while i < |expired|
        invariant i <= |expired|
        invariant all == Timeouts(View(), expired[i..], env)
      {
        assert expired[i..][1..] == expired[i + 1..];
        if expired[i].observer.Some? && Holds(expired[i].observer.value) {
          var r := expired[i].observer.value;
          var u := traversals[r.t];
          if !u.pool[r.k].done {
            Conclude(r.t, r.k, IsSearch(u.kind) && u.pool[r.k].responses > 0, env);
          }
        }
        i := i + 1;
      }
    }
  }

  lemma SeedsLast(t: Traversal, cs: seq<Contact>, c: Contact)
    requires Refs(t)
    ensures Seeds(t, cs + [c]) == Seed(Seeds(t, cs), c)
  {
    assert (cs + [c])[..|cs|] == cs;
  }

  // ---------------------------------------------------------------- where a lookup and its node meet

  const SEEDS: int := 50

  /** The seeds of a new lookup: the nodes of the routing table nearest to its target, nearest first. `endpointOf` is
      the number of a node's address. */
  method ClosestSeeds(table: RoutingTable.KadRoutingTable, target: ID, endpointOf: RoutingTable.KadRoutingNode -> nat)
    returns (seeds: seq<Contact>)
    requires table.Valid()
    ensures SortedSeeds(seeds, target) && |seeds| <= SEEDS
    ensures forall n :: RoutingTable.IsCandidate(table.buckets, n, true) ==>
              || (exists c :: c in seeds && c.id == n.id)
              || (|seeds| == SEEDS && forall c :: c in seeds ==> Dist(c.id, target) < Dist(n.id, target))
  {
    var nodes := table.FindClosest(target, SEEDS, true);
    seeds := [];
    for i := 0 to |nodes|
      invariant |seeds| == i && forall j :: 0 <= j < i ==> seeds[j].id == nodes[j].id
    {
      seeds := seeds + [Contact(nodes[i].id, endpointOf(nodes[i]), false)];
    }
    forall n | RoutingTable.IsCandidate(table.buckets, n, true)
      ensures || (exists c :: c in seeds && c.id == n.id)
              || (|seeds| == SEEDS && forall c :: c in seeds ==> Dist(c.id, target) < Dist(n.id, target))
    {
      if n in nodes {
        var j :| 0 <= j < |nodes| && nodes[j] == n;
        assert seeds[j] in seeds && seeds[j].id == n.id;
      } else {
        forall c | c in seeds
          ensures Dist(c.id, target) < Dist(n.id, target)
        {
          var j :| 0 <= j < |seeds| && seeds[j] == c;
          assert nodes[j] in nodes;
        }
      }
    }
  }

  lemma DoneKeeps(n: Node, t: nat, env: Env)
    requires Has(n, t)
    ensures t < |KadNode.Done(n, t, env).traversals|
    ensures KadNode.Done(n, t, env).traversals[t] == n.traversals[t].(completions := n.traversals[t].completions + 1)
  {
  }

  function Settled(n: Node, t: nat, u: Traversal, sent: seq<nat>, env: Env): Node
    requires t < |n.traversals| && Refs(u) && InPool(u, sent)
  {
    var m := Put(n, t, u, sent, env);
    if Over(m, t) then KadNode.Done(m, t, env) else m
  }

  /** The node takes note of what lookup t has become and of the queries it sent, and of its end. */
  method Settle(node: KadNodeImpl, l: Lookup, t: nat, sent: seq<nat>, env: Env)
    requires t < |node.traversals| && Refs(l.View()) && InPool(l.View(), sent)
    modifies node, node.rpc, l`completions
    ensures node.View() == Settled(old(node.View()), t, old(l.View()), sent, env)
    ensures t < |node.traversals| && node.traversals[t] == l.View()
  {
    node.Invoked(t, l.View(), sent, env);
    if l.invokeCount == 0 {
      DoneKeeps(node.View(), t, env);
      node.Done(t, env);
      l.completions := l.completions + 1;
    }
  }

  /** start with the lookup held as an object: it asks its first observers, and the node takes note of it. */
  method StartLookup(node: KadNodeImpl, l: Lookup, t: nat, env: Env) returns (ok: bool)
    requires t < |node.traversals| && Refs(l.View()) && node.traversals[t] == l.View()
    modifies node, node.rpc, l
    ensures ok <==> KeyOf(old(l.View())) !in old(node.running)
    ensures node.View() == KadNode.Start(old(node.View()), t, env)
    ensures t < |node.traversals| && node.traversals[t] == l.View()
  {
    ok := node.AddTraversal(t);
    if ok {
      var sent := l.Start(env.routers(t), SendsOf(env, t));
      Settle(node, l, t, sent, env);
    }
  }

  /** An observer of a lookup held as an object is answered for good or given up. */
  method ConcludeLookup(node: KadNodeImpl, l: Lookup, t: nat, k: nat, alive: bool, env: Env)
    requires t < |node.traversals| && Refs(l.View()) && node.traversals[t] == l.View() && k < |l.pool|
    modifies node, node.rpc, l
    ensures node.View() == Conclusion(old(node.View()), t, k, alive, env)
    ensures t < |node.traversals| && node.traversals[t] == l.View()
  {
    var sent: seq<nat>;
    if alive {
      sent := l.Finished(k, SendsOf(env, t));
    } else {
      sent := l.Failed(k, SendsOf(env, t));
    }
    Settle(node, l, t, sent, env);
  }
}
