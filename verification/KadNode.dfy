/** All lookups of a node together: which run, which transactions they wait for, how replies and timeouts
    reach them, and how one that ends starts the next (kad_node.go, kad_traversal.go, kad_rpc.go). */
module KadNode {
  import opened Wrappers
  import opened KadId
  import opened KadTraversal
  import opened Rpc = KadRpc

  datatype Key = Key(kind: Kind, target: ID)

  /** `calls` lists the listeners called so far, each named by the lookup it was given to; `direct` maps a
      finished find lookup to the search it created. Both record history. */
  datatype Node = Node(traversals: seq<Traversal>, txs: seq<Tx>, running: map<Key, nat>, calls: seq<nat>,
                       direct: map<nat, nat>)

  /** What the surroundings decide in one step: the time, the bucket size, which packets go out, the router
      contacts of a new lookup, and the storage point. */
  datatype Env = Env(now: int, bucketSize: nat, sends: (nat, nat) -> bool, routers: nat -> seq<Contact>,
                     storage: Option<nat>)

  const BOOTSTRAP_RES: nat := 0x09
  const RES: nat := 0x29
  const SEARCH_RES: nat := 0x3B
  const FIREWALLED_RES: nat := 0x58

  function ReplyOp(kind: Kind): nat {
    match kind
    case Bootstrap => BOOTSTRAP_RES
    case FindSources | FindKeywords | Refresh => RES
    case SearchSources | SearchKeyword => SEARCH_RES
    case Firewalled => FIREWALLED_RES
  }

  function KeyOf(t: Traversal): Key { Key(t.kind, t.target) }

  function NewTx(u: Traversal, t: nat, k: nat, now: int): Tx
    requires k < |u.pool|
  {
    Tx(u.pool[k].endpoint, ReplyOp(u.kind),
       if u.kind == Bootstrap || u.kind == Firewalled then None else Some(u.target),
       now, IsSearch(u.kind), false, Some(Ref(t, k)))
  }

  function NewTxs(u: Traversal, t: nat, sent: seq<nat>, now: int): (r: seq<Tx>)
    requires InPool(u, sent)
    ensures |r| == |sent|
  {
    if |sent| == 0 then []
    else
      var n := |sent| - 1;
      NewTxs(u, t, sent[..n], now) + [NewTx(u, t, sent[n], now)]
  }

  predicate Has(n: Node, t: nat) { t < |n.traversals| && Refs(n.traversals[t]) }

  /** Lookup t has become u and sent queries to the observers in `sent`. */
  function Put(n: Node, t: nat, u: Traversal, sent: seq<nat>, env: Env): Node
    requires t < |n.traversals| && InPool(u, sent)
  {
    n.(traversals := n.traversals[t := u], txs := n.txs + NewTxs(u, t, sent, env.now))
  }

  // ---------------------------------------------------------------- the end of a lookup

  /** done: the lookup is no longer running, and the listener of a search is called. */
  function Finish(n: Node, t: nat): Node
    requires t < |n.traversals|
  {
    var u := n.traversals[t];
    n.(traversals := n.traversals[t := u.(completions := u.completions + 1)],
       running := n.running - {KeyOf(u)},
       calls := if IsSearch(u.kind) && u.listener.Some? then n.calls + [u.listener.value] else n.calls)
  }

  /** Nodes that have not failed, in the order of the result list. */
  function Survivors(u: Traversal, i: nat): seq<Contact>
    requires Refs(u) && i <= |u.results|
  {
    if i == 0 then []
    else
      var o := Listed(u, i - 1);
      Survivors(u, i - 1) + if o.failed then [] else [Contact(o.id, o.endpoint, false)]
  }

  /** The search that follows a find lookup: it asks the storage point and every node that has not failed. */
  function Direct(u: Traversal, env: Env): (r: Traversal)
    requires Refs(u) && IsFind(u.kind)
    ensures Refs(r)
  {
    var d := NewTraversal(if u.kind == FindSources then SearchSources else SearchKeyword, u.target, u.listener,
                          env.bucketSize);
    var d1 := if env.storage.Some? then Seed(d, Contact(u.target, env.storage.value, false)) else d;
    Seeds(d1, Survivors(u, |u.results|))
  }

  function Register(n: Node, t: nat): Node
    requires t < |n.traversals|
  {
    n.(running := n.running[KeyOf(n.traversals[t]) := t])
  }

  function SendsOf(env: Env, t: nat): nat -> bool { (k: nat) => env.sends(t, k) }

  function Launched(n: Node, t: nat, env: Env): (m: Node)
    requires Has(n, t)
    ensures |m.traversals| == |n.traversals| && Has(m, t)
  {
    var r := Launch(n.traversals[t], env.routers(t), SendsOf(env, t));
    Put(Register(n, t), t, r.0, r.1, env)
  }

  predicate Over(n: Node, t: nat)
    requires t < |n.traversals|
  {
    n.traversals[t].invokeCount == 0
  }

  /** start of a lookup whose end starts nothing else. */
  function StartLast(n: Node, t: nat, env: Env): Node
    requires Has(n, t)
  {
    if KeyOf(n.traversals[t]) in n.running then n
    else
      var m := Launched(n, t, env);
      if Over(m, t) then Finish(m, t) else m
  }

  function Push(n: Node, u: Traversal): Node { n.(traversals := n.traversals + [u]) }

  /** done, with the search that follows a find lookup. */
  function Done(n: Node, t: nat, env: Env): Node
    requires Has(n, t)
  {
    var m := Finish(n, t);
    if !IsFind(n.traversals[t].kind) then m
    else
      var d := |m.traversals|;
      StartLast(Push(m, Direct(n.traversals[t], env)).(direct := m.direct[t := d]), d, env)
  }

  function Start(n: Node, t: nat, env: Env): Node
    requires Has(n, t)
  {
    if KeyOf(n.traversals[t]) in n.running then n
    else
      var m := Launched(n, t, env);
      if Over(m, t) then Done(m, t, env) else m
  }

  // ---------------------------------------------------------------- replies and timeouts

  /** An observer is answered for good or given up; the lookup goes on, or is done. */
  function Conclusion(n: Node, t: nat, k: nat, alive: bool, env: Env): Node
    requires Has(n, t) && k < |n.traversals[t].pool|
  {
    var r := Concluded(n.traversals[t], k, alive, SendsOf(env, t));
    var m := Put(n, t, r.0, r.1, env);
    if Over(m, t) then Done(m, t, env) else m
  }

  predicate Known(n: Node, r: Ref) { Has(n, r.t) && r.k < |n.traversals[r.t].pool| }

  function SetTraversal(n: Node, t: nat, u: Traversal): Node
    requires t < |n.traversals|
  {
    n.(traversals := n.traversals[t := u])
  }

  /** A reply: rpc.Incoming, then what the response handler for this opcode does. */
  function Incoming(n: Node, endpoint: nat, opcode: nat, target: Option<ID>, contacts: seq<Contact>, env: Env): Node
    requires AllKnown(n)
  {
    var i := Match(n.txs, endpoint, opcode, target);
    if i == |n.txs| then n
    else
      var tx := n.txs[i];
      var m := n.(txs := Answered(n.txs, i));
      if tx.observer.None? then m
      else
        assert tx in n.txs && Known(n, tx.observer.value);
        var (t, k) := (tx.observer.value.t, tx.observer.value.k);
        if opcode == SEARCH_RES then SetTraversal(m, t, Reply(m.traversals[t], k))
        else if opcode == RES || opcode == BOOTSTRAP_RES then
          var u := AddEntries(m.traversals[t], contacts);
          if k < |u.pool| && !u.pool[k].done then Conclusion(SetTraversal(m, t, u), t, k, true, env)
            else SetTraversal(m, t, u)
        else if opcode == FIREWALLED_RES then
          if m.traversals[t].pool[k].done then m else Conclusion(m, t, k, true, env)
        else m
  }

  function ShortTimeoutOf(n: Node, tx: Tx): Node {
    if tx.observer.None? || !Known(n, tx.observer.value) then n
    else
      var r := tx.observer.value;
      SetTraversal(n, r.t, ShortTimeout(n.traversals[r.t], r.k))
  }

  function ShortTimeouts(n: Node, txs: seq<Tx>): Node
    decreases |txs|
  {
    if |txs| == 0 then n else ShortTimeouts(ShortTimeoutOf(n, txs[0]), txs[1..])
  }

  /** timeout: a search observer that has had replies counts as answered. */
  function TimeoutOf(n: Node, tx: Tx, env: Env): Node {
    if tx.observer.None? || !Known(n, tx.observer.value) then n
    else
      var r := tx.observer.value;
      var u := n.traversals[r.t];
      if u.pool[r.k].done then n
      else Conclusion(n, r.t, r.k, IsSearch(u.kind) && u.pool[r.k].responses > 0, env)
  }

  function Timeouts(n: Node, txs: seq<Tx>, env: Env): Node
    decreases |txs|
  {
    if |txs| == 0 then n else Timeouts(TimeoutOf(n, txs[0], env), txs[1..], env)
  }

  /** rpc.Tick and the callbacks it leads to. */
  function Tick(n: Node, env: Env): Node {
    var m := n.(txs := Kept(n.txs, env.now));
    Timeouts(ShortTimeouts(m, ShortTimed(n.txs, env.now)), Expired(n.txs, env.now), env)
  }

  /** A new lookup: bootstrap offers its contacts one by one, the others take them as seeds. Searches are
      never begun this way, they follow a find lookup. */
  function Begin(n: Node, kind: Kind, target: ID, contacts: seq<Contact>, env: Env): Node {
    var t := |n.traversals|;
    var empty := NewTraversal(kind, target, if IsFind(kind) then Some(t) else None, env.bucketSize);
    Start(Push(n, if kind == Bootstrap then AddEntries(empty, contacts) else Seeds(empty, contacts)), t, env)
  }

  /** A transaction that no lookup waits for, such as a hello. */
  function Hello(n: Node, endpoint: nat, opcode: nat, env: Env): Node {
    n.(txs := n.txs + [Tx(endpoint, opcode, None, env.now, false, false, None)])
  }

  datatype Event =
    | BeginLookup(kind: Kind, target: ID, contacts: seq<Contact>)
    | Receive(endpoint: nat, opcode: nat, replyTarget: Option<ID>, found: seq<Contact>)
    | TimerTick
    | SendHello(peer: nat, helloOp: nat)

  predicate AllKnown(n: Node) { forall tx :: tx in n.txs && tx.observer.Some? ==> Known(n, tx.observer.value) }

  predicate Enabled(n: Node, e: Event) {
    match e
    case BeginLookup(kind, _, _) => !IsSearch(kind)
    case _ => AllKnown(n)
  }

  function Next(n: Node, e: Event, env: Env): Node
    requires Enabled(n, e)
  {
    match e
    case BeginLookup(kind, target, contacts) => Begin(n, kind, target, contacts, env)
    case Receive(endpoint, opcode, target, contacts) => Incoming(n, endpoint, opcode, target, contacts, env)
    case TimerTick => Tick(n, env)
    case SendHello(peer, op) => Hello(n, peer, op, env)
  }
}
