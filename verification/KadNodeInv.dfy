/** What holds in every reachable state of the lookups: queries in flight and pending transactions match one
    to one, lookups run exactly while they wait for something, each is done once, listeners are called at
    most once. */
module KadNodeInv {
  import opened Wrappers
  import opened Ordered
  import opened KadId
  import opened KadTraversal
  import opened Rpc = KadRpc
  import opened KadNode

  // ---------------------------------------------------------------- the invariant

  ghost predicate AllAccounts(n: Node) { forall t :: 0 <= t < |n.traversals| ==> Accounts(n.traversals[t]) }

  predicate TxOk(n: Node, tx: Tx) {
    tx.observer.Some? ==>
      var t := tx.observer.value.t;
      t < |n.traversals| && tx.opcode == ReplyOp(n.traversals[t].kind) && tx.multi == IsSearch(n.traversals[t].kind)
  }

  predicate TxsOk(n: Node, txs: seq<Tx>) { forall i :: 0 <= i < |txs| ==> TxOk(n, txs[i]) }

  predicate Flying(n: Node, r: Ref) { r.t < |n.traversals| && InFlight(n.traversals[r.t], r.k) }

  /** Every observer in flight waits for exactly one transaction, pending or already taken off the list for a
      callback (`limbo`), but for the one being concluded (`out`); nobody else waits. */
  ghost predicate Books(n: Node, limbo: seq<Tx>, out: Option<Ref>) {
    forall r: Ref {:trigger Flying(n, r)} {:trigger Waits(n.txs, r)} ::
      Waits(n.txs, r) + Waits(limbo, r) + (if out == Some(r) then 1 else 0) == if Flying(n, r) then 1 else 0
  }

  ghost predicate Core(n: Node, limbo: seq<Tx>, out: Option<Ref>) {
    AllAccounts(n) && TxsOk(n, n.txs) && TxsOk(n, limbo) && Books(n, limbo, out)
  }

  /** A lookup is done at most once, has then nothing in flight and has converged; from its start until then
      it is the running lookup for its key, and it waits for something unless it is being worked on. */
  ghost predicate LifeOk(n: Node, t: nat, busy: bool)
    requires t < |n.traversals|
  {
    var u := n.traversals[t];
    && u.completions <= 1
    && (u.completions == 1 ==> u.started && u.invokeCount == 0 && Converged(u))
    && (u.started && u.completions == 0 ==>
        KeyOf(u) in n.running && n.running[KeyOf(u)] == t && (busy || u.invokeCount > 0))
  }

  ghost predicate RunningOk(n: Node) {
    forall key {:trigger n.running[key]} :: key in n.running ==>
      var t := n.running[key];
      t < |n.traversals| && KeyOf(n.traversals[t]) == key && n.traversals[t].started && n.traversals[t].completions == 0
  }

  ghost predicate Life(n: Node, hot: int) {
    RunningOk(n) && forall t {:trigger n.traversals[t]} :: 0 <= t < |n.traversals| ==> LifeOk(n, t, t == hot)
  }

  // ---------------------------------------------------------------- transactions

  lemma {:induction false} NewTxsWait(u: Traversal, t: nat, sent: seq<nat>, now: int, r: Ref)
    requires InPool(u, sent) && forall i, j :: 0 <= i < j < |sent| ==> sent[i] != sent[j]
    ensures Waits(NewTxs(u, t, sent, now), r) == if r.t == t && r.k in sent then 1 else 0
  {
    if |sent| > 0 {
      var m := |sent| - 1;
      NewTxsWait(u, t, sent[..m], now, r);
      WaitsLast(NewTxs(u, t, sent[..m], now), NewTx(u, t, sent[m], now), r);
      assert sent == sent[..m] + [sent[m]];
    }
  }

  lemma {:induction false} NewTxsOk(n: Node, u: Traversal, t: nat, sent: seq<nat>, now: int)
    requires InPool(u, sent) && t < |n.traversals| && n.traversals[t].kind == u.kind
    ensures TxsOk(n, NewTxs(u, t, sent, now))
  {
    if |sent| > 0 {
      NewTxsOk(n, u, t, sent[..|sent| - 1], now);
    }
  }

  /** The flight of lookup t after a step: what was in flight, without the observer concluded, and the
      observers sent to. */
  ghost predicate Relaunched(n: Node, t: nat, u: Traversal, sent: seq<nat>, out: Option<Ref>)
    requires t < |n.traversals|
  {
    && SameLookup(n.traversals[t], u) && Accounts(u) && InPool(u, sent)
    && (out.Some? ==> out.value.t == t)
    && (forall k {:trigger InFlight(u, k)} :: InFlight(u, k) <==>
        (InFlight(n.traversals[t], k) && out != Some(Ref(t, k))) || k in sent)
    && (forall k {:trigger k in sent} :: k in sent ==> !InFlight(n.traversals[t], k) || out == Some(Ref(t, k)))
    && forall i, j :: 0 <= i < j < |sent| ==> sent[i] != sent[j]
  }

  lemma PutCore(n: Node, t: nat, u: Traversal, sent: seq<nat>, env: Env, limbo: seq<Tx>, out: Option<Ref>)
    requires t < |n.traversals| && Core(n, limbo, out) && Relaunched(n, t, u, sent, out)
    ensures Core(Put(n, t, u, sent, env), limbo, None)
  {
    var m := Put(n, t, u, sent, env);
    var more := NewTxs(u, t, sent, env.now);
    NewTxsOk(m, u, t, sent, env.now);
    TxsStay(n, m, n.txs);
    TxsStay(n, m, limbo);
    forall r: Ref
      ensures Waits(m.txs, r) + Waits(limbo, r) == if Flying(m, r) then 1 else 0
    {
      NewTxsWait(u, t, sent, env.now, r);
      WaitsAppend(n.txs, more, r);
      assert Waits(n.txs, r) + Waits(limbo, r) + (if out == Some(r) then 1 else 0) == if Flying(n, r) then 1 else 0;
      if r.t == t {
        assert r == Ref(t, r.k);
        assert InFlight(u, r.k) <==> (InFlight(n.traversals[t], r.k) && out != Some(Ref(t, r.k))) || r.k in sent;
      }
    }
  }

  /** Lookups only get added and keep their kind. */
  predicate KindsKept(n: Node, m: Node) {
    |m.traversals| >= |n.traversals| && forall t :: 0 <= t < |n.traversals| ==>
      m.traversals[t].kind == n.traversals[t].kind
  }

  lemma TxsStay(n: Node, m: Node, txs: seq<Tx>)
    requires TxsOk(n, txs) && KindsKept(n, m)
    ensures TxsOk(m, txs)
  {
    forall i | 0 <= i < |txs|
      ensures TxOk(m, txs[i])
    {
      assert TxOk(n, txs[i]);
    }
  }

  lemma PushCore(n: Node, u: Traversal, limbo: seq<Tx>)
    requires Core(n, limbo, None) && Accounts(u) && !u.started
    ensures Core(Push(n, u), limbo, None)
  {
    var m := Push(n, u);
    TxsStay(n, m, n.txs);
    TxsStay(n, m, limbo);
    forall r: Ref
      ensures Flying(m, r) <==> Flying(n, r)
    {
      if r.t == |n.traversals| && r.k < |u.pool| {
        assert !u.pool[r.k].queried;
      }
    }
  }

  lemma FinishCore(n: Node, t: nat, limbo: seq<Tx>)
    requires Core(n, limbo, None) && t < |n.traversals|
    ensures Core(Finish(n, t), limbo, None)
  {
    var m := Finish(n, t);
    TxsStay(n, m, n.txs);
    TxsStay(n, m, limbo);
    assert AllAccounts(m);
    forall r: Ref
      ensures Flying(m, r) <==> Flying(n, r)
    {
    }
  }

  // ---------------------------------------------------------------- lives

  lemma PutLife(n: Node, t: nat, u: Traversal, sent: seq<nat>, env: Env)
    requires t < |n.traversals| && Life(n, -1) && n.traversals[t].started && n.traversals[t].completions == 0
    requires SameLookup(n.traversals[t], u) && u.started && InPool(u, sent)
    ensures Life(Put(n, t, u, sent, env), t)
    ensures u.invokeCount > 0 ==> Life(Put(n, t, u, sent, env), -1)
  {
    var m := Put(n, t, u, sent, env);
    forall s | 0 <= s < |m.traversals|
      ensures LifeOk(m, s, s == t) && (u.invokeCount > 0 ==> LifeOk(m, s, false))
    {
      assert LifeOk(n, s, false);
    }
  }

  lemma LaunchedLife(n: Node, t: nat, env: Env)
    requires Has(n, t) && Life(n, -1) && Accounts(n.traversals[t]) && !n.traversals[t].started
             && KeyOf(n.traversals[t]) !in n.running
    ensures var m := Launched(n, t, env);
            && Life(m, t) && m.traversals[t].started && m.traversals[t].completions == 0
            && (!Over(m, t) ==> Life(m, -1)) && (Over(m, t) ==> Converged(m.traversals[t]))
  {
    var m := Launched(n, t, env);
    LaunchAccounts(n.traversals[t], env.routers(t), SendsOf(env, t));
    assert LifeOk(n, t, false);
    forall s | 0 <= s < |m.traversals|
      ensures LifeOk(m, s, s == t) && (!Over(m, t) ==> LifeOk(m, s, false))
    {
      assert LifeOk(n, s, false);
    }
  }

  lemma FinishLife(n: Node, t: nat)
    requires t < |n.traversals| && Life(n, t) && n.traversals[t].started && n.traversals[t].completions == 0
    requires n.traversals[t].invokeCount == 0 && Converged(n.traversals[t])
    ensures Life(Finish(n, t), -1)
  {
    var m := Finish(n, t);
    var u := n.traversals[t];
    assert LifeOk(n, t, true);
    ConvergedKept(u, m.traversals[t]);
    forall s | 0 <= s < |m.traversals|
      ensures LifeOk(m, s, false)
    {
      assert LifeOk(n, s, s == t);
    }
  }

  lemma ConvergedKept(t: Traversal, u: Traversal)
    requires Converged(t) && u == t.(completions := u.completions)
    ensures Converged(u)
  {
    var k: nat :| SweptTo(t, 0, k, t.numTargetNodes);
    AnswersKept(t, u, 0, k);
    assert forall j :: 0 <= j < k ==> Listed(u, j) == Listed(t, j);
    assert SweptTo(u, 0, k, u.numTargetNodes);
  }

  lemma {:induction false} AnswersKept(t: Traversal, u: Traversal, i: nat, k: nat)
    requires Refs(t) && k <= |t.results| && u.results == t.results && u.pool == t.pool
    ensures Answers(u, i, k) == Answers(t, i, k)
    decreases k - i
  {
    if i < k {
      AnswersKept(t, u, i + 1, k);
    }
  }

  lemma PushLife(n: Node, u: Traversal)
    requires Life(n, -1) && !u.started && u.completions == 0
    ensures Life(Push(n, u), -1)
  {
    var m := Push(n, u);
    forall s | 0 <= s < |m.traversals|
      ensures LifeOk(m, s, false)
    {
      if s < |n.traversals| {
        assert LifeOk(n, s, false);
      }
    }
  }

  // ---------------------------------------------------------------- listeners

  /** A find lookup carries its own listener; the search it creates when done carries it on; nobody else has one. */
  ghost predicate ListenerOk(n: Node, t: nat)
    requires t < |n.traversals|
  {
    var u := n.traversals[t];
    && (IsFind(u.kind) ==> u.listener == Some(t))
    && (IsSearch(u.kind) ==> u.listener.Some? && u.listener.value in n.direct && n.direct[u.listener.value] == t)
  }

  ghost predicate DirectOk(n: Node, l: nat)
    requires l in n.direct
  {
    var s := n.direct[l];
    && l < |n.traversals| && IsFind(n.traversals[l].kind) && n.traversals[l].completions == 1
    && s < |n.traversals| && IsSearch(n.traversals[s].kind) && n.traversals[s].listener == Some(l)
    && (l in n.calls <==> n.traversals[s].completions > 0)
  }

  ghost predicate Listeners(n: Node) {
    && (forall t {:trigger n.traversals[t]} :: 0 <= t < |n.traversals| ==> ListenerOk(n, t))
    && (forall l {:trigger n.direct[l]} :: l in n.direct ==> DirectOk(n, l))
    && (forall l {:trigger l in n.calls} :: l in n.calls ==> l in n.direct)
    && (forall i, j :: 0 <= i < j < |n.calls| ==> n.calls[i] != n.calls[j])
  }

  lemma PutListeners(n: Node, t: nat, u: Traversal, sent: seq<nat>, env: Env)
    requires t < |n.traversals| && Listeners(n) && SameLookup(n.traversals[t], u) && InPool(u, sent)
    ensures Listeners(Put(n, t, u, sent, env)) && Listeners(Put(Register(n, t), t, u, sent, env))
  {
    SameListeners(n, Put(n, t, u, sent, env));
    SameListeners(n, Put(Register(n, t), t, u, sent, env));
  }

  lemma SameListeners(n: Node, m: Node)
    requires Listeners(n) && |m.traversals| == |n.traversals| && m.direct == n.direct && m.calls == n.calls
    requires forall t {:trigger m.traversals[t]} :: 0 <= t < |n.traversals| ==>
             SameLookup(n.traversals[t], m.traversals[t])
    ensures Listeners(m)
  {
    forall t | 0 <= t < |m.traversals|
      ensures ListenerOk(m, t)
    {
      assert ListenerOk(n, t) && SameLookup(n.traversals[t], m.traversals[t]);
    }
    forall l | l in m.direct
      ensures DirectOk(m, l)
    {
      assert DirectOk(n, l);
      assert SameLookup(n.traversals[l], m.traversals[l])
        && SameLookup(n.traversals[n.direct[l]], m.traversals[n.direct[l]]);
    }
  }

  lemma PushListeners(n: Node, u: Traversal)
    requires Listeners(n) && !IsSearch(u.kind) && (IsFind(u.kind) ==> u.listener == Some(|n.traversals|))
    ensures Listeners(Push(n, u))
  {
    var m := Push(n, u);
    forall t | 0 <= t < |m.traversals|
      ensures ListenerOk(m, t)
    {
      if t < |n.traversals| {
        assert ListenerOk(n, t);
      }
    }
    forall l | l in m.direct
      ensures DirectOk(m, l)
    {
      assert DirectOk(n, l);
    }
  }

  lemma FinishListeners(n: Node, t: nat)
    requires Listeners(n) && t < |n.traversals| && !IsFind(n.traversals[t].kind) && n.traversals[t].completions == 0
    ensures Listeners(Finish(n, t))
  {
    var m := Finish(n, t);
    assert ListenerOk(n, t);
    if IsSearch(n.traversals[t].kind) {
      var l := n.traversals[t].listener.value;
      assert DirectOk(n, l) && l !in n.calls;
    }
    forall s | 0 <= s < |m.traversals|
      ensures ListenerOk(m, s)
    {
      assert ListenerOk(n, s);
    }
    forall l | l in m.direct
      ensures DirectOk(m, l)
    {
      assert DirectOk(n, l);
      assert IsFind(n.traversals[l].kind) ==> l != t;
    }
  }

  /** A find lookup is done and its search is created. */
  lemma HandOverListeners(n: Node, t: nat, d: Traversal)
    requires Listeners(n) && t < |n.traversals| && IsFind(n.traversals[t].kind) && n.traversals[t].completions == 0
    requires IsSearch(d.kind) && d.listener == n.traversals[t].listener && d.completions == 0
    ensures Listeners(Push(Finish(n, t), d).(direct := n.direct[t := |n.traversals|]))
  {
    var m := Push(Finish(n, t), d).(direct := n.direct[t := |n.traversals|]);
    assert ListenerOk(n, t) && t !in n.direct by {
      assert t in n.direct ==> DirectOk(n, t);
    }
    forall s | 0 <= s < |m.traversals|
      ensures ListenerOk(m, s)
    {
      if s < |n.traversals| {
        assert ListenerOk(n, s);
      }
    }
    forall l | l in m.direct
      ensures DirectOk(m, l)
    {
      if l != t {
        assert DirectOk(n, l);
        assert n.direct[l] != t;
      }
    }
  }

  // ---------------------------------------------------------------- steps

  ghost predicate Ok(n: Node, limbo: seq<Tx>, out: Option<Ref>, hot: int) {
    Core(n, limbo, out) && Life(n, hot) && Listeners(n)
  }

  lemma SendsRelaunch(n: Node, t: nat, u: Traversal, sent: seq<nat>)
    requires t < |n.traversals| && SameLookup(n.traversals[t], u) && Accounts(u) && Sends(n.traversals[t], u, sent)
             && InPool(u, sent)
    ensures Relaunched(n, t, u, sent, None)
  {
  }

  lemma LaunchedOk(n: Node, t: nat, env: Env, limbo: seq<Tx>)
    requires Has(n, t) && Ok(n, limbo, None, -1) && !n.traversals[t].started && KeyOf(n.traversals[t]) !in n.running
    ensures var m := Launched(n, t, env);
            && Ok(m, limbo, None, t) && (!Over(m, t) ==> Ok(m, limbo, None, -1))
               && (Over(m, t) ==> Converged(m.traversals[t]))
            && m.traversals[t].started && m.traversals[t].completions == 0
               && m.traversals[t].kind == n.traversals[t].kind
  {
    var r := Launch(n.traversals[t], env.routers(t), SendsOf(env, t));
    assert Accounts(n.traversals[t]);
    LaunchAccounts(n.traversals[t], env.routers(t), SendsOf(env, t));
    var m := Register(n, t);
    assert Core(m, limbo, None) by {
      RegisterCore(n, t, limbo);
    }
    SendsRelaunch(m, t, r.0, r.1);
    PutCore(m, t, r.0, r.1, env, limbo, None);
    PutListeners(n, t, r.0, r.1, env);
    LaunchedLife(n, t, env);
  }

  lemma RegisterCore(n: Node, t: nat, limbo: seq<Tx>)
    requires t < |n.traversals| && Core(n, limbo, None)
    ensures Core(Register(n, t), limbo, None)
  {
    var m := Register(n, t);
    TxsStay(n, m, n.txs);
    TxsStay(n, m, limbo);
    assert forall r :: Flying(m, r) == Flying(n, r);
  }

  lemma StartLastOk(n: Node, t: nat, env: Env, limbo: seq<Tx>)
    requires Has(n, t) && Ok(n, limbo, None, -1) && !n.traversals[t].started && !IsFind(n.traversals[t].kind)
    ensures Ok(StartLast(n, t, env), limbo, None, -1)
  {
    if KeyOf(n.traversals[t]) !in n.running {
      LaunchedOk(n, t, env, limbo);
      var m := Launched(n, t, env);
      if Over(m, t) {
        FinishCore(m, t, limbo);
        FinishLife(m, t);
        FinishListeners(m, t);
      }
    }
  }

  lemma {:induction false} SurvivorsUnqueried(u: Traversal, env: Env)
    requires Refs(u) && IsFind(u.kind)
    ensures var d := Direct(u, env);
            Accounts(d) && !d.started && d.completions == 0 && IsSearch(d.kind) && d.listener == u.listener
  {
    var d := NewTraversal(if u.kind == FindSources then SearchSources else SearchKeyword, u.target, u.listener,
                          env.bucketSize);
    if env.storage.Some? {
      SeedAccounts(d, Contact(u.target, env.storage.value, false));
      SeedsAccounts(Seed(d, Contact(u.target, env.storage.value, false)), Survivors(u, |u.results|));
    } else {
      SeedsAccounts(d, Survivors(u, |u.results|));
    }
  }

  lemma DoneOk(n: Node, t: nat, env: Env, limbo: seq<Tx>)
    requires Has(n, t) && Ok(n, limbo, None, t) && n.traversals[t].started && n.traversals[t].completions == 0
    requires Over(n, t) && Converged(n.traversals[t])
    ensures Ok(Done(n, t, env), limbo, None, -1)
  {
    var m := Finish(n, t);
    FinishCore(n, t, limbo);
    FinishLife(n, t);
    if IsFind(n.traversals[t].kind) {
      var d := Direct(n.traversals[t], env);
      SurvivorsUnqueried(n.traversals[t], env);
      HandOverListeners(n, t, d);
      PushCore(m, d, limbo);
      PushLife(m, d);
      var p := Push(m, d).(direct := m.direct[t := |m.traversals|]);
      SameButDirect(Push(m, d), p, limbo);
      StartLastOk(p, |m.traversals|, env, limbo);
    } else {
      FinishListeners(n, t);
    }
  }

  lemma SameButDirect(n: Node, m: Node, limbo: seq<Tx>)
    requires Core(n, limbo, None) && Life(n, -1) && m == n.(direct := m.direct)
    ensures Core(m, limbo, None) && Life(m, -1)
  {
    TxsStay(n, m, n.txs);
    TxsStay(n, m, limbo);
    assert forall r :: Flying(m, r) == Flying(n, r);
    forall t | 0 <= t < |m.traversals|
      ensures LifeOk(m, t, false)
    {
      assert LifeOk(n, t, false);
    }
  }

  lemma StartOk(n: Node, t: nat, env: Env, limbo: seq<Tx>)
    requires Has(n, t) && Ok(n, limbo, None, -1) && !n.traversals[t].started
    ensures Ok(Start(n, t, env), limbo, None, -1)
  {
    if KeyOf(n.traversals[t]) !in n.running {
      LaunchedOk(n, t, env, limbo);
      if Over(Launched(n, t, env), t) {
        DoneOk(Launched(n, t, env), t, env, limbo);
      }
    }
  }

  /** Something in flight means the lookup is started and not done. */
  lemma FlyingIsRunning(n: Node, r: Ref, hot: int)
    requires AllAccounts(n) && Life(n, hot) && Flying(n, r)
    ensures n.traversals[r.t].started && n.traversals[r.t].completions == 0 && n.traversals[r.t].invokeCount > 0
  {
    var u := n.traversals[r.t];
    assert Accounts(u) && LifeOk(n, r.t, r.t == hot);
    CountSet(u.pool, r.k, u.pool[r.k], false);
  }

  lemma ConclusionOk(n: Node, t: nat, k: nat, alive: bool, env: Env, limbo: seq<Tx>)
    requires Ok(n, limbo, Some(Ref(t, k)), -1)
    ensures Has(n, t) && k < |n.traversals[t].pool| && Ok(Conclusion(n, t, k, alive, env), limbo, None, -1)
  {
    var r := Ref(t, k);
    assert Waits(n.txs, r) + Waits(limbo, r) + 1 == if Flying(n, r) then 1 else 0;
    FlyingIsRunning(n, r, -1);
    var u := n.traversals[t];
    assert Accounts(u);
    ConcludeAccounts(u, k, alive);
    ConcludedAccounts(u, k, alive, SendsOf(env, t));
    var c := Concluded(u, k, alive, SendsOf(env, t));
    ConcludedRelaunch(n, t, k, alive, c.0, c.1);
    PutCore(n, t, c.0, c.1, env, limbo, Some(r));
    PutLife(n, t, c.0, c.1, env);
    PutListeners(n, t, c.0, c.1, env);
    var m := Put(n, t, c.0, c.1, env);
    if Over(m, t) {
      DoneOk(m, t, env, limbo);
    }
  }

  lemma ConcludedRelaunch(n: Node, t: nat, k: nat, alive: bool, u: Traversal, sent: seq<nat>)
    requires Has(n, t) && k < |n.traversals[t].pool| && InFlight(n.traversals[t], k)
    requires var c := Conclude(n.traversals[t], k, alive);
             forall m {:trigger InFlight(c, m)} :: InFlight(c, m) <==> InFlight(n.traversals[t], m) && m != k
    requires SameLookup(n.traversals[t], u) && Accounts(u) && InPool(u, sent)
             && Sends(Conclude(n.traversals[t], k, alive), u, sent)
    ensures Relaunched(n, t, u, sent, Some(Ref(t, k)))
  {
    var c := Conclude(n.traversals[t], k, alive);
    forall m
      ensures InFlight(u, m) <==> (InFlight(n.traversals[t], m) && Some(Ref(t, k)) != Some(Ref(t, m))) || m in sent
    {
      assert InFlight(c, m) <==> InFlight(n.traversals[t], m) && m != k;
    }
    forall m | m in sent
      ensures !InFlight(n.traversals[t], m) || m == k
    {
      assert !InFlight(c, m);
    }
  }

  // ---------------------------------------------------------------- events

  lemma {:induction false} MemberWaits(txs: seq<Tx>, i: nat, r: Ref)
    requires i < |txs| && txs[i].observer == Some(r)
    ensures Waits(txs, r) > 0
  {
    if i < |txs| - 1 {
      MemberWaits(txs[..|txs| - 1], i, r);
    }
  }

  lemma TxFlies(n: Node, limbo: seq<Tx>, i: nat)
    requires Ok(n, limbo, None, -1) && i < |n.txs| && n.txs[i].observer.Some?
    ensures Flying(n, n.txs[i].observer.value) && Known(n, n.txs[i].observer.value)
  {
    var r := n.txs[i].observer.value;
    MemberWaits(n.txs, i, r);
    assert Waits(n.txs, r) + Waits(limbo, r) == if Flying(n, r) then 1 else 0;
    assert Accounts(n.traversals[r.t]);
  }

  lemma OkKnows(n: Node)
    requires Ok(n, [], None, -1)
    ensures AllKnown(n)
  {
    forall tx | tx in n.txs && tx.observer.Some?
      ensures Known(n, tx.observer.value)
    {
      var i :| 0 <= i < |n.txs| && n.txs[i] == tx;
      TxFlies(n, [], i);
    }
  }

  /** A lookup changes without anything coming into flight or out of it. */
  lemma SetOk(n: Node, t: nat, u: Traversal, limbo: seq<Tx>, out: Option<Ref>)
    requires t < |n.traversals| && Ok(n, limbo, out, -1) && n.traversals[t].started && n.traversals[t].completions == 0
    requires SameLookup(n.traversals[t], u) && Accounts(u) && SameFlight(n.traversals[t], u) && u.started
             && u.invokeCount == n.traversals[t].invokeCount
    ensures Ok(SetTraversal(n, t, u), limbo, out, -1)
    ensures forall r {:trigger Flying(SetTraversal(n, t, u), r)} :: Flying(SetTraversal(n, t, u), r) <==> Flying(n, r)
  {
    var m := SetTraversal(n, t, u);
    TxsStay(n, m, n.txs);
    TxsStay(n, m, limbo);
    forall r: Ref
      ensures Flying(m, r) <==> Flying(n, r)
    {
      assert InFlight(u, r.k) <==> InFlight(n.traversals[t], r.k);
    }
    SameListeners(n, m);
    forall s | 0 <= s < |m.traversals|
      ensures LifeOk(m, s, false)
    {
      assert LifeOk(n, s, false);
    }
  }

  /** Taking a single-reply transaction off the list leaves its observer to be concluded. */
  lemma AnsweredOk(n: Node, i: nat)
    requires Ok(n, [], None, -1) && i < |n.txs| && !n.txs[i].multi
    ensures Ok(n.(txs := Answered(n.txs, i)), [], n.txs[i].observer, -1)
  {
    var m := n.(txs := Answered(n.txs, i));
    forall j | 0 <= j < |m.txs|
      ensures TxOk(m, m.txs[j])
    {
      assert TxOk(n, n.txs[if j < i then j else j + 1]);
    }
    forall r: Ref
      ensures Waits(m.txs, r) + Waits([], r) + (if n.txs[i].observer == Some(r) then 1 else 0) == if Flying(m, r) then 1
              else 0
    {
      AnsweredReleases(n.txs, i, r);
      assert Waits(n.txs, r) + Waits([], r) == if Flying(n, r) then 1 else 0;
    }
    SameListeners(n, m);
    forall s | 0 <= s < |m.traversals|
      ensures LifeOk(m, s, false)
    {
      assert LifeOk(n, s, false);
    }
  }

  lemma OffersOk(n: Node, t: nat, k: nat, contacts: seq<Contact>, env: Env)
    requires Ok(n, [], Some(Ref(t, k)), -1)
    ensures Has(n, t) && k < |n.traversals[t].pool|
    ensures var u := AddEntries(n.traversals[t], contacts);
            && k < |u.pool| && !u.pool[k].done
            && Ok(Conclusion(SetTraversal(n, t, u), t, k, true, env), [], None, -1)
  {
    var r := Ref(t, k);
    assert Waits(n.txs, r) + Waits([], r) + 1 == if Flying(n, r) then 1 else 0;
    FlyingIsRunning(n, r, -1);
    assert Accounts(n.traversals[t]);
    AddEntriesAccounts(n.traversals[t], contacts);
    var u := AddEntries(n.traversals[t], contacts);
    EntriesKeepCount(n.traversals[t], contacts);
    SetOk(n, t, u, [], Some(r));
    assert InFlight(u, k);
    ConclusionOk(SetTraversal(n, t, u), t, k, true, env, []);
  }

  lemma {:induction false} EntriesKeepCount(t: Traversal, cs: seq<Contact>)
    requires Refs(t)
    ensures AddEntries(t, cs).invokeCount == t.invokeCount
  {
    if |cs| > 0 {
      EntriesKeepCount(t, cs[..|cs| - 1]);
    }
  }

  lemma AnotherReplyOk(n: Node, i: nat)
    requires Ok(n, [], None, -1) && i < |n.txs| && n.txs[i].observer.Some?
    ensures var r := n.txs[i].observer.value;
            Known(n, r) && Ok(SetTraversal(n, r.t, Reply(n.traversals[r.t], r.k)), [], None, -1)
  {
    var r := n.txs[i].observer.value;
    TxFlies(n, [], i);
    FlyingIsRunning(n, r, -1);
    assert Accounts(n.traversals[r.t]);
    ReplyAccounts(n.traversals[r.t], r.k);
    SetOk(n, r.t, Reply(n.traversals[r.t], r.k), [], None);
  }

  lemma IncomingOk(n: Node, endpoint: nat, opcode: nat, target: Option<ID>, contacts: seq<Contact>, env: Env)
    requires Ok(n, [], None, -1) && AllKnown(n)
    ensures Ok(Incoming(n, endpoint, opcode, target, contacts, env), [], None, -1)
  {
    var i := Match(n.txs, endpoint, opcode, target);
    if i < |n.txs| {
      var tx := n.txs[i];
      assert TxOk(n, tx);
      if tx.observer.None? {
        UnobservedOk(n, i);
      } else if opcode == SEARCH_RES {
        assert tx.multi && n.(txs := Answered(n.txs, i)) == n;
        AnotherReplyOk(n, i);
      } else {
        var (t, k) := (tx.observer.value.t, tx.observer.value.k);
        var m := n.(txs := Answered(n.txs, i));
        TxFlies(n, [], i);
        AnsweredOk(n, i);
        if opcode == RES || opcode == BOOTSTRAP_RES {
          OffersOk(m, t, k, contacts, env);
        } else {
          assert opcode == FIREWALLED_RES;
          ConclusionOk(m, t, k, true, env, []);
        }
      }
    }
  }

  lemma UnobservedOk(n: Node, i: nat)
    requires Ok(n, [], None, -1) && i < |n.txs| && n.txs[i].observer.None?
    ensures Ok(n.(txs := Answered(n.txs, i)), [], None, -1)
  {
    if !n.txs[i].multi {
      AnsweredOk(n, i);
    } else {
      assert n.(txs := Answered(n.txs, i)) == n;
    }
  }

  lemma {:induction false} TickLists(txs: seq<Tx>, now: int, n: Node)
    requires TxsOk(n, txs)
    ensures TxsOk(n, Kept(txs, now)) && TxsOk(n, Expired(txs, now))
  {
    if |txs| > 0 {
      var m := |txs| - 1;
      TickLists(txs[..m], now, n);
      assert TxOk(n, txs[m]) && TxOk(n, Marked(txs[m], now));
    }
  }

  predicate AllFly(n: Node, txs: seq<Tx>) {
    forall i {:trigger txs[i]} :: 0 <= i < |txs| && txs[i].observer.Some? ==> Flying(n, txs[i].observer.value)
  }

  lemma {:induction false} ShortTimeoutsOk(n: Node, txs: seq<Tx>, limbo: seq<Tx>)
    requires Ok(n, limbo, None, -1)
    requires AllFly(n, txs)
    ensures Ok(ShortTimeouts(n, txs), limbo, None, -1)
    decreases |txs|
  {
    if |txs| > 0 {
      var m := ShortTimeoutOf(n, txs[0]);
      if txs[0].observer.Some? {
        var r := txs[0].observer.value;
        FlyingIsRunning(n, r, -1);
        assert Accounts(n.traversals[r.t]);
        ShortTimeoutAccounts(n.traversals[r.t], r.k);
        SetOk(n, r.t, ShortTimeout(n.traversals[r.t], r.k), limbo, None);
      }
      ShortTimeoutsOk(m, txs[1..], limbo);
    }
  }

  lemma WaitsFirst(txs: seq<Tx>, r: Ref)
    requires |txs| > 0
    ensures Waits(txs, r) == Waits(txs[1..], r) + if txs[0].observer == Some(r) then 1 else 0
  {
    assert txs == [txs[0]] + txs[1..];
    WaitsAppend([txs[0]], txs[1..], r);
    assert [txs[0]] == [] + [txs[0]];
    WaitsLast([], txs[0], r);
  }

  lemma LimboFirst(n: Node, txs: seq<Tx>)
    requires Ok(n, txs, None, -1) && |txs| > 0
    ensures Ok(n, txs[1..], txs[0].observer, -1)
    ensures txs[0].observer.Some? ==> Flying(n, txs[0].observer.value) && Known(n, txs[0].observer.value)
  {
    forall r: Ref
      ensures Waits(n.txs, r) + Waits(txs[1..], r) + (if txs[0].observer == Some(r) then 1 else 0) == if Flying(n, r)
              then 1 else 0
    {
      WaitsFirst(txs, r);
      assert Waits(n.txs, r) + Waits(txs, r) == if Flying(n, r) then 1 else 0;
    }
    if txs[0].observer.Some? {
      var r := txs[0].observer.value;
      assert Waits(n.txs, r) + Waits(txs[1..], r) + 1 == if Flying(n, r) then 1 else 0;
      assert Accounts(n.traversals[r.t]);
    }
    assert forall i :: 0 <= i < |txs[1..]| ==> txs[1..][i] == txs[i + 1];
  }

  lemma TimeoutOk(n: Node, txs: seq<Tx>, env: Env)
    requires Ok(n, txs, None, -1) && |txs| > 0
    ensures Ok(TimeoutOf(n, txs[0], env), txs[1..], None, -1)
  {
    LimboFirst(n, txs);
    if txs[0].observer.Some? {
      var r := txs[0].observer.value;
      var u := n.traversals[r.t];
      ConclusionOk(n, r.t, r.k, IsSearch(u.kind) && u.pool[r.k].responses > 0, env, txs[1..]);
    }
  }

  lemma {:induction false} TimeoutsOk(n: Node, txs: seq<Tx>, env: Env)
    requires Ok(n, txs, None, -1)
    ensures Ok(Timeouts(n, txs, env), [], None, -1)
    decreases |txs|
  {
    if |txs| > 0 {
      TimeoutOk(n, txs, env);
      TimeoutsOk(TimeoutOf(n, txs[0], env), txs[1..], env);
    } else {
      assert txs == [];
    }
  }

  lemma TickedOk(n: Node, now: int)
    requires Ok(n, [], None, -1)
    ensures Ok(n.(txs := Kept(n.txs, now)), Expired(n.txs, now), None, -1)
  {
    var m, e := n.(txs := Kept(n.txs, now)), Expired(n.txs, now);
    TickLists(n.txs, now, n);
    TxsStay(n, m, Kept(n.txs, now));
    TxsStay(n, m, e);
    forall r: Ref
      ensures Waits(m.txs, r) + Waits(e, r) == if Flying(m, r) then 1 else 0
    {
      TickPartitions(n.txs, now, r);
      assert Waits(n.txs, r) + Waits([], r) == if Flying(n, r) then 1 else 0;
    }
    SameListeners(n, m);
    forall s | 0 <= s < |m.traversals|
      ensures LifeOk(m, s, false)
    {
      assert LifeOk(n, s, false);
    }
  }

  lemma ShortTimedFly(n: Node, now: int)
    requires Ok(n, [], None, -1)
    ensures AllFly(n.(txs := Kept(n.txs, now)), ShortTimed(n.txs, now))
  {
    var m, short := n.(txs := Kept(n.txs, now)), ShortTimed(n.txs, now);
    forall i | 0 <= i < |short| && short[i].observer.Some?
      ensures Flying(m, short[i].observer.value)
    {
      ShortTimedAreWaiting(n.txs, now, short[i]);
      assert Waits(n.txs, short[i].observer.value) + Waits([], short[i].observer.value) ==
        if Flying(n, short[i].observer.value) then 1 else 0;
    }
  }

  lemma TickOk(n: Node, env: Env)
    requires Ok(n, [], None, -1)
    ensures Ok(Tick(n, env), [], None, -1)
  {
    var m, short, e := n.(txs := Kept(n.txs, env.now)), ShortTimed(n.txs, env.now), Expired(n.txs, env.now);
    TickedOk(n, env.now);
    ShortTimedFly(n, env.now);
    ShortTimeoutsOk(m, short, e);
    TimeoutsOk(ShortTimeouts(m, short), e, env);
  }

  lemma BeginOk(n: Node, kind: Kind, target: ID, contacts: seq<Contact>, env: Env)
    requires Ok(n, [], None, -1) && !IsSearch(kind)
    ensures Ok(Begin(n, kind, target, contacts, env), [], None, -1)
  {
    var t := |n.traversals|;
    var empty := NewTraversal(kind, target, if IsFind(kind) then Some(t) else None, env.bucketSize);
    var u := if kind == Bootstrap then AddEntries(empty, contacts) else Seeds(empty, contacts);
    if kind == Bootstrap {
      AddEntriesAccounts(empty, contacts);
    } else {
      SeedsAccounts(empty, contacts);
    }
    PushCore(n, u, []);
    PushLife(n, u);
    PushListeners(n, u);
    StartOk(Push(n, u), t, env, []);
  }

  lemma HelloOk(n: Node, endpoint: nat, opcode: nat, env: Env)
    requires Ok(n, [], None, -1)
    ensures Ok(Hello(n, endpoint, opcode, env), [], None, -1)
  {
    var m := Hello(n, endpoint, opcode, env);
    var tx := m.txs[|n.txs|];
    TxsStay(n, m, n.txs);
    forall r: Ref
      ensures Waits(m.txs, r) + Waits([], r) == if Flying(m, r) then 1 else 0
    {
      WaitsLast(n.txs, tx, r);
      assert Waits(n.txs, r) + Waits([], r) == if Flying(n, r) then 1 else 0;
    }
    SameListeners(n, m);
    forall s | 0 <= s < |m.traversals|
      ensures LifeOk(m, s, false)
    {
      assert LifeOk(n, s, false);
    }
  }

  lemma NextOk(n: Node, e: Event, env: Env)
    requires Ok(n, [], None, -1) && Enabled(n, e)
    ensures Ok(Next(n, e, env), [], None, -1)
  {
    match e
    case BeginLookup(kind, target, contacts) => BeginOk(n, kind, target, contacts, env);
    case Receive(endpoint, opcode, target, contacts) => IncomingOk(n, endpoint, opcode, target, contacts, env);
    case TimerTick => TickOk(n, env);
    case SendHello(peer, op) => HelloOk(n, peer, op, env);
  }

  // ---------------------------------------------------------------- whole runs

  lemma EveryReplyIsPossible(ns: seq<Node>, es: seq<Event>, envs: seq<Env>, i: nat, e: Event)
    requires Run(ns, es, envs) && i < |ns|
    ensures Enabled(ns[i], e) <==> !(e.BeginLookup? && IsSearch(e.kind))
  {
    RunOk(ns, es, envs, i);
    OkKnows(ns[i]);
  }

  const EMPTY: Node := Node([], [], map[], [], map[])

  /** A run from the empty node; every event but the beginning of a search is possible in every state. */
  ghost predicate Run(ns: seq<Node>, es: seq<Event>, envs: seq<Env>) {
    && |ns| == |es| + 1 && |envs| == |es| && ns[0] == EMPTY
    && forall i {:trigger es[i]} :: 0 <= i < |es| ==> Enabled(ns[i], es[i]) && ns[i + 1] == Next(ns[i], es[i], envs[i])
  }

  lemma {:induction false} RunOk(ns: seq<Node>, es: seq<Event>, envs: seq<Env>, i: nat)
    requires Run(ns, es, envs) && i < |ns|
    ensures Ok(ns[i], [], None, -1)
  {
    if i > 0 {
      RunOk(ns, es, envs, i - 1);
      var e := es[i - 1];
      NextOk(ns[i - 1], e, envs[i - 1]);
    }
  }

  /** Every sequence of events, but for searches begun from outside, is a run. */
  lemma {:induction false} EveryHistoryRuns(es: seq<Event>, envs: seq<Env>)
    requires |envs| == |es| && forall i :: 0 <= i < |es| ==> !(es[i].BeginLookup? && IsSearch(es[i].kind))
    ensures exists ns :: Run(ns, es, envs)
  {
    if |es| == 0 {
      assert Run([EMPTY], es, envs);
    } else {
      var n := |es| - 1;
      EveryHistoryRuns(es[..n], envs[..n]);
      var ns :| Run(ns, es[..n], envs[..n]);
      EveryReplyIsPossible(ns, es[..n], envs[..n], n, es[n]);
      RunContinues(ns, es, envs, n);
    }
  }

  lemma RunContinues(ns: seq<Node>, es: seq<Event>, envs: seq<Env>, n: nat)
    requires |es| == |envs| == n + 1 && Run(ns, es[..n], envs[..n]) && Enabled(ns[n], es[n])
    ensures Run(ns + [Next(ns[n], es[n], envs[n])], es, envs)
  {
    var ms := ns + [Next(ns[n], es[n], envs[n])];
    forall i | 0 <= i < |es|
      ensures Enabled(ms[i], es[i]) && ms[i + 1] == Next(ms[i], es[i], envs[i])
    {
      if i < n {
        assert es[..n][i] == es[i] && envs[..n][i] == envs[i];
      }
    }
  }

  /** Queries in flight: in every reachable state invokeCount counts them, each waits for exactly one pending
      transaction, branchFactor is 5 plus those timed out short, and at most five others are in flight. */
  lemma FlightIsAccounted(ns: seq<Node>, es: seq<Event>, envs: seq<Env>, i: nat, t: nat)
    requires Run(ns, es, envs) && i < |ns| && t < |ns[i].traversals|
    ensures var (n, u) := (ns[i], ns[i].traversals[t]);
            && u.invokeCount == Count(u.pool, false)
            && (u.started ==>
                  u.branchFactor == SEARCH_BRANCHING + Count(u.pool, true) && |Fresh(u.pool)| <= SEARCH_BRANCHING)
            && forall k: nat {:trigger Ref(t, k)} :: Waits(n.txs, Ref(t, k)) == if InFlight(u, k) then 1 else 0
  {
    RunOk(ns, es, envs, i);
    var n, u := ns[i], ns[i].traversals[t];
    assert Accounts(u);
    if u.started {
      AtMostFiveFresh(u);
    }
    forall k: nat
      ensures Waits(n.txs, Ref(t, k)) == if InFlight(u, k) then 1 else 0
    {
      assert Waits(n.txs, Ref(t, k)) + Waits([], Ref(t, k)) == if Flying(n, Ref(t, k)) then 1 else 0;
    }
  }

  /** A started lookup is the running one for its key exactly while something is in flight, which is exactly
      until done() has run; done() never runs twice, and no lookup runs without a pending transaction. */
  lemma RunsUntilDone(ns: seq<Node>, es: seq<Event>, envs: seq<Env>, i: nat, t: nat)
    requires Run(ns, es, envs) && i < |ns| && t < |ns[i].traversals|
    ensures var (n, u) := (ns[i], ns[i].traversals[t]);
            && (u.started ==> (u.invokeCount > 0 <==> KeyOf(u) in n.running && n.running[KeyOf(u)] == t))
            && (u.started ==> u.completions == if u.invokeCount > 0 then 0 else 1)
            && (!u.started ==> u.completions == 0 && u.invokeCount == 0)
            && (u.invokeCount > 0 ==> exists k ::
                0 <= k < |n.txs| && n.txs[k].observer.Some? && n.txs[k].observer.value.t == t)
  {
    RunOk(ns, es, envs, i);
    var n, u := ns[i], ns[i].traversals[t];
    assert Accounts(u) && LifeOk(n, t, false) && RunningOk(n);
    if !u.started {
      NoneQueried(u.pool, false);
    }
    if u.invokeCount > 0 {
      SomeInFlight(u.pool);
      var k :| 0 <= k < |u.pool| && u.pool[k].InFlight();
      assert Waits(n.txs, Ref(t, k)) + Waits([], Ref(t, k)) == if Flying(n, Ref(t, k)) then 1 else 0;
      WaitingMember(n.txs, Ref(t, k));
    }
  }

  lemma {:induction false} SomeInFlight(pool: seq<Observer>)
    requires Count(pool, false) > 0
    ensures exists k :: 0 <= k < |pool| && pool[k].InFlight()
  {
    var m := |pool| - 1;
    if !pool[m].InFlight() {
      SomeInFlight(pool[..m]);
    }
  }

  lemma {:induction false} WaitingMember(txs: seq<Tx>, r: Ref)
    requires Waits(txs, r) > 0
    ensures exists k :: 0 <= k < |txs| && txs[k].observer == Some(r)
  {
    var m := |txs| - 1;
    if txs[m].observer != Some(r) {
      WaitingMember(txs[..m], r);
    }
  }

  /** The listener of a find lookup is called at most once, and it is called exactly when the search that
      follows the lookup is done. */
  lemma ListenerCalledOnce(ns: seq<Node>, es: seq<Event>, envs: seq<Env>, i: nat, l: nat)
    requires Run(ns, es, envs) && i < |ns|
    ensures var n := ns[i];
            && (forall a, b :: 0 <= a < b < |n.calls| && n.calls[a] == l ==> n.calls[b] != l)
            && (l in n.calls <==> exists s :: 0 <= s < |n.traversals| && IsSearch(n.traversals[s].kind)
                                              && n.traversals[s].listener == Some(l)
                                                 && n.traversals[s].completions == 1)
  {
    RunOk(ns, es, envs, i);
    var n := ns[i];
    if l in n.calls {
      assert DirectOk(n, l) && LifeOk(n, n.direct[l], false);
    }
    if s :|
      0 <= s < |n.traversals| && IsSearch(n.traversals[s].kind) && n.traversals[s].listener == Some(l)
      && n.traversals[s].completions == 1 {
      assert ListenerOk(n, s) && DirectOk(n, l);
    }
  }

  /** The search that follows a find lookup asks every listed node that has not failed, and nobody else but
      the storage point. */
  lemma {:induction false} SurvivorsMeaning(u: Traversal, i: nat, c: Contact)
    requires Refs(u) && i <= |u.results|
    ensures c in Survivors(u, i) <==>
              exists j :: 0 <= j < i && !Listed(u, j).failed
                && c == Contact(Listed(u, j).id, Listed(u, j).endpoint, false)
  {
    if i > 0 {
      SurvivorsMeaning(u, i - 1, c);
    }
  }

  /** A lookup that is done has asked every node of some prefix of its results, and that prefix is the whole
      list or holds as many answers as the lookup wanted. */
  lemma DoneHasConverged(ns: seq<Node>, es: seq<Event>, envs: seq<Env>, i: nat, t: nat)
    requires Run(ns, es, envs) && i < |ns| && t < |ns[i].traversals| && ns[i].traversals[t].completions > 0
    ensures var u := ns[i].traversals[t];
            Refs(u) && exists n: nat ::
              n <= |u.results| && AllQueried(u, 0, n) && (n == |u.results| || Answers(u, 0, n) == u.numTargetNodes)
  {
    RunOk(ns, es, envs, i);
    assert LifeOk(ns[i], t, false);
    var u := ns[i].traversals[t];
    var n: nat :| SweptTo(u, 0, n, u.numTargetNodes);
  }

  // ---------------------------------------------------------------- nearest entries over whole runs

  /** The kinds of lookups that take entries from replies. */
  predicate Gathers(kind: Kind) { IsFind(kind) || kind == Refresh || kind == Bootstrap }

  ghost predicate AllNearest(n: Node) {
    forall t {:trigger n.traversals[t]} :: 0 <= t < |n.traversals| && Gathers(n.traversals[t].kind) ==>
      Nearest(n.traversals[t])
  }

  lemma LaunchedNear(n: Node, t: nat, env: Env)
    requires AllNearest(n) && Has(n, t) && Accounts(n.traversals[t]) && !n.traversals[t].started
    ensures AllNearest(Launched(n, t, env)) && Launched(n, t, env).traversals[t].kind == n.traversals[t].kind
  {
    LaunchAccounts(n.traversals[t], env.routers(t), SendsOf(env, t));
    if Gathers(n.traversals[t].kind) {
      LaunchNearest(n.traversals[t], env.routers(t), SendsOf(env, t));
    }
  }

  lemma FinishNear(n: Node, t: nat)
    requires AllNearest(n) && t < |n.traversals|
    ensures AllNearest(Finish(n, t))
  {
    var u := n.traversals[t];
    if Gathers(u.kind) {
      NearestKept(u, Finish(n, t).traversals[t]);
    }
  }

  lemma LastNear(n: Node, t: nat, env: Env)
    requires AllNearest(n) && Has(n, t) && Accounts(n.traversals[t]) && !n.traversals[t].started
    ensures AllNearest(StartLast(n, t, env))
  {
    if KeyOf(n.traversals[t]) !in n.running {
      LaunchedNear(n, t, env);
      FinishNear(Launched(n, t, env), t);
    }
  }

  lemma DoneNear(n: Node, t: nat, env: Env)
    requires AllNearest(n) && Has(n, t)
    ensures AllNearest(Done(n, t, env))
  {
    FinishNear(n, t);
    if IsFind(n.traversals[t].kind) {
      var m, d := Finish(n, t), Direct(n.traversals[t], env);
      SurvivorsUnqueried(n.traversals[t], env);
      LastNear(Push(m, d).(direct := m.direct[t := |m.traversals|]), |m.traversals|, env);
    }
  }

  lemma ConclusionNear(n: Node, t: nat, k: nat, alive: bool, env: Env)
    requires AllNearest(n) && Has(n, t) && k < |n.traversals[t].pool|
    requires Accounts(n.traversals[t]) && n.traversals[t].started && InFlight(n.traversals[t], k)
    ensures AllNearest(Conclusion(n, t, k, alive, env))
  {
    var r := Concluded(n.traversals[t], k, alive, SendsOf(env, t));
    ConcludedAccounts(n.traversals[t], k, alive, SendsOf(env, t));
    if Gathers(n.traversals[t].kind) {
      ConcludedNearest(n.traversals[t], k, alive, SendsOf(env, t));
    }
    DoneNear(Put(n, t, r.0, r.1, env), t, env);
  }

  lemma SetNear(n: Node, t: nat, u: Traversal)
    requires AllNearest(n) && t < |n.traversals| && (Gathers(u.kind) ==> Nearest(u))
    ensures AllNearest(SetTraversal(n, t, u))
  {
  }

  /** The lookup a pending transaction belongs to, once the transaction has been answered. */
  lemma AnsweredLookup(n: Node, i: nat)
    requires Ok(n, [], None, -1) && i < |n.txs| && n.txs[i].observer.Some?
    ensures var (r, m) := (n.txs[i].observer.value, n.(txs := Answered(n.txs, i)));
            && Has(m, r.t) && Accounts(m.traversals[r.t]) && m.traversals[r.t].started
               && InFlight(m.traversals[r.t], r.k)
            && n.txs[i].opcode == ReplyOp(m.traversals[r.t].kind)
  {
    assert TxOk(n, n.txs[i]);
    TxFlies(n, [], i);
    FlyingIsRunning(n, n.txs[i].observer.value, -1);
    assert Accounts(n.traversals[n.txs[i].observer.value.t]);
  }

  lemma ReplyNear(n: Node, t: nat, k: nat)
    requires AllNearest(n) && Has(n, t) && k < |n.traversals[t].pool| && IsSearch(n.traversals[t].kind)
    ensures AllNearest(SetTraversal(n, t, Reply(n.traversals[t], k)))
  {
  }

  lemma IncomingNear(n: Node, endpoint: nat, opcode: nat, target: Option<ID>, contacts: seq<Contact>, env: Env)
    requires Ok(n, [], None, -1) && AllKnown(n) && AllNearest(n)
    ensures AllNearest(Incoming(n, endpoint, opcode, target, contacts, env))
  {
    var i := Match(n.txs, endpoint, opcode, target);
    if i < |n.txs| && n.txs[i].observer.Some? {
      var (t, k) := (n.txs[i].observer.value.t, n.txs[i].observer.value.k);
      AnsweredLookup(n, i);
      var m := n.(txs := Answered(n.txs, i));
      assert AllNearest(m);
      if opcode == SEARCH_RES {
        ReplyNear(m, t, k);
      } else if opcode == FIREWALLED_RES {
        ConclusionNear(m, t, k, true, env);
      } else {
        OffersNear(m, t, k, contacts, env);
      }
    }
  }

  lemma OffersNear(n: Node, t: nat, k: nat, contacts: seq<Contact>, env: Env)
    requires AllNearest(n) && Has(n, t) && Gathers(n.traversals[t].kind)
    requires Accounts(n.traversals[t]) && n.traversals[t].started && InFlight(n.traversals[t], k)
    ensures var u := AddEntries(n.traversals[t], contacts);
            k < |u.pool| && AllNearest(SetTraversal(n, t, u))
              && AllNearest(Conclusion(SetTraversal(n, t, u), t, k, true, env))
  {
    var u := n.traversals[t];
    AddEntriesAccounts(u, contacts);
    EntriesNearest(u, contacts);
    SetNear(n, t, AddEntries(u, contacts));
    assert InFlight(AddEntries(u, contacts), k);
    ConclusionNear(SetTraversal(n, t, AddEntries(u, contacts)), t, k, true, env);
  }

  lemma {:induction false} ShortTimeoutsNear(n: Node, txs: seq<Tx>)
    requires AllNearest(n)
    ensures AllNearest(ShortTimeouts(n, txs))
    decreases |txs|
  {
    if |txs| > 0 {
      if txs[0].observer.Some? && Known(n, txs[0].observer.value) {
        var r := txs[0].observer.value;
        var u := n.traversals[r.t];
        if Gathers(u.kind) {
          NearestKept(u, ShortTimeout(u, r.k));
        }
        SetNear(n, r.t, ShortTimeout(u, r.k));
      }
      ShortTimeoutsNear(ShortTimeoutOf(n, txs[0]), txs[1..]);
    }
  }

  lemma {:induction false} TimeoutsNear(n: Node, txs: seq<Tx>, env: Env)
    requires Ok(n, txs, None, -1) && AllNearest(n)
    ensures AllNearest(Timeouts(n, txs, env))
    decreases |txs|
  {
    if |txs| > 0 {
      LimboFirst(n, txs);
      if txs[0].observer.Some? {
        var r := txs[0].observer.value;
        var u := n.traversals[r.t];
        FlyingIsRunning(n, r, -1);
        assert Accounts(u);
        ConclusionNear(n, r.t, r.k, IsSearch(u.kind) && u.pool[r.k].responses > 0, env);
      }
      TimeoutOk(n, txs, env);
      TimeoutsNear(TimeoutOf(n, txs[0], env), txs[1..], env);
    }
  }

  lemma TickNear(n: Node, env: Env)
    requires Ok(n, [], None, -1) && AllNearest(n)
    ensures AllNearest(Tick(n, env))
  {
    var m, short, e := n.(txs := Kept(n.txs, env.now)), ShortTimed(n.txs, env.now), Expired(n.txs, env.now);
    TickedOk(n, env.now);
    ShortTimedFly(n, env.now);
    ShortTimeoutsOk(m, short, e);
    ShortTimeoutsNear(m, short);
    TimeoutsNear(ShortTimeouts(m, short), e, env);
  }

  /** Seeds of a lookup that gathers entries come from FindClosest. */
  predicate Seeded(e: Event) {
    e.BeginLookup? && Gathers(e.kind) && e.kind != Bootstrap ==> SortedSeeds(e.contacts, e.target)
  }

  lemma BeginNear(n: Node, kind: Kind, target: ID, contacts: seq<Contact>, env: Env)
    requires AllNearest(n) && !IsSearch(kind) && (Gathers(kind) && kind != Bootstrap ==> SortedSeeds(contacts, target))
    ensures AllNearest(Begin(n, kind, target, contacts, env))
  {
    var t := |n.traversals|;
    var empty := NewTraversal(kind, target, if IsFind(kind) then Some(t) else None, env.bucketSize);
    var u := if kind == Bootstrap then AddEntries(empty, contacts) else Seeds(empty, contacts);
    if kind == Bootstrap {
      AddEntriesAccounts(empty, contacts);
      EntriesNearest(empty, contacts);
    } else {
      SeedsAccounts(empty, contacts);
      if Gathers(kind) {
        SeedsNearest(empty, contacts);
      }
    }
    StartNear(Push(n, u), t, env);
  }

  lemma StartNear(n: Node, t: nat, env: Env)
    requires AllNearest(n) && Has(n, t) && Accounts(n.traversals[t]) && !n.traversals[t].started
    ensures AllNearest(Start(n, t, env))
  {
    if KeyOf(n.traversals[t]) !in n.running {
      LaunchedNear(n, t, env);
      DoneNear(Launched(n, t, env), t, env);
    }
  }

  lemma {:induction false} RunNear(ns: seq<Node>, es: seq<Event>, envs: seq<Env>, i: nat)
    requires Run(ns, es, envs) && i < |ns| && forall j :: 0 <= j < |es| ==> Seeded(es[j])
    ensures AllNearest(ns[i])
  {
    if i > 0 {
      RunNear(ns, es, envs, i - 1);
      RunOk(ns, es, envs, i - 1);
      var n, e, env := ns[i - 1], es[i - 1], envs[i - 1];
      assert Enabled(n, e) && Seeded(e);
      match e
      case BeginLookup(kind, target, contacts) => BeginNear(n, kind, target, contacts, env);
      case Receive(endpoint, opcode, target, contacts) => IncomingNear(n, endpoint, opcode, target, contacts, env);
      case TimerTick => TickNear(n, env);
      case SendHello(_, _) =>
    }
  }

  /** In every reachable state the result list of a lookup that gathers entries is exactly the 100 nearest
      distinct identifiers offered to it so far, nearest first; and no identifier is queried twice. */
  lemma ResultsAreNearest(ns: seq<Node>, es: seq<Event>, envs: seq<Env>, i: nat, t: nat)
    requires Run(ns, es, envs) && i < |ns| && forall j :: 0 <= j < |es| ==> Seeded(es[j])
    requires t < |ns[i].traversals| && Gathers(ns[i].traversals[t].kind)
    ensures var u := ns[i].traversals[t];
            && Refs(u) && |u.results| <= MAX_RESULTS
            && (forall a, b :: 0 <= a < b < |u.results| ==>
                Dist(Listed(u, a).id, u.target) < Dist(Listed(u, b).id, u.target))
            && (forall a :: 0 <= a < |u.results| ==> Listed(u, a).id in u.offered)
            && (forall id :: id in u.offered ==>
                  || (exists a :: 0 <= a < |u.results| && Listed(u, a).id == id)
                  || (|u.results| == MAX_RESULTS && forall a :: 0 <= a < |u.results| ==>
                      Dist(Listed(u, a).id, u.target) < Dist(id, u.target)))
            && (forall a, b :: 0 <= a < b < |u.asked| ==>
                  u.asked[a] < |u.pool| && u.asked[b] < |u.pool| && u.pool[u.asked[a]].id != u.pool[u.asked[b]].id)
  {
    RunNear(ns, es, envs, i);
    RunOk(ns, es, envs, i);
    var u := ns[i].traversals[t];
    assert Nearest(u) && Accounts(u);
    NearestMeaning(u);
    forall a, b | 0 <= a < b < |u.asked|
      ensures u.asked[a] < |u.pool| && u.asked[b] < |u.pool| && u.pool[u.asked[a]].id != u.pool[u.asked[b]].id
    {
      assert u.asked[a] != u.asked[b];
    }
  }

  lemma NearestMeaning(u: Traversal)
    requires Nearest(u)
    ensures forall a, b :: 0 <= a < b < |u.results| ==>
            Dist(Listed(u, a).id, u.target) < Dist(Listed(u, b).id, u.target)
    ensures forall a :: 0 <= a < |u.results| ==> Listed(u, a).id in u.offered
    ensures forall id :: id in u.offered ==>
              || (exists a :: 0 <= a < |u.results| && Listed(u, a).id == id)
              || (|u.results| == MAX_RESULTS && forall a :: 0 <= a < |u.results| ==>
                  Dist(Listed(u, a).id, u.target) < Dist(id, u.target))
  {
    var ks := Keys(u);
    assert forall a :: 0 <= a < |u.results| ==> ks[a] == Dist(Listed(u, a).id, u.target);
    forall id | id in u.offered
      ensures || (exists a :: 0 <= a < |u.results| && Listed(u, a).id == id)
              || (|u.results| == MAX_RESULTS && forall a :: 0 <= a < |u.results| ==>
                  Dist(Listed(u, a).id, u.target) < Dist(id, u.target))
    {
      OfferedPlace(u, id);
    }
  }

  lemma OfferedPlace(u: Traversal, id: ID)
    requires Nearest(u) && id in u.offered
    ensures || (exists a :: 0 <= a < |u.results| && Listed(u, a).id == id)
            || (|u.results| == MAX_RESULTS && forall a :: 0 <= a < |u.results| ==> Keys(u)[a] < Dist(id, u.target))
  {
    var ks, x := Keys(u), Dist(id, u.target);
    assert x in Dists(u.offered, u.target);
    if x in ks {
      var a :| 0 <= a < |ks| && ks[a] == x;
      CompareIsDist(Listed(u, a).id, id, u.target);
    } else {
      assert Beyond(ks, x, MAX_RESULTS);
    }
  }
}
