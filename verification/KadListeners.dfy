/** Which listeners of find lookups are lost: those whose following search could not be started (kad_traversal.go,
    kad_node.go). */
module KadListeners {
  import opened Wrappers
  import opened KadId
  import opened KadTraversal
  import opened Rpc = KadRpc
  import opened KadNode
  import opened KadNodeInv

  function SearchKind(kind: Kind): Kind { if kind == FindSources then SearchSources else SearchKeyword }

  // ---------------------------------------------------------------- at the end of a find lookup

  /** When a find lookup is done, the search that follows it is created with its listener, and started exactly when no
      search of the same kind and target is running. */
  lemma DoneHandsOver(n: Node, t: nat, env: Env)
    requires Has(n, t) && IsFind(n.traversals[t].kind)
    ensures var (m, d, u) := (Done(n, t, env), |n.traversals|, n.traversals[t]);
            && m.direct == n.direct[t := d] && |m.traversals| == d + 1
            && m.traversals[t] == u.(completions := u.completions + 1)
            && KeyOf(m.traversals[d]) == Key(SearchKind(u.kind), u.target) && m.traversals[d].listener == u.listener
            && (m.traversals[d].started <==> Key(SearchKind(u.kind), u.target) !in n.running)
  {
    var m, u := Finish(n, t), Direct(n.traversals[t], env);
    DirectShape(n.traversals[t], env);
    StartLastStarts(Push(m, u).(direct := m.direct[t := |m.traversals|]), |m.traversals|, env);
  }

  /** From n to m, the listeners that find lookups have handed over: each to a new search of its kind and target,
      started exactly when no such search was running before. */
  ghost predicate HandsOver(n: Node, m: Node) {
    forall l {:trigger m.direct[l]} :: l in m.direct && l !in n.direct ==>
      && l < |m.traversals| && IsFind(m.traversals[l].kind) && m.direct[l] < |m.traversals|
      && var (u, d) := (m.traversals[l], m.traversals[m.direct[l]]);
      KeyOf(d) == Key(SearchKind(u.kind), u.target) && d.listener == u.listener
        && (d.started <==> KeyOf(d) !in n.running)
  }

  lemma ConclusionHandsOver(n: Node, t: nat, k: nat, alive: bool, env: Env)
    requires Has(n, t) && k < |n.traversals[t].pool|
    ensures HandsOver(n, Conclusion(n, t, k, alive, env))
  {
    var r := Concluded(n.traversals[t], k, alive, SendsOf(env, t));
    var m := Put(n, t, r.0, r.1, env);
    if Over(m, t) && IsFind(m.traversals[t].kind) {
      DoneHandsOver(m, t, env);
    }
  }

  lemma IncomingHandsOver(n: Node, endpoint: nat, opcode: nat, target: Option<ID>, contacts: seq<Contact>, env: Env)
    requires AllKnown(n)
    ensures HandsOver(n, Incoming(n, endpoint, opcode, target, contacts, env))
  {
    var i := Match(n.txs, endpoint, opcode, target);
    if i < |n.txs| && n.txs[i].observer.Some? {
      assert n.txs[i] in n.txs;
      var (t, k) := (n.txs[i].observer.value.t, n.txs[i].observer.value.k);
      var m := n.(txs := Answered(n.txs, i));
      var u := AddEntries(m.traversals[t], contacts);
      if opcode == FIREWALLED_RES {
        ConclusionHandsOver(m, t, k, true, env);
      } else if opcode != SEARCH_RES && k < |u.pool| {
        ConclusionHandsOver(SetTraversal(m, t, u), t, k, true, env);
      }
    }
  }

  lemma BeginHandsOver(n: Node, kind: Kind, target: ID, contacts: seq<Contact>, env: Env)
    ensures HandsOver(n, Begin(n, kind, target, contacts, env))
  {
    var t := |n.traversals|;
    var empty := NewTraversal(kind, target, if IsFind(kind) then Some(t) else None, env.bucketSize);
    var u := if kind == Bootstrap then AddEntries(empty, contacts) else Seeds(empty, contacts);
    var p := Push(n, u);
    if KeyOf(u) !in p.running {
      LaunchKeeps(u, env.routers(t), SendsOf(env, t));
      var m := Launched(p, t, env);
      if Over(m, t) && IsFind(u.kind) {
        DoneHandsOver(m, t, env);
      }
    }
  }

  /** In a run, when a find lookup ends at once or by a reply, its listener goes to a new search for the same target,
      which is started exactly when none was running before. */
  lemma ListenerHandedOver(ns: seq<Node>, es: seq<Event>, envs: seq<Env>, i: nat, l: nat)
    requires Run(ns, es, envs) && i < |es| && (es[i].BeginLookup? || es[i].Receive?)
    requires l in ns[i + 1].direct && l !in ns[i].direct
    ensures var m := ns[i + 1];
            && l < |m.traversals| && IsFind(m.traversals[l].kind) && m.direct[l] < |m.traversals|
            && var (u, d) := (m.traversals[l], m.traversals[m.direct[l]]);
            && u.listener == d.listener == Some(l) && KeyOf(d) == Key(SearchKind(u.kind), u.target)
            && (d.started <==> KeyOf(d) !in ns[i].running)
  {
    RunOk(ns, es, envs, i);
    RunOk(ns, es, envs, i + 1);
    OkKnows(ns[i]);
    var n, e, env := ns[i], es[i], envs[i];
    match e
    case BeginLookup(kind, target, contacts) =>
      BeginHandsOver(n, kind, target, contacts, env);
      assert HandsOver(n, ns[i + 1]) && ListenerOk(ns[i + 1], l);
    case Receive(endpoint, opcode, target, contacts) =>
      IncomingHandsOver(n, endpoint, opcode, target, contacts, env);
      assert HandsOver(n, ns[i + 1]) && ListenerOk(ns[i + 1], l);
  }

  lemma DirectShape(u: Traversal, env: Env)
    requires Refs(u) && IsFind(u.kind)
    ensures KeyOf(Direct(u, env)) == Key(SearchKind(u.kind), u.target) && Direct(u, env).listener == u.listener
            && !Direct(u, env).started
  {
    var d := NewTraversal(SearchKind(u.kind), u.target, u.listener, env.bucketSize);
    SeedsKeep(d, Survivors(u, |u.results|));
    if env.storage.Some? {
      SeedsKeep(Seed(d, Contact(u.target, env.storage.value, false)), Survivors(u, |u.results|));
    }
  }

  lemma {:induction false} SeedsKeep(t: Traversal, cs: seq<Contact>)
    requires Refs(t)
    ensures KeyOf(Seeds(t, cs)) == KeyOf(t) && Seeds(t, cs).listener == t.listener && Seeds(t, cs).started == t.started
  {
    if |cs| > 0 {
      SeedsKeep(t, cs[..|cs| - 1]);
    }
  }

  lemma {:induction false} EntriesKeep(t: Traversal, cs: seq<Contact>)
    requires Refs(t)
    ensures KeyOf(AddEntries(t, cs)) == KeyOf(t) && AddEntries(t, cs).listener == t.listener
            && AddEntries(t, cs).started == t.started
  {
    if |cs| > 0 {
      EntriesKeep(t, cs[..|cs| - 1]);
    }
  }

  lemma {:induction false} RequestsKeep(t: Traversal, sends: nat -> bool, i: nat, wanted: nat)
    requires Refs(t)
    ensures var u := Requests(t, sends, i, wanted).0;
            KeyOf(u) == KeyOf(t) && u.listener == t.listener && u.started == t.started
    decreases |t.results| - i
  {
    if i < |t.results| && wanted > 0 && t.invokeCount < t.branchFactor {
      var k := t.results[i];
      var left := if t.pool[k].alive then wanted - 1 else wanted;
      RequestsKeep(t, sends, i + 1, left);
      RequestsKeep(Query(t, k, sends(k)), sends, i + 1, left);
    }
  }

  lemma LaunchKeeps(t: Traversal, routers: seq<Contact>, sends: nat -> bool)
    requires Refs(t)
    ensures var u := Launch(t, routers, sends).0; KeyOf(u) == KeyOf(t) && u.listener == t.listener && u.started
  {
    var wanted := if t.kind == Refresh then 1 else if IsSearch(t.kind) then |t.results| else t.numTargetNodes;
    var t1 := t.(started := true, branchFactor := SEARCH_BRANCHING, numTargetNodes := wanted);
    EntriesKeep(t1, routers);
    var t2 := if |t.results| == 0 then AddEntries(t1, routers) else t1;
    RequestsKeep(t2, sends, 0, t2.numTargetNodes);
  }

  lemma StartLastStarts(n: Node, t: nat, env: Env)
    requires Has(n, t) && !n.traversals[t].started
    ensures var (m, u) := (StartLast(n, t, env), n.traversals[t]);
            && |m.traversals| == |n.traversals| && m.direct == n.direct
            && KeyOf(m.traversals[t]) == KeyOf(u) && m.traversals[t].listener == u.listener
            && (m.traversals[t].started <==> KeyOf(u) !in n.running)
            && forall s :: 0 <= s < |n.traversals| && s != t ==> m.traversals[s] == n.traversals[s]
  {
    LaunchKeeps(n.traversals[t], env.routers(t), SendsOf(env, t));
  }

  // ---------------------------------------------------------------- what is not started then is never started

  /** Of the first b lookups none has been started between n and m, and they keep kind and listener. */
  ghost predicate Idle(n: Node, m: Node, b: nat) {
    && b <= |n.traversals| <= |m.traversals|
    && forall t {:trigger m.traversals[t]} :: 0 <= t < b ==>
         && (m.traversals[t].started ==> n.traversals[t].started)
         && m.traversals[t].kind == n.traversals[t].kind && m.traversals[t].listener == n.traversals[t].listener
  }

  lemma DoneIdle(n: Node, t: nat, env: Env)
    requires Has(n, t)
    ensures Idle(n, Done(n, t, env), |n.traversals|)
  {
    if IsFind(n.traversals[t].kind) {
      var m, u := Finish(n, t), Direct(n.traversals[t], env);
      DirectShape(n.traversals[t], env);
      StartLastStarts(Push(m, u).(direct := m.direct[t := |m.traversals|]), |m.traversals|, env);
    }
  }

  lemma ConclusionIdle(n: Node, t: nat, k: nat, alive: bool, env: Env)
    requires Has(n, t) && k < |n.traversals[t].pool|
    ensures Idle(n, Conclusion(n, t, k, alive, env), |n.traversals|)
  {
    var c := Conclude(n.traversals[t], k, alive);
    RequestsKeep(c, SendsOf(env, t), 0, c.numTargetNodes);
    var r := Concluded(n.traversals[t], k, alive, SendsOf(env, t));
    DoneIdle(Put(n, t, r.0, r.1, env), t, env);
  }

  lemma IdleThrough(n: Node, m: Node, o: Node)
    requires Idle(n, m, |n.traversals|) && Idle(m, o, |m.traversals|)
    ensures Idle(n, o, |n.traversals|)
  {
  }

  lemma OffersIdle(n: Node, t: nat, k: nat, contacts: seq<Contact>, env: Env)
    requires Has(n, t)
    ensures var m := SetTraversal(n, t, AddEntries(n.traversals[t], contacts));
            && Idle(n, m, |n.traversals|)
            && (k < |m.traversals[t].pool| ==> Idle(n, Conclusion(m, t, k, true, env), |n.traversals|))
  {
    EntriesKeep(n.traversals[t], contacts);
    var m := SetTraversal(n, t, AddEntries(n.traversals[t], contacts));
    assert Idle(n, m, |n.traversals|);
    if k < |m.traversals[t].pool| {
      ConclusionIdle(m, t, k, true, env);
      IdleThrough(n, m, Conclusion(m, t, k, true, env));
    }
  }

  lemma ReplyIdle(n: Node, t: nat, k: nat)
    requires Has(n, t) && k < |n.traversals[t].pool|
    ensures Idle(n, SetTraversal(n, t, Reply(n.traversals[t], k)), |n.traversals|)
  {
  }

  lemma IncomingIdle(n: Node, endpoint: nat, opcode: nat, target: Option<ID>, contacts: seq<Contact>, env: Env)
    requires AllKnown(n)
    ensures Idle(n, Incoming(n, endpoint, opcode, target, contacts, env), |n.traversals|)
  {
    var i := Match(n.txs, endpoint, opcode, target);
    if i < |n.txs| && n.txs[i].observer.Some? {
      assert n.txs[i] in n.txs;
      var (t, k) := (n.txs[i].observer.value.t, n.txs[i].observer.value.k);
      var m := n.(txs := Answered(n.txs, i));
      if opcode == SEARCH_RES {
        ReplyIdle(m, t, k);
      } else if opcode == FIREWALLED_RES {
        ConclusionIdle(m, t, k, true, env);
      } else {
        OffersIdle(m, t, k, contacts, env);
      }
    }
  }

  lemma {:induction false} ShortTimeoutsIdle(n: Node, txs: seq<Tx>)
    ensures Idle(n, ShortTimeouts(n, txs), |n.traversals|)
    decreases |txs|
  {
    if |txs| > 0 {
      ShortTimeoutsIdle(ShortTimeoutOf(n, txs[0]), txs[1..]);
    }
  }

  lemma {:induction false} TimeoutsIdle(n: Node, txs: seq<Tx>, env: Env)
    ensures Idle(n, Timeouts(n, txs, env), |n.traversals|)
    decreases |txs|
  {
    if |txs| > 0 {
      var m := TimeoutOf(n, txs[0], env);
      TimeoutIdle(n, txs[0], env);
      TimeoutsIdle(m, txs[1..], env);
    }
  }

  lemma TimeoutIdle(n: Node, tx: Tx, env: Env)
    ensures Idle(n, TimeoutOf(n, tx, env), |n.traversals|)
  {
    if tx.observer.Some? && Known(n, tx.observer.value) {
      var r := tx.observer.value;
      var u := n.traversals[r.t];
      if !u.pool[r.k].done {
        ConclusionIdle(n, r.t, r.k, IsSearch(u.kind) && u.pool[r.k].responses > 0, env);
      }
    }
  }

  lemma BeginIdle(n: Node, kind: Kind, target: ID, contacts: seq<Contact>, env: Env)
    ensures Idle(n, Begin(n, kind, target, contacts, env), |n.traversals|)
  {
    var t := |n.traversals|;
    var empty := NewTraversal(kind, target, if IsFind(kind) then Some(t) else None, env.bucketSize);
    var u := if kind == Bootstrap then AddEntries(empty, contacts) else Seeds(empty, contacts);
    var p := Push(n, u);
    if KeyOf(u) !in p.running {
      var m := Launched(p, t, env);
      assert Idle(n, m, t);
      if Over(m, t) {
        DoneIdle(m, t, env);
      }
    }
  }

  lemma NextIdle(n: Node, e: Event, env: Env)
    requires Enabled(n, e)
    ensures Idle(n, Next(n, e, env), |n.traversals|)
  {
    match e
    case BeginLookup(kind, target, contacts) => BeginIdle(n, kind, target, contacts, env);
    case Receive(endpoint, opcode, target, contacts) => IncomingIdle(n, endpoint, opcode, target, contacts, env);
    case TimerTick =>
      var m := n.(txs := Kept(n.txs, env.now));
      ShortTimeoutsIdle(m, ShortTimed(n.txs, env.now));
      TimeoutsIdle(ShortTimeouts(m, ShortTimed(n.txs, env.now)), Expired(n.txs, env.now), env);
    case SendHello(_, _) =>
  }

  lemma {:induction false} RunIdle(ns: seq<Node>, es: seq<Event>, envs: seq<Env>, i: nat, j: nat)
    requires Run(ns, es, envs) && i <= j < |ns|
    ensures Idle(ns[i], ns[j], |ns[i].traversals|)
    decreases j - i
  {
    if i < j {
      RunIdle(ns, es, envs, i, j - 1);
      var n, e, env := ns[j - 1], es[j - 1], envs[j - 1];
      assert Enabled(n, e);
      NextIdle(n, e, env);
    }
  }

  /** A listener whose search was not started when its lookup was done is never called, however the run goes on. */
  lemma LostForGood(ns: seq<Node>, es: seq<Event>, envs: seq<Env>, i: nat, j: nat, l: nat)
    requires Run(ns, es, envs) && i <= j < |ns| && l in ns[i].direct
    requires ns[i].direct[l] < |ns[i].traversals| && !ns[i].traversals[ns[i].direct[l]].started
    ensures l !in ns[j].calls
  {
    var s := ns[i].direct[l];
    RunOk(ns, es, envs, i);
    RunOk(ns, es, envs, j);
    RunIdle(ns, es, envs, i, j);
    assert DirectOk(ns[i], l);
    var m := ns[j];
    assert !m.traversals[s].started && LifeOk(m, s, false);
    assert ListenerOk(m, s) && DirectOk(m, l);
  }

  // ---------------------------------------------------------------- a run that loses a listener

  /** No routers, every packet goes out, and there is a storage point. */
  ghost predicate Plain(env: Env, storage: nat) {
    && env.storage == Some(storage)
    && (forall t {:trigger env.routers(t)} :: env.routers(t) == [])
    && forall t, k {:trigger env.sends(t, k)} :: env.sends(t, k)
  }

  lemma NothingToAsk(u: Traversal, sends: nat -> bool)
    requires u.results == [] && Refs(u)
    ensures Launch(u, [], sends).0.invokeCount == u.invokeCount && Launch(u, [], sends).0.results == []
  {
  }

  /** A search with one seed asks it. */
  lemma OneAsked(u: Traversal, c: Contact, sends: nat -> bool)
    requires u.results == [] && u.pool == [] && u.invokeCount == 0 && IsSearch(u.kind) && forall k :: sends(k)
    ensures Launch(Seed(u, c), [], sends).0.invokeCount == 1
  {
    var d := Seed(u, c);
    var t := d.(started := true, branchFactor := SEARCH_BRANCHING, numTargetNodes := 1);
    assert d.results == [0] && d.pool == [NewObserver(c)];
    var q := Query(t, 0, true);
    assert sends(0);
    assert Requests(q, sends, 1, 1) == (q, []);
    assert Requests(t, sends, 0, 1) == (q, [0] + []);
  }

  /** A find lookup without seeds is over at once; the search that follows it keeps running when it is started. */
  lemma SeedlessFind(n: Node, target: ID, env: Env, storage: nat)
    requires Plain(env, storage) && Key(FindSources, target) !in n.running
    ensures var (m, t) := (Begin(n, FindSources, target, [], env), |n.traversals|);
            && t in m.direct && m.direct[t] == t + 1 && |m.traversals| == t + 2
            && Key(FindSources, target) !in m.running && Key(SearchSources, target) in m.running
            && (m.traversals[t + 1].started <==> Key(SearchSources, target) !in n.running)
  {
    var t := |n.traversals|;
    var u := NewTraversal(FindSources, target, Some(t), env.bucketSize);
    var p := Push(n, u);
    NothingToAsk(u, SendsOf(env, t));
    LaunchKeeps(u, [], SendsOf(env, t));
    var m := Launched(p, t, env);
    assert Over(m, t);
    DoneHandsOver(m, t, env);
    SeedlessDone(m, t, env, storage);
  }

  lemma SeedlessDone(n: Node, t: nat, env: Env, storage: nat)
    requires Plain(env, storage) && Has(n, t) && n.traversals[t].kind == FindSources && n.traversals[t].results == []
    ensures var (m, u) := (Done(n, t, env), n.traversals[t]);
            Key(SearchSources, u.target) in m.running && KeyOf(u) !in m.running
  {
    var u := n.traversals[t];
    var d0 := NewTraversal(SearchSources, u.target, u.listener, env.bucketSize);
    var d := Direct(u, env);
    assert d == Seed(d0, Contact(u.target, storage, false));
    var f := Finish(n, t);
    var p, s := Push(f, d).(direct := f.direct[t := |f.traversals|]), |f.traversals|;
    OneAsked(d0, Contact(u.target, storage, false), SendsOf(env, s));
    LaunchKeeps(d, [], SendsOf(env, s));
  }

  lemma TwoFinds(target: ID, env: Env, storage: nat)
    requires Plain(env, storage)
    ensures var n1 := Begin(EMPTY, FindSources, target, [], env);
            var n2 := Begin(n1, FindSources, target, [], env);
            2 in n2.direct && n2.direct[2] == 3 && |n2.traversals| == 4 && !n2.traversals[3].started
  {
    SeedlessFind(EMPTY, target, env, storage);
    SeedlessFind(Begin(EMPTY, FindSources, target, [], env), target, env, storage);
  }

  lemma FirstSteps(ns: seq<Node>, es: seq<Event>, envs: seq<Env>, e: Event, env: Env)
    requires Run(ns, es, envs) && |es| >= 2 && es[0] == es[1] == e && envs[0] == envs[1] == env && e.BeginLookup?
    ensures ns[2] == Begin(Begin(EMPTY, e.kind, e.target, e.contacts, env), e.kind, e.target, e.contacts, env)
  {
  }

  lemma LostAfterTwo(target: ID, env: Env, storage: nat, ns: seq<Node>, es: seq<Event>, envs: seq<Env>, j: nat)
    requires Plain(env, storage) && Run(ns, es, envs) && |es| >= 2 && 2 <= j < |ns|
    requires es[0] == es[1] == BeginLookup(FindSources, target, []) && envs[0] == envs[1] == env
    ensures 2 in ns[2].direct && ns[2].direct[2] == 3 && |ns[2].traversals| == 4 && !ns[2].traversals[3].started
    ensures 2 !in ns[j].calls
  {
    FirstSteps(ns, es, envs, es[0], env);
    TwoFinds(target, env, storage);
    LostForGood(ns, es, envs, 2, j, 2);
  }

  /** A listener can be lost, and for good: two find lookups for the same target, begun one after the other without
      seeds. The search of the first is still running when the second is done, so that of the second is never started,
      and its listener is never called, whatever happens after. */
  lemma ListenerIsLost(target: ID, env: Env, storage: nat, es: seq<Event>, envs: seq<Env>)
    requires Plain(env, storage)
    requires |envs| == |es| && forall i :: 0 <= i < |es| ==> !(es[i].BeginLookup? && IsSearch(es[i].kind))
    ensures var e := BeginLookup(FindSources, target, []);
            exists ns: seq<Node> ::
              && Run(ns, [e, e] + es, [env, env] + envs)
              && 2 in ns[2].direct && ns[2].direct[2] == 3 && |ns[2].traversals| == 4 && !ns[2].traversals[3].started
              && forall j :: 2 <= j < |ns| ==> 2 !in ns[j].calls
  {
    var e := BeginLookup(FindSources, target, []);
    var es', envs' := [e, e] + es, [env, env] + envs;
    EveryHistoryRuns(es', envs');
    var ns: seq<Node> :| Run(ns, es', envs');
    forall j: nat | 2 <= j < |ns|
      ensures 2 in ns[2].direct && ns[2].direct[2] == 3 && |ns[2].traversals| == 4 && !ns[2].traversals[3].started
      ensures 2 !in ns[j].calls
    {
      LostAfterTwo(target, env, storage, ns, es', envs', j);
    }
    assert |ns| > 2;
  }
}
