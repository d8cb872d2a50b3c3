/** One iterative lookup: its observers, its sorted result list, and the queries it has in flight
    (kad_traversal.go). */
module KadTraversal {
  import opened Wrappers
  import opened KadId
  import opened Ordered

  const MAX_RESULTS: nat := 100
  const SEARCH_BRANCHING: nat := 5

  datatype Kind = Bootstrap | FindSources | SearchSources | FindKeywords | SearchKeyword | Refresh | Firewalled

  predicate IsSearch(kind: Kind) { kind == SearchSources || kind == SearchKeyword }

  predicate IsFind(kind: Kind) { kind == FindSources || kind == FindKeywords }

  /** A node offered to a lookup; `noId` says that its identifier was drawn at random because it had none. */
  datatype Contact = Contact(id: ID, endpoint: nat, noId: bool)

  datatype Observer = Observer(id: ID, endpoint: nat, noId: bool, queried: bool, short: bool, failed: bool, alive: bool,
                               done: bool, responses: nat) {
    /** A query has been sent and has neither been answered for good nor given up. */
    predicate InFlight() { queried && !failed && !done }
  }

  function NewObserver(c: Contact): Observer {
    Observer(c.id, c.endpoint, c.noId, false, false, false, false, false, 0)
  }

  /** `pool` holds every observer the lookup ever listed, `results` the positions of those listed now.
      `completions` counts the runs of done(), `offered` has the identifiers seen, `asked` the observers queried,
      in order: these three record history. */
  datatype Traversal = Traversal(kind: Kind, target: ID, listener: Option<nat>, pool: seq<Observer>, results: seq<nat>,
                                 invokeCount: nat, branchFactor: nat, numTargetNodes: nat, started: bool,
                                 completions: nat, offered: set<ID>, asked: seq<nat>)

  function NewTraversal(kind: Kind, target: ID, listener: Option<nat>, bucketSize: nat): Traversal {
    Traversal(kind, target, listener, [], [], 0, 0, if bucketSize > 0 then 2 * bucketSize else 20, false, 0, {}, [])
  }

  predicate InPoolAll(pool: seq<Observer>, results: seq<nat>) { forall i :: 0 <= i < |results| ==> results[i] < |pool| }

  predicate Refs(t: Traversal) { InPoolAll(t.pool, t.results) }

  function Listed(t: Traversal, i: nat): Observer
    requires Refs(t) && i < |t.results|
  {
    t.pool[t.results[i]]
  }

  // ---------------------------------------------------------------- entries

  /** Binary search for the first entry not nearer to the target than the identifier. */
  function Search(t: Traversal, id: ID, lo: nat, hi: nat): (pos: nat)
    requires Refs(t) && lo <= hi <= |t.results|
    ensures lo <= pos <= hi
    decreases hi - lo
  {
    if lo == hi then lo
    else
      var mid := (lo + hi) / 2;
      if Compare(Listed(t, mid).id, id, t.target) >= 0 then Search(t, id, lo, mid) else Search(t, id, mid + 1, hi)
  }

  /** addEntry: entries stay sorted, one per identifier, at most 100. An observer cut off at once is dropped. */
  function AddEntry(t: Traversal, c: Contact): (r: Traversal)
    requires Refs(t)
    ensures Refs(r)
  {
    var pos := Search(t, c.id, 0, |t.results|);
    var t1 := t.(offered := t.offered + {c.id});
    if pos < |t.results| && Listed(t, pos).id == c.id then t1
    else
      var results := Cut(t.results[..pos] + [|t.pool|] + t.results[pos..], MAX_RESULTS);
      t1.(results := results, pool := if pos < MAX_RESULTS then t.pool + [NewObserver(c)] else t.pool)
  }

  function AddEntries(t: Traversal, cs: seq<Contact>): (r: Traversal)
    requires Refs(t)
    ensures Refs(r)
  {
    if |cs| == 0 then t else AddEntry(AddEntries(t, cs[..|cs| - 1]), cs[|cs| - 1])
  }

  /** addNode: a seed goes behind the others, and all seeds count as wanted. */
  function Seed(t: Traversal, c: Contact): (r: Traversal)
    requires Refs(t)
    ensures Refs(r)
  {
    t.(results := t.results + [|t.pool|], pool := t.pool + [NewObserver(c)], numTargetNodes := |t.results| + 1,
       offered := t.offered + {c.id})
  }

  function Seeds(t: Traversal, cs: seq<Contact>): (r: Traversal)
    requires Refs(t)
    ensures Refs(r)
  {
    if |cs| == 0 then t else Seed(Seeds(t, cs[..|cs| - 1]), cs[|cs| - 1])
  }

  // ---------------------------------------------------------------- requests

  predicate InPool(t: Traversal, sent: seq<nat>) { InPoolAll(t.pool, sent) }

  /** Query observer k; `sent` tells whether the packet went out. */
  function Query(t: Traversal, k: nat, sent: bool): Traversal
    requires k < |t.pool|
  {
    t.(pool := t.pool[k := t.pool[k].(queried := true, failed := t.pool[k].failed || !sent)],
       invokeCount := if sent then t.invokeCount + 1 else t.invokeCount, asked := t.asked + [k])
  }

  /** addRequests from entry i on, while answers are wanted and the branching allows; `sends` tells for each
      observer whether its packet goes out. The second component lists the observers sent to. */
  function Requests(t: Traversal, sends: nat -> bool, i: nat, wanted: nat): (r: (Traversal, seq<nat>))
    requires Refs(t)
    ensures Refs(r.0) && |r.0.pool| == |t.pool| && InPool(r.0, r.1)
    decreases |t.results| - i
  {
    if i >= |t.results| || wanted == 0 || t.invokeCount >= t.branchFactor then (t, [])
    else
      var k := t.results[i];
      var left := if t.pool[k].alive then wanted - 1 else wanted;
      if t.pool[k].queried then Requests(t, sends, i + 1, left)
      else
        var r := Requests(Query(t, k, sends(k)), sends, i + 1, left);
        (r.0, if sends(k) then [k] + r.1 else r.1)
  }

  function AddRequests(t: Traversal, sends: nat -> bool): (r: (Traversal, seq<nat>))
    requires Refs(t)
    ensures Refs(r.0) && InPool(r.0, r.1)
  {
    Requests(t, sends, 0, t.numTargetNodes)
  }

  /** The first short timeout of an observer widens the search. */
  function ShortTimeout(t: Traversal, k: nat): (r: Traversal)
    requires Refs(t) && k < |t.pool|
    ensures Refs(r)
  {
    if t.pool[k].short then t
    else t.(pool := t.pool[k := t.pool[k].(short := true)], branchFactor := t.branchFactor + 1)
  }

  /** What failed and finished do before they ask for more. */
  function Conclude(t: Traversal, k: nat, alive: bool): (r: Traversal)
    requires Refs(t) && k < |t.pool|
    ensures Refs(r)
  {
    var o := t.pool[k];
    t.(pool := t.pool[k := o.(done := true, alive := o.alive || alive, failed := o.failed || !alive)],
       branchFactor := if o.short && t.branchFactor > 1 then t.branchFactor - 1 else t.branchFactor,
       invokeCount := if t.invokeCount > 0 then t.invokeCount - 1 else 0)
  }

  /** One more reply to a query that may have several. */
  function Reply(t: Traversal, k: nat): (r: Traversal)
    requires Refs(t) && k < |t.pool|
    ensures Refs(r)
  {
    t.(pool := t.pool[k := t.pool[k].(responses := t.pool[k].responses + 1)])
  }

  /** start, after the traversal has been registered. */
  function Launch(t: Traversal, routers: seq<Contact>, sends: nat -> bool): (r: (Traversal, seq<nat>))
    requires Refs(t)
    ensures Refs(r.0) && InPool(r.0, r.1)
  {
    var wanted := if t.kind == Refresh then 1 else if IsSearch(t.kind) then |t.results| else t.numTargetNodes;
    var t1 := t.(started := true, branchFactor := SEARCH_BRANCHING, numTargetNodes := wanted);
    AddRequests(if |t.results| == 0 then AddEntries(t1, routers) else t1, sends)
  }

  // ---------------------------------------------------------------- the accounts of a lookup

  predicate InFlight(t: Traversal, k: nat) { k < |t.pool| && t.pool[k].InFlight() }

  function Weight(o: Observer, shortOnly: bool): nat { if o.InFlight() && (shortOnly ==> o.short) then 1 else 0 }

  /** Observers in flight; with `shortOnly` those among them that have timed out short. */
  function Count(pool: seq<Observer>, shortOnly: bool): nat {
    if |pool| == 0 then 0 else Count(pool[..|pool| - 1], shortOnly) + Weight(pool[|pool| - 1], shortOnly)
  }

  lemma {:induction false} CountSet(pool: seq<Observer>, k: nat, o: Observer, shortOnly: bool)
    requires k < |pool|
    ensures Count(pool[k := o], shortOnly) == Count(pool, shortOnly) - Weight(pool[k], shortOnly) + Weight(o, shortOnly)
    ensures Count(pool, shortOnly) >= Weight(pool[k], shortOnly)
  {
    var n := |pool| - 1;
    if k < n {
      CountSet(pool[..n], k, o, shortOnly);
      assert pool[k := o][..n] == pool[..n][k := o];
    } else {
      assert pool[k := o][..n] == pool[..n];
    }
  }

  lemma CountPush(pool: seq<Observer>, o: Observer, shortOnly: bool)
    ensures Count(pool + [o], shortOnly) == Count(pool, shortOnly) + Weight(o, shortOnly)
  {
    assert (pool + [o])[..|pool|] == pool;
  }

  predicate FlagsOk(o: Observer) {
    && (o.short || o.failed || o.done || o.alive ==> o.queried)
    && (o.alive ==> o.done)
  }

  /** No observer is queried twice. */
  ghost predicate AskedOnce(t: Traversal) {
    && (forall i :: 0 <= i < |t.asked| ==> t.asked[i] < |t.pool| && t.pool[t.asked[i]].queried)
    && forall i, j :: 0 <= i < j < |t.asked| ==> t.asked[i] != t.asked[j]
  }

  /** invokeCount counts the observers in flight, and branchFactor is 5 plus those of them that have timed
      out short. */
  ghost predicate Accounts(t: Traversal) {
    && Refs(t)
    && (forall k {:trigger t.pool[k]} :: 0 <= k < |t.pool| ==>
        FlagsOk(t.pool[k]) && (!t.started ==> !t.pool[k].queried))
    && AskedOnce(t)
    && t.invokeCount == Count(t.pool, false)
    && (t.started ==> t.branchFactor == SEARCH_BRANCHING + Count(t.pool, true) && t.invokeCount <= t.branchFactor)
  }

  lemma {:induction false} NoneQueried(pool: seq<Observer>, shortOnly: bool)
    requires forall k :: 0 <= k < |pool| ==> !pool[k].queried
    ensures Count(pool, shortOnly) == 0
  {
    if |pool| > 0 {
      NoneQueried(pool[..|pool| - 1], shortOnly);
    }
  }

  /** At most five of the queries in flight have not timed out short. */
  lemma {:induction false} ShortOrFresh(pool: seq<Observer>)
    ensures Count(pool, false) == Count(pool, true) + |Fresh(pool)|
  {
    if |pool| > 0 {
      ShortOrFresh(pool[..|pool| - 1]);
    }
  }

  /** Positions of the observers in flight that have not timed out short. */
  function Fresh(pool: seq<Observer>): (r: seq<nat>)
    ensures forall k :: k in r <==> 0 <= k < |pool| && pool[k].InFlight() && !pool[k].short
    ensures forall i, j :: 0 <= i < j < |r| ==> r[i] < r[j]
  {
    if |pool| == 0 then []
    else
      var n := |pool| - 1;
      var before := Fresh(pool[..n]);
      assert forall i :: 0 <= i < |before| ==> before[i] in before;
      before + if pool[n].InFlight() && !pool[n].short then [n] else []
  }

  lemma AtMostFiveFresh(t: Traversal)
    requires Accounts(t) && t.started
    ensures |Fresh(t.pool)| <= SEARCH_BRANCHING
  {
    ShortOrFresh(t.pool);
  }

  // ---------------------------------------------------------------- what each operation keeps

  /** Same lookup, same history; entries and requests may have been added. */
  predicate SameLookup(t: Traversal, u: Traversal) {
    && u.kind == t.kind && u.target == t.target && u.listener == t.listener && u.completions == t.completions
    && |u.pool| >= |t.pool|
  }

  ghost predicate SameFlight(t: Traversal, u: Traversal) {
    forall k {:trigger InFlight(u, k)} :: InFlight(u, k) <==> InFlight(t, k)
  }

  lemma AddEntryAccounts(t: Traversal, c: Contact)
    requires Accounts(t)
    ensures Accounts(AddEntry(t, c)) && SameLookup(t, AddEntry(t, c)) && SameFlight(t, AddEntry(t, c))
    ensures AddEntry(t, c).started == t.started
  {
    CountPush(t.pool, NewObserver(c), false);
    CountPush(t.pool, NewObserver(c), true);
    PushFlight(t.pool, NewObserver(c));
  }

  lemma PushFlight(pool: seq<Observer>, o: Observer)
    ensures forall k {:trigger pool[k]} :: 0 <= k < |pool| ==> (pool + [o])[k] == pool[k]
  {
  }

  lemma {:induction false} AddEntriesAccounts(t: Traversal, cs: seq<Contact>)
    requires Accounts(t)
    ensures Accounts(AddEntries(t, cs)) && SameLookup(t, AddEntries(t, cs)) && SameFlight(t, AddEntries(t, cs))
    ensures AddEntries(t, cs).started == t.started
  {
    if |cs| > 0 {
      AddEntriesAccounts(t, cs[..|cs| - 1]);
      AddEntryAccounts(AddEntries(t, cs[..|cs| - 1]), cs[|cs| - 1]);
    }
  }

  lemma SeedAccounts(t: Traversal, c: Contact)
    requires Accounts(t)
    ensures Accounts(Seed(t, c)) && SameLookup(t, Seed(t, c)) && SameFlight(t, Seed(t, c))
            && Seed(t, c).started == t.started
  {
    CountPush(t.pool, NewObserver(c), false);
    CountPush(t.pool, NewObserver(c), true);
    PushFlight(t.pool, NewObserver(c));
  }

  lemma {:induction false} SeedsAccounts(t: Traversal, cs: seq<Contact>)
    requires Accounts(t)
    ensures Accounts(Seeds(t, cs)) && SameLookup(t, Seeds(t, cs)) && SameFlight(t, Seeds(t, cs))
            && Seeds(t, cs).started == t.started
  {
    if |cs| > 0 {
      SeedsAccounts(t, cs[..|cs| - 1]);
      SeedAccounts(Seeds(t, cs[..|cs| - 1]), cs[|cs| - 1]);
    }
  }

  /** One observer changes: what that does to the counts and to the flight of the others. */
  lemma OneChanged(t: Traversal, u: Traversal, k: nat, o: Observer)
    requires k < |t.pool| && u.pool == t.pool[k := o]
    ensures forall b :: Count(u.pool, b) == Count(t.pool, b) - Weight(t.pool[k], b) + Weight(o, b)
    ensures forall b :: Count(t.pool, b) >= Weight(t.pool[k], b)
    ensures forall m {:trigger InFlight(u, m)} :: InFlight(u, m) <==> if m == k then o.InFlight() else InFlight(t, m)
  {
    forall b
      ensures Count(u.pool, b) == Count(t.pool, b) - Weight(t.pool[k], b) + Weight(o, b)
              && Count(t.pool, b) >= Weight(t.pool[k], b)
    {
      CountSet(t.pool, k, o, b);
    }
  }

  lemma ShortTimeoutAccounts(t: Traversal, k: nat)
    requires Accounts(t) && t.started && InFlight(t, k)
    ensures Accounts(ShortTimeout(t, k)) && SameLookup(t, ShortTimeout(t, k)) && SameFlight(t, ShortTimeout(t, k))
    ensures ShortTimeout(t, k).started && ShortTimeout(t, k).invokeCount == t.invokeCount
  {
    OneChanged(t, t.(pool := t.pool[k := t.pool[k].(short := true)]), k, t.pool[k].(short := true));
  }

  lemma ReplyAccounts(t: Traversal, k: nat)
    requires Accounts(t) && k < |t.pool|
    ensures Accounts(Reply(t, k)) && SameLookup(t, Reply(t, k)) && SameFlight(t, Reply(t, k))
  {
    OneChanged(t, Reply(t, k), k, t.pool[k].(responses := t.pool[k].responses + 1));
  }

  /** Concluding an observer in flight takes it, and no other, out of flight. */
  lemma ConcludeAccounts(t: Traversal, k: nat, alive: bool)
    requires Accounts(t) && t.started && InFlight(t, k)
    ensures var u := Conclude(t, k, alive);
            && Accounts(u) && SameLookup(t, u) && u.started
            && forall m {:trigger InFlight(u, m)} :: InFlight(u, m) <==> InFlight(t, m) && m != k
  {
    var u := Conclude(t, k, alive);
    OneChanged(t, u, k, u.pool[k]);
  }

  // ---------------------------------------------------------------- asking for more

  /** Answers among the entries from i to n. */
  function Answers(t: Traversal, i: nat, n: nat): nat
    requires Refs(t) && n <= |t.results|
    decreases n - i
  {
    if i >= n then 0 else (if Listed(t, i).alive then 1 else 0) + Answers(t, i + 1, n)
  }

  predicate AllQueried(t: Traversal, i: nat, n: nat)
    requires Refs(t) && n <= |t.results|
  {
    forall j :: i <= j < n ==> Listed(t, j).queried
  }

  /** Entries i to n have all been queried; n is the end of the list or `wanted` of them have answered. */
  ghost predicate SweptTo(t: Traversal, i: nat, n: nat, wanted: nat)
    requires Refs(t)
  {
    i <= n <= |t.results| && AllQueried(t, i, n) && (n == |t.results| || Answers(t, i, n) == wanted)
  }

  ghost predicate Swept(t: Traversal, i: nat, wanted: nat)
    requires Refs(t)
  {
    exists n: nat :: SweptTo(t, i, n, wanted)
  }

  /** The lookup has found what it wanted among its nearest entries, or has asked every entry. */
  ghost predicate Converged(t: Traversal) { Refs(t) && Swept(t, 0, t.numTargetNodes) }

  /** u differs from t by queries only. */
  ghost predicate OnlyQueries(t: Traversal, u: Traversal) {
    && u == t.(pool := u.pool, invokeCount := u.invokeCount, asked := u.asked)
    && |u.pool| == |t.pool|
    && forall k {:trigger u.pool[k]} :: 0 <= k < |t.pool| ==> Asked(t.pool[k], u.pool[k])
  }

  predicate Asked(o: Observer, p: Observer) {
    p == o || (!o.queried && (p == o.(queried := true) || p == o.(queried := true, failed := true)))
  }

  /** `sent` lists the observers that came into flight, each once. */
  ghost predicate CameIntoFlight(t: Traversal, u: Traversal, sent: seq<nat>) {
    && (forall k {:trigger InFlight(u, k)} :: InFlight(u, k) <==> InFlight(t, k) || k in sent)
    && (forall k {:trigger k in sent} :: k in sent ==> k < |t.pool| && !t.pool[k].queried)
    && forall i, j :: 0 <= i < j < |sent| ==> sent[i] != sent[j]
  }

  lemma QueryAccounts(t: Traversal, k: nat, sent: bool)
    requires Accounts(t) && t.started && k < |t.pool| && !t.pool[k].queried && t.invokeCount < t.branchFactor
    ensures Accounts(Query(t, k, sent)) && OnlyQueries(t, Query(t, k, sent))
    ensures CameIntoFlight(t, Query(t, k, sent), if sent then [k] else [])
  {
    var u := Query(t, k, sent);
    OneChanged(t, u, k, u.pool[k]);
  }

  lemma QueriesCompose(t: Traversal, u: Traversal, v: Traversal, a: seq<nat>, b: seq<nat>)
    requires OnlyQueries(t, u) && OnlyQueries(u, v) && CameIntoFlight(t, u, a) && CameIntoFlight(u, v, b)
    ensures OnlyQueries(t, v) && CameIntoFlight(t, v, a + b)
  {
    forall k | 0 <= k < |t.pool|
      ensures Asked(t.pool[k], v.pool[k])
    {
      assert Asked(t.pool[k], u.pool[k]);
    }
    forall k | k in a
      ensures k !in b
    {
      assert InFlight(u, k);
    }
    forall k | k in b
      ensures k < |t.pool| && !t.pool[k].queried
    {
      assert Asked(t.pool[k], u.pool[k]);
    }
    forall k
      ensures InFlight(v, k) <==> InFlight(t, k) || k in a + b
    {
      assert InFlight(u, k) <==> InFlight(t, k) || k in a;
    }
    assert (forall i :: 0 <= i < |a| ==> a[i] in a) && forall i :: 0 <= i < |b| ==> b[i] in b;
  }

  lemma SweepStep(t: Traversal, v: Traversal, i: nat, wanted: nat)
    requires Refs(t) && Refs(v) && v.results == t.results && OnlyQueries(t, v) && i < |t.results| && wanted > 0
    requires v.pool[t.results[i]].queried
    requires Swept(v, i + 1, if t.pool[t.results[i]].alive then wanted - 1 else wanted)
    ensures Swept(v, i, wanted)
  {
    var k := t.results[i];
    var left := if t.pool[k].alive then wanted - 1 else wanted;
    var n: nat :| SweptTo(v, i + 1, n, left);
    assert Asked(t.pool[k], v.pool[k]);
    assert SweptTo(v, i, n, wanted);
  }

  lemma RequestStep(t: Traversal, q: Traversal, u: Traversal, i: nat, wanted: nat, first: seq<nat>, rest: seq<nat>)
    requires Refs(t) && Refs(u) && i < |t.results| && wanted > 0
    requires OnlyQueries(t, q) && CameIntoFlight(t, q, first) && t.results[i] < |q.pool| && q.pool[t.results[i]].queried
    requires OnlyQueries(q, u) && CameIntoFlight(q, u, rest)
    requires Swept(u, i + 1, if t.pool[t.results[i]].alive then wanted - 1 else wanted)
             || u.invokeCount >= u.branchFactor
    ensures OnlyQueries(t, u) && CameIntoFlight(t, u, first + rest)
    ensures Swept(u, i, wanted) || u.invokeCount >= u.branchFactor
  {
    QueriesCompose(t, q, u, first, rest);
    assert Asked(q.pool[t.results[i]], u.pool[t.results[i]]);
    if Swept(u, i + 1, if t.pool[t.results[i]].alive then wanted - 1 else wanted) {
      SweepStep(t, u, i, wanted);
    }
  }

  lemma {:induction false} RequestsAccounts(t: Traversal, sends: nat -> bool, i: nat, wanted: nat)
    requires Accounts(t) && t.started && i <= |t.results|
    ensures var (u, sent) := Requests(t, sends, i, wanted);
            && Accounts(u) && OnlyQueries(t, u) && CameIntoFlight(t, u, sent)
            && (Swept(u, i, wanted) || u.invokeCount >= u.branchFactor)
    decreases |t.results| - i
  {
    if i >= |t.results| || wanted == 0 || t.invokeCount >= t.branchFactor {
      assert i == |t.results| || wanted == 0 ==> SweptTo(t, i, i, wanted);
    } else {
      var k := t.results[i];
      var left := if t.pool[k].alive then wanted - 1 else wanted;
      if t.pool[k].queried {
        RequestsAccounts(t, sends, i + 1, left);
        var r := Requests(t, sends, i + 1, left);
        RequestStep(t, t, r.0, i, wanted, [], r.1);
        assert [] + r.1 == r.1;
      } else {
        QueryAccounts(t, k, sends(k));
        var q := Query(t, k, sends(k));
        RequestsAccounts(q, sends, i + 1, left);
        var r := Requests(q, sends, i + 1, left);
        RequestStep(t, q, r.0, i, wanted, if sends(k) then [k] else [], r.1);
        assert [] + r.1 == r.1;
      }
    }
  }

  /** A lookup with nothing in flight after asking for more has converged. */
  lemma AddRequestsConverge(t: Traversal, sends: nat -> bool)
    requires Accounts(t) && t.started
    ensures var (u, sent) := AddRequests(t, sends);
            && Accounts(u) && OnlyQueries(t, u) && CameIntoFlight(t, u, sent)
            && (u.invokeCount == 0 ==> Converged(u))
  {
    RequestsAccounts(t, sends, 0, t.numTargetNodes);
  }

  /** Exactly the observers sent to come into flight, each once. */
  ghost predicate Sends(t: Traversal, u: Traversal, sent: seq<nat>) {
    && (forall k {:trigger InFlight(u, k)} :: InFlight(u, k) <==> InFlight(t, k) || k in sent)
    && (forall k {:trigger k in sent} :: k in sent ==> !InFlight(t, k))
    && forall i, j :: 0 <= i < j < |sent| ==> sent[i] != sent[j]
  }

  lemma LaunchAccounts(t: Traversal, routers: seq<Contact>, sends: nat -> bool)
    requires Accounts(t) && !t.started
    ensures var (u, sent) := Launch(t, routers, sends);
            && Accounts(u) && SameLookup(t, u) && Sends(t, u, sent) && u.started
            && (u.invokeCount == 0 ==> Converged(u))
  {
    var wanted := if t.kind == Refresh then 1 else if IsSearch(t.kind) then |t.results| else t.numTargetNodes;
    var t1 := t.(started := true, branchFactor := SEARCH_BRANCHING, numTargetNodes := wanted);
    NoneQueried(t.pool, false);
    NoneQueried(t.pool, true);
    assert Accounts(t1) && SameFlight(t, t1);
    var t2 := if |t.results| == 0 then AddEntries(t1, routers) else t1;
    if |t.results| == 0 {
      AddEntriesAccounts(t1, routers);
    }
    SentFrom(t, t2, sends);
  }

  lemma SentFrom(t: Traversal, u: Traversal, sends: nat -> bool)
    requires Accounts(u) && u.started && SameFlight(t, u) && SameLookup(t, u)
    ensures var (v, sent) := AddRequests(u, sends);
            Accounts(v) && SameLookup(t, v) && Sends(t, v, sent) && v.started && (v.invokeCount == 0 ==> Converged(v))
  {
    AddRequestsConverge(u, sends);
    var (v, sent) := AddRequests(u, sends);
    forall k | k in sent
      ensures !InFlight(t, k)
    {
      assert !InFlight(u, k);
    }
    forall k
      ensures InFlight(v, k) <==> InFlight(t, k) || k in sent
    {
      assert InFlight(u, k) <==> InFlight(t, k);
    }
  }

  /** failed and finished: the observer is concluded and the lookup asks for more. */
  function Concluded(t: Traversal, k: nat, alive: bool, sends: nat -> bool): (r: (Traversal, seq<nat>))
    requires Refs(t) && k < |t.pool|
    ensures Refs(r.0) && InPool(r.0, r.1)
  {
    AddRequests(Conclude(t, k, alive), sends)
  }

  lemma ConcludedAccounts(t: Traversal, k: nat, alive: bool, sends: nat -> bool)
    requires Accounts(t) && t.started && InFlight(t, k)
    ensures var (u, sent) := Concluded(t, k, alive, sends);
            && Accounts(u) && SameLookup(t, u) && Sends(Conclude(t, k, alive), u, sent) && u.started
            && (u.invokeCount == 0 ==> Converged(u))
  {
    ConcludeAccounts(t, k, alive);
    SentFrom(Conclude(t, k, alive), Conclude(t, k, alive), sends);
  }

  // ---------------------------------------------------------------- the nearest entries

  function KeysOf(pool: seq<Observer>, results: seq<nat>, target: ID): (r: seq<nat>)
    requires InPoolAll(pool, results)
    ensures |r| == |results|
  {
    seq(|results|, i requires 0 <= i < |results| => Dist(pool[results[i]].id, target))
  }

  /** Distances of the entries, in order. */
  function Keys(t: Traversal): (r: seq<nat>)
    requires Refs(t)
    ensures |r| == |t.results|
  {
    KeysOf(t.pool, t.results, t.target)
  }

  function Dists(ids: set<ID>, target: ID): set<nat> { set id | id in ids :: Dist(id, target) }

  /** The entries are the (at most 100) nearest of all identifiers offered, nearest first, and every
      identifier has at most one observer. */
  ghost predicate Nearest(t: Traversal) {
    && Refs(t)
    && Smallest(Keys(t), Dists(t.offered, t.target), MAX_RESULTS)
    && (forall k {:trigger t.pool[k]} :: 0 <= k < |t.pool| ==> t.pool[k].id in t.offered)
    && forall k, m :: 0 <= k < m < |t.pool| ==> t.pool[k].id != t.pool[m].id
  }

  lemma {:induction false} SearchSplits(t: Traversal, id: ID, lo: nat, hi: nat)
    requires Refs(t) && lo <= hi <= |t.results| && Increasing(Keys(t))
    requires forall i :: 0 <= i < lo ==> Keys(t)[i] < Dist(id, t.target)
    requires forall i :: hi <= i < |t.results| ==> Keys(t)[i] >= Dist(id, t.target)
    ensures var pos := Search(t, id, lo, hi);
            && (forall i :: 0 <= i < pos ==> Keys(t)[i] < Dist(id, t.target))
            && (forall i :: pos <= i < |t.results| ==> Keys(t)[i] >= Dist(id, t.target))
    decreases hi - lo
  {
    if lo < hi {
      var mid := (lo + hi) / 2;
      MidDecides(t, id, mid);
      if Compare(Listed(t, mid).id, id, t.target) >= 0 {
        SearchSplits(t, id, lo, mid);
      } else {
        SearchSplits(t, id, mid + 1, hi);
      }
    }
  }

  lemma MidDecides(t: Traversal, id: ID, mid: nat)
    requires Refs(t) && mid < |t.results| && Increasing(Keys(t))
    ensures if Compare(Listed(t, mid).id, id, t.target) >= 0 then forall i :: mid <= i < |t.results| ==>
            Keys(t)[i] >= Dist(id, t.target)
            else forall i :: 0 <= i <= mid ==> Keys(t)[i] < Dist(id, t.target)
  {
    var ks := Keys(t);
    CompareIsDist(Listed(t, mid).id, id, t.target);
    assert forall i :: mid <= i < |ks| ==> ks[i] >= ks[mid];
    assert forall i :: 0 <= i <= mid ==> ks[i] <= ks[mid];
  }

  /** An identifier offered before changes nothing: not even one cut off earlier comes back. */
  lemma OfferedAgain(t: Traversal, c: Contact)
    requires Nearest(t) && c.id in t.offered
    ensures AddEntry(t, c) == t
  {
    var pos, ks, x := Search(t, c.id, 0, |t.results|), Keys(t), Dist(c.id, t.target);
    SearchSplits(t, c.id, 0, |t.results|);
    assert x in Dists(t.offered, t.target);
    OfferedBefore(ks, Dists(t.offered, t.target), MAX_RESULTS, pos, x);
    assert t.offered + {c.id} == t.offered;
    if pos < |ks| {
      CompareIsDist(Listed(t, pos).id, c.id, t.target);
    } else {
      assert Cut(t.results[..pos] + [|t.pool|] + t.results[pos..], MAX_RESULTS) == t.results;
    }
  }

  lemma NewSplits(t: Traversal, c: Contact)
    requires Nearest(t) && c.id !in t.offered
    ensures Splits(Keys(t), Search(t, c.id, 0, |t.results|), Dist(c.id, t.target))
    ensures forall i :: 0 <= i < |t.results| ==> Listed(t, i).id != c.id
  {
    var ks := Keys(t);
    SearchSplits(t, c.id, 0, |t.results|);
    forall i | 0 <= i < |ks|
      ensures ks[i] != Dist(c.id, t.target) && Listed(t, i).id != c.id
    {
      assert t.pool[t.results[i]].id in t.offered;
      CompareIsDist(Listed(t, i).id, c.id, t.target);
    }
  }

  lemma DistsAdd(ids: set<ID>, id: ID, target: ID)
    ensures Dists(ids + {id}, target) == Dists(ids, target) + {Dist(id, target)}
  {
  }

  lemma OfferedFirst(t: Traversal, c: Contact)
    requires Nearest(t) && c.id !in t.offered
    ensures Nearest(AddEntry(t, c))
  {
    var pos, u := Search(t, c.id, 0, |t.results|), AddEntry(t, c);
    NewSplits(t, c);
    OfferedNew(Keys(t), Dists(t.offered, t.target), MAX_RESULTS, pos, Dist(c.id, t.target));
    DistsAdd(t.offered, c.id, t.target);
    KeysAfterInsert(t, c, pos);
    assert u.offered == t.offered + {c.id} && u.target == t.target;
    assert u.pool == t.pool || u.pool == t.pool + [NewObserver(c)];
  }

  lemma KeysPush(pool: seq<Observer>, results: seq<nat>, o: Observer, target: ID)
    requires InPoolAll(pool, results)
    ensures KeysOf(pool + [o], results, target) == KeysOf(pool, results, target)
  {
  }

  /** Inserting an entry and cutting the list do the same to the keys. */
  lemma KeysInsert(pool: seq<Observer>, results: seq<nat>, k: nat, pos: nat, target: ID)
    requires InPoolAll(pool, results) && pos <= |results| && k < |pool|
    ensures InPoolAll(pool, results[..pos] + [k] + results[pos..])
    ensures KeysOf(pool, results[..pos] + [k] + results[pos..], target) ==
            Splice(KeysOf(pool, results, target), pos, Dist(pool[k].id, target))
  {
  }

  lemma KeysCut(pool: seq<Observer>, results: seq<nat>, cap: nat, target: ID)
    requires InPoolAll(pool, results)
    ensures InPoolAll(pool, Cut(results, cap))
            && KeysOf(pool, Cut(results, cap), target) == Cut(KeysOf(pool, results, target), cap)
  {
  }

  lemma CutOffAtOnce<T>(s: seq<T>, x: T)
    requires |s| == MAX_RESULTS
    ensures Cut(s[..|s|] + [x] + s[|s|..], MAX_RESULTS) == s
  {
  }

  lemma KeysAfterCut(t: Traversal, c: Contact)
    requires Refs(t) && |t.results| == MAX_RESULTS == Search(t, c.id, 0, |t.results|)
    ensures Keys(AddEntry(t, c)) == Cut(Splice(Keys(t), MAX_RESULTS, Dist(c.id, t.target)), MAX_RESULTS)
  {
    CutOffAtOnce(t.results, |t.pool|);
    CutOffAtOnce(Keys(t), Dist(c.id, t.target));
  }

  lemma KeysAfterKeep(t: Traversal, c: Contact, pos: nat)
    requires Refs(t) && pos == Search(t, c.id, 0, |t.results|) && pos < MAX_RESULTS
    requires pos < |t.results| ==> Listed(t, pos).id != c.id
    ensures Keys(AddEntry(t, c)) == Cut(Splice(Keys(t), pos, Dist(c.id, t.target)), MAX_RESULTS)
  {
    var pool := t.pool + [NewObserver(c)];
    KeysPush(t.pool, t.results, NewObserver(c), t.target);
    KeysInsert(pool, t.results, |t.pool|, pos, t.target);
    KeysCut(pool, t.results[..pos] + [|t.pool|] + t.results[pos..], MAX_RESULTS, t.target);
  }

  lemma KeysAfterInsert(t: Traversal, c: Contact, pos: nat)
    requires Refs(t) && pos == Search(t, c.id, 0, |t.results|) && |t.results| <= MAX_RESULTS
    requires pos < |t.results| ==> Listed(t, pos).id != c.id
    ensures Keys(AddEntry(t, c)) == Cut(Splice(Keys(t), pos, Dist(c.id, t.target)), MAX_RESULTS)
  {
    if pos == MAX_RESULTS {
      KeysAfterCut(t, c);
    } else {
      KeysAfterKeep(t, c, pos);
    }
  }

  function Ids(cs: seq<Contact>): set<ID> { set c | c in cs :: c.id }

  lemma IdsAppend(cs: seq<Contact>, c: Contact)
    ensures Ids(cs + [c]) == Ids(cs) + {c.id}
  {
    assert forall x :: x in cs + [c] <==> x in cs || x == c;
  }

  lemma EntryNearest(t: Traversal, c: Contact)
    requires Nearest(t)
    ensures Nearest(AddEntry(t, c)) && AddEntry(t, c).offered == t.offered + {c.id}
  {
    if c.id in t.offered {
      OfferedAgain(t, c);
    } else {
      OfferedFirst(t, c);
    }
  }

  lemma {:induction false} EntriesNearest(t: Traversal, cs: seq<Contact>)
    requires Nearest(t)
    ensures Nearest(AddEntries(t, cs))
    ensures AddEntries(t, cs).offered == t.offered + Ids(cs)
  {
    if |cs| > 0 {
      var n := |cs| - 1;
      EntriesNearest(t, cs[..n]);
      IdsAppend(cs[..n], cs[n]);
      assert cs == cs[..n] + [cs[n]];
      EntryNearest(AddEntries(t, cs[..n]), cs[n]);
    }
  }

  /** Seeds as FindClosest returns them: nearest first, no identifier twice, not more than fit. */
  predicate SortedSeeds(cs: seq<Contact>, target: ID) {
    |cs| <= MAX_RESULTS && forall i, j :: 0 <= i < j < |cs| ==> Dist(cs[i].id, target) < Dist(cs[j].id, target)
  }

  lemma {:induction false} SeedsOffered(t: Traversal, cs: seq<Contact>)
    requires t.pool == [] && t.results == [] && t.offered == {}
    ensures Seeds(t, cs).offered == Ids(cs)
  {
    if |cs| > 0 {
      var n := |cs| - 1;
      SeedsOffered(t, cs[..n]);
      IdsAppend(cs[..n], cs[n]);
      assert cs == cs[..n] + [cs[n]];
    }
  }

  lemma {:induction false} SeedsShape(t: Traversal, cs: seq<Contact>)
    requires t.pool == [] && t.results == []
    ensures var u := Seeds(t, cs);
            && u.target == t.target && |u.pool| == |u.results| == |cs|
            && forall i :: 0 <= i < |cs| ==> u.results[i] == i && u.pool[i] == NewObserver(cs[i])
  {
    if |cs| > 0 {
      var n := |cs| - 1;
      SeedsShape(t, cs[..n]);
      assert forall i :: 0 <= i < n ==> cs[..n][i] == cs[i];
    }
  }

  lemma SeedKeys(t: Traversal, cs: seq<Contact>)
    requires t.pool == [] && t.results == [] && t.offered == {}
    ensures |Keys(Seeds(t, cs))| == |cs|
    ensures forall i :: 0 <= i < |cs| ==> Keys(Seeds(t, cs))[i] == Dist(cs[i].id, t.target)
  {
    SeedsShape(t, cs);
    var u := Seeds(t, cs);
    forall i | 0 <= i < |cs|
      ensures Keys(u)[i] == Dist(cs[i].id, t.target)
    {
      assert Listed(u, i) == NewObserver(cs[i]);
    }
  }

  lemma DistsListed(cs: seq<Contact>, target: ID, x: nat)
    requires x in Dists(Ids(cs), target)
    ensures exists i :: 0 <= i < |cs| && Dist(cs[i].id, target) == x
  {
    var id :| id in Ids(cs) && Dist(id, target) == x;
    var c :| c in cs && c.id == id;
    var i :| 0 <= i < |cs| && cs[i] == c;
  }

  lemma DistinctSeeds(cs: seq<Contact>, target: ID)
    requires SortedSeeds(cs, target)
    ensures forall i, j :: 0 <= i < j < |cs| ==> cs[i].id != cs[j].id
  {
    forall i, j | 0 <= i < j < |cs|
      ensures cs[i].id != cs[j].id
    {
      assert Dist(cs[i].id, target) < Dist(cs[j].id, target);
    }
  }

  lemma SeedsNearest(t: Traversal, cs: seq<Contact>)
    requires t.pool == [] && t.results == [] && t.offered == {} && SortedSeeds(cs, t.target)
    ensures Nearest(Seeds(t, cs))
  {
    SeedsShape(t, cs);
    SeedsOffered(t, cs);
    SeedKeys(t, cs);
    DistinctSeeds(cs, t.target);
    var u := Seeds(t, cs);
    var ks := Keys(u);
    forall x | x in Dists(u.offered, u.target)
      ensures x in ks
    {
      DistsListed(cs, t.target, x);
    }
    forall i | 0 <= i < |cs|
      ensures ks[i] in Dists(u.offered, u.target) && u.pool[i].id in u.offered
    {
      assert cs[i].id in Ids(cs);
    }
  }

  /** Queries and answers leave the entries alone. */
  lemma NearestKept(t: Traversal, u: Traversal)
    requires Nearest(t) && u.target == t.target && u.results == t.results && u.offered == t.offered
             && |u.pool| == |t.pool|
    requires forall k {:trigger u.pool[k]} :: 0 <= k < |t.pool| ==> u.pool[k].id == t.pool[k].id
    ensures Nearest(u)
  {
    assert Keys(u) == Keys(t);
  }

  lemma {:induction false} RequestsOnlyQuery(t: Traversal, sends: nat -> bool, i: nat, wanted: nat)
    requires Refs(t)
    ensures OnlyQueries(t, Requests(t, sends, i, wanted).0)
    decreases |t.results| - i
  {
    if !(i >= |t.results| || wanted == 0 || t.invokeCount >= t.branchFactor) {
      var k := t.results[i];
      var q := if t.pool[k].queried then t else Query(t, k, sends(k));
      RequestsOnlyQuery(q, sends, i + 1, if t.pool[k].alive then wanted - 1 else wanted);
      var u := Requests(t, sends, i, wanted).0;
      forall m | 0 <= m < |t.pool|
        ensures Asked(t.pool[m], u.pool[m])
      {
        assert Asked(q.pool[m], u.pool[m]);
      }
    }
  }

  lemma AddRequestsNearest(t: Traversal, sends: nat -> bool)
    requires Nearest(t)
    ensures Nearest(AddRequests(t, sends).0)
  {
    RequestsOnlyQuery(t, sends, 0, t.numTargetNodes);
    var u := AddRequests(t, sends).0;
    forall k | 0 <= k < |t.pool|
      ensures u.pool[k].id == t.pool[k].id
    {
      assert Asked(t.pool[k], u.pool[k]);
    }
    NearestKept(t, u);
  }

  lemma ConcludedNearest(t: Traversal, k: nat, alive: bool, sends: nat -> bool)
    requires Nearest(t) && k < |t.pool|
    ensures Nearest(Concluded(t, k, alive, sends).0)
  {
    NearestKept(t, Conclude(t, k, alive));
    AddRequestsNearest(Conclude(t, k, alive), sends);
  }

  lemma LaunchNearest(t: Traversal, routers: seq<Contact>, sends: nat -> bool)
    requires Nearest(t)
    ensures Nearest(Launch(t, routers, sends).0)
  {
    var wanted := if t.kind == Refresh then 1 else if IsSearch(t.kind) then |t.results| else t.numTargetNodes;
    var t1 := t.(started := true, branchFactor := SEARCH_BRANCHING, numTargetNodes := wanted);
    NearestKept(t, t1);
    if |t.results| == 0 {
      EntriesNearest(t1, routers);
    }
    AddRequestsNearest(if |t.results| == 0 then AddEntries(t1, routers) else t1, sends);
  }
}
