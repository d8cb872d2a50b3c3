/** Pending RPC transactions: matching replies, short and final timeouts (kad_rpc.go). Times are milliseconds. */
module KadRpc {
  import opened Wrappers
  import opened KadId

  const SHORT_TIMEOUT: int := 2000
  const TIMEOUT: int := 12000

  /** Observer k of traversal t. */
  datatype Ref = Ref(t: nat, k: nat)

  datatype Tx = Tx(endpoint: nat, opcode: nat, target: Option<ID>, sent: int, multi: bool, shortTimed: bool,
                   observer: Option<Ref>)

  /** A reply without a target never answers a request for one; otherwise given targets must agree. */
  predicate AnsweredBy(tx: Tx, endpoint: nat, opcode: nat, target: Option<ID>) {
    tx.endpoint == endpoint && tx.opcode == opcode && (tx.target.None? || tx.target == target)
  }

  /** The first transaction a reply answers, or the number of transactions. */
  function Match(txs: seq<Tx>, endpoint: nat, opcode: nat, target: Option<ID>): (i: nat)
    ensures i <= |txs|
    ensures i < |txs| ==> AnsweredBy(txs[i], endpoint, opcode, target)
    ensures forall j :: 0 <= j < i ==> !AnsweredBy(txs[j], endpoint, opcode, target)
  {
    if |txs| == 0 || AnsweredBy(txs[0], endpoint, opcode, target) then 0
      else 1 + Match(txs[1..], endpoint, opcode, target)
  }

  /** What is left when transaction i has been answered: a multi-reply transaction stays. */
  function Answered(txs: seq<Tx>, i: nat): seq<Tx>
    requires i < |txs|
  {
    if txs[i].multi then txs else txs[..i] + txs[i + 1..]
  }

  predicate ShortDue(tx: Tx, now: int) { now - tx.sent >= SHORT_TIMEOUT }

  predicate Due(tx: Tx, now: int) { now - tx.sent >= TIMEOUT }

  function Marked(tx: Tx, now: int): Tx { tx.(shortTimed := tx.shortTimed || ShortDue(tx, now)) }

  function Kept(txs: seq<Tx>, now: int): seq<Tx> {
    if |txs| == 0 then []
    else Kept(txs[..|txs| - 1], now) + if Due(txs[|txs| - 1], now) then [] else [Marked(txs[|txs| - 1], now)]
  }

  function Expired(txs: seq<Tx>, now: int): seq<Tx> {
    if |txs| == 0 then []
    else Expired(txs[..|txs| - 1], now) + if Due(txs[|txs| - 1], now) then [Marked(txs[|txs| - 1], now)] else []
  }

  function ShortTimed(txs: seq<Tx>, now: int): seq<Tx> {
    if |txs| == 0 then []
    else
      var tx := txs[|txs| - 1];
      ShortTimed(txs[..|txs| - 1], now) + if !tx.shortTimed && ShortDue(tx, now) then [Marked(tx, now)] else []
  }

  // ---------------------------------------------------------------- what a tick does, and whom a reply answers

  lemma TickOne(tx: Tx, now: int)
    ensures Kept([tx], now) == if now - tx.sent < 12000 then [tx.(shortTimed := tx.shortTimed || now - tx.sent >= 2000)]
                               else []
    ensures Expired([tx], now) == if now - tx.sent >= 12000 then [tx.(shortTimed := true)] else []
    ensures ShortTimed([tx], now) == if !tx.shortTimed && now - tx.sent >= 2000 then [tx.(shortTimed := true)] else []
  {
    assert [tx][..0] == [];
  }

  /** A tick looks at each transaction on its own and keeps the order. */
  lemma {:induction false} TickByParts(a: seq<Tx>, b: seq<Tx>, now: int)
    ensures Kept(a + b, now) == Kept(a, now) + Kept(b, now)
    ensures Expired(a + b, now) == Expired(a, now) + Expired(b, now)
    ensures ShortTimed(a + b, now) == ShortTimed(a, now) + ShortTimed(b, now)
  {
    if |b| == 0 {
      assert a + b == a;
    } else {
      var n := |b| - 1;
      TickByParts(a, b[..n], now);
      assert a + b == (a + b[..n]) + [b[n]] && b == b[..n] + [b[n]];
      TickLast(a + b[..n], b[n], now);
      TickLast(b[..n], b[n], now);
      Regroup(Kept(a, now), Kept(b[..n], now), Kept([b[n]], now));
      Regroup(Expired(a, now), Expired(b[..n], now), Expired([b[n]], now));
      Regroup(ShortTimed(a, now), ShortTimed(b[..n], now), ShortTimed([b[n]], now));
    }
  }

  lemma Regroup(a: seq<Tx>, b: seq<Tx>, c: seq<Tx>)
    ensures (a + b) + c == a + (b + c)
  {
  }

  lemma TickLast(a: seq<Tx>, x: Tx, now: int)
    ensures Kept(a + [x], now) == Kept(a, now) + Kept([x], now)
    ensures Expired(a + [x], now) == Expired(a, now) + Expired([x], now)
    ensures ShortTimed(a + [x], now) == ShortTimed(a, now) + ShortTimed([x], now)
  {
    assert (a + [x])[..|a|] == a && [x][..0] == [];
  }

  /** Left are exactly the transactions sent less than twelve seconds ago, and marked exactly those sent two seconds ago
      or earlier, or marked before. */
  lemma {:induction false} LeftExactly(txs: seq<Tx>, now: int)
    ensures forall x ::
              x in Kept(txs, now) <==>
                exists tx ::
                  tx in txs && now - tx.sent < 12000 && x == tx.(shortTimed := tx.shortTimed || now - tx.sent >= 2000)
  {
    if |txs| > 0 {
      var n := |txs| - 1;
      LeftExactly(txs[..n], now);
      OneMore(txs);
    }
  }

  lemma {:induction false} ExpiredExactly(txs: seq<Tx>, now: int)
    ensures forall x ::
              x in Expired(txs, now) <==>
                exists tx ::
                  tx in txs && now - tx.sent >= 12000 && x == tx.(shortTimed := true)
  {
    if |txs| > 0 {
      var n := |txs| - 1;
      ExpiredExactly(txs[..n], now);
      OneMore(txs);
    }
  }

  lemma {:induction false} ShortTimedExactly(txs: seq<Tx>, now: int)
    ensures forall x ::
              x in ShortTimed(txs, now) <==>
                exists tx ::
                  tx in txs && !tx.shortTimed && now - tx.sent >= 2000 && x == tx.(shortTimed := true)
  {
    if |txs| > 0 {
      var n := |txs| - 1;
      ShortTimedExactly(txs[..n], now);
      OneMore(txs);
    }
  }

  lemma OneMore(txs: seq<Tx>)
    requires |txs| > 0
    ensures forall x :: x in txs <==> x in txs[..|txs| - 1] || x == txs[|txs| - 1]
  {
    assert txs == txs[..|txs| - 1] + [txs[|txs| - 1]];
  }

  /** The reply comes from where the query went, is of the expected kind, and names its target when it has one. */
  predicate Hits(tx: Tx, endpoint: nat, opcode: nat, target: Option<ID>) {
    tx.endpoint == endpoint && tx.opcode == opcode && (tx.target == None || target == Some(tx.target.value))
  }

  lemma FirstHit(txs: seq<Tx>, endpoint: nat, opcode: nat, target: Option<ID>)
    ensures var i := Match(txs, endpoint, opcode, target);
            && (i < |txs| ==> Hits(txs[i], endpoint, opcode, target))
            && forall j :: 0 <= j < i ==> !Hits(txs[j], endpoint, opcode, target)
  {
    var i := Match(txs, endpoint, opcode, target);
    forall j | 0 <= j < i
      ensures !Hits(txs[j], endpoint, opcode, target)
    {
      assert !AnsweredBy(txs[j], endpoint, opcode, target);
    }
  }

  class KadRpcManager {
    var transactions: seq<Tx>

    constructor ()
      ensures transactions == []
    {
      transactions := [];
    }

    method Invoke(tx: Tx, now: int)
      modifies this
      ensures transactions == old(transactions) + [tx.(sent := now)]
    {
      transactions := transactions + [tx.(sent := now)];
    }

    method Incoming(endpoint: nat, opcode: nat, target: Option<ID>) returns (tx: Option<Tx>)
      modifies this
      ensures var i := Match(old(transactions), endpoint, opcode, target);
              && (if i == |old(transactions)| then tx == None && transactions == old(transactions)
                  else tx == Some(old(transactions)[i]) && transactions == Answered(old(transactions), i))
              && (i < |old(transactions)| <==>
                  exists j :: 0 <= j < |old(transactions)| && Hits(old(transactions)[j], endpoint, opcode, target))
              && (i < |old(transactions)| ==>
                    && transactions == old(transactions)[..i] + (if tx.value.multi then [tx.value] else [])
                                       + old(transactions)[i + 1..]
                    && Hits(tx.value, endpoint, opcode, target)
                    && forall j :: 0 <= j < i ==> !Hits(old(transactions)[j], endpoint, opcode, target))
    {
      FirstHit(transactions, endpoint, opcode, target);
      for i := 0 to |transactions|
        invariant transactions == old(transactions)
        invariant forall j :: 0 <= j < i ==> !AnsweredBy(transactions[j], endpoint, opcode, target)
      {
        var candidate := transactions[i];
        if candidate.endpoint != endpoint || candidate.opcode != opcode {
          continue;
        }
        if candidate.target.Some? && target.Some? && candidate.target.value != target.value {
          continue;
        }
        if candidate.target.Some? && target.None? {
          continue;
        }
        if !candidate.multi {
          transactions := transactions[..i] + transactions[i + 1..];
        }
        return Some(candidate);
      }
      return None;
    }

    method Tick(now: int) returns (shortTimed: seq<Tx>, expired: seq<Tx>)
      modifies this
      ensures transactions == Kept(old(transactions), now)
      ensures shortTimed == ShortTimed(old(transactions), now)
      ensures expired == Expired(old(transactions), now)
      ensures forall x ::
                x in transactions <==>
                  exists tx ::
                    tx in old(transactions) && now - tx.sent < 12000
                      && x == tx.(shortTimed := tx.shortTimed || now - tx.sent >= 2000)
      ensures forall x ::
                x in expired <==>
                  exists tx ::
                    tx in old(transactions) && now - tx.sent >= 12000 && x == tx.(shortTimed := true)
      ensures forall x ::
                x in shortTimed <==>
                  exists tx ::
                    tx in old(transactions) && !tx.shortTimed && now - tx.sent >= 2000 && x == tx.(shortTimed := true)
    {
      LeftExactly(transactions, now);
      ExpiredExactly(transactions, now);
      ShortTimedExactly(transactions, now);
      shortTimed, expired := [], [];
      var dst := [];
      for i := 0 to |transactions|
        invariant transactions == old(transactions)
        invariant dst == Kept(transactions[..i], now)
        invariant shortTimed == ShortTimed(transactions[..i], now)
        invariant expired == Expired(transactions[..i], now)
      {
        assert transactions[..i + 1][..i] == transactions[..i];
        var tx := transactions[i];
        if !tx.shortTimed && now - tx.sent >= SHORT_TIMEOUT {
          tx := tx.(shortTimed := true);
          shortTimed := shortTimed + [tx];
        }
        if now - tx.sent >= TIMEOUT {
          expired := expired + [tx];
          continue;
        }
        dst := dst + [tx];
      }
      assert transactions[..|transactions|] == transactions;
      transactions := dst;
    }
  }

  // ---------------------------------------------------------------- who is waited for

  /** How many transactions an observer waits for. */
  function Waits(txs: seq<Tx>, r: Ref): nat {
    if |txs| == 0 then 0 else Waits(txs[..|txs| - 1], r) + if txs[|txs| - 1].observer == Some(r) then 1 else 0
  }

  lemma WaitsLast(txs: seq<Tx>, tx: Tx, r: Ref)
    ensures Waits(txs + [tx], r) == Waits(txs, r) + if tx.observer == Some(r) then 1 else 0
  {
    assert (txs + [tx])[..|txs|] == txs;
  }

  lemma {:induction false} WaitsAppend(a: seq<Tx>, b: seq<Tx>, r: Ref)
    ensures Waits(a + b, r) == Waits(a, r) + Waits(b, r)
  {
    if |b| == 0 {
      assert a + b == a;
    } else {
      var n := |b| - 1;
      WaitsAppend(a, b[..n], r);
      WaitsLast(a + b[..n], b[n], r);
      assert a + b == (a + b[..n]) + [b[n]];
    }
  }

  /** Answering a transaction releases exactly its observer. */
  lemma AnsweredReleases(txs: seq<Tx>, i: nat, r: Ref)
    requires i < |txs| && !txs[i].multi
    ensures Waits(txs, r) == Waits(Answered(txs, i), r) + if txs[i].observer == Some(r) then 1 else 0
  {
    var before, after := txs[..i], txs[i + 1..];
    assert txs == (before + [txs[i]]) + after;
    WaitsLast(before, txs[i], r);
    WaitsAppend(before + [txs[i]], after, r);
    WaitsAppend(before, after, r);
  }

  /** A tick loses no waiting observer: it is either still waited for or reported as expired. */
  lemma {:induction false} TickPartitions(txs: seq<Tx>, now: int, r: Ref)
    ensures Waits(Kept(txs, now), r) + Waits(Expired(txs, now), r) == Waits(txs, r)
  {
    if |txs| > 0 {
      var n := |txs| - 1;
      TickPartitions(txs[..n], now, r);
      WaitsLast(Kept(txs[..n], now), Marked(txs[n], now), r);
      WaitsLast(Expired(txs[..n], now), Marked(txs[n], now), r);
      assert Kept(txs[..n], now) + [] == Kept(txs[..n], now) && Expired(txs[..n], now) + [] == Expired(txs[..n], now);
    }
  }

  lemma {:induction false} ShortTimedAreWaiting(txs: seq<Tx>, now: int, tx: Tx)
    requires tx in ShortTimed(txs, now) && tx.observer.Some?
    ensures Waits(txs, tx.observer.value) > 0
  {
    var n := |txs| - 1;
    if tx in ShortTimed(txs[..n], now) {
      ShortTimedAreWaiting(txs[..n], now, tx);
    }
  }
}
