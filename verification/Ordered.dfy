/** Strictly increasing lists that keep the smallest of the numbers offered to them. */
module Ordered {
  ghost predicate Increasing(s: seq<nat>) { forall i, j :: 0 <= i < j < |s| ==> s[i] < s[j] }

  /** Position k separates the numbers below x from those above it. */
  predicate Splits(s: seq<nat>, k: nat, x: nat) {
    k <= |s| && forall i :: 0 <= i < |s| ==> if i < k then s[i] < x else x < s[i]
  }

  function Splice(s: seq<nat>, k: nat, x: nat): seq<nat>
    requires k <= |s|
  {
    s[..k] + [x] + s[k..]
  }

  lemma Spliced(s: seq<nat>, k: nat, x: nat)
    requires Increasing(s) && Splits(s, k, x)
    ensures Increasing(Splice(s, k, x))
  {
  }

  function Cut<T>(s: seq<T>, cap: nat): (r: seq<T>)
    ensures |r| <= cap && |r| <= |s| && r == s[..|r|]
  {
    if |s| > cap then s[..cap] else s
  }

  /** s lists, in increasing order, the `cap` smallest of the numbers offered, or all when there are fewer. */
  ghost predicate Smallest(s: seq<nat>, offered: set<nat>, cap: nat) {
    && Increasing(s) && |s| <= cap
    && (forall i :: 0 <= i < |s| ==> s[i] in offered)
    && forall x :: x in offered && x !in s ==> Beyond(s, x, cap)
  }

  ghost predicate Beyond(s: seq<nat>, x: nat, cap: nat) { |s| == cap && forall i :: 0 <= i < |s| ==> s[i] < x }

  /** A number offered before is in the list or would go behind its end: it never enters again. */
  lemma OfferedBefore(s: seq<nat>, offered: set<nat>, cap: nat, k: nat, x: nat)
    requires Smallest(s, offered, cap) && x in offered && k <= |s|
    requires (forall i :: 0 <= i < k ==> s[i] < x) && (k < |s| ==> s[k] >= x)
    ensures (k < |s| && s[k] == x) || (k == |s| == cap && Cut(Splice(s, k, x), cap) == s)
  {
    if x in s {
      var i :| 0 <= i < |s| && s[i] == x;
    } else {
      assert Beyond(s, x, cap);
    }
  }

  /** A number of the list that the cut removes lies behind everything the cut leaves. */
  lemma CutBehind(s: seq<nat>, cap: nat, m: nat)
    requires Increasing(s) && m < |s| && s[m] !in Cut(s, cap)
    ensures Beyond(Cut(s, cap), s[m], cap)
  {
    assert forall i :: 0 <= i < |Cut(s, cap)| ==> Cut(s, cap)[i] == s[i];
  }

  lemma SpliceAt(s: seq<nat>, k: nat, x: nat, i: nat)
    requires k <= |s| && i <= |s|
    ensures Splice(s, k, x)[i] == if i < k then s[i] else if i == k then x else s[i - 1]
  {
  }

  lemma StillBeyond(s: seq<nat>, cap: nat, k: nat, x: nat, y: nat)
    requires Splits(s, k, x) && Beyond(s, y, cap) && (k < cap ==> x < y)
    ensures Beyond(Cut(Splice(s, k, x), cap), y, cap)
  {
    forall i | 0 <= i < cap
      ensures Splice(s, k, x)[i] < y
    {
      SpliceAt(s, k, x, i);
    }
  }

  lemma LeftOut(s: seq<nat>, offered: set<nat>, cap: nat, k: nat, x: nat, y: nat)
    requires Smallest(s, offered, cap) && Splits(s, k, x)
    requires y in offered + {x} && y !in Cut(Splice(s, k, x), cap)
    ensures Beyond(Cut(Splice(s, k, x), cap), y, cap)
  {
    Spliced(s, k, x);
    var all := Splice(s, k, x);
    if y == x {
      SpliceAt(s, k, x, k);
      CutBehind(all, cap, k);
    } else if y in s {
      var i :| 0 <= i < |s| && s[i] == y;
      SpliceAt(s, k, x, if i < k then i else i + 1);
      CutBehind(all, cap, if i < k then i else i + 1);
    } else {
      assert k < cap ==> x < s[k] < y;
      StillBeyond(s, cap, k, x, y);
    }
  }

  lemma OfferedNew(s: seq<nat>, offered: set<nat>, cap: nat, k: nat, x: nat)
    requires Smallest(s, offered, cap) && Splits(s, k, x)
    ensures Smallest(Cut(Splice(s, k, x), cap), offered + {x}, cap)
  {
    Spliced(s, k, x);
    var r := Cut(Splice(s, k, x), cap);
    forall i | 0 <= i < |r|
      ensures r[i] in offered + {x}
    {
      assert r[i] == if i < k then s[i] else if i == k then x else s[i - 1];
    }
    forall y | y in offered + {x} && y !in r
      ensures Beyond(r, y, cap)
    {
      LeftOut(s, offered, cap, k, x, y);
    }
  }
}
