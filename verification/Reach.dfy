/** From state to state by enabled events. */
module Reach {
  import opened PieceStore
  import opened Pipeline
  import opened Schedule
  import opened Integrity

  ghost predicate Steps(ss: seq<State>, es: seq<Event>, size: nat, md4: Bytes -> Hash, clean: bool) {
    |ss| == |es| + 1 && forall i :: 0 <= i < |es| ==> Link(ss[i], es[i], ss[i + 1], size, md4, clean)
  }

  /** Enabled events, all of them clean if so asked, lead from s to t. */
  ghost predicate Leads(s: State, t: State, size: nat, md4: Bytes -> Hash, clean: bool) {
    exists ss: seq<State>, es: seq<Event> :: Steps(ss, es, size, md4, clean) && ss[0] == s && ss[|es|] == t
  }

  lemma LeadsNowhere(s: State, size: nat, md4: Bytes -> Hash, clean: bool)
    ensures Leads(s, s, size, md4, clean)
  {
    var ss, es: seq<Event> := [s], [];
    assert Steps(ss, es, size, md4, clean) && ss[0] == s && ss[|es|] == s;
  }

  /** One event: from s it leads to t. */
  ghost predicate Link(s: State, e: Event, t: State, size: nat, md4: Bytes -> Hash, clean: bool) {
    Enabled(s, e, size) && t == Next(s, e, size, md4) && (clean ==> Clean(s, e))
  }

  lemma StepsAppend(ss: seq<State>, es: seq<Event>, e: Event, t: State, size: nat, md4: Bytes -> Hash, clean: bool)
    requires Steps(ss, es, size, md4, clean) && Link(ss[|es|], e, t, size, md4, clean)
    ensures Steps(ss + [t], es + [e], size, md4, clean)
  {
    var ss', es' := ss + [t], es + [e];
    forall i | 0 <= i < |es'|
      ensures Link(ss'[i], es'[i], ss'[i + 1], size, md4, clean)
    {
      if i < |es| {
        assert Link(ss[i], es[i], ss[i + 1], size, md4, clean);
      }
    }
  }

  /** A run can be continued by every event that is enabled, and a clean one by every event that is clean too. */
  lemma RunContinues(s: State, t: State, e: Event, size: nat, md4: Bytes -> Hash, clean: bool)
    requires Leads(s, t, size, md4, clean) && Enabled(t, e, size) && (clean ==> Clean(t, e))
    ensures Leads(s, Next(t, e, size, md4), size, md4, clean)
  {
    var ss, es :| Steps(ss, es, size, md4, clean) && ss[0] == s && ss[|es|] == t;
    var u := Next(t, e, size, md4);
    StepsAppend(ss, es, e, u, size, md4, clean);
    assert (ss + [u])[0] == s && (ss + [u])[|es + [e]|] == u;
  }

  lemma StepsJoin(ss: seq<State>, es: seq<Event>, ss': seq<State>, es': seq<Event>, size: nat, md4: Bytes -> Hash,
                  clean: bool)
    requires Steps(ss, es, size, md4, clean) && Steps(ss', es', size, md4, clean) && ss'[0] == ss[|es|]
    ensures Steps(ss + ss'[1..], es + es', size, md4, clean)
  {
    var rs, fs := ss + ss'[1..], es + es';
    forall i | 0 <= i < |fs|
      ensures Link(rs[i], fs[i], rs[i + 1], size, md4, clean)
    {
      if i < |es| {
        assert Link(ss[i], es[i], ss[i + 1], size, md4, clean);
      } else {
        assert Link(ss'[i - |es|], es'[i - |es|], ss'[i - |es| + 1], size, md4, clean);
      }
    }
  }

  lemma LeadsJoin(s: State, t: State, u: State, size: nat, md4: Bytes -> Hash, clean: bool)
    requires Leads(s, t, size, md4, clean) && Leads(t, u, size, md4, clean)
    ensures Leads(s, u, size, md4, clean)
  {
    var ss, es :| Steps(ss, es, size, md4, clean) && ss[0] == s && ss[|es|] == t;
    var ss', es' :| Steps(ss', es', size, md4, clean) && ss'[0] == t && ss'[|es'|] == u;
    StepsJoin(ss, es, ss', es', size, md4, clean);
    assert (ss + ss'[1..])[0] == s && (ss + ss'[1..])[|es + es'|] == u;
  }

  lemma CleanLeads(s: State, t: State, size: nat, md4: Bytes -> Hash)
    requires Leads(s, t, size, md4, true) && Init(s, size)
    ensures exists ss: seq<State>, es: seq<Event> :: CleanRun(ss, es, size, md4) && ss[0] == s && ss[|es|] == t
  {
    var ss, es :| Steps(ss, es, size, md4, true) && ss[0] == s && ss[|es|] == t;
    forall i | 0 <= i < |es|
      ensures Enabled(ss[i], es[i], size) && Clean(ss[i], es[i]) && ss[i + 1] == Next(ss[i], es[i], size, md4)
    {
      assert Link(ss[i], es[i], ss[i + 1], size, md4, true);
    }
    assert CleanRun(ss, es, size, md4);
  }
}
