/** The trajectory of a whole episode tree, and its agreement with the subtree spend that the trace checker measures. */
module AccountTree {
  import opened Prelude
  import opened EpisodeLog
  import opened BudgetCheck
  import opened Accounts

  /** An episode directory: the log it holds and the child directories, in the order their episodes started. */
  datatype Dir = Dir(log: nat, children: seq<Dir>)

  datatype Agent = Agent(id: string, parentId: Option<string>, depth: nat, modelCalls: seq<ModelCall>)

  /** `str` of the start's id. */
  function AgentId(log: Log): string {
    match log.Started()
    case Some(Start(Some(id), _, _, _, _, _)) => id
    case _ => "None"
  }

  function AgentOf(log: Log, depth: nat): Agent {
    Agent(AgentId(log), log.ParentId(), depth, Followed(log.events).calls)
  }

  /** A directory tree that is read without error: every log starts, and names the id above it as its parent. */
  ghost predicate Placed(logs: seq<Log>, d: Dir, parent: Option<string>)
    decreases d, |d.children| + 1
  {
    && d.log < |logs|
    && logs[d.log].Started().Some?
    && (parent.Some? ==> logs[d.log].ParentId() == parent)
    && PlacedIn(logs, d, |d.children|, AgentId(logs[d.log]))
  }

  ghost predicate PlacedIn(logs: seq<Log>, d: Dir, n: nat, id: string)
    requires n <= |d.children|
    decreases d, n
  {
    n == 0 || (PlacedIn(logs, d, n - 1, id) && Placed(logs, d.children[n - 1], Some(id)))
  }

  ghost function Gathered(logs: seq<Log>, d: Dir, depth: nat): seq<Agent>
    requires Held(logs, d)
    decreases d, |d.children| + 1
  {
    HeldSelf(logs, d);
    [AgentOf(logs[d.log], depth)] + GatheredIn(logs, d, |d.children|, depth + 1)
  }

  ghost function GatheredIn(logs: seq<Log>, d: Dir, n: nat, depth: nat): seq<Agent>
    requires n <= |d.children| && Held(logs, d)
    decreases d, n
  {
    if n == 0 then [] else
      HeldChild(logs, d, n - 1);
      GatheredIn(logs, d, n - 1, depth) + Gathered(logs, d.children[n - 1], depth)
  }

  /** The logs a directory tree holds. */
  ghost function Indices(d: Dir): set<nat>
    decreases d, |d.children| + 1
  {
    {d.log} + IndicesIn(d, |d.children|)
  }

  ghost function IndicesIn(d: Dir, n: nat): set<nat>
    requires n <= |d.children|
    decreases d, n
  {
    if n == 0 then {} else IndicesIn(d, n - 1) + Indices(d.children[n - 1])
  }

  ghost predicate Held(logs: seq<Log>, d: Dir) {
    forall i :: i in Indices(d) ==> i < |logs|
  }

  lemma {:induction false} HeldSelf(logs: seq<Log>, d: Dir)
    requires Held(logs, d)
    ensures d.log < |logs|
  {
    assert d.log in Indices(d);
  }

  lemma {:induction false} ChildIndices(d: Dir, n: nat, j: nat)
    requires j < n <= |d.children|
    ensures Indices(d.children[j]) <= IndicesIn(d, n)
  {
    if j < n - 1 {
      ChildIndices(d, n - 1, j);
    }
  }

  lemma {:induction false} HeldChild(logs: seq<Log>, d: Dir, j: nat)
    requires Held(logs, d) && j < |d.children|
    ensures Held(logs, d.children[j])
  {
    ChildIndices(d, |d.children|, j);
    assert IndicesIn(d, |d.children|) <= Indices(d);
  }

  lemma {:induction false} PlacedHeld(logs: seq<Log>, d: Dir, parent: Option<string>)
    requires Placed(logs, d, parent)
    ensures Held(logs, d)
    decreases d, |d.children| + 1
  {
    PlacedHeldIn(logs, d, |d.children|, AgentId(logs[d.log]));
  }

  lemma {:induction false} PlacedHeldIn(logs: seq<Log>, d: Dir, n: nat, id: string)
    requires n <= |d.children| && PlacedIn(logs, d, n, id)
    ensures forall i :: i in IndicesIn(d, n) ==> i < |logs|
    decreases d, n
  {
    if n > 0 {
      PlacedHeldIn(logs, d, n - 1, id);
      PlacedHeld(logs, d.children[n - 1], Some(id));
    }
  }

  /** The list of agents every directory of the tree is collected into. */
  class Roster {
    var agents: seq<Agent>

    constructor ()
      ensures agents == []
    {
      agents := [];
    }

    /** Adds the agent of a directory and of every descendant, parents first; a misplaced log is refused. */
    method Collect(logs: seq<Log>, d: Dir, depth: nat, parent: Option<string>) returns (ok: bool)
      requires Held(logs, d)
      modifies this
      ensures ok <==> Placed(logs, d, parent)
      ensures ok ==> agents == old(agents) + Gathered(logs, d, depth)
      decreases d
    {
      hide Held, Followed, Indices, IndicesIn;
      HeldSelf(logs, d);
      if logs[d.log].Started().None? || (parent.Some? && logs[d.log].ParentId() != parent) {
        return false;
      }
      var id := AgentId(logs[d.log]);
      var calls := ModelCallsOf(logs[d.log].events);
      agents := agents + [Agent(id, logs[d.log].ParentId(), depth, calls)];
      ghost var before := agents;
      for n := 0 to |d.children|
        invariant PlacedIn(logs, d, n, id)
        invariant agents == before + GatheredIn(logs, d, n, depth + 1)
      {
        HeldChild(logs, d, n);
        var placed := Collect(logs, d.children[n], depth + 1, Some(id));
        if !placed {
          PlacedEarlier(logs, d, |d.children|, n, id);
          return false;
        }
      }
      return true;
    }
  }

  lemma {:induction false} PlacedEarlier(logs: seq<Log>, d: Dir, n: nat, j: nat, id: string)
    requires j < n <= |d.children|
    ensures PlacedIn(logs, d, n, id) ==> Placed(logs, d.children[j], Some(id))
  {
    if j < n - 1 {
      PlacedEarlier(logs, d, n - 1, j, id);
    }
  }

  // The totals of a trajectory.

  datatype Totals = Totals(
    modelCalls: nat, withUsage: nat, input: Option<int>, output: Option<int>, agents: nat, maxDepth: nat)

  function CallsOf(agents: seq<Agent>): seq<ModelCall> {
    if |agents| == 0 then [] else CallsOf(agents[..|agents| - 1]) + agents[|agents| - 1].modelCalls
  }

  lemma {:induction false} CallsSnoc(agents: seq<Agent>)
    requires |agents| > 0
    ensures CallsOf(agents) == CallsOf(agents[..|agents| - 1]) + agents[|agents| - 1].modelCalls
  {
  }

  lemma {:induction false} CallsConcat(agents: seq<Agent>, more: seq<Agent>)
    ensures CallsOf(agents + more) == CallsOf(agents) + CallsOf(more)
  {
    if |more| == 0 {
      assert agents + more == agents;
    } else {
      var all, before := agents + more, more[..|more| - 1];
      assert all[..|all| - 1] == agents + before && all[|all| - 1] == more[|more| - 1];
      CallsConcat(agents, before);
      CallsSnoc(all);
      CallsSnoc(more);
      hide CallsOf;
    }
  }

  function UsageCount(calls: seq<ModelCall>): nat {
    if |calls| == 0 then 0 else
      UsageCount(calls[..|calls| - 1]) + if calls[|calls| - 1].HasUsage() then 1 else 0
  }

  lemma {:induction false} UsageCounts(calls: seq<ModelCall>)
    ensures UsageCount(calls) <= |calls|
    ensures UsageCount(calls) == |calls| <==> forall c :: 0 <= c < |calls| ==> calls[c].HasUsage()
  {
    if |calls| > 0 {
      UsageCounts(calls[..|calls| - 1]);
    }
  }

  method TotalsOf(agents: seq<Agent>) returns (t: Totals)
    ensures t.modelCalls == |CallsOf(agents)| && t.agents == |agents|
    ensures t.input == SumAll(Values(CallsOf(agents), Input)) && t.output == SumAll(Values(CallsOf(agents), Output))
    ensures t.withUsage == UsageCount(CallsOf(agents)) <= t.modelCalls
    ensures t.withUsage == t.modelCalls <==> t.input.Some? && t.output.Some?
    ensures forall a :: 0 <= a < |agents| ==> agents[a].depth <= t.maxDepth
    ensures t.maxDepth == 0 || exists a :: 0 <= a < |agents| && agents[a].depth == t.maxDepth
  {
    var calls: seq<ModelCall>, deepest := [], 0;
    for i := 0 to |agents|
      invariant calls == CallsOf(agents[..i])
      invariant forall a :: 0 <= a < i ==> agents[a].depth <= deepest
      invariant deepest == 0 || exists a :: 0 <= a < i && agents[a].depth == deepest
    {
      assert agents[..i + 1][..i] == agents[..i];
      calls := calls + agents[i].modelCalls;
      if deepest < agents[i].depth {
        deepest := agents[i].depth;
      }
    }
    assert agents[..|agents|] == agents;
    var withUsage := 0;
    for i := 0 to |calls|
      invariant withUsage == UsageCount(calls[..i])
    {
      assert calls[..i + 1][..i] == calls[..i];
      if calls[i].HasUsage() {
        withUsage := withUsage + 1;
      }
    }
    var input := SumOrNone(Values(calls, Input));
    var output := SumOrNone(Values(calls, Output));
    TotalStated(calls, Input);
    TotalStated(calls, Output);
    assert calls[..|calls|] == calls;
    UsageIsBoth(calls);
    UsageCounts(calls);
    t := Totals(|calls|, withUsage, input, output, |agents|, deepest);
  }

  lemma {:induction false} UsageIsBoth(calls: seq<ModelCall>)
    ensures (forall c :: 0 <= c < |calls| ==> calls[c].HasUsage()) <==>
      (forall c :: 0 <= c < |calls| ==> Tokens(calls[c], Input).Some?)
      && (forall c :: 0 <= c < |calls| ==> Tokens(calls[c], Output).Some?)
  {
    if forall c :: 0 <= c < |calls| ==> calls[c].HasUsage() {
      assert forall c :: 0 <= c < |calls| && calls[c].HasUsage() ==> Tokens(calls[c], Input).Some?;
    } else {
      var c :| 0 <= c < |calls| && !calls[c].HasUsage();
      assert Tokens(calls[c], Input).None? || Tokens(calls[c], Output).None?;
    }
  }
}
