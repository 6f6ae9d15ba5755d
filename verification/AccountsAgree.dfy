/**
 * Both accounts of an episode tree are sums over the same logs,
 * so they agree but for what the trajectory leaves out.
 */
module AccountsAgree {
  import opened Prelude
  import opened EpisodeLog
  import opened BudgetCheck
  import opened Walks
  import opened Accounts
  import opened AccountTree
  import EvidenceCheck

  // Sums over a set of positions.

  ghost function SumIn(values: seq<int>, s: set<nat>, n: nat): int
    requires n <= |values|
  {
    if n == 0 then 0 else SumIn(values, s, n - 1) + (if n - 1 in s then values[n - 1] else 0)
  }

  ghost function Over(values: seq<int>, s: set<nat>): int {
    SumIn(values, s, |values|)
  }

  lemma {:induction false} SumInUnion(values: seq<int>, a: set<nat>, b: set<nat>, n: nat)
    requires n <= |values| && a !! b
    ensures SumIn(values, a + b, n) == SumIn(values, a, n) + SumIn(values, b, n)
  {
    if n > 0 {
      SumInUnion(values, a, b, n - 1);
      assert !(n - 1 in a && n - 1 in b);
    }
  }

  lemma {:induction false} SumInOne(values: seq<int>, k: nat, n: nat)
    requires n <= |values|
    ensures SumIn(values, {k}, n) == if k < n then values[k] else 0
  {
    if n > 0 {
      SumInOne(values, k, n - 1);
    }
  }

  lemma {:induction false} SumInNone(values: seq<int>, n: nat)
    requires n <= |values|
    ensures SumIn(values, {}, n) == 0
  {
    if n > 0 {
      SumInNone(values, n - 1);
    }
  }

  lemma {:induction false} SumInAdds(total: seq<int>, part: seq<int>, rest: seq<int>, s: set<nat>, n: nat)
    requires n <= |total| == |part| == |rest|
    requires forall i :: 0 <= i < n && i in s ==> total[i] == part[i] + rest[i]
    ensures SumIn(total, s, n) == SumIn(part, s, n) + SumIn(rest, s, n)
  {
    if n > 0 {
      SumInAdds(total, part, rest, s, n - 1);
    }
  }

  // The shape of the tree.

  /** Every log starts and states its own id. */
  ghost predicate StatesIds(logs: seq<Log>) {
    forall k :: 0 <= k < |logs| ==> logs[k].Started().Some? && logs[k].Started().value.id.Some?
  }

  /** No log names an id as its parent that two logs have. */
  ghost predicate OneParent(logs: seq<Log>) {
    forall i: nat, j: nat, k: nat ::
      j < |logs| && k < |logs| && IsChild(logs, i, j) && IsChild(logs, i, k) ==> j == k
  }

  ghost predicate Identified(logs: seq<Log>) {
    StatesIds(logs) && OneParent(logs)
  }

  lemma {:induction false} IdsMatch(logs: seq<Log>, k: nat)
    requires StatesIds(logs) && k < |logs|
    ensures AgentId(logs[k]) == logs[k].EpisodeId()
  {
  }

  lemma {:induction false} ParentsMatch(logs: seq<Log>, i: nat, j: nat, k: nat)
    requires OneParent(logs) && i < |logs| && j < |logs| && k < |logs|
    requires logs[i].ParentId() == Some(logs[j].EpisodeId()) == Some(logs[k].EpisodeId())
    ensures j == k
  {
    assert IsChild(logs, i, j) && IsChild(logs, i, k);
  }

  /** No log is held by two directories. */
  ghost predicate Separate(d: Dir)
    decreases d, |d.children| + 1
  {
    d.log !in IndicesIn(d, |d.children|) && SeparateIn(d, |d.children|)
  }

  ghost predicate SeparateIn(d: Dir, n: nat)
    requires n <= |d.children|
    decreases d, n
  {
    n == 0 || (
      && SeparateIn(d, n - 1)
      && Separate(d.children[n - 1])
      && Indices(d.children[n - 1]) !! IndicesIn(d, n - 1))
  }

  lemma {:induction false} SeparateAt(d: Dir, n: nat, j: nat, l: nat)
    requires n <= |d.children| && SeparateIn(d, n) && j < n && l < n
    ensures Separate(d.children[j])
    ensures j != l ==> Indices(d.children[j]) !! Indices(d.children[l])
  {
    hide Separate, Indices;
    if j == n - 1 && l < n - 1 {
      ChildIndices(d, n - 1, l);
    }
    if l == n - 1 && j < n - 1 {
      ChildIndices(d, n - 1, j);
    }
    if j < n - 1 {
      SeparateAt(d, n - 1, j, if l < n - 1 then l else j);
    }
  }

  lemma {:induction false} InChild(d: Dir, n: nat, i: nat) returns (j: nat)
    requires n <= |d.children| && i in IndicesIn(d, n)
    ensures j < n && i in Indices(d.children[j])
  {
    hide Indices;
    if i in Indices(d.children[n - 1]) {
      j := n - 1;
    } else {
      j := InChild(d, n - 1, i);
    }
  }

  lemma {:induction false} PlacedChild(logs: seq<Log>, d: Dir, n: nat, id: string, j: nat)
    requires j < n <= |d.children| && PlacedIn(logs, d, n, id)
    ensures Placed(logs, d.children[j], Some(id))
  {
    hide Placed;
    PlacedEarlier(logs, d, n, j, id);
  }

  /** A log that is not the top of the tree has its parent in the tree. */
  lemma {:induction false} ParentInside(logs: seq<Log>, d: Dir, parent: Option<string>, i: nat) returns (p: nat)
    requires Placed(logs, d, parent) && i in Indices(d) && i != d.log
    ensures p in Indices(d) && p < |logs| && i < |logs| && logs[i].ParentId() == Some(AgentId(logs[p]))
    decreases d
  {
    PlacedHeld(logs, d, parent);
    var j := InChild(d, |d.children|, i);
    PlacedChild(logs, d, |d.children|, AgentId(logs[d.log]), j);
    if i == d.children[j].log {
      p := d.log;
    } else {
      p := ParentInside(logs, d.children[j], Some(AgentId(logs[d.log])), i);
      ChildIndices(d, |d.children|, j);
    }
  }

  /** Every log whose parent is in the tree is in it too, below its top. */
  ghost predicate Closed(logs: seq<Log>, d: Dir)
    requires Held(logs, d)
  {
    forall i, k :: 0 <= i < |logs| && k in Indices(d) && logs[i].ParentId() == Some(logs[k].EpisodeId()) ==>
      i in Indices(d) && i != d.log
  }

  ghost predicate WellHeld(logs: seq<Log>, d: Dir, parent: Option<string>) {
    Identified(logs) && Placed(logs, d, parent) && Separate(d) && Held(logs, d) && Closed(logs, d)
  }

  /** Where a log goes whose parent is in the tree: into the child directory that holds its parent, or at its top. */
  lemma {:induction false} GoesBelow(logs: seq<Log>, d: Dir, parent: Option<string>, i: nat, k: nat) returns (j: nat)
    requires WellHeld(logs, d, parent)
    requires i < |logs| && k in Indices(d) && logs[i].ParentId() == Some(logs[k].EpisodeId())
    ensures j < |d.children| && i in Indices(d.children[j])
    ensures i == d.children[j].log ==> k == d.log
    ensures i != d.children[j].log ==> k in Indices(d.children[j])
  {
    hide Separate, SeparateIn, Placed, PlacedIn, StatesIds, OneParent;
    assert i in Indices(d) && i != d.log;
    j := InChild(d, |d.children|, i);
    PlacedParts(logs, d, parent, j);
    HeldChild(logs, d, j);
    if i == d.children[j].log {
      IdsMatch(logs, d.log);
      ParentsMatch(logs, i, k, d.log);
    } else {
      var p := ParentInside(logs, d.children[j], Some(AgentId(logs[d.log])), i);
      IdsMatch(logs, p);
      ParentsMatch(logs, i, k, p);
    }
  }

  lemma {:induction false} PlacedParts(logs: seq<Log>, d: Dir, parent: Option<string>, j: nat)
    requires Placed(logs, d, parent) && j < |d.children|
    ensures d.log < |logs| && Placed(logs, d.children[j], Some(AgentId(logs[d.log])))
    ensures d.children[j].log < |logs| && logs[d.children[j].log].ParentId() == Some(AgentId(logs[d.log]))
  {
    PlacedChild(logs, d, |d.children|, AgentId(logs[d.log]), j);
  }

  lemma {:induction false} ClosedChild(logs: seq<Log>, d: Dir, parent: Option<string>, j: nat)
    requires WellHeld(logs, d, parent)
    requires j < |d.children|
    ensures d.log < |logs| && WellHeld(logs, d.children[j], Some(AgentId(logs[d.log])))
  {
    hide Placed, PlacedIn, Identified;
    PlacedParts(logs, d, parent, j);
    HeldChild(logs, d, j);
    ChildIndices(d, |d.children|, j);
    SeparateAt(d, |d.children|, j, j);
    hide Indices;
    assert Indices(d.children[j]) <= IndicesIn(d, |d.children|);
    forall i, k | 0 <= i < |logs| && k in Indices(d.children[j]) && logs[i].ParentId() == Some(logs[k].EpisodeId())
      ensures i in Indices(d.children[j]) && i != d.children[j].log
    {
      IndicesAre(d);
      var l := GoesBelow(logs, d, parent, i, k);
      SeparateAt(d, |d.children|, j, l);
    }
  }

  lemma {:induction false} IndicesAre(d: Dir)
    ensures Indices(d) == {d.log} + IndicesIn(d, |d.children|)
  {
  }

  // The trace checker's walk over the same tree.

  lemma {:induction false} ChildrenMember(logs: seq<Log>, n: nat, id: string, i: nat)
    requires n <= |logs|
    ensures i in ChildrenIn(logs, n, id) <==> i < n && logs[i].ParentId() == Some(id)
  {
    if n > 0 {
      ChildrenMember(logs, n - 1, id, i);
    }
  }

  lemma {:induction false} ChildrenAscend(logs: seq<Log>, n: nat, id: string, a: nat, b: nat)
    requires n <= |logs| && a < b < |ChildrenIn(logs, n, id)|
    ensures ChildrenIn(logs, n, id)[a] < ChildrenIn(logs, n, id)[b]
  {
    if b < |ChildrenIn(logs, n - 1, id)| {
      ChildrenAscend(logs, n - 1, id, a, b);
    }
  }

  /** The child directory that holds a log at its top. */
  ghost predicate TopOf(d: Dir, j: nat, i: nat) {
    j < |d.children| && d.children[j].log == i
  }

  lemma {:induction false} ChildIsTop(logs: seq<Log>, d: Dir, parent: Option<string>, i: nat) returns (j: nat)
    requires WellHeld(logs, d, parent)
    requires i in Children(logs, logs[d.log].EpisodeId())
    ensures TopOf(d, j, i)
  {
    hide Placed, PlacedIn, Identified, Held, Closed;
    HeldSelf(logs, d);
    ChildrenMember(logs, |logs|, logs[d.log].EpisodeId(), i);
    assert d.log in Indices(d);
    j := GoesBelow(logs, d, parent, i, d.log);
    ChildIndices(d, |d.children|, j);
  }

  function Tops(children: seq<nat>, n: nat): set<nat>
    requires n <= |children|
  {
    set c | 0 <= c < n :: children[c]
  }

  /** What the child directories with one of these logs at the top hold. */
  ghost function Below(d: Dir, tops: set<nat>): set<nat> {
    set i | i in IndicesIn(d, |d.children|) && exists j: nat :: BelowBy(d, tops, i, j)
  }

  ghost predicate BelowBy(d: Dir, tops: set<nat>, i: nat, j: nat) {
    j < |d.children| && d.children[j].log in tops && i in Indices(d.children[j])
  }

  lemma {:induction false} TopsDiffer(d: Dir, j: nat, l: nat)
    requires SeparateIn(d, |d.children|) && j < |d.children| && l < |d.children| && j != l
    ensures d.children[j].log != d.children[l].log
  {
    SeparateAt(d, |d.children|, j, l);
    assert d.children[j].log in Indices(d.children[j]);
    assert d.children[l].log in Indices(d.children[l]);
  }

  lemma {:induction false} BelowMore(d: Dir, tops: set<nat>, j: nat)
    requires SeparateIn(d, |d.children|) && j < |d.children| && d.children[j].log !in tops
    ensures Below(d, tops + {d.children[j].log}) == Below(d, tops) + Indices(d.children[j])
    ensures Below(d, tops) !! Indices(d.children[j])
  {
    var more := tops + {d.children[j].log};
    ChildIndices(d, |d.children|, j);
    forall i, l: nat | BelowBy(d, more, i, l)
      ensures l == j || BelowBy(d, tops, i, l)
    {
      if l != j {
        TopsDiffer(d, l, j);
      }
    }
    forall i | i in Below(d, tops)
      ensures i !in Indices(d.children[j]) && i in Below(d, more)
    {
      var l: nat :| BelowBy(d, tops, i, l);
      SeparateAt(d, |d.children|, l, j);
      assert BelowBy(d, more, i, l);
    }
    forall i | i in Indices(d.children[j])
      ensures i in Below(d, more)
    {
      assert BelowBy(d, more, i, j);
    }
  }

  lemma {:induction false} BelowAll(d: Dir, tops: set<nat>)
    requires forall j :: 0 <= j < |d.children| ==> d.children[j].log in tops
    ensures Below(d, tops) == IndicesIn(d, |d.children|)
  {
    forall i | i in IndicesIn(d, |d.children|)
      ensures i in Below(d, tops)
    {
      var j := InChild(d, |d.children|, i);
      assert BelowBy(d, tops, i, j);
    }
  }

  /** What the trace checker's walk below a directory sums is the sum over the logs the directory holds. */
  lemma {:induction false} WalkIsSum(
    logs: seq<Log>, d: Dir, parent: Option<string>, height: seq<nat>, values: seq<int>)
    requires WellHeld(logs, d, parent) && Walkable(logs, d.log, height) && |values| == |logs|
    ensures WalkSum(logs, d.log, height, values) == Over(values, Indices(d))
    decreases d, 1, 0
  {
    var children := Children(logs, logs[d.log].EpisodeId());
    OverIsSum(logs, d, parent, height, values, |children|);
    TopsAreAll(logs, d, parent);
    BelowAll(d, Tops(children, |children|));
    hide IndicesIn, Indices, WellHeld, Children, Below, Tops;
    OneAndRest(logs, d, parent, values);
  }

  lemma {:induction false} OneAndRest(logs: seq<Log>, d: Dir, parent: Option<string>, values: seq<int>)
    requires WellHeld(logs, d, parent) && d.log < |values|
    ensures Over(values, Indices(d)) == values[d.log] + Over(values, IndicesIn(d, |d.children|))
  {
    SumInUnion(values, {d.log}, IndicesIn(d, |d.children|), |values|);
    SumInOne(values, d.log, |values|);
  }

  lemma {:induction false} TopsAreAll(logs: seq<Log>, d: Dir, parent: Option<string>)
    requires WellHeld(logs, d, parent)
    ensures d.log < |logs|
    ensures var children := Children(logs, logs[d.log].EpisodeId());
      forall j :: 0 <= j < |d.children| ==> d.children[j].log in Tops(children, |children|)
  {
    var children := Children(logs, logs[d.log].EpisodeId());
    forall j | 0 <= j < |d.children|
      ensures d.children[j].log in Tops(children, |children|)
    {
      PlacedParts(logs, d, parent, j);
      IdsMatch(logs, d.log);
      ChildrenMember(logs, |logs|, logs[d.log].EpisodeId(), d.children[j].log);
      var c :| 0 <= c < |children| && children[c] == d.children[j].log;
    }
  }

  lemma {:induction false} OverIsSum(
    logs: seq<Log>, d: Dir, parent: Option<string>, height: seq<nat>, values: seq<int>, n: nat)
    requires WellHeld(logs, d, parent) && Walkable(logs, d.log, height) && |values| == |logs|
    requires n <= |Children(logs, logs[d.log].EpisodeId())|
    ensures var children := Children(logs, logs[d.log].EpisodeId());
      WalkSumOver(logs, children, n, d.log, height, values) == Over(values, Below(d, Tops(children, n)))
    decreases d, 0, n
  {
    hide WellHeld, Founded, Children, Below, Tops, Identified, WalkSum, WalkSumOver, Over, AreChildren;
    var children := Children(logs, logs[d.log].EpisodeId());
    OverStep(logs, d, parent, height, values, n);
    if n == 0 {
      BelowNone(d, children);
      OverNone(values);
    } else {
      OverIsSum(logs, d, parent, height, values, n - 1);
      var j := BelowStep(logs, d, parent, values, n);
      WalkIsSum(logs, d.children[j], Some(AgentId(logs[d.log])), height, values);
    }
  }

  lemma {:induction false} OverNone(values: seq<int>)
    ensures Over(values, {}) == 0
  {
    SumInNone(values, |values|);
  }

  lemma {:induction false} OverStep(
    logs: seq<Log>, d: Dir, parent: Option<string>, height: seq<nat>, values: seq<int>, n: nat)
    requires WellHeld(logs, d, parent) && Walkable(logs, d.log, height) && |values| == |logs|
    requires n <= |Children(logs, logs[d.log].EpisodeId())|
    ensures n > 0 ==> Walkable(logs, Children(logs, logs[d.log].EpisodeId())[n - 1], height)
    ensures var children := Children(logs, logs[d.log].EpisodeId());
      WalkSumOver(logs, children, n, d.log, height, values)
        == if n == 0 then 0 else
          WalkSumOver(logs, children, n - 1, d.log, height, values)
            + WalkSum(logs, children[n - 1], height, values)
  {
    hide WellHeld, Children, WalkSum;
  }

  lemma {:induction false} BelowStep(
    logs: seq<Log>, d: Dir, parent: Option<string>, values: seq<int>, n: nat) returns (j: nat)
    requires WellHeld(logs, d, parent) && d.log < |logs|
    requires 0 < n <= |Children(logs, logs[d.log].EpisodeId())|
    ensures var children := Children(logs, logs[d.log].EpisodeId());
      && j < |d.children| && d.children[j].log == children[n - 1]
      && WellHeld(logs, d.children[j], Some(AgentId(logs[d.log])))
      && Over(values, Below(d, Tops(children, n)))
          == Over(values, Below(d, Tops(children, n - 1))) + Over(values, Indices(d.children[j]))
  {
    var children := Children(logs, logs[d.log].EpisodeId());
    hide WellHeld, Children, Below, Tops, Indices;
    j := ChildIsTop(logs, d, parent, children[n - 1]);
    ClosedChild(logs, d, parent, j);
    TopsGrow(logs, logs[d.log].EpisodeId(), n);
    SeparateHeld(logs, d, parent);
    BelowMore(d, Tops(children, n - 1), j);
    SumInUnion(values, Below(d, Tops(children, n - 1)), Indices(d.children[j]), |values|);
  }

  lemma {:induction false} SeparateHeld(logs: seq<Log>, d: Dir, parent: Option<string>)
    requires WellHeld(logs, d, parent)
    ensures SeparateIn(d, |d.children|)
  {
  }

  lemma {:induction false} BelowNone(d: Dir, children: seq<nat>)
    ensures Below(d, Tops(children, 0)) == {}
  {
  }

  lemma {:induction false} TopsGrow(logs: seq<Log>, id: string, n: nat)
    requires 0 < n <= |Children(logs, id)|
    ensures Tops(Children(logs, id), n) == Tops(Children(logs, id), n - 1) + {Children(logs, id)[n - 1]}
    ensures Children(logs, id)[n - 1] !in Tops(Children(logs, id), n - 1)
  {
    forall c: nat | c < n - 1
      ensures Children(logs, id)[c] != Children(logs, id)[n - 1]
    {
      ChildrenAscend(logs, |logs|, id, c, n - 1);
    }
  }

  // The trajectory's agents over the same tree.

  function KnownValues(logs: seq<Log>, dim: Dim): seq<int> {
    seq(|logs|, i requires 0 <= i < |logs| => Known(Followed(logs[i].events).calls, dim))
  }

  function DroppedValues(logs: seq<Log>, dim: Dim): seq<int> {
    seq(|logs|, i requires 0 <= i < |logs| => Dropped(logs[i].events).Get(dim))
  }

  lemma {:induction false} GatheredIsSum(logs: seq<Log>, d: Dir, depth: nat, dim: Dim)
    requires Held(logs, d) && Separate(d)
    ensures Known(CallsOf(Gathered(logs, d, depth)), dim) == Over(KnownValues(logs, dim), Indices(d))
    decreases d, |d.children| + 1
  {
    HeldSelf(logs, d);
    GatheredInIsSum(logs, d, |d.children|, depth + 1, dim);
    var agent := AgentOf(logs[d.log], depth);
    var rest := GatheredIn(logs, d, |d.children|, depth + 1);
    CallsConcat([agent], rest);
    assert [agent][..0] == [];
    assert CallsOf([agent]) == agent.modelCalls;
    KnownConcat(agent.modelCalls, CallsOf(rest), dim);
    hide IndicesIn, SeparateIn, GatheredIn, CallsOf, Known;
    SumInUnion(KnownValues(logs, dim), {d.log}, IndicesIn(d, |d.children|), |logs|);
    SumInOne(KnownValues(logs, dim), d.log, |logs|);
  }

  lemma {:induction false} GatheredInIsSum(logs: seq<Log>, d: Dir, n: nat, depth: nat, dim: Dim)
    requires n <= |d.children| && Held(logs, d) && SeparateIn(d, n)
    ensures Known(CallsOf(GatheredIn(logs, d, n, depth)), dim) == Over(KnownValues(logs, dim), IndicesIn(d, n))
    decreases d, n
  {
    if n == 0 {
      SumInNone(KnownValues(logs, dim), |logs|);
    } else {
      HeldChild(logs, d, n - 1);
      GatheredInIsSum(logs, d, n - 1, depth, dim);
      GatheredIsSum(logs, d.children[n - 1], depth, dim);
      var before, more := GatheredIn(logs, d, n - 1, depth), Gathered(logs, d.children[n - 1], depth);
      CallsConcat(before, more);
      KnownConcat(CallsOf(before), CallsOf(more), dim);
      hide Known, CallsOf, Indices, Gathered, Separate, Held;
      SumInUnion(KnownValues(logs, dim), IndicesIn(d, n - 1), Indices(d.children[n - 1]), |logs|);
    }
  }

  /** Every call of every log in the tree is in the trajectory. */
  lemma {:induction false} GatheredHas(logs: seq<Log>, d: Dir, depth: nat, i: nat, call: ModelCall)
    requires Held(logs, d) && i in Indices(d) && call in Followed(logs[i].events).calls
    ensures call in CallsOf(Gathered(logs, d, depth))
    decreases d, |d.children| + 1
  {
    assert i < |logs|;
    hide Followed, Held;
    HeldSelf(logs, d);
    var agent := AgentOf(logs[d.log], depth);
    var rest := GatheredIn(logs, d, |d.children|, depth + 1);
    CallsConcat([agent], rest);
    assert [agent][..0] == [];
    assert CallsOf([agent]) == agent.modelCalls;
    if i != d.log {
      GatheredInHas(logs, d, |d.children|, depth + 1, i, call);
    }
  }

  lemma {:induction false} GatheredInHas(logs: seq<Log>, d: Dir, n: nat, depth: nat, i: nat, call: ModelCall)
    requires n <= |d.children| && Held(logs, d) && i in IndicesIn(d, n) && i < |logs|
    requires call in Followed(logs[i].events).calls
    ensures call in CallsOf(GatheredIn(logs, d, n, depth))
    decreases d, n
  {
    hide Followed, Held, Indices, Gathered;
    HeldChild(logs, d, n - 1);
    CallsConcat(GatheredIn(logs, d, n - 1, depth), Gathered(logs, d.children[n - 1], depth));
    if i in Indices(d.children[n - 1]) {
      GatheredHas(logs, d.children[n - 1], depth, i, call);
    } else {
      GatheredInHas(logs, d, n - 1, depth, i, call);
    }
  }

  // The two accounts agree.

  /** The root's directory holds every log once. */
  ghost predicate HoldsAll(logs: seq<Log>, root: Dir) {
    Separate(root) && forall i: nat :: i in Indices(root) <==> i < |logs|
  }

  /** The root's parent is no log of the tree. */
  ghost predicate Topmost(logs: seq<Log>, root: Dir)
    requires root.log < |logs|
  {
    forall k :: 0 <= k < |logs| ==> logs[root.log].ParentId() != Some(logs[k].EpisodeId())
  }

  lemma {:induction false} RootWellHeld(logs: seq<Log>, root: Dir)
    requires Identified(logs) && Placed(logs, root, None) && HoldsAll(logs, root) && Topmost(logs, root)
    ensures WellHeld(logs, root, None)
  {
  }

  /** The total the trajectory states in one dimension. */
  ghost function Total(logs: seq<Log>, root: Dir, dim: Dim): Option<int>
    requires Held(logs, root)
  {
    SumAll(Values(CallsOf(Gathered(logs, root, 0)), dim))
  }

  lemma {:induction false} TotalCompletes(logs: seq<Log>, d: Dir, dim: Dim, i: nat)
    requires Held(logs, d) && Total(logs, d, dim).Some? && i in Indices(d)
    ensures Complete(Followed(logs[i].events).calls, dim)
  {
    var calls, all := Followed(logs[i].events).calls, CallsOf(Gathered(logs, d, 0));
    hide Followed, CallsOf, Gathered, Values, SumAll, Held;
    TotalStated(all, dim);
    forall c | 0 <= c < |calls|
      ensures Tokens(calls[c], dim).Some?
    {
      GatheredHas(logs, d, 0, i, calls[c]);
      var k :| 0 <= k < |all| && all[k] == calls[c];
    }
  }

  /** What the walk counts of every log beyond the once that the trajectory counts it. */
  ghost function RepeatedValues(logs: seq<Log>, k: nat, height: seq<nat>, dim: Dim): (r: seq<int>)
    requires Walkable(logs, k, height)
    ensures |r| == |logs|
  {
    seq(|logs|, i requires 0 <= i < |logs| => (Visits(logs, k, height, i) - 1) * Own(logs[i].events).Get(dim))
  }

  lemma {:induction false} OneLess(m: int, v: int)
    ensures v * m == v + (m - 1) * v
  {
  }

  lemma {:induction false} VisitSumSplits(logs: seq<Log>, k: nat, height: seq<nat>, dim: Dim, s: set<nat>, n: nat)
    requires Walkable(logs, k, height) && n <= |logs| && forall i: nat :: i < n ==> i in s
    ensures VisitSum(logs, k, height, OwnValues(logs, dim), n)
        == SumIn(OwnValues(logs, dim), s, n) + SumIn(RepeatedValues(logs, k, height, dim), s, n)
  {
    hide Visits, Founded, Own;
    if n > 0 {
      VisitSumSplits(logs, k, height, dim, s, n - 1);
      OneLess(Visits(logs, k, height, n - 1), OwnValues(logs, dim)[n - 1]);
    }
  }

  lemma {:induction false} RepeatedIsRest(logs: seq<Log>, root: Dir, height: seq<nat>, dim: Dim)
    requires Walkable(logs, root.log, height) && Placed(logs, root, None) && HoldsAll(logs, root)
    ensures Held(logs, root)
    ensures Subtree(logs, root.log, height).Get(dim) == Over(OwnValues(logs, dim), Indices(root))
      + Over(RepeatedValues(logs, root.log, height, dim), Indices(root))
  {
    PlacedHeld(logs, root, None);
    hide VisitSum, RepeatedValues, OwnValues, Subtree, Placed, Separate;
    SubtreeVisits(logs, root.log, height, dim);
    VisitSumSplits(logs, root.log, height, dim, Indices(root), |logs|);
  }

  /**
   * In every tree that is collected without error a total that the trajectory states falls short of the subtree spend
   * by exactly what messages that answer no open request state, and what the walk counts more than once.
   */
  lemma {:induction false} AccountantsAgree(logs: seq<Log>, root: Dir, height: seq<nat>, dim: Dim)
    requires Walkable(logs, root.log, height) && Placed(logs, root, None) && HoldsAll(logs, root)
    ensures Held(logs, root)
    ensures Total(logs, root, dim).Some? ==>
      Subtree(logs, root.log, height).Get(dim) == Total(logs, root, dim).value
        + Over(DroppedValues(logs, dim), Indices(root))
        + Over(RepeatedValues(logs, root.log, height, dim), Indices(root))
  {
    RepeatedIsRest(logs, root, height, dim);
    HeldSelf(logs, root);
    hide Visits, RepeatedValues, Subtree, Placed;
    if Total(logs, root, dim).Some? {
      GatheredIsSum(logs, root, 0, dim);
      TotalStated(CallsOf(Gathered(logs, root, 0)), dim);
      forall i | 0 <= i < |logs| && i in Indices(root)
        ensures OwnValues(logs, dim)[i] == KnownValues(logs, dim)[i] + DroppedValues(logs, dim)[i]
      {
        TotalCompletes(logs, root, dim, i);
        CallsAccount(logs[i].events, dim);
      }
      SumInAdds(OwnValues(logs, dim), KnownValues(logs, dim), DroppedValues(logs, dim), Indices(root), |logs|);
    }
  }

  lemma {:induction false} GatheredCalls(logs: seq<Log>, root: Dir)
    requires Held(logs, root) && Separate(root)
    ensures |CallsOf(Gathered(logs, root, 0))| == Over(OwnValues(logs, Calls), Indices(root))
  {
    var calls := CallsOf(Gathered(logs, root, 0));
    GatheredIsSum(logs, root, 0, Calls);
    KnownCalls(calls);
    hide Gathered, CallsOf, Followed, Known, Separate;
    forall i | 0 <= i < |logs|
      ensures OwnValues(logs, Calls)[i] == KnownValues(logs, Calls)[i] + DroppedValues(logs, Calls)[i]
      ensures DroppedValues(logs, Calls)[i] == 0
    {
      CallsComplete(logs[i].events);
      CallsAccount(logs[i].events, Calls);
      DroppedCalls(logs[i].events);
    }
    SumInAdds(OwnValues(logs, Calls), KnownValues(logs, Calls), DroppedValues(logs, Calls), Indices(root), |logs|);
    OverZeros(DroppedValues(logs, Calls), Indices(root), |logs|);
  }

  lemma {:induction false} CallsComplete(events: seq<Event>)
    ensures Complete(Followed(events).calls, Calls)
  {
    hide Followed;
  }

  /**
   * The walk counts as many model calls as the trajectory states and those it counts more than once. When every log
   * states its id, the two numbers are equal exactly when the walk comes but once to each log with a request.
   */
  lemma {:induction false} ModelCallsAgree(logs: seq<Log>, root: Dir, height: seq<nat>)
    requires Walkable(logs, root.log, height) && Placed(logs, root, None) && HoldsAll(logs, root)
    ensures Held(logs, root)
    ensures Subtree(logs, root.log, height).calls == |CallsOf(Gathered(logs, root, 0))|
      + Over(RepeatedValues(logs, root.log, height, Calls), Indices(root))
    ensures StatesIds(logs) ==>
      (|CallsOf(Gathered(logs, root, 0))| == Subtree(logs, root.log, height).calls <==>
        forall i :: 0 <= i < |logs| && Own(logs[i].events).calls > 0 ==> Visits(logs, root.log, height, i) == 1)
  {
    PlacedHeld(logs, root, None);
    RepeatedIsRest(logs, root, height, Calls);
    GatheredCalls(logs, root);
    if StatesIds(logs) {
      NothingRepeated(logs, root, height);
    }
  }

  lemma {:induction false} OwnCalls(events: seq<Event>)
    ensures Own(events).calls >= 0
  {
    if |events| > 0 {
      OwnCalls(events[..|events| - 1]);
    }
  }

  lemma {:induction false} RepeatedSign(logs: seq<Log>, root: Dir, height: seq<nat>, i: nat)
    requires Walkable(logs, root.log, height) && Placed(logs, root, None) && HoldsAll(logs, root) && StatesIds(logs)
    requires i < |logs|
    ensures var repeated := RepeatedValues(logs, root.log, height, Calls);
      && repeated[i] >= 0
      && (repeated[i] == 0 <==>
            (Own(logs[i].events).calls > 0 ==> Visits(logs, root.log, height, i) == 1))
  {
    StaysWalkable(logs, root, None, height, i);
    hide Visits, Placed, Separate, StatesIds, Founded, Own;
    OwnCalls(logs[i].events);
    ProductSign(Visits(logs, root.log, height, i) - 1, Own(logs[i].events).calls);
  }

  lemma {:induction false} NothingRepeated(logs: seq<Log>, root: Dir, height: seq<nat>)
    requires Walkable(logs, root.log, height) && Placed(logs, root, None) && HoldsAll(logs, root) && StatesIds(logs)
    ensures Over(RepeatedValues(logs, root.log, height, Calls), Indices(root)) == 0 <==>
      forall i :: 0 <= i < |logs| && Own(logs[i].events).calls > 0 ==> Visits(logs, root.log, height, i) == 1
  {
    var repeated, s := RepeatedValues(logs, root.log, height, Calls), Indices(root);
    assert forall i: nat :: i < |logs| ==> i in s;
    hide Visits, Placed, HoldsAll, StatesIds, Walkable, Own, RepeatedValues, Indices;
    forall i | 0 <= i < |logs|
      ensures repeated[i] >= 0
      ensures repeated[i] == 0 <==> (Own(logs[i].events).calls > 0 ==> Visits(logs, root.log, height, i) == 1)
    {
      RepeatedSign(logs, root, height, i);
    }
    SumInSign(repeated, s, |logs|);
  }

  lemma {:induction false} ProductSign(m: int, n: int)
    requires m >= 0 && n >= 0
    ensures m * n >= 0 && (m * n == 0 <==> m == 0 || n == 0)
  {
  }

  lemma {:induction false} SumInSign(values: seq<int>, s: set<nat>, n: nat)
    requires n <= |values| && forall i :: 0 <= i < |values| ==> values[i] >= 0
    requires forall i: nat :: i < n ==> i in s
    ensures SumIn(values, s, n) >= 0
    ensures SumIn(values, s, n) == 0 <==> forall i :: 0 <= i < n ==> values[i] == 0
  {
    if n > 0 {
      SumInSign(values, s, n - 1);
    }
  }

  lemma {:induction false} KnownCalls(calls: seq<ModelCall>)
    ensures Known(calls, Calls) == |calls|
  {
    if |calls| > 0 {
      KnownCalls(calls[..|calls| - 1]);
    }
  }

  lemma {:induction false} OverZeros(values: seq<int>, s: set<nat>, n: nat)
    requires n <= |values| && forall i :: 0 <= i < |values| ==> values[i] == 0
    ensures SumIn(values, s, n) == 0
  {
    if n > 0 {
      OverZeros(values, s, n - 1);
    }
  }

  /** When every log is accepted as evidence and answers no request twice, only what the walk repeats is left. */
  lemma {:induction false} AcceptedAgree(logs: seq<Log>, root: Dir, height: seq<nat>, dim: Dim)
    requires Walkable(logs, root.log, height) && Placed(logs, root, None) && HoldsAll(logs, root)
    requires forall i :: 0 <= i < |logs| ==> EvidenceCheck.Conforms(logs[i].events) && AnsweredOnce(logs[i].events)
    ensures Held(logs, root)
    ensures Total(logs, root, dim).Some? ==>
      Subtree(logs, root.log, height).Get(dim)
        == Total(logs, root, dim).value + Over(RepeatedValues(logs, root.log, height, dim), Indices(root))
    ensures (forall i :: 0 <= i < |logs| ==> Visits(logs, root.log, height, i) == 1) ==>
      Over(RepeatedValues(logs, root.log, height, dim), Indices(root)) == 0
  {
    AccountantsAgree(logs, root, height, dim);
    AcceptedDropNothing(logs, Indices(root), dim);
    OnceRepeatsNothing(logs, root, height, dim);
  }

  lemma {:induction false} AcceptedDropNothing(logs: seq<Log>, s: set<nat>, dim: Dim)
    requires forall i :: 0 <= i < |logs| ==> EvidenceCheck.Conforms(logs[i].events) && AnsweredOnce(logs[i].events)
    ensures Over(DroppedValues(logs, dim), s) == 0
  {
    hide EvidenceCheck.Conforms, AnsweredOnce, Dropped;
    forall i | 0 <= i < |logs|
      ensures DroppedValues(logs, dim)[i] == 0
    {
      AcceptedDropsNothing(logs[i].events, |logs[i].events|);
      assert logs[i].events[..|logs[i].events|] == logs[i].events;
    }
    OverZeros(DroppedValues(logs, dim), s, |logs|);
  }

  lemma {:induction false} OnceRepeatsNothing(logs: seq<Log>, root: Dir, height: seq<nat>, dim: Dim)
    requires Walkable(logs, root.log, height)
    ensures (forall i :: 0 <= i < |logs| ==> Visits(logs, root.log, height, i) == 1) ==>
      Over(RepeatedValues(logs, root.log, height, dim), Indices(root)) == 0
  {
    hide Visits, Own, Indices, Walkable;
    if forall i :: 0 <= i < |logs| ==> Visits(logs, root.log, height, i) == 1 {
      OverZeros(RepeatedValues(logs, root.log, height, dim), Indices(root), |logs|);
    }
  }

  // How often the walk comes to the logs of a tree.

  /** The walk below a directory comes to every log the directory holds, and those stand no higher. */
  lemma {:induction false} StaysWalkable(logs: seq<Log>, d: Dir, parent: Option<string>, height: seq<nat>, i: nat)
    requires Placed(logs, d, parent) && StatesIds(logs) && Walkable(logs, d.log, height) && i in Indices(d)
    ensures Walkable(logs, i, height) && height[i] <= height[d.log]
    ensures Visits(logs, d.log, height, i) >= 1
    decreases d
  {
    hide WalkSum;
    if i == d.log {
      VisitsNotNegative(logs, i, height, i);
    } else {
      var j := InChild(d, |d.children|, i);
      var child := d.children[j].log;
      PlacedParts(logs, d, parent, j);
      IdsMatch(logs, d.log);
      ChildrenMember(logs, |logs|, logs[d.log].EpisodeId(), child);
      hide Placed, PlacedIn, Indices, StatesIds;
      assert height[child] < height[d.log] && Walkable(logs, child, height);
      StaysWalkable(logs, d.children[j], Some(AgentId(logs[d.log])), height, i);
      WalkAtLeast(logs, d.log, height, Unit(|logs|, i));
    }
  }

  lemma {:induction false} WalkedIsTopmost(logs: seq<Log>, root: Dir, height: seq<nat>)
    requires Walkable(logs, root.log, height)
    requires StatesIds(logs) && Placed(logs, root, None) && HoldsAll(logs, root)
    ensures Topmost(logs, root)
  {
    hide StatesIds, Placed, Separate;
    forall k | 0 <= k < |logs|
      ensures logs[root.log].ParentId() != Some(logs[k].EpisodeId())
    {
      StaysWalkable(logs, root, None, height, k);
    }
  }

  lemma {:induction false} SumInUnit(s: set<nat>, m: nat, i: nat, n: nat)
    requires n <= m
    ensures SumIn(Unit(m, i), s, n) == if i < n && i in s then 1 else 0
  {
    if n > 0 {
      SumInUnit(s, m, i, n - 1);
    }
  }

  lemma {:induction false} VisitedOnce(logs: seq<Log>, root: Dir, height: seq<nat>, i: nat)
    requires Identified(logs) && Walkable(logs, root.log, height) && i < |logs|
    requires Placed(logs, root, None) && HoldsAll(logs, root)
    ensures Visits(logs, root.log, height, i) == 1
  {
    WalkedIsTopmost(logs, root, height);
    RootWellHeld(logs, root);
    hide WellHeld, Identified, Placed, Separate, Topmost, WalkSum;
    WalkIsSum(logs, root, None, height, Unit(|logs|, i));
    SumInUnit(Indices(root), |logs|, i, |logs|);
  }

  /** A log that names an id two logs have is come to twice. */
  lemma {:induction false} VisitedTwice(logs: seq<Log>, root: Dir, height: seq<nat>, i: nat, j: nat, k: nat)
    requires StatesIds(logs) && Walkable(logs, root.log, height)
    requires Placed(logs, root, None) && HoldsAll(logs, root)
    requires j < |logs| && k < |logs| && j != k && IsChild(logs, i, j) && IsChild(logs, i, k)
    ensures Visits(logs, root.log, height, i) >= 2
  {
    var n, named := |logs|, NamedBy(logs, i);
    VisitsFromParents(logs, root.log, height, i);
    StaysWalkable(logs, root, None, height, j);
    StaysWalkable(logs, root, None, height, k);
    hide StatesIds, Placed, HoldsAll, WalkSum, Founded;
    var others := named[k := 0];
    var rest := others[j := 0];
    WalkLinear(logs, root.log, height, named, others, 1, Unit(n, k));
    WalkLinear(logs, root.log, height, others, rest, 1, Unit(n, j));
    WalkAtLeast(logs, root.log, height, rest);
  }

  /** The walk over a collected tree comes to every log once exactly when no parent's id is had by two logs. */
  lemma {:induction false} VisitedOnceWhen(logs: seq<Log>, root: Dir, height: seq<nat>)
    requires StatesIds(logs) && Walkable(logs, root.log, height)
    requires Placed(logs, root, None) && HoldsAll(logs, root)
    ensures (forall i :: 0 <= i < |logs| ==> Visits(logs, root.log, height, i) == 1) <==> OneParent(logs)
  {
    hide StatesIds, Walkable, Placed, HoldsAll, Visits;
    if OneParent(logs) {
      forall i | 0 <= i < |logs|
        ensures Visits(logs, root.log, height, i) == 1
      {
        VisitedOnce(logs, root, height, i);
      }
    } else {
      var i: nat, j: nat, k: nat :|
        j < |logs| && k < |logs| && IsChild(logs, i, j) && IsChild(logs, i, k) && j != k;
      VisitedTwice(logs, root, height, i, j, k);
    }
  }

  // Both walks end.

  /** How many logs are below log `i`, itself included. */
  ghost function HeightOf(d: Dir, i: nat): nat
    decreases d, |d.children| + 1
  {
    if i == d.log then |Indices(d)| else HeightIn(d, |d.children|, i)
  }

  ghost function HeightIn(d: Dir, n: nat, i: nat): nat
    requires n <= |d.children|
    decreases d, n
  {
    if n == 0 then 0
    else if i in Indices(d.children[n - 1]) then HeightOf(d.children[n - 1], i)
    else HeightIn(d, n - 1, i)
  }

  lemma {:induction false} HeightInChild(d: Dir, n: nat, j: nat, i: nat)
    requires j < n <= |d.children| && SeparateIn(d, n) && i in Indices(d.children[j])
    ensures HeightIn(d, n, i) == HeightOf(d.children[j], i)
  {
    hide Indices, HeightOf, Separate;
    SeparateAt(d, n, j, n - 1);
    if j < n - 1 {
      HeightInChild(d, n - 1, j, i);
    }
  }

  lemma {:induction false} HeightFalls(logs: seq<Log>, d: Dir, parent: Option<string>, i: nat, k: nat)
    requires WellHeld(logs, d, parent)
    requires i < |logs| && k in Indices(d) && logs[i].ParentId() == Some(logs[k].EpisodeId())
    ensures HeightOf(d, i) < HeightOf(d, k)
    decreases d
  {
    var j := GoesBelow(logs, d, parent, i, k);
    var child := d.children[j];
    ClosedChild(logs, d, parent, j);
    ChildIndices(d, |d.children|, j);
    SeparateHeld(logs, d, parent);
    assert i != d.log;
    HeightInChild(d, |d.children|, j, i);
    if i == child.log {
      SmallerBelow(d, j);
    } else {
      assert k != d.log;
      HeightInChild(d, |d.children|, j, k);
      HeightFalls(logs, child, Some(AgentId(logs[d.log])), i, k);
    }
  }

  lemma {:induction false} SmallerBelow(d: Dir, j: nat)
    requires j < |d.children| && Separate(d)
    ensures |Indices(d.children[j])| < |Indices(d)|
  {
    ChildIndices(d, |d.children|, j);
    var child, all := Indices(d.children[j]), Indices(d);
    assert child <= all - {d.log};
    SubsetSize(child, all - {d.log});
  }

  ghost predicate AllWalkable(logs: seq<Log>, height: seq<nat>) {
    forall k :: 0 <= k < |logs| ==> Walkable(logs, k, height)
  }

  lemma {:induction false} TopmostFounded(logs: seq<Log>, root: Dir) returns (height: seq<nat>)
    requires Identified(logs) && Placed(logs, root, None) && HoldsAll(logs, root) && Topmost(logs, root)
    ensures AllWalkable(logs, height)
  {
    RootWellHeld(logs, root);
    height := seq(|logs|, i requires 0 <= i < |logs| => HeightOf(root, i));
    forall k, c | 0 <= k < |logs| && 0 <= c < |logs| && logs[c].ParentId() == Some(logs[k].EpisodeId())
      ensures height[c] < height[k]
    {
      assert k in Indices(root);
      HeightFalls(logs, root, None, c, k);
    }
    forall k | 0 <= k < |logs|
      ensures height[k] > 0
    {
      HeightPositive(root, k);
    }
  }

  /**
   * When no parent's id is had by two logs, the walk over a collected tree ends exactly when the root's parent is no
   * log of the tree, and then the walk below every log of it does.
   */
  lemma {:induction false} TreeFounded(logs: seq<Log>, root: Dir)
    requires Identified(logs) && Placed(logs, root, None) && HoldsAll(logs, root)
    ensures (exists height :: Walkable(logs, root.log, height)) <==> Topmost(logs, root)
    ensures Topmost(logs, root) ==> exists height :: AllWalkable(logs, height)
  {
    hide OneParent, PlacedIn, HoldsAll;
    if height :| Walkable(logs, root.log, height) {
      WalkedIsTopmost(logs, root, height);
    }
    if Topmost(logs, root) {
      var height := TopmostFounded(logs, root);
      assert Walkable(logs, root.log, height);
    }
  }

  lemma {:induction false} HeightPositive(d: Dir, i: nat)
    requires i in Indices(d)
    ensures HeightOf(d, i) > 0
    decreases d, |d.children| + 1
  {
    if i == d.log {
      assert d.log in Indices(d);
    } else {
      HeightInPositive(d, |d.children|, i);
    }
  }

  lemma {:induction false} HeightInPositive(d: Dir, n: nat, i: nat)
    requires n <= |d.children| && i in IndicesIn(d, n)
    ensures HeightIn(d, n, i) > 0
    decreases d, n
  {
    if i in Indices(d.children[n - 1]) {
      HeightPositive(d.children[n - 1], i);
    } else {
      HeightInPositive(d, n - 1, i);
    }
  }
}
