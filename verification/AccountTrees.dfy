/** Directory trees that are collected without error although ids repeat or are missing in them. */
module AccountTrees {
  import opened Prelude
  import opened EpisodeLog
  import opened BudgetCheck
  import opened Walks
  import opened Accounts
  import opened AccountTree
  import opened AccountsAgree

  /** A log that does no more than start. */
  function Idle(path: string, id: Option<string>, parent: Option<string>): Log {
    Log(path, [Event(Some(0), true, EpisodeStart(Start(id, parent, "", "", false, None)))])
  }

  /** A log that makes one request. */
  function Asking(path: string, id: Option<string>, parent: Option<string>): Log {
    Log(path, [
      Event(Some(0), true, EpisodeStart(Start(id, parent, "", "", false, None))),
      Event(Some(1), true, ModelRequest(Named("q"), None, Some([]), []))])
  }

  lemma {:induction false} IdleOwn(path: string, id: Option<string>, parent: Option<string>)
    ensures Own(Idle(path, id, parent).events).calls == 0
  {
    OwnCallsStep(Idle(path, id, parent).events);
    OwnCallsNone(Idle(path, id, parent).events[..0]);
  }

  lemma {:induction false} AskingOwn(path: string, id: Option<string>, parent: Option<string>)
    ensures Own(Asking(path, id, parent).events).calls == 1
  {
    hide Own;
    var events := Asking(path, id, parent).events;
    OwnCallsStep(events);
    assert events[..1] == [events[0]];
    OwnCallsStep([events[0]]);
    OwnCallsNone([events[0]][..0]);
  }

  lemma {:induction false} OwnCallsStep(events: seq<Event>)
    requires |events| > 0
    ensures Own(events).calls == Own(events[..|events| - 1]).calls
      + if events[|events| - 1].body.ModelRequest? then 1 else 0
  {
  }

  lemma {:induction false} OwnCallsNone(events: seq<Event>)
    requires |events| == 0
    ensures Own(events).calls == 0
  {
  }

  // A log that has its parent's id.

  const LOOP: seq<Log> := [Idle("r", Some("x"), None), Idle("c", Some("x"), Some("x"))]

  const LOOPED := Dir(0, [Dir(1, [])])

  lemma {:induction false} LeafIndices(d: Dir)
    requires d.children == []
    ensures Indices(d) == {d.log} && Separate(d)
  {
  }

  lemma {:induction false} LeafPlaced(logs: seq<Log>, d: Dir, parent: string)
    requires d.children == [] && d.log < |logs| && logs[d.log].ParentId() == Some(parent)
    ensures Placed(logs, d, Some(parent))
  {
  }

  lemma {:induction false} LoopsHaveNoHeight(logs: seq<Log>, height: seq<nat>)
    requires |logs| == 2 && Founded(logs, height)
    requires logs[1].ParentId() == Some(logs[0].EpisodeId()) == Some(logs[1].EpisodeId())
    ensures height[0] == height[1] == 0
  {
  }

  /** A collected tree over which the walk never ends. */
  lemma {:induction false} RepeatedIdLoops()
    ensures StatesIds(LOOP) && Placed(LOOP, LOOPED, None) && HoldsAll(LOOP, LOOPED)
    ensures forall height :: !Walkable(LOOP, LOOPED.log, height)
  {
    var logs: seq<Log> := LOOP;
    LeafIndices(Dir(1, []));
    LeafPlaced(logs, Dir(1, []), "x");
    forall height | Founded(logs, height)
      ensures height[0] == 0
    {
      LoopsHaveNoHeight(logs, height);
    }
  }

  // Two logs that have the id a third one names.

  const SHARED: seq<Log> := [
    Idle("r", Some("r"), None), Idle("a", Some("x"), Some("r")), Idle("b", Some("x"), Some("r")),
    Asking("c", Some("y"), Some("x"))]

  const SHARING := Dir(0, [Dir(1, [Dir(3, [])]), Dir(2, [])])

  const SHAREDHEIGHT: seq<nat> := [3, 2, 2, 1]

  lemma {:induction false} IndicesOfTwo(d: Dir)
    requires |d.children| == 2
    ensures Indices(d) == {d.log} + Indices(d.children[0]) + Indices(d.children[1])
    ensures Separate(d) <==>
      && d.log !in Indices(d.children[0]) + Indices(d.children[1])
      && Separate(d.children[0]) && Separate(d.children[1])
      && Indices(d.children[1]) !! Indices(d.children[0])
  {
    IndicesOfFirst(d);
    assert IndicesIn(d, 2) == IndicesIn(d, 1) + Indices(d.children[1]);
    assert SeparateIn(d, 2) <==>
      SeparateIn(d, 1) && Separate(d.children[1]) && Indices(d.children[1]) !! IndicesIn(d, 1);
  }

  lemma {:induction false} IndicesOfFirst(d: Dir)
    requires |d.children| > 0
    ensures IndicesIn(d, 1) == Indices(d.children[0])
    ensures SeparateIn(d, 1) <==> Separate(d.children[0])
  {
    hide Indices, Separate;
    assert IndicesIn(d, 0) == {} && SeparateIn(d, 0);
  }

  lemma {:induction false} IndicesOfOne(d: Dir)
    requires |d.children| == 1
    ensures Indices(d) == {d.log} + Indices(d.children[0])
    ensures Separate(d) <==> d.log !in Indices(d.children[0]) && Separate(d.children[0])
  {
    IndicesOfFirst(d);
  }

  lemma {:induction false} SharedHeld(logs: seq<Log>, root: Dir)
    requires |logs| == 4 && root == SHARING
    ensures HoldsAll(logs, root) && Indices(root) == {0, 1, 2, 3}
  {
    var inner := Dir(1, [Dir(3, [])]);
    LeafIndices(Dir(3, []));
    LeafIndices(Dir(2, []));
    IndicesOfOne(inner);
    IndicesOfTwo(root);
    hide Indices, Separate;
  }

  lemma {:induction false} PlacedOfOne(logs: seq<Log>, d: Dir, parent: Option<string>)
    requires |d.children| == 1 && d.log < |logs|
    ensures Placed(logs, d, parent) <==>
      && logs[d.log].Started().Some? && (parent.Some? ==> logs[d.log].ParentId() == parent)
      && Placed(logs, d.children[0], Some(AgentId(logs[d.log])))
  {
    PlacedOfFirst(logs, d, AgentId(logs[d.log]));
  }

  lemma {:induction false} PlacedOfFirst(logs: seq<Log>, d: Dir, id: string)
    requires |d.children| > 0
    ensures PlacedIn(logs, d, 1, id) <==> Placed(logs, d.children[0], Some(id))
  {
    hide Placed;
    assert PlacedIn(logs, d, 0, id);
  }

  lemma {:induction false} PlacedOfTwo(logs: seq<Log>, d: Dir, parent: Option<string>)
    requires |d.children| == 2 && d.log < |logs|
    ensures Placed(logs, d, parent) <==>
      && logs[d.log].Started().Some? && (parent.Some? ==> logs[d.log].ParentId() == parent)
      && Placed(logs, d.children[0], Some(AgentId(logs[d.log])))
      && Placed(logs, d.children[1], Some(AgentId(logs[d.log])))
  {
    PlacedOfFirst(logs, d, AgentId(logs[d.log]));
  }

  lemma {:induction false} SharedPlaced(logs: seq<Log>)
    requires logs == SHARED
    ensures StatesIds(logs) && Placed(logs, SHARING, None)
  {
    LeafPlaced(logs, Dir(3, []), "x");
    LeafPlaced(logs, Dir(2, []), "r");
    PlacedOfOne(logs, Dir(1, [Dir(3, [])]), Some("r"));
    PlacedOfTwo(logs, SHARING, None);
    hide Placed;
  }

  lemma {:induction false} SharedWalkable(logs: seq<Log>)
    requires logs == SHARED
    ensures forall k: nat :: k < 4 ==> Walkable(logs, k, SHAREDHEIGHT)
  {
  }

  lemma {:induction false} SharedChildren(logs: seq<Log>, id: string)
    requires logs == SHARED
    ensures Children(logs, id) == if id == "r" then [1, 2] else if id == "x" then [3] else []
  {
    var none: seq<nat> := [];
    assert ChildrenIn(logs, 0, id) == none;
    assert ChildrenIn(logs, 1, id) == none;
    assert ChildrenIn(logs, 2, id) == if id == "r" then [1] else none;
    assert ChildrenIn(logs, 3, id) == if id == "r" then [1, 2] else none;
  }

  lemma {:induction false} SharedOwn(logs: seq<Log>)
    requires logs == SHARED
    ensures forall i :: 0 <= i < 4 ==> Own(logs[i].events).calls == if i == 3 then 1 else 0
  {
    IdleOwn("r", Some("r"), None);
    IdleOwn("a", Some("x"), Some("r"));
    IdleOwn("b", Some("x"), Some("r"));
    AskingOwn("c", Some("y"), Some("x"));
    hide Own, Idle, Asking;
  }

  lemma {:induction false} SharedSubtree(logs: seq<Log>, height: seq<nat>)
    requires |logs| == 4 && forall k: nat :: k < 4 ==> Walkable(logs, k, height)
    requires Children(logs, logs[0].EpisodeId()) == [1, 2]
    requires Children(logs, logs[1].EpisodeId()) == Children(logs, logs[2].EpisodeId()) == [3]
    requires Children(logs, logs[3].EpisodeId()) == []
    requires forall i :: 0 <= i < 4 ==> Own(logs[i].events).calls == if i == 3 then 1 else 0
    ensures Subtree(logs, 0, height).calls == 2
  {
    hide Own, Children, Subtree, Founded, Log.EpisodeId;
    LeafSpend(logs, 3, height);
    OneChildSpend(logs, 1, height, 3);
    OneChildSpend(logs, 2, height, 3);
    TwoChildrenSpend(logs, 0, height, 1, 2);
  }

  lemma {:induction false} SharedIds(logs: seq<Log>)
    requires logs == SHARED
    ensures logs[0].EpisodeId() == "r" && logs[1].EpisodeId() == logs[2].EpisodeId() == "x"
    ensures logs[3].EpisodeId() == "y"
  {
  }

  lemma {:induction false} SumOfFour(values: seq<int>, s: set<nat>)
    requires |values| == 4 && s == {0, 1, 2, 3}
    ensures Over(values, s) == values[0] + values[1] + values[2] + values[3]
  {
    assert SumIn(values, s, 0) == 0;
    assert SumIn(values, s, 1) == values[0];
    assert SumIn(values, s, 2) == values[0] + values[1];
    assert SumIn(values, s, 3) == values[0] + values[1] + values[2];
  }

  lemma {:induction false} SharedWalk(logs: seq<Log>)
    requires logs == SHARED
    ensures Walkable(logs, 0, SHAREDHEIGHT) && Subtree(logs, 0, SHAREDHEIGHT).calls == 2
  {
    SharedWalkable(logs);
    SharedOwn(logs);
    SharedIds(logs);
    SharedChildren(logs, "r");
    SharedChildren(logs, "x");
    SharedChildren(logs, "y");
    assert |logs| == 4;
    hide Own, Children, Log.EpisodeId, Founded, Subtree, Idle, Asking;
    SharedSubtree(logs, SHAREDHEIGHT);
  }

  /** A collected tree of one model call, of which the walk counts two. */
  lemma {:induction false} SharedIdCountsTwice()
    ensures StatesIds(SHARED) && Placed(SHARED, SHARING, None) && HoldsAll(SHARED, SHARING)
    ensures Held(SHARED, SHARING) && Walkable(SHARED, SHARING.log, SHAREDHEIGHT)
    ensures |CallsOf(Gathered(SHARED, SHARING, 0))| == 1 && Subtree(SHARED, SHARING.log, SHAREDHEIGHT).calls == 2
  {
    var logs: seq<Log> := SHARED;
    SharedPlaced(logs);
    SharedHeld(logs, SHARING);
    SharedWalk(logs);
    SharedOwn(logs);
    hide Own, Founded, Subtree, Placed, Gathered, CallsOf, Indices, Separate, Over, StatesIds, Idle, Asking;
    PlacedHeld(logs, SHARING, None);
    GatheredCalls(logs, SHARING);
    SumOfFour(OwnValues(logs, Calls), Indices(SHARING));
  }

  // A root that states no id.

  const UNNAMED: seq<Log> := [Idle("r", None, None), Asking("c", Some("c"), Some("None"))]

  const UNNAMEDHEIGHT: seq<nat> := [1, 1]

  lemma {:induction false} UnnamedShape(logs: seq<Log>)
    requires logs == UNNAMED
    ensures Walkable(logs, 0, UNNAMEDHEIGHT) && Children(logs, logs[0].EpisodeId()) == []
    ensures Placed(logs, LOOPED, None)
  {
    assert logs[0].EpisodeId() == "r" && logs[1].EpisodeId() == "c" && logs[1].ParentId() == Some("None");
    var none: seq<nat> := [];
    assert ChildrenIn(logs, 0, "r") == none;
    assert ChildrenIn(logs, 1, "r") == none;
    LeafPlaced(logs, Dir(1, []), "None");
    PlacedOfOne(logs, LOOPED, None);
  }

  lemma {:induction false} UnnamedOwn(logs: seq<Log>)
    requires logs == UNNAMED
    ensures Own(logs[0].events).calls == 0 && Own(logs[1].events).calls == 1
  {
    IdleOwn("r", None, None);
    AskingOwn("c", Some("c"), Some("None"));
    hide Own, Idle, Asking;
  }

  lemma {:induction false} SumOfTwo(values: seq<int>, s: set<nat>)
    requires |values| == 2 && s == {0, 1}
    ensures Over(values, s) == values[0] + values[1]
  {
    assert SumIn(values, s, 0) == 0;
    assert SumIn(values, s, 1) == values[0];
  }

  lemma {:induction false} UnnamedHeld(logs: seq<Log>, root: Dir)
    requires |logs| == 2 && root == LOOPED
    ensures HoldsAll(logs, root) && Indices(root) == {0, 1}
  {
    LeafIndices(Dir(1, []));
    IndicesOfOne(root);
  }

  /** A collected tree of one model call, of which the walk counts none. */
  lemma {:induction false} UnnamedIdCountsNone()
    ensures Placed(UNNAMED, LOOPED, None) && HoldsAll(UNNAMED, LOOPED)
    ensures Held(UNNAMED, LOOPED) && Walkable(UNNAMED, LOOPED.log, UNNAMEDHEIGHT)
    ensures |CallsOf(Gathered(UNNAMED, LOOPED, 0))| == 1 && Subtree(UNNAMED, LOOPED.log, UNNAMEDHEIGHT).calls == 0
  {
    var logs: seq<Log> := UNNAMED;
    UnnamedShape(logs);
    UnnamedOwn(logs);
    UnnamedHeld(logs, LOOPED);
    hide Own, Children, Log.EpisodeId, Founded, Subtree, Placed, Gathered, CallsOf, Indices, Separate, Over;
    LeafSpend(logs, 0, UNNAMEDHEIGHT);
    PlacedHeld(logs, LOOPED, None);
    GatheredCalls(logs, LOOPED);
    SumOfTwo(OwnValues(logs, Calls), Indices(LOOPED));
  }
}
