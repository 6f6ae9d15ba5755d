/** An accepted log two of whose children have one id, and whose books hold but the one spend. */
module BudgetTwins {
  import opened Prelude
  import opened EpisodeLog
  import opened BudgetCheck
  import opened BudgetTree
  import opened BudgetRuns
  import opened BudgetCases
  import opened Walks

  const TWINHEIGHT: seq<nat> := [2, 1, 1]

  /** The parent and two logs of the one child id. */
  function Three(events: seq<Event>): seq<Log> {
    [Log("parent", events), Log("twin", CHILD.events), CHILD]
  }

  /** The events reserve, spawn and release the child once. */
  ghost predicate ReservesOnce(events: seq<Event>) {
    && |events| == 6
    && events[0] == Parent(Amounts(None, None, None))
    && events[1].body == BudgetReserve(Some("c"), Some(ONE))
    && events[2].body == SpawnStart(Some("c"))
    && events[3].body == SpawnEnd(Some("c"), None)
    && events[4].body == BudgetRelease(Some("c"), Some(ONE))
    && events[5].body.EpisodeEnd?
  }

  lemma {:induction false} ThreeStarts(events: seq<Event>)
    requires Parental(events)
    ensures var logs := Three(events);
      && |logs| == 3 && logs[0].events == events
      && logs[0].ParentId() == None && logs[0].EpisodeId() == "p" && logs[2].Started().Some?
      && logs[1].ParentId() == logs[2].ParentId() == Some("p")
      && logs[1].EpisodeId() == logs[2].EpisodeId() == "c"
  {
  }

  lemma {:induction false} ThreeHoldTwo(events: seq<Event>)
    ensures var logs, pair := Three(events), Two(events);
      |logs| == 3 && |pair| == 2 && logs[0] == pair[0] && logs[2] == pair[1]
  {
  }

  lemma {:induction false} ThreeOwn(events: seq<Event>)
    ensures var logs := Three(events);
      |logs| == 3 && Own(logs[1].events) == Own(logs[2].events) == Spend(1, 0, 0)
  {
    ChildOwn();
    hide Own;
  }

  lemma {:induction false} ChildrenOfThree(logs: seq<Log>, id: string)
    requires |logs| == 3 && logs[0].ParentId() == None && logs[1].ParentId() == logs[2].ParentId() == Some("p")
    ensures Children(logs, id) == if id == "p" then [1, 2] else []
  {
    var none: seq<nat> := [];
    assert ChildrenIn(logs, 0, id) == none;
    assert ChildrenIn(logs, 1, id) == none;
    assert ChildrenIn(logs, 2, id) == if id == "p" then [1] else none;
  }

  lemma {:induction false} ThreeWalkable(logs: seq<Log>, height: seq<nat>)
    requires |logs| == 3 && height == [2, 1, 1]
    requires logs[0].ParentId() == None && logs[1].ParentId() == logs[2].ParentId() == Some(logs[0].EpisodeId())
    requires logs[1].EpisodeId() == logs[2].EpisodeId() != logs[0].EpisodeId()
    ensures Walkable(logs, 0, height) && Walkable(logs, 1, height) && Walkable(logs, 2, height)
  {
  }

  lemma {:induction false} TwinsShape(logs: seq<Log>, height: seq<nat>)
    requires |logs| == 3 && logs[2].Started().Some? && logs[1].EpisodeId() == logs[2].EpisodeId() == "c"
    requires forall k: nat :: k < 3 ==> Walkable(logs, k, height)
    requires Children(logs, logs[0].EpisodeId()) == [1, 2] && Children(logs, "c") == []
    requires Own(logs[1].events) == Own(logs[2].events) == Spend(1, 0, 0)
    ensures ById(logs, "c") == Some(2)
    ensures Subtree(logs, 0, height).calls == Own(logs[0].events).calls + 2 && Size(logs, 0, height) == 3
    ensures MeasuredSpend(logs, height, "c") == Some(Spend(1, 0, 0))
  {
    hide Log.EpisodeId, Log.Started, Children, Own, Founded, Subtree, Size;
    LeafSpend(logs, 1, height);
    LeafSpend(logs, 2, height);
    TwoChildrenSpend(logs, 0, height, 1, 2);
  }

  lemma {:induction false} ThreeTree(events: seq<Event>)
    requires Parental(events)
    ensures var logs := Three(events);
      && |logs| == 3 && logs[0].events == events && logs[2].Started().Some?
      && (forall k: nat :: k < 3 ==> Walkable(logs, k, TWINHEIGHT))
      && logs[0].EpisodeId() == "p" && logs[1].EpisodeId() == logs[2].EpisodeId() == "c"
      && Children(logs, "p") == [1, 2] && Children(logs, "c") == []
  {
    var logs := Three(events);
    ThreeStarts(events);
    hide Three, Log.EpisodeId, Log.ParentId, Log.Started, Children, Founded, Parental;
    assert "p" != "c";
    ChildrenOfThree(logs, "p");
    ChildrenOfThree(logs, "c");
    ThreeWalkable(logs, TWINHEIGHT);
  }

  lemma {:induction false} ThreeShape(events: seq<Event>)
    requires Parental(events)
    ensures var logs := Three(events);
      && (forall k: nat :: k < 3 ==> Walkable(logs, k, TWINHEIGHT))
      && logs[0].EpisodeId() == "p" && logs[1].EpisodeId() == logs[2].EpisodeId() == "c"
      && Children(logs, "p") == [1, 2] && ById(logs, "c") == Some(2)
      && Subtree(logs, 0, TWINHEIGHT).calls == Own(events).calls + 2 && Size(logs, 0, TWINHEIGHT) == 3
      && MeasuredSpend(logs, TWINHEIGHT, "c") == Some(Spend(1, 0, 0))
  {
    hide Three, Log.EpisodeId, Log.Started, Children, Own, Founded, Subtree, Size, Parental, ById, MeasuredSpend;
    ThreeTree(events);
    ThreeOwn(events);
    TwinsShape(Three(events), TWINHEIGHT);
  }

  /** Both sets of logs record an equal log under the id, and measure the same below it. */
  ghost predicate SameUnder(logs: seq<Log>, height: seq<nat>, others: seq<Log>, heights: seq<nat>, id: string) {
    && ById(logs, id).Some? && ById(others, id).Some?
    && logs[ById(logs, id).value] == others[ById(others, id).value]
    && MeasuredSpend(logs, height, id) == MeasuredSpend(others, heights, id)
  }

  /** The event is no budget event, or one of the child. */
  predicate OfChild(body: Body) {
    BudgetEvent(body) ==> body.childId == Some("c")
  }

  lemma {:induction false} AdmitsSame(
    logs: seq<Log>, height: seq<nat>, others: seq<Log>, heights: seq<nat>, a: Account, body: Body)
    requires |logs| > 0 && |others| > 0 && logs[0] == others[0] && SameUnder(logs, height, others, heights, "c")
    requires OfChild(body) && Admits(logs, 0, height, a, body)
    ensures Admits(others, 0, heights, a, body)
  {
    hide MeasuredSpend, ById, ReserveOk, OutputEnforced, LastOutcome;
  }

  lemma {:induction false} AdmitsAllSame(
    logs: seq<Log>, height: seq<nat>, others: seq<Log>, heights: seq<nat>, n: nat)
    requires |logs| > 0 && |others| > 0 && logs[0] == others[0] && SameUnder(logs, height, others, heights, "c")
    requires n <= |logs[0].events| && AdmitsAll(logs, 0, height, n)
    requires forall i :: 0 <= i < n ==> OfChild(logs[0].events[i].body)
    ensures AdmitsAll(others, 0, heights, n)
  {
    hide SameUnder, Admits, OfChild;
    if n > 0 {
      AdmitsAllSame(logs, height, others, heights, n - 1);
      AdmitsSame(logs, height, others, heights, Books(logs[0].events[..n - 1]), logs[0].events[n - 1].body);
    }
  }

  lemma {:induction false} OnceReaches(events: seq<Event>) returns (a: Account)
    requires ReservesOnce(events)
    ensures Parental(events) && Reached(events, 6, a)
    ensures a.active == map[] && a.running == {} && a.seen == {"c"} && a.child.calls == 1
  {
    ParentAt(events, Amounts(None, None, None));
    ReleasesOnes(events);
    OneStated();
    hide Reached, ReleasedOk, ReserveOk, Parental, Two, BudgetOf, Stated, Parent;
    ReachesStart(events);
    a := NoAccount;
    Quiet(events, 0, a);
    Unbounded(events, a, ONE);
    Reserves(events, 1, a, ONE);
    a := a.(active := map["c" := ONE]);
    Spawns(events, 2, a);
    a := a.(running := {"c"}, seen := {"c"});
    Settles(events, 3, a);
    a := a.(running := {});
    Releases(events, 4, a, ONE, ONE);
    a := a.(active := map[], child := a.child.Plus(Stated(ONE)));
    Quiet(events, 5, a);
  }

  lemma {:induction false} OneStated()
    ensures NoSpend.Plus(Stated(ONE)).calls == 1
  {
  }

  lemma {:induction false} OnceIsOfChild(events: seq<Event>)
    requires ReservesOnce(events)
    ensures forall i :: 0 <= i < |events| ==> OfChild(events[i].body)
    ensures BudgetEvent(events[1].body) && Own(events).calls == 0
  {
    ParentAt(events, Amounts(None, None, None));
    hide Own;
    NoRequests(events);
  }

  lemma {:induction false} TwinsMeasured(logs: seq<Log>, height: seq<nat>, a: Account, body: Body)
    requires OfChild(body) && ById(logs, "c").Some? && Walkable(logs, ById(logs, "c").value, height)
    ensures Measurable(logs, height, a, body)
  {
    hide ById, Walkable;
  }

  lemma {:induction false} TwinsClose(logs: seq<Log>, height: seq<nat>, a: Account)
    requires |logs| == 3 && a.active == map[] && a.running == {} && a.seen == {"c"}
    requires Children(logs, logs[0].EpisodeId()) == [1, 2] && logs[1].EpisodeId() == logs[2].EpisodeId() == "c"
    requires Walkable(logs, 0, height) && Size(logs, 0, height) == 3
    requires Episodes(BudgetOf(logs[0])) == Default
    ensures Closes(logs, 0, height, a)
  {
    hide Children, Size, Walkable, Log.EpisodeId;
    assert ChildIds(logs, [1, 2]) == {"c"} by {
      assert logs[[1, 2][0]].EpisodeId() == "c";
    }
  }

  lemma {:induction false} OnceBooks(events: seq<Event>)
    requires ReservesOnce(events)
    ensures var logs := Three(events);
      && Walkable(logs, 0, TWINHEIGHT) && WalksEnd(logs, 0, TWINHEIGHT) && Balanced(logs, 0, TWINHEIGHT)
      && Books(events).own.calls + Books(events).child.calls == 1
      && Subtree(logs, 0, TWINHEIGHT).calls == 2
  {
    var a := OnceReaches(events);
    var logs := Three(events);
    ThreeShape(events);
    ThreeHoldTwo(events);
    TwoShape(events);
    ChildSubtree(events);
    OnceIsOfChild(events);
    BooksOwn(events);
    assert events[..6] == events;
    assert Episodes(BudgetOf(logs[0])) == Default && BudgetOf(logs[0]).Some?;
    hide Own, Books, Subtree, Size, Children, ById, MeasuredSpend, Founded, Admits, OfChild, Log.EpisodeId;
    hide Log.ParentId, Log.Started, BudgetEvent, Measurable;
    assert AdmitsAll(Two(events), 0, HEIGHT, 6) && Books(events) == a;
    AdmitsAllSame(Two(events), HEIGHT, logs, TWINHEIGHT, 6);
    TwinsClose(logs, TWINHEIGHT, a);
    forall i | 0 <= i < |events|
      ensures Measurable(logs, TWINHEIGHT, Books(events[..i]), events[i].body)
    {
      TwinsMeasured(logs, TWINHEIGHT, Books(events[..i]), events[i].body);
    }
  }

  function ReservedOnce(): seq<Event> {
    [Parent(Amounts(None, None, None)),
     Event(Some(1), true, BudgetReserve(Some("c"), Some(ONE))),
     Event(Some(2), true, SpawnStart(Some("c"))),
     Event(Some(3), true, SpawnEnd(Some("c"), None)),
     Event(Some(4), true, BudgetRelease(Some("c"), Some(ONE))),
     Event(Some(5), true, EpisodeEnd(None))]
  }

  lemma {:induction false} ReservedOnceIs()
    ensures ReservesOnce(ReservedOnce())
  {
  }

  /** An accepted log that books one of two children with one id. */
  lemma {:induction false} TwinBookedOnce()
    ensures var events := ReservedOnce(); var logs := Three(events);
      && Walkable(logs, 0, TWINHEIGHT) && WalksEnd(logs, 0, TWINHEIGHT) && Balanced(logs, 0, TWINHEIGHT)
      && Books(events).own.calls + Books(events).child.calls == 1
      && Subtree(logs, 0, TWINHEIGHT).calls == 2
  {
    ReservedOnceIs();
    hide *;
    OnceBooks(ReservedOnce());
  }
}
