/** Accepted logs whose books are not what their subtree spent, or whose committed spend rises at a release. */
module BudgetCases {
  import opened Prelude
  import opened EpisodeLog
  import opened BudgetCheck
  import opened BudgetRuns
  import opened BudgetTree

  /** The one child, which makes one request. */
  const CHILD := Log("child", [
    Event(Some(0), true, EpisodeStart(Start(Some("c"), Some("p"), "", "", false, None))),
    Event(Some(1), true, ModelRequest(Named("a"), None, Some([]), [])),
    Event(Some(2), true, EpisodeEnd(None))])

  const HEIGHT: seq<nat> := [2, 1]

  function Parent(totals: Amounts): Event {
    Event(Some(0), true,
      EpisodeStart(Start(Some("p"), None, "", "", false, Some(Budget(totals, Default, Default)))))
  }

  function Two(events: seq<Event>): seq<Log> {
    [Log("parent", events), CHILD]
  }

  ghost predicate Parental(events: seq<Event>) {
    |events| > 0 && exists totals :: events[0] == Parent(totals)
  }

  lemma {:induction false} TwoShape(events: seq<Event>)
    requires Parental(events)
    ensures UniqueIds(Two(events)) && Walkable(Two(events), 0, HEIGHT) && Walkable(Two(events), 1, HEIGHT)
    ensures Two(events)[0].EpisodeId() == "p" && ById(Two(events), "c") == Some(1)
    ensures Children(Two(events), "p") == [1] && Children(Two(events), "c") == []
  {
    TwoStarts(events);
    var logs := Two(events);
    hide Two, Log.EpisodeId, Log.ParentId, Log.Started, Children;
    assert "p" != "c";
    ChildrenOfTwo(logs, "p");
    ChildrenOfTwo(logs, "c");
    TwoFounded(logs, HEIGHT);
  }

  lemma {:induction false} TwoStarts(events: seq<Event>)
    requires Parental(events)
    ensures var logs := Two(events);
      && |logs| == 2 && logs[1].Started().Some?
      && logs[0].ParentId() == None && logs[0].EpisodeId() == "p"
      && logs[1].ParentId() == Some("p") && logs[1].EpisodeId() == "c"
  {
  }

  lemma {:induction false} TwoFounded(logs: seq<Log>, height: seq<nat>)
    requires |logs| == 2 && height == [2, 1]
    requires logs[0].ParentId() == None && logs[1].ParentId() == Some(logs[0].EpisodeId())
    requires logs[0].EpisodeId() != logs[1].EpisodeId()
    ensures Walkable(logs, 0, height) && Walkable(logs, 1, height)
  {
  }

  lemma {:induction false} ChildrenOfTwo(logs: seq<Log>, id: string)
    requires |logs| == 2 && logs[0].ParentId() == None
    ensures Children(logs, id) == if logs[1].ParentId() == Some(id) then [1] else []
  {
    var none: seq<nat> := [];
    assert ChildrenIn(logs, 0, id) == none;
    assert ChildrenIn(logs, 1, id) == none;
  }

  lemma {:induction false} OwnNext(events: seq<Event>, i: nat)
    requires i < |events|
    ensures var before, next, more := Own(events[..i]), Own(events[..i + 1]), SpendOf(events[i].body);
      && next.calls == before.calls + more.calls
      && next.input == before.input + more.input
      && next.output == before.output + more.output
  {
    assert events[..i + 1][..i] == events[..i];
  }

  lemma {:induction false} OwnNone(events: seq<Event>)
    ensures var none := Own(events[..0]); none.calls == 0 && none.input == 0 && none.output == 0
  {
  }

  lemma {:induction false} OneRequest(events: seq<Event>)
    requires |events| == 3
    requires var first := SpendOf(events[0].body); first.calls == 0 && first.input == 0 && first.output == 0
    requires var middle := SpendOf(events[1].body); middle.calls == 1 && middle.input == 0 && middle.output == 0
    requires var last := SpendOf(events[2].body); last.calls == 0 && last.input == 0 && last.output == 0
    ensures var all := Own(events[..3]); all.calls == 1 && all.input == 0 && all.output == 0
  {
    hide Own, SpendOf;
    OwnNone(events);
    OwnNext(events, 0);
    OwnNext(events, 1);
    OwnNext(events, 2);
  }

  lemma {:induction false} ChildOwn()
    ensures Own(CHILD.events) == Spend(1, 0, 0)
  {
    hide Own;
    OneRequest(CHILD.events);
    assert CHILD.events[..3] == CHILD.events;
  }

  lemma {:induction false} ChildSubtree(events: seq<Event>)
    requires Parental(events)
    ensures Walkable(Two(events), 1, HEIGHT) && Subtree(Two(events), 1, HEIGHT) == Spend(1, 0, 0)
    ensures Size(Two(events), 1, HEIGHT) == 1
    ensures MeasuredSpend(Two(events), HEIGHT, "c") == Some(Spend(1, 0, 0))
  {
    TwoShape(events);
    ChildOwn();
    var logs := Two(events);
    hide Own, Children, ById, Founded;
    assert logs[1].EpisodeId() == "c";
    assert SubtreeOver(logs, [], 0, 1, HEIGHT) == NoSpend && SizeOver(logs, [], 0, 1, HEIGHT) == 0;
  }

  lemma {:induction false} ParentSubtree(events: seq<Event>)
    requires Parental(events)
    ensures Walkable(Two(events), 0, HEIGHT)
    ensures Subtree(Two(events), 0, HEIGHT) == Own(events).Plus(Spend(1, 0, 0)) && Size(Two(events), 0, HEIGHT) == 2
  {
    TwoShape(events);
    ChildSubtree(events);
    var logs := Two(events);
    hide Own, Children, ById;
    OnlyChild(logs);
  }

  lemma {:induction false} OnlyChild(logs: seq<Log>)
    requires Walkable(logs, 0, HEIGHT) && Walkable(logs, 1, HEIGHT) && Children(logs, logs[0].EpisodeId()) == [1]
    ensures Subtree(logs, 0, HEIGHT) == Own(logs[0].events).Plus(Subtree(logs, 1, HEIGHT))
    ensures Size(logs, 0, HEIGHT) == 1 + Size(logs, 1, HEIGHT)
  {
    hide Own;
    assert SubtreeOver(logs, [1], 0, 0, HEIGHT) == NoSpend && SizeOver(logs, [1], 0, 0, HEIGHT) == 0;
    assert SubtreeOver(logs, [1], 1, 0, HEIGHT) == NoSpend.Plus(Subtree(logs, 1, HEIGHT));
    assert SizeOver(logs, [1], 1, 0, HEIGHT) == Size(logs, 1, HEIGHT);
  }

  /** After `i` events the account is `a`, and every event so far met its checks. */
  ghost predicate Reached(events: seq<Event>, i: nat, a: Account) {
    && Parental(events) && i <= |events| && AdmitsAll(Two(events), 0, HEIGHT, i) && Books(events[..i]) == a
    && forall j :: 0 <= j < i ==> Measurable(Two(events), HEIGHT, Books(events[..j]), events[j].body)
  }

  lemma {:induction false} ReachesNext(events: seq<Event>, i: nat, a: Account)
    requires Reached(events, i, a) && i < |events|
    requires Admits(Two(events), 0, HEIGHT, a, events[i].body)
    ensures Reached(events, i + 1, Book(a, events[i].body))
  {
    hide Admits, Book;
    TwoShape(events);
    assert events[..i + 1][..i] == events[..i];
    assert Measurable(Two(events), HEIGHT, a, events[i].body) by {
      OnlyChildMeasured(events, a, events[i].body);
    }
  }

  lemma {:induction false} OnlyChildMeasured(events: seq<Event>, a: Account, body: Body)
    requires Parental(events)
    ensures Measurable(Two(events), HEIGHT, a, body)
  {
    TwoShape(events);
    assert forall id :: ById(Two(events), id).Some? ==> Walkable(Two(events), ById(Two(events), id).value, HEIGHT);
  }

  lemma {:induction false} ReachesEnd(events: seq<Event>, a: Account)
    requires Reached(events, |events|, a) && a.active == map[] && a.running == {} && a.seen == {"c"}
    requires exists i :: 0 <= i < |events| && BudgetEvent(events[i].body)
    ensures Walkable(Two(events), 0, HEIGHT) && WalksEnd(Two(events), 0, HEIGHT) && Balanced(Two(events), 0, HEIGHT)
    ensures Books(events) == a
  {
    TwoShape(events);
    ParentSubtree(events);
    var logs := Two(events);
    hide Measurable, AdmitsAll, Size, Walkable, Children, Books;
    assert events[..|events|] == events;
    assert ChildIds(logs, [1]) == {"c"} by {
      assert logs[[1][0]].EpisodeId() == "c";
    }
  }

  const ONE := Amounts(Some(1), Some(0), Some(0))

  /** The events reserve, spawn and release the child, and then reserve and release it once more. */
  ghost predicate ReservesAgain(events: seq<Event>) {
    && |events| == 8
    && events[0] == Parent(Amounts(None, None, None))
    && events[1].body == events[5].body == BudgetReserve(Some("c"), Some(ONE))
    && events[2].body == SpawnStart(Some("c"))
    && events[3].body == SpawnEnd(Some("c"), None)
    && events[4].body == events[6].body == BudgetRelease(Some("c"), Some(ONE))
    && events[7].body.EpisodeEnd?
  }

  lemma {:induction false} ReachesStart(events: seq<Event>)
    requires Parental(events)
    ensures Reached(events, 0, NoAccount)
  {
    assert events[..0] == [];
  }

  /** The child's log ends with the outcome the parent states, and is the parent's. */
  lemma {:induction false} ChildFits(events: seq<Event>)
    requires Parental(events)
    ensures ChildOk(Two(events), 0, "c", None)
  {
    TwoShape(events);
    assert LastOutcome(CHILD.events) == None;
  }

  lemma {:induction false} ReleasesOne(events: seq<Event>, reserved: Amounts, d: Dim)
    requires Parental(events) && reserved == ONE
    ensures ReleasedOk(Two(events), HEIGHT, "c", reserved, ONE, d)
  {
    ChildSubtree(events);
    hide MeasuredSpend, ById;
  }

  // One step for each kind of event.

  lemma {:induction false} Quiet(events: seq<Event>, i: nat, a: Account)
    requires Reached(events, i, a) && i < |events| && (events[i].body.EpisodeStart? || events[i].body.EpisodeEnd?)
    ensures Reached(events, i + 1, a)
  {
    hide Reached;
    ReachesNext(events, i, a);
  }

  lemma {:induction false} Reserves(events: seq<Event>, i: nat, a: Account, reserved: Amounts)
    requires Reached(events, i, a) && i < |events| && events[i].body == BudgetReserve(Some("c"), Some(reserved))
    requires a.active == map[] && ReserveOk(a, BudgetOf(Two(events)[0]), Some("c"), Some(reserved))
    ensures Reached(events, i + 1, a.(active := map["c" := reserved]))
  {
    hide Reached, ReserveOk;
    ReachesNext(events, i, a);
    assert a.active["c" := reserved] == map["c" := reserved];
  }

  lemma {:induction false} Spawns(events: seq<Event>, i: nat, a: Account)
    requires Parental(events) && Reached(events, i, a) && i < |events| && events[i].body == SpawnStart(Some("c"))
    requires "c" in a.active && a.running == {} && a.seen == {}
    ensures Reached(events, i + 1, a.(running := {"c"}, seen := {"c"}))
  {
    hide Reached;
    assert a.running + {"c"} == {"c"} && a.seen + {"c"} == {"c"};
    assert SpawnStartOk(a, BudgetOf(Two(events)[0]), Some("c"));
    ReachesNext(events, i, a);
  }

  lemma {:induction false} Settles(events: seq<Event>, i: nat, a: Account)
    requires Parental(events) && Reached(events, i, a) && i < |events| && events[i].body == SpawnEnd(Some("c"), None)
    requires a.running == {"c"}
    ensures Reached(events, i + 1, a.(running := {}))
  {
    ChildFits(events);
    hide Reached, ChildOk;
    ReachesNext(events, i, a);
    assert a.running - {"c"} == {};
  }

  lemma {:induction false} Releases(events: seq<Event>, i: nat, a: Account, reserved: Amounts, spent: Amounts)
    requires Reached(events, i, a) && i < |events| && events[i].body == BudgetRelease(Some("c"), Some(spent))
    requires a.active == map["c" := reserved]
    requires forall d: Dim :: ReleasedOk(Two(events), HEIGHT, "c", reserved, spent, d)
    ensures Reached(events, i + 1, a.(active := map[], child := a.child.Plus(Stated(spent))))
  {
    hide Reached, ReleasedOk;
    ReachesNext(events, i, a);
    assert a.active - {"c"} == map[];
  }

  lemma {:induction false} Unbounded(events: seq<Event>, a: Account, reserved: Amounts)
    requires |events| > 0 && events[0] == Parent(Amounts(None, None, None)) && a.active == map[]
    ensures ReserveOk(a, BudgetOf(Two(events)[0]), Some("c"), Some(reserved))
  {
  }

  lemma {:induction false} ReleasesOnes(events: seq<Event>)
    requires Parental(events)
    ensures forall d: Dim :: ReleasedOk(Two(events), HEIGHT, "c", ONE, ONE, d)
  {
    forall d: Dim
      ensures ReleasedOk(Two(events), HEIGHT, "c", ONE, ONE, d)
    {
      ReleasesOne(events, ONE, d);
    }
  }

  lemma {:induction false} ParentAt(events: seq<Event>, totals: Amounts)
    requires |events| > 0 && events[0] == Parent(totals)
    ensures Parental(events) && events[0].body.EpisodeStart?
  {
  }

  lemma {:induction false} ReservedAgainReaches(events: seq<Event>) returns (a: Account)
    requires ReservesAgain(events)
    ensures Parental(events) && Reached(events, 8, a)
    ensures a.active == map[] && a.running == {} && a.seen == {"c"}
    ensures a.child == NoSpend.Plus(Stated(ONE)).Plus(Stated(ONE))
  {
    ParentAt(events, Amounts(None, None, None));
    ReleasesOnes(events);
    hide Reached, ReleasedOk, ReserveOk, Parental, Two, BudgetOf, Stated, Parent;
    ReachesStart(events);
    var held := map["c" := ONE];
    a := NoAccount;
    Quiet(events, 0, a);
    Unbounded(events, a, ONE);
    Reserves(events, 1, a, ONE);
    a := a.(active := held);
    Spawns(events, 2, a);
    a := a.(running := {"c"}, seen := {"c"});
    Settles(events, 3, a);
    a := a.(running := {});
    Releases(events, 4, a, ONE, ONE);
    a := a.(active := map[], child := a.child.Plus(Stated(ONE)));
    Unbounded(events, a, ONE);
    Reserves(events, 5, a, ONE);
    a := a.(active := held);
    Releases(events, 6, a, ONE, ONE);
    a := a.(active := map[], child := a.child.Plus(Stated(ONE)));
    Quiet(events, 7, a);
  }

  lemma {:induction false} ReservesAgainBooks(events: seq<Event>)
    requires ReservesAgain(events)
    ensures var logs := Two(events);
      && UniqueIds(logs) && Walkable(logs, 0, HEIGHT) && WalksEnd(logs, 0, HEIGHT) && Balanced(logs, 0, HEIGHT)
      && Books(events).own.calls + Books(events).child.calls == 2
      && Subtree(logs, 0, HEIGHT).calls == 1
  {
    var a := ReservedAgainReaches(events);
    TwoShape(events);
    ParentSubtree(events);
    BooksOwn(events);
    assert BudgetEvent(events[1].body);
    ReservesNothingOwn(events);
    TwoOnes();
    hide Reached, Own, Books, Subtree, WalksEnd, Balanced, Walkable, Stated, Parental, Two, Founded;
    ReachesEnd(events, a);
  }

  function ReservedAgain(): seq<Event> {
    [Parent(Amounts(None, None, None)),
     Event(Some(1), true, BudgetReserve(Some("c"), Some(ONE))),
     Event(Some(2), true, SpawnStart(Some("c"))),
     Event(Some(3), true, SpawnEnd(Some("c"), None)),
     Event(Some(4), true, BudgetRelease(Some("c"), Some(ONE))),
     Event(Some(5), true, BudgetReserve(Some("c"), Some(ONE))),
     Event(Some(6), true, BudgetRelease(Some("c"), Some(ONE))),
     Event(Some(7), true, EpisodeEnd(None))]
  }

  lemma {:induction false} ReservedAgainIs()
    ensures ReservesAgain(ReservedAgain())
  {
  }

  /** An accepted log that books its one child twice. */
  lemma {:induction false} BookedTwice()
    ensures var events := ReservedAgain(); var logs := Two(events);
      && UniqueIds(logs) && Walkable(logs, 0, HEIGHT) && WalksEnd(logs, 0, HEIGHT) && Balanced(logs, 0, HEIGHT)
      && Books(events).own.calls + Books(events).child.calls == 2
      && Subtree(logs, 0, HEIGHT).calls == 1
  {
    ReservedAgainIs();
    hide *;
    ReservesAgainBooks(ReservedAgain());
  }

  lemma {:induction false} TwoOnes()
    ensures NoSpend.Plus(Stated(ONE)).Plus(Stated(ONE)).calls == 2
  {
  }

  lemma {:induction false} NoRequests(events: seq<Event>)
    requires forall i :: 0 <= i < |events| ==> SpendOf(events[i].body).calls == 0
    ensures Own(events).calls == 0
  {
    hide SpendOf;
    if |events| > 0 {
      NoRequests(events[..|events| - 1]);
    }
  }

  lemma {:induction false} ReservesNothingOwn(events: seq<Event>)
    requires ReservesAgain(events)
    ensures Own(events).calls == 0
  {
    ParentAt(events, Amounts(None, None, None));
    hide Own;
    NoRequests(events);
  }

  const NEGATIVE := Amounts(Some(-1), Some(0), Some(0))

  /** The child's reservation is negative, and its release states nothing. */
  ghost predicate FreesNegative(events: seq<Event>) {
    && |events| == 6
    && events[0] == Parent(Amounts(Some(-1), None, None))
    && events[1].body == BudgetReserve(Some("c"), Some(NEGATIVE))
    && events[2].body == SpawnStart(Some("c"))
    && events[3].body == SpawnEnd(Some("c"), None)
    && events[4].body == BudgetRelease(Some("c"), Some(Amounts(None, None, None)))
    && events[5].body.EpisodeEnd?
  }

  lemma {:induction false} NegativeReserved()
    ensures ActiveTotal(map[]["c" := NEGATIVE], Calls) == -1 && ActiveTotal(map[], Calls) == 0
  {
    hide SumMap;
    var none: map<string, Amounts> := map[];
    var amounts := map id | id in none :: Amount(none[id], Calls).GetOr(0);
    SumMapEmpty(amounts);
    ActiveInsert(none, "c", NEGATIVE, Calls);
  }

  lemma {:induction false} NegativeFits(events: seq<Event>)
    requires |events| > 0 && events[0] == Parent(Amounts(Some(-1), None, None))
    ensures ReserveOk(NoAccount, BudgetOf(Two(events)[0]), Some("c"), Some(NEGATIVE))
  {
    NegativeReserved();
    hide ActiveTotal;
  }

  lemma {:induction false} ReleasesSilently(events: seq<Event>)
    requires Parental(events)
    ensures forall d: Dim :: ReleasedOk(Two(events), HEIGHT, "c", NEGATIVE, Amounts(None, None, None), d)
  {
    forall d: Dim
      ensures ReleasedOk(Two(events), HEIGHT, "c", NEGATIVE, Amounts(None, None, None), d)
    {
      match d case Calls => case Input => case Output =>
    }
  }

  lemma {:induction false} FreedNegativeReaches(events: seq<Event>) returns (before: Account, a: Account)
    requires FreesNegative(events)
    ensures Parental(events) && Reached(events, 4, before) && Reached(events, 6, a)
    ensures before.active == map["c" := NEGATIVE] && before.child.calls == 0
    ensures a.active == map[] && a.running == {} && a.seen == {"c"}
    ensures a.child == NoSpend.Plus(Stated(Amounts(None, None, None)))
  {
    var none := Amounts(None, None, None);
    ParentAt(events, Amounts(Some(-1), None, None));
    ReleasesSilently(events);
    NegativeFits(events);
    hide Reached, ReleasedOk, ReserveOk, Parental, Two, BudgetOf, Stated, Parent;
    ReachesStart(events);
    a := NoAccount;
    Quiet(events, 0, a);
    Reserves(events, 1, a, NEGATIVE);
    a := a.(active := map["c" := NEGATIVE]);
    Spawns(events, 2, a);
    a := a.(running := {"c"}, seen := {"c"});
    Settles(events, 3, a);
    a := a.(running := {});
    before := a;
    Releases(events, 4, a, NEGATIVE, none);
    a := a.(active := map[], child := a.child.Plus(Stated(none)));
    Quiet(events, 5, a);
  }

  lemma {:induction false} ReachedBooks(events: seq<Event>, i: nat, a: Account)
    requires Reached(events, i, a)
    ensures Parental(events) && i <= |events| && Books(events[..i]) == a
  {
  }

  lemma {:induction false} FreedNegativeEnds(events: seq<Event>) returns (before: Account, a: Account)
    requires FreesNegative(events)
    ensures Parental(events) && Reached(events, 4, before) && Reached(events, |events|, a)
    ensures before.active == map["c" := NEGATIVE] && before.child.calls == 0
    ensures a.active == map[] && a.running == {} && a.seen == {"c"} && a.child.calls == 0
  {
    hide Reached, Parental, Parent, Stated;
    before, a := FreedNegativeReaches(events);
    NothingStated();
  }

  lemma {:induction false} FreesNegativeRises(events: seq<Event>)
    requires FreesNegative(events)
    ensures var logs := Two(events);
      && WalksEnd(logs, 0, HEIGHT) && Balanced(logs, 0, HEIGHT)
      && Committed(Books(events[..4]), Calls) == -1 && Committed(Books(events[..6]), Calls) == 0
      && Committable(events, -1, 6, Calls) == -1
  {
    var before, a := FreedNegativeEnds(events);
    assert BudgetEvent(events[1].body);
    hide Reached, Own, Books, WalksEnd, Balanced, Committed, Committable, Parental, Parent, Two, Stated, BudgetEvent;
    FreedCommits(before, a);
    LastReserved(events);
    ReachedBooks(events, 4, before);
    ReachedBooks(events, 6, a);
    ReachesEnd(events, a);
  }

  lemma {:induction false} FreedCommits(before: Account, a: Account)
    requires before.active == map["c" := NEGATIVE] && before.child.calls == 0
    requires a.active == map[] && a.child.calls == 0
    ensures Committed(before, Calls) == -1 && Committed(a, Calls) == 0
  {
    NegativeReserved();
    hide ActiveTotal;
    assert map[]["c" := NEGATIVE] == map["c" := NEGATIVE];
  }

  lemma {:induction false} NothingStated()
    ensures NoSpend.Plus(Stated(Amounts(None, None, None))).calls == 0
  {
  }

  lemma {:induction false} FreesNothingOwn(events: seq<Event>)
    requires FreesNegative(events)
    ensures Own(events).calls == 0
  {
    ParentAt(events, Amounts(Some(-1), None, None));
    hide Own;
    NoRequests(events);
  }

  lemma {:induction false} FreesNegativeBooks(events: seq<Event>)
    requires FreesNegative(events)
    ensures var logs := Two(events);
      && UniqueIds(logs) && Walkable(logs, 0, HEIGHT) && WalksEnd(logs, 0, HEIGHT) && Balanced(logs, 0, HEIGHT)
      && Books(events).own.calls + Books(events).child.calls == 0
      && Subtree(logs, 0, HEIGHT).calls == 1
  {
    var _, a := FreedNegativeEnds(events);
    TwoShape(events);
    ParentSubtree(events);
    BooksOwn(events);
    assert BudgetEvent(events[1].body);
    FreesNothingOwn(events);
    hide Reached, Own, Books, Subtree, WalksEnd, Balanced, Walkable, Stated, Parental, Two, Founded;
    ReachesEnd(events, a);
  }

  lemma {:induction false} ReserveStep(events: seq<Event>, i: nat)
    requires i < |events|
    ensures LastReserve(events[..i + 1]) == if events[i].body.BudgetReserve? then Some(i) else LastReserve(events[..i])
  {
    assert events[..i + 1][..i] == events[..i];
  }

  lemma {:induction false} LastReserved(events: seq<Event>)
    requires FreesNegative(events)
    ensures Committable(events, -1, 6, Calls) == -1
  {
    hide LastReserve, Own, SpendOf;
    ReserveStep(events, 1);
    ReserveStep(events, 2);
    ReserveStep(events, 3);
    ReserveStep(events, 4);
    ReserveStep(events, 5);
    ParentAt(events, Amounts(Some(-1), None, None));
    StartSpends(events);
  }

  lemma {:induction false} StartSpends(events: seq<Event>)
    requires |events| > 0 && events[0].body.EpisodeStart?
    ensures Own(events[..1]).calls == 0
  {
    OwnNone(events);
    OwnNext(events, 0);
  }

  function FreedNegative(): seq<Event> {
    [Parent(Amounts(Some(-1), None, None)),
     Event(Some(1), true, BudgetReserve(Some("c"), Some(NEGATIVE))),
     Event(Some(2), true, SpawnStart(Some("c"))),
     Event(Some(3), true, SpawnEnd(Some("c"), None)),
     Event(Some(4), true, BudgetRelease(Some("c"), Some(Amounts(None, None, None)))),
     Event(Some(5), true, EpisodeEnd(None))]
  }

  lemma {:induction false} FreedNegativeIs()
    ensures FreesNegative(FreedNegative())
  {
  }

  /** An accepted log whose committed spend rises above its bound at a release. */
  lemma {:induction false} CommittedRises()
    ensures var events := FreedNegative(); var logs := Two(events);
      && |events| == 6 && WalksEnd(logs, 0, HEIGHT) && Balanced(logs, 0, HEIGHT)
      && Committed(Books(events[..4]), Calls) == -1 && Committed(Books(events[..6]), Calls) == 0
      && Committable(events, -1, 6, Calls) == -1
  {
    FreedNegativeIs();
    hide Books, Committed, Committable, WalksEnd, Balanced, FreedNegative;
    FreesNegativeRises(FreedNegative());
  }

  /** The same log books nothing for its child. */
  lemma {:induction false} BookedNever()
    ensures var events := FreedNegative(); var logs := Two(events);
      && UniqueIds(logs) && Walkable(logs, 0, HEIGHT) && WalksEnd(logs, 0, HEIGHT) && Balanced(logs, 0, HEIGHT)
      && Books(events).own.calls + Books(events).child.calls == 0
      && Subtree(logs, 0, HEIGHT).calls == 1
  {
    FreedNegativeIs();
    hide *;
    FreesNegativeBooks(FreedNegative());
  }
}
