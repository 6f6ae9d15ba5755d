/** What a parent's log books for its children, against what the logs below it spent. */
module BudgetTree {
  import opened Prelude
  import opened EpisodeLog
  import opened BudgetCheck
  import opened BudgetRuns

  ghost predicate UniqueIds(logs: seq<Log>) {
    forall i, j :: 0 <= i < j < |logs| ==> logs[i].EpisodeId() != logs[j].EpisodeId()
  }

  function ReservedIds(events: seq<Event>): set<string> {
    if |events| == 0 then {} else
      var before, body := ReservedIds(events[..|events| - 1]), events[|events| - 1].body;
      if body.BudgetReserve? && body.childId.Some? then before + {body.childId.value} else before
  }

  function ReleasedIds(events: seq<Event>): set<string> {
    if |events| == 0 then {} else
      var before, body := ReleasedIds(events[..|events| - 1]), events[|events| - 1].body;
      if body.BudgetRelease? && body.childId.Some? then before + {body.childId.value} else before
  }

  function SpawnedIds(events: seq<Event>): set<string> {
    if |events| == 0 then {} else
      var before, body := SpawnedIds(events[..|events| - 1]), events[|events| - 1].body;
      if body.SpawnStart? && body.childId.Some? then before + {body.childId.value} else before
  }

  // What the children of a log spent.

  /** What the subtree under `id` spent in one dimension, or nothing when no log records it. */
  ghost function Measured(logs: seq<Log>, height: seq<nat>, id: string, d: Dim): int {
    MeasuredSpend(logs, height, id).GetOr(NoSpend).Get(d)
  }

  lemma {:induction false} ByIdUnique(logs: seq<Log>, n: nat, k: nat)
    requires UniqueIds(logs) && k < n <= |logs| && logs[k].Started().Some?
    ensures ByIdIn(logs, n, logs[k].EpisodeId()) == Some(k)
  {
    if k < n - 1 {
      ByIdUnique(logs, n - 1, k);
    }
  }

  lemma {:induction false} ChildWalkable(logs: seq<Log>, children: seq<nat>, i: nat, k: nat, height: seq<nat>)
    requires Walkable(logs, k, height) && AreChildren(logs, children, k) && i < |children|
    ensures Walkable(logs, children[i], height) && logs[children[i]].Started().Some?
  {
  }

  /** What those of the first `n` children spent whose logs carry the id. */
  ghost function SpentUnder(
    logs: seq<Log>, children: seq<nat>, n: nat, k: nat, height: seq<nat>, id: string, d: Dim): int
    requires Walkable(logs, k, height) && n <= |children| && AreChildren(logs, children, k)
  {
    if n == 0 then 0 else
      ChildWalkable(logs, children, n - 1, k, height);
      SpentUnder(logs, children, n - 1, k, height, id, d)
        + if logs[children[n - 1]].EpisodeId() == id then Subtree(logs, children[n - 1], height).Get(d) else 0
  }

  ghost function UnderTerms(
    logs: seq<Log>, children: seq<nat>, n: nat, k: nat, height: seq<nat>, ids: set<string>, d: Dim): map<string, int>
    requires Walkable(logs, k, height) && n <= |children| && AreChildren(logs, children, k)
  {
    map id | id in ids :: SpentUnder(logs, children, n, k, height, id, d)
  }

  /** Summing what each id's children spent is summing over the children. */
  lemma {:induction false} ChildrenMeasure(
    logs: seq<Log>, children: seq<nat>, n: nat, k: nat, height: seq<nat>, ids: set<string>, d: Dim)
    requires Walkable(logs, k, height) && n <= |children| && AreChildren(logs, children, k)
    requires ChildIds(logs, children) <= ids
    ensures SumMap(UnderTerms(logs, children, n, k, height, ids, d)) == SubtreeOver(logs, children, n, k, height).Get(d)
  {
    hide Subtree, SumMap, Walkable, AreChildren;
    if n == 0 {
      SumMapZero(UnderTerms(logs, children, n, k, height, ids, d));
    } else {
      ChildrenMeasure(logs, children, n - 1, k, height, ids, d);
      ChildWalkable(logs, children, n - 1, k, height);
      OverStep(logs, children, n, k, height, d);
      var id, terms := logs[children[n - 1]].EpisodeId(), UnderTerms(logs, children, n - 1, k, height, ids, d);
      assert id in ids;
      var more := SpentUnder(logs, children, n, k, height, id, d);
      assert UnderTerms(logs, children, n, k, height, ids, d) == terms[id := more];
      SumMapUpdate(terms, id, more);
    }
  }

  lemma {:induction false} OverStep(
    logs: seq<Log>, children: seq<nat>, n: nat, k: nat, height: seq<nat>, d: Dim)
    requires Walkable(logs, k, height) && 0 < n <= |children| && AreChildren(logs, children, k)
    ensures Walkable(logs, children[n - 1], height)
    ensures SubtreeOver(logs, children, n, k, height).Get(d)
        == SubtreeOver(logs, children, n - 1, k, height).Get(d) + Subtree(logs, children[n - 1], height).Get(d)
  {
    hide Subtree;
  }

  // What a log books.

  /** The release is one of `id` and states an amount. */
  predicate StatesFor(body: Body, id: string, d: Dim) {
    body.BudgetRelease? && body.childId == Some(id) && body.spent.Some? && Amount(body.spent.value, d).Some?
  }

  /** How many releases of `id` state an amount. */
  function Statements(events: seq<Event>, id: string, d: Dim): nat {
    if |events| == 0 then 0 else
      Statements(events[..|events| - 1], id, d) + (if StatesFor(events[|events| - 1].body, id, d) then 1 else 0)
  }

  /** What a release states for a child that no log records. */
  function LooseAmount(logs: seq<Log>, body: Body, d: Dim): int {
    if body.BudgetRelease? && body.childId.Some? && body.spent.Some? && ById(logs, body.childId.value).None?
    then Amount(body.spent.value, d).GetOr(0) else 0
  }

  /** What releases state for children that no log records. */
  function Loose(logs: seq<Log>, events: seq<Event>, d: Dim): int {
    if |events| == 0 then 0 else
      Loose(logs, events[..|events| - 1], d) + LooseAmount(logs, events[|events| - 1].body, d)
  }

  /** For every id its statements times what its subtree spent. */
  ghost function BookedTerms(
    logs: seq<Log>, height: seq<nat>, events: seq<Event>, ids: set<string>, d: Dim): map<string, int> {
    map id | id in ids :: Statements(events, id, d) * Measured(logs, height, id, d)
  }

  lemma {:induction false} OneMore(n: int, m: int)
    ensures (n + 1) * m == n * m + m
  {
  }

  lemma {:induction false} BookedSame(logs: seq<Log>, height: seq<nat>, events: seq<Event>, ids: set<string>, d: Dim)
    requires |events| > 0
    requires forall id :: id in ids ==>
      !StatesFor(events[|events| - 1].body, id, d) || Measured(logs, height, id, d) == 0
    ensures BookedTerms(logs, height, events, ids, d) == BookedTerms(logs, height, events[..|events| - 1], ids, d)
  {
    hide Measured, StatesFor;
    forall id | id in ids
      ensures Statements(events, id, d) * Measured(logs, height, id, d)
          == Statements(events[..|events| - 1], id, d) * Measured(logs, height, id, d)
    {
      OneMore(Statements(events[..|events| - 1], id, d), Measured(logs, height, id, d));
    }
  }

  lemma {:induction false} BookedMore(
    logs: seq<Log>, height: seq<nat>, events: seq<Event>, ids: set<string>, id: string, d: Dim)
    requires |events| > 0 && id in ids && StatesFor(events[|events| - 1].body, id, d)
    ensures SumMap(BookedTerms(logs, height, events, ids, d))
        == SumMap(BookedTerms(logs, height, events[..|events| - 1], ids, d)) + Measured(logs, height, id, d)
  {
    hide Measured, SumMap;
    var before, m := events[..|events| - 1], Measured(logs, height, id, d);
    var terms := BookedTerms(logs, height, before, ids, d);
    assert forall other :: other != id ==> Statements(events, other, d) == Statements(before, other, d);
    assert BookedTerms(logs, height, events, ids, d) == terms[id := (Statements(before, id, d) + 1) * m];
    OneMore(Statements(before, id, d), m);
    SumMapUpdate(terms, id, (Statements(before, id, d) + 1) * m);
  }

  /** A release of a recorded child states what the child's subtree spent. */
  lemma {:induction false} StatesMeasured(logs: seq<Log>, height: seq<nat>, a: Account, body: Body, d: Dim)
    requires body.BudgetRelease? && ReleaseOk(logs, height, a, body.childId, body.spent)
    requires Measurable(logs, height, a, body)
    requires Amount(body.spent.value, d).Some?
    ensures var id := body.childId.value;
      if ById(logs, id).Some? then Amount(body.spent.value, d).value == Measured(logs, height, id, d)
      else Measured(logs, height, id, d) == 0
  {
    var id := body.childId.value;
    hide Subtree, Walkable;
    assert ReleasedOk(logs, height, id, a.active[id], body.spent.value, d);
  }

  lemma {:induction false} BooksRelease(logs: seq<Log>, height: seq<nat>, a: Account, body: Body, d: Dim)
    requires body.BudgetRelease? && ReleaseOk(logs, height, a, body.childId, body.spent)
    ensures Book(a, body).child.Get(d) == a.child.Get(d) + Amount(body.spent.value, d).GetOr(0)
  {
    hide ReleasedOk;
  }

  lemma {:induction false} BooksOther(a: Account, body: Body)
    requires !body.BudgetRelease?
    ensures Book(a, body).child == a.child
  {
  }

  lemma {:induction false} BookedStep(
    logs: seq<Log>, k: nat, height: seq<nat>, a: Account, events: seq<Event>, ids: set<string>, d: Dim)
    requires k < |logs| && |events| > 0 && ReleasedIds(events) <= ids
    requires Admits(logs, k, height, a, events[|events| - 1].body) &&
      Measurable(logs, height, a, events[|events| - 1].body)
    ensures Book(a, events[|events| - 1].body).child.Get(d) - a.child.Get(d)
        == SumMap(BookedTerms(logs, height, events, ids, d))
          - SumMap(BookedTerms(logs, height, events[..|events| - 1], ids, d))
          + LooseAmount(logs, events[|events| - 1].body, d)
  {
    var body := events[|events| - 1].body;
    if !body.BudgetRelease? {
      BooksOther(a, body);
      hide Book, BookedTerms, Measured, SumMap, Admits;
      BookedSame(logs, height, events, ids, d);
    } else {
      assert ReleaseOk(logs, height, a, body.childId, body.spent);
      var id := body.childId.value;
      assert id in ids;
      BooksRelease(logs, height, a, body, d);
      hide Book, BookedTerms, Measured, SumMap, Admits, ReleaseOk, Measurable;
      if Amount(body.spent.value, d).None? {
        BookedSame(logs, height, events, ids, d);
      } else {
        StatesMeasured(logs, height, a, body, d);
        if ById(logs, id).Some? {
          BookedMore(logs, height, events, ids, id, d);
        } else {
          BookedSame(logs, height, events, ids, d);
        }
      }
    }
  }

  /**
   * What is booked for children is what was stated for each recorded one,
   * as often as stated, and the loose amounts.
   */
  lemma {:induction false} BookedSum(logs: seq<Log>, k: nat, height: seq<nat>, n: nat, ids: set<string>, d: Dim)
    requires k < |logs| && n <= |logs[k].events| && AdmitsAll(logs, k, height, n)
    requires forall i :: 0 <= i < n ==> Measurable(logs, height, Books(logs[k].events[..i]), logs[k].events[i].body)
    requires ReleasedIds(logs[k].events[..n]) <= ids
    ensures Books(logs[k].events[..n]).child.Get(d)
        == SumMap(BookedTerms(logs, height, logs[k].events[..n], ids, d)) + Loose(logs, logs[k].events[..n], d)
  {
    var events := logs[k].events[..n];
    if n > 0 {
      assert events[..n - 1] == logs[k].events[..n - 1];
      assert ReleasedIds(events[..n - 1]) <= ReleasedIds(events);
      hide Measurable, Admits, BookedTerms, SumMap, Book, LooseAmount, ReleasedIds;
      BookedSum(logs, k, height, n - 1, ids, d);
      AdmittedAt(logs, k, height, n, n - 1);
      BookedStep(logs, k, height, Books(events[..n - 1]), events, ids, d);
    } else {
      NothingBooked(logs, height, events, ids, d);
    }
  }

  lemma {:induction false} NothingBooked(logs: seq<Log>, height: seq<nat>, events: seq<Event>, ids: set<string>, d: Dim)
    requires events == []
    ensures SumMap(BookedTerms(logs, height, events, ids, d)) == 0
    ensures Books(events).child.Get(d) == 0 && Loose(logs, events, d) == 0
  {
    hide Measured;
    forall id | id in ids
      ensures Statements(events, id, d) * Measured(logs, height, id, d) == 0
    {
      assert Statements(events, id, d) == 0;
    }
    hide SumMap;
    SumMapZero(BookedTerms(logs, height, events, ids, d));
  }

  // The difference between the two.

  /** The ids log `k` releases and those of its children. */
  function Ids(logs: seq<Log>, k: nat): set<string>
    requires k < |logs|
  {
    ReleasedIds(logs[k].events) + ChildIds(logs, Children(logs, logs[k].EpisodeId()))
  }

  /** How much more is booked under an id than the children with that id spent. */
  ghost function Excess(logs: seq<Log>, k: nat, height: seq<nat>, id: string, d: Dim): int
    requires Walkable(logs, k, height)
  {
    var children := Children(logs, logs[k].EpisodeId());
    Statements(logs[k].events, id, d) * Measured(logs, height, id, d)
      - SpentUnder(logs, children, |children|, k, height, id, d)
  }

  ghost function ExcessTerms(logs: seq<Log>, k: nat, height: seq<nat>, d: Dim): map<string, int>
    requires Walkable(logs, k, height)
  {
    map id | id in Ids(logs, k) :: Excess(logs, k, height, id, d)
  }

  lemma {:induction false} ExcessSum(logs: seq<Log>, k: nat, height: seq<nat>, d: Dim)
    requires Walkable(logs, k, height)
    ensures SumMap(BookedTerms(logs, height, logs[k].events, Ids(logs, k), d))
        == SumMap(ExcessTerms(logs, k, height, d)) + Subtree(logs, k, height).Get(d) - Own(logs[k].events).Get(d)
  {
    var children, ids := Children(logs, logs[k].EpisodeId()), Ids(logs, k);
    var booked := BookedTerms(logs, height, logs[k].events, ids, d);
    var excess, under := ExcessTerms(logs, k, height, d), UnderTerms(logs, children, |children|, k, height, ids, d);
    hide Measured, SumMap, Statements, SpentUnder, SubtreeOver, ReleasedIds;
    assert forall id :: id in booked ==> booked[id] == excess[id] + under[id];
    SumMapAdds(booked, excess, under);
    ChildrenMeasure(logs, children, |children|, k, height, ids, d);
  }

  /**
   * What an accepted log accounts for, its own spend and what its children released, differs from what its subtree
   * spent by exactly this: for every id, the spend measured under it as many times as it is stated less what the
   * children with that id spent, and what is stated for ids that no log records.
   */
  lemma {:induction false} BudgetDifference(logs: seq<Log>, k: nat, height: seq<nat>, d: Dim)
    requires Walkable(logs, k, height) && WalksEnd(logs, k, height) && Balanced(logs, k, height)
    ensures var a := Books(logs[k].events);
      a.own.Get(d) + a.child.Get(d) - Subtree(logs, k, height).Get(d)
        == SumMap(ExcessTerms(logs, k, height, d)) + Loose(logs, logs[k].events, d)
  {
    var events := logs[k].events;
    assert events[..|events|] == events;
    BooksOwn(events);
    ExcessSum(logs, k, height, d);
    if Applies(logs, k) {
      hide Measurable, Closes, Subtree, Own, SumMap, ExcessTerms, BookedTerms;
      BookedSum(logs, k, height, |events|, Ids(logs, k), d);
    } else {
      NothingReleased(logs, events, |events|, d);
      hide Measurable, Closes, Subtree, Own, SumMap, ExcessTerms, BookedTerms;
      NothingStated(logs, height, events, Ids(logs, k), d);
    }
  }

  lemma {:induction false} NothingReleased(logs: seq<Log>, events: seq<Event>, n: nat, d: Dim)
    requires n <= |events| && forall i :: 0 <= i < n ==> !BudgetEvent(events[i].body)
    ensures Books(events[..n]).child == NoSpend && Loose(logs, events[..n], d) == 0
    ensures forall id :: Statements(events[..n], id, d) == 0
  {
    if n > 0 {
      NothingReleased(logs, events, n - 1, d);
      assert events[..n][..n - 1] == events[..n - 1];
    }
  }

  lemma {:induction false} NothingStated(logs: seq<Log>, height: seq<nat>, events: seq<Event>, ids: set<string>, d: Dim)
    requires forall id :: Statements(events, id, d) == 0
    ensures SumMap(BookedTerms(logs, height, events, ids, d)) == 0
  {
    hide Measured, SumMap;
    SumMapZero(BookedTerms(logs, height, events, ids, d));
  }

  // When nothing is booked twice.

  /** Every child of log `k` is the log recorded under its id, as it is when ids are distinct. */
  ghost predicate ChildrenRecorded(logs: seq<Log>, k: nat)
    requires k < |logs|
  {
    forall c :: c in Children(logs, logs[k].EpisodeId()) ==> ById(logs, logs[c].EpisodeId()) == Some(c)
  }

  lemma {:induction false} DistinctRecorded(logs: seq<Log>, k: nat)
    requires k < |logs| && UniqueIds(logs)
    ensures ChildrenRecorded(logs, k)
  {
    forall c | c in Children(logs, logs[k].EpisodeId())
      ensures ById(logs, logs[c].EpisodeId()) == Some(c)
    {
      ByIdUnique(logs, |logs|, c);
    }
  }

  ghost predicate Rising(positions: seq<nat>) {
    forall i, j :: 0 <= i < j < |positions| ==> positions[i] < positions[j]
  }

  lemma {:induction false} ChildrenRise(logs: seq<Log>, n: nat, id: string)
    requires n <= |logs|
    ensures Rising(ChildrenIn(logs, n, id))
  {
    if n > 0 {
      ChildrenRise(logs, n - 1, id);
    }
  }

  /** Then at most one child carries an id, and what it spent is what is measured under the id. */
  lemma {:induction false} OneUnder(
    logs: seq<Log>, children: seq<nat>, n: nat, k: nat, height: seq<nat>, id: string, d: Dim)
    requires Walkable(logs, k, height) && n <= |children| && AreChildren(logs, children, k) && Rising(children)
    requires forall c :: c in children ==> ById(logs, logs[c].EpisodeId()) == Some(c)
    ensures SpentUnder(logs, children, n, k, height, id, d) ==
      if id in ChildIds(logs, children[..n]) then Measured(logs, height, id, d) else 0
  {
    if n > 0 {
      NewChildId(logs, children, n - 1);
      ChildWalkable(logs, children, n - 1, k, height);
      hide Subtree, ById, Rising, AreChildren, ChildIds;
      OneUnder(logs, children, n - 1, k, height, id, d);
      assert children[n - 1] in children;
    }
  }

  lemma {:induction false} NewChildId(logs: seq<Log>, children: seq<nat>, n: nat)
    requires n < |children| && Rising(children) && forall i :: 0 <= i < |children| ==> children[i] < |logs|
    requires forall c :: c in children ==> ById(logs, logs[c].EpisodeId()) == Some(c)
    ensures logs[children[n]].EpisodeId() !in ChildIds(logs, children[..n])
    ensures ChildIds(logs, children[..n + 1]) == ChildIds(logs, children[..n]) + {logs[children[n]].EpisodeId()}
  {
    hide ById;
    var upto := children[..n + 1];
    assert upto[n] == children[n] && forall i :: 0 <= i < n ==> upto[i] == children[..n][i];
    forall i | 0 <= i < n
      ensures logs[children[..n][i]].EpisodeId() != logs[children[n]].EpisodeId()
    {
      assert children[i] in children && children[n] in children;
    }
  }

  /** Each child id is reserved once, and every release states all three amounts. */
  ghost predicate Disciplined(events: seq<Event>) {
    && (forall i :: 0 <= i < |events| && events[i].body.BudgetReserve? && events[i].body.childId.Some? ==>
          events[i].body.childId.value !in ReservedIds(events[..i]))
    && (forall i :: 0 <= i < |events| && events[i].body.BudgetRelease? && events[i].body.spent.Some? ==>
          var spent := events[i].body.spent.value; spent.calls.Some? && spent.input.Some? && spent.output.Some?)
  }

  /** The account holds what was reserved and not released, and what was spawned. */
  ghost predicate Tallies(a: Account, events: seq<Event>) {
    && a.active.Keys == ReservedIds(events) - ReleasedIds(events)
    && ReleasedIds(events) <= ReservedIds(events)
    && a.seen == SpawnedIds(events)
    && a.seen <= ReservedIds(events)
  }

  lemma {:induction false} TallyStep(logs: seq<Log>, k: nat, height: seq<nat>, i: nat)
    requires k < |logs| && i < |logs[k].events| && Disciplined(logs[k].events)
    requires Tallies(Books(logs[k].events[..i]), logs[k].events[..i])
    requires Admits(logs, k, height, Books(logs[k].events[..i]), logs[k].events[i].body)
    ensures Tallies(Book(Books(logs[k].events[..i]), logs[k].events[i].body), logs[k].events[..i + 1])
  {
    hide ReleasedOk, ReservedOk, ChildOk, Fits;
    assert logs[k].events[..i + 1][..i] == logs[k].events[..i];
    var a, body := Books(logs[k].events[..i]), logs[k].events[i].body;
    match body {
      case BudgetReserve(id, _) => assert id.value !in ReservedIds(logs[k].events[..i]);
      case _ =>
    }
  }

  lemma {:induction false} BooksTally(logs: seq<Log>, k: nat, height: seq<nat>, n: nat)
    requires k < |logs| && n <= |logs[k].events| && AdmitsAll(logs, k, height, n) && Disciplined(logs[k].events)
    ensures Tallies(Books(logs[k].events[..n]), logs[k].events[..n])
  {
    if n > 0 {
      hide Admits, Book, Tallies, Disciplined;
      AdmittedAt(logs, k, height, n, n - 1);
      BooksTally(logs, k, height, n - 1);
      TallyStep(logs, k, height, n - 1);
    }
  }

  lemma {:induction false} StatedOnce(logs: seq<Log>, k: nat, height: seq<nat>, n: nat, id: string, d: Dim)
    requires k < |logs| && n <= |logs[k].events| && AdmitsAll(logs, k, height, n) && Disciplined(logs[k].events)
    ensures Statements(logs[k].events[..n], id, d) == if id in ReleasedIds(logs[k].events[..n]) then 1 else 0
  {
    if n > 0 {
      var events := logs[k].events;
      assert events[..n][..n - 1] == events[..n - 1];
      AdmittedAt(logs, k, height, n, n - 1);
      StatedOnce(logs, k, height, n - 1, id, d);
      BooksTally(logs, k, height, n - 1);
      var body := events[n - 1].body;
      if body.BudgetRelease? {
        ReleaseStates(logs, k, height, n - 1, d);
      }
      hide Books, Admits, Disciplined, AdmitsAll;
    }
  }

  lemma {:induction false} ReleaseStates(logs: seq<Log>, k: nat, height: seq<nat>, i: nat, d: Dim)
    requires k < |logs| && i < |logs[k].events| && Disciplined(logs[k].events) && logs[k].events[i].body.BudgetRelease?
    requires Admits(logs, k, height, Books(logs[k].events[..i]), logs[k].events[i].body)
    requires Tallies(Books(logs[k].events[..i]), logs[k].events[..i])
    ensures var body := logs[k].events[i].body;
      && body.childId.Some? && StatesFor(body, body.childId.value, d)
      && body.childId.value !in ReleasedIds(logs[k].events[..i])
  {
    hide ReleasedOk, Books, ReleasedIds, ReservedIds;
    match d case Calls => case Input => case Output =>
  }

  lemma {:induction false} NothingLoose(logs: seq<Log>, events: seq<Event>, d: Dim)
    requires forall id :: id in ReleasedIds(events) ==> ById(logs, id).Some?
    ensures Loose(logs, events, d) == 0
  {
    if |events| > 0 {
      NothingLoose(logs, events[..|events| - 1], d);
    }
  }

  lemma {:induction false} NothingLeft(all: set<string>, some: set<string>)
    requires some <= all && all - some == {}
    ensures some == all
  {
    assert forall id :: id in all ==> id in some || id in all - some;
  }

  /**
   * In an accepted log that reserves once, spawns what it reserves and states what it releases,
   * all children are released.
   */
  lemma {:induction false} ReleasedAreChildren(logs: seq<Log>, k: nat, height: seq<nat>)
    requires k < |logs| && Balanced(logs, k, height) && Applies(logs, k) && ChildrenRecorded(logs, k)
    requires Disciplined(logs[k].events) && ReservedIds(logs[k].events) <= SpawnedIds(logs[k].events)
    ensures ReleasedIds(logs[k].events) == ChildIds(logs, Children(logs, logs[k].EpisodeId()))
    ensures forall id :: id in ReleasedIds(logs[k].events) ==> ById(logs, id).Some?
  {
    var events, children := logs[k].events, Children(logs, logs[k].EpisodeId());
    assert events[..|events|] == events;
    BooksTally(logs, k, height, |events|);
    hide AdmitsAll, Books, Disciplined, Applies;
    assert Books(events).active.Keys == {};
    NothingLeft(ReservedIds(events), ReleasedIds(events));
    assert ReleasedIds(events) == SpawnedIds(events) == ChildIds(logs, children);
    forall id | id in ReleasedIds(events)
      ensures ById(logs, id).Some?
    {
      var i :| 0 <= i < |children| && logs[children[i]].EpisodeId() == id;
      assert children[i] in children;
    }
  }

  /**
   * What a parent's log accounts for, its own spend and what its children released,
   * is what the whole subtree under it spent.
   */
  lemma {:induction false} BudgetConserved(logs: seq<Log>, k: nat, height: seq<nat>, d: Dim)
    requires Walkable(logs, k, height) && WalksEnd(logs, k, height) && Balanced(logs, k, height)
    requires ChildrenRecorded(logs, k)
    requires Disciplined(logs[k].events) && ReservedIds(logs[k].events) <= SpawnedIds(logs[k].events)
    ensures var a := Books(logs[k].events);
      a.own.Get(d) + a.child.Get(d) == Subtree(logs, k, height).Get(d)
  {
    var events := logs[k].events;
    assert events[..|events|] == events;
    BudgetDifference(logs, k, height, d);
    var children := Children(logs, logs[k].EpisodeId());
    ChildrenRise(logs, |logs|, logs[k].EpisodeId());
    assert children[..|children|] == children;
    hide Subtree, Books, SumMap, WalksEnd, Walkable, SpentUnder;
    if Applies(logs, k) {
      ReleasedAreChildren(logs, k, height);
      assert AdmitsAll(logs, k, height, |events|);
      NothingLoose(logs, events, d);
      forall id | id in Ids(logs, k)
        ensures Excess(logs, k, height, id, d) == 0
      {
        StatedOnce(logs, k, height, |events|, id, d);
        OneUnder(logs, children, |children|, k, height, id, d);
      }
    } else {
      NothingReleased(logs, events, |events|, d);
      NobodyReleased(events, |events|);
      NoIds(logs, k);
    }
    SumMapZero(ExcessTerms(logs, k, height, d));
  }

  lemma {:induction false} NobodyReleased(events: seq<Event>, n: nat)
    requires n <= |events| && forall i :: 0 <= i < n ==> !BudgetEvent(events[i].body)
    ensures ReleasedIds(events[..n]) == {}
  {
    if n > 0 {
      NobodyReleased(events, n - 1);
      assert events[..n][..n - 1] == events[..n - 1];
    }
  }

  lemma {:induction false} NoIds(logs: seq<Log>, k: nat)
    requires k < |logs| && !Applies(logs, k) && ReleasedIds(logs[k].events) == {}
    ensures Ids(logs, k) == {}
  {
  }
}
