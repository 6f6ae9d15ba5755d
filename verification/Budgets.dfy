/** The hierarchical budget check over a set of episode logs linked by parent ids. */
module BudgetCheck {
  import opened Prelude
  import opened EpisodeLog
  import opened Evaluations

  datatype Dim = Calls | Input | Output

  datatype Spend = Spend(calls: int, input: int, output: int) {
    function Get(d: Dim): int {
      match d
      case Calls => calls
      case Input => input
      case Output => output
    }

    function Plus(other: Spend): Spend {
      Spend(calls + other.calls, input + other.input, output + other.output)
    }
  }

  const NoSpend := Spend(0, 0, 0)

  function Amount(amounts: Amounts, d: Dim): Option<int> {
    match d
    case Calls => amounts.calls
    case Input => amounts.input
    case Output => amounts.output
  }

  /** `isinstance(x, int)` admits a boolean, which counts as 0 or 1. */
  function CountValue(c: Count): int {
    match c
    case NoCount => 0
    case Whole(n) => n
    case Flag(b) => if b then 1 else 0
  }

  /** What one event spends of its own episode's budget. */
  function SpendOf(body: Body): Spend {
    match body
    case ModelRequest(_, _, _, _) => Spend(1, 0, 0)
    case AssistantMessage(_, _, _, _, Some(usage)) => Spend(0, CountValue(usage.input), CountValue(usage.output))
    case _ => NoSpend
  }

  function Own(events: seq<Event>): Spend {
    if |events| == 0 then NoSpend else Own(events[..|events| - 1]).Plus(SpendOf(events[|events| - 1].body))
  }

  // The tree.

  /** The positions, among the first `n` logs, of the logs that name `id` as their parent. */
  function ChildrenIn(logs: seq<Log>, n: nat, id: string): (r: seq<nat>)
    requires n <= |logs|
    ensures forall i :: 0 <= i < |r| ==> r[i] < n && logs[r[i]].ParentId() == Some(id)
  {
    if n == 0 then [] else
      ChildrenIn(logs, n - 1, id) + (if logs[n - 1].ParentId() == Some(id) then [n - 1] else [])
  }

  function Children(logs: seq<Log>, id: string): (r: seq<nat>)
    ensures forall i :: 0 <= i < |r| ==> r[i] < |logs| && logs[r[i]].ParentId() == Some(id)
  {
    ChildrenIn(logs, |logs|, id)
  }

  /** The last log that starts under `id`, as a table keyed by id keeps it. */
  function ByIdIn(logs: seq<Log>, n: nat, id: string): (r: Option<nat>)
    requires n <= |logs|
    ensures r.Some? ==> r.value < n && logs[r.value].EpisodeId() == id && logs[r.value].Started().Some?
  {
    if n == 0 then None
    else if logs[n - 1].Started().Some? && logs[n - 1].EpisodeId() == id then Some(n - 1)
    else ByIdIn(logs, n - 1, id)
  }

  function ById(logs: seq<Log>, id: string): (r: Option<nat>)
    ensures r.Some? ==> r.value < |logs| && logs[r.value].EpisodeId() == id && logs[r.value].Started().Some?
  {
    ByIdIn(logs, |logs|, id)
  }

  /**
   * A height for every log above its children. A log below which the parent links lead round in a loop has height
   * zero, and no walk over its subtree would end; any set of logs has such heights.
   */
  ghost predicate Founded(logs: seq<Log>, height: seq<nat>) {
    && |height| == |logs|
    && (forall k, c :: 0 <= k < |logs| && 0 <= c < |logs| && logs[c].ParentId() == Some(logs[k].EpisodeId()) ==>
          height[k] > 0 ==> 0 < height[c] < height[k])
  }

  /** The walk over the subtree of log `k` ends. */
  ghost predicate Walkable(logs: seq<Log>, k: nat, height: seq<nat>) {
    Founded(logs, height) && k < |logs| && height[k] > 0
  }

  ghost predicate AreChildren(logs: seq<Log>, children: seq<nat>, k: nat)
    requires k < |logs|
  {
    forall i :: 0 <= i < |children| ==>
      children[i] < |logs| && logs[children[i]].ParentId() == Some(logs[k].EpisodeId())
  }

  function Subtree(logs: seq<Log>, k: nat, ghost height: seq<nat>): Spend
    requires Walkable(logs, k, height)
    decreases height[k], 1, 0
  {
    var children := Children(logs, logs[k].EpisodeId());
    Own(logs[k].events).Plus(SubtreeOver(logs, children, |children|, k, height))
  }

  function SubtreeOver(logs: seq<Log>, children: seq<nat>, n: nat, k: nat, ghost height: seq<nat>): Spend
    requires Walkable(logs, k, height) && n <= |children|
    requires AreChildren(logs, children, k)
    decreases height[k], 0, n
  {
    if n == 0 then NoSpend else
      SubtreeOver(logs, children, n - 1, k, height).Plus(Subtree(logs, children[n - 1], height))
  }

  method OwnSpend(events: seq<Event>) returns (spend: Spend)
    ensures spend == Own(events)
  {
    var calls, input, output := 0, 0, 0;
    for i := 0 to |events|
      invariant Spend(calls, input, output) == Own(events[..i])
    {
      assert events[..i + 1][..i] == events[..i];
      match events[i].body {
        case ModelRequest(_, _, _, _) =>
          calls := calls + 1;
        case AssistantMessage(_, _, _, _, Some(usage)) =>
          input, output := input + CountValue(usage.input), output + CountValue(usage.output);
        case _ =>
      }
    }
    assert events[..|events|] == events;
    spend := Spend(calls, input, output);
  }

  method SubtreeSpend(logs: seq<Log>, k: nat, ghost height: seq<nat>) returns (spend: Spend)
    requires Walkable(logs, k, height)
    ensures spend == Subtree(logs, k, height)
    decreases height[k]
  {
    var children: seq<nat> := Children(logs, logs[k].EpisodeId());
    var below := NoSpend;
    for i := 0 to |children|
      invariant below == SubtreeOver(logs, children, i, k, height)
    {
      var spent := SubtreeSpend(logs, children[i], height);
      below := below.Plus(spent);
    }
    var own := OwnSpend(logs[k].events);
    spend := own.Plus(below);
  }

  function Size(logs: seq<Log>, k: nat, ghost height: seq<nat>): nat
    requires Walkable(logs, k, height)
    decreases height[k], 1, 0
  {
    var children := Children(logs, logs[k].EpisodeId());
    1 + SizeOver(logs, children, |children|, k, height)
  }

  function SizeOver(logs: seq<Log>, children: seq<nat>, n: nat, k: nat, ghost height: seq<nat>): nat
    requires Walkable(logs, k, height) && n <= |children|
    requires AreChildren(logs, children, k)
    decreases height[k], 0, n
  {
    if n == 0 then 0 else SizeOver(logs, children, n - 1, k, height) + Size(logs, children[n - 1], height)
  }

  /** The number of episodes the stack still stands for. */
  ghost function Pending(logs: seq<Log>, stack: seq<nat>, height: seq<nat>): nat
    requires Founded(logs, height) && forall i :: 0 <= i < |stack| ==> Walkable(logs, stack[i], height)
  {
    if |stack| == 0 then 0 else
      Pending(logs, stack[..|stack| - 1], height) + Size(logs, stack[|stack| - 1], height)
  }

  lemma {:induction false} PendingChildren(
    logs: seq<Log>, stack: seq<nat>, children: seq<nat>, n: nat, k: nat, height: seq<nat>)
    requires Walkable(logs, k, height) && n <= |children|
    requires forall i :: 0 <= i < |stack| ==> Walkable(logs, stack[i], height)
    requires AreChildren(logs, children, k)
    ensures Pending(logs, stack + children[..n], height)
        == Pending(logs, stack, height) + SizeOver(logs, children, n, k, height)
  {
    if n == 0 {
      assert stack + children[..0] == stack;
    } else {
      PendingChildren(logs, stack, children, n - 1, k, height);
      assert (stack + children[..n])[..|stack| + n - 1] == stack + children[..n - 1];
    }
  }

  /** The walk with an explicit stack counts what the recursion counts. */
  method CountEpisodes(logs: seq<Log>, k: nat, ghost height: seq<nat>) returns (count: nat)
    requires Walkable(logs, k, height)
    ensures count == Size(logs, k, height)
  {
    count := 1;
    var stack: seq<nat> := Children(logs, logs[k].EpisodeId());
    PendingChildren(logs, [], stack, |stack|, k, height);
    assert [] + stack[..|stack|] == stack;
    while stack != []
      invariant forall i :: 0 <= i < |stack| ==> Walkable(logs, stack[i], height)
      invariant count + Pending(logs, stack, height) == Size(logs, k, height)
      decreases Pending(logs, stack, height)
    {
      var child := stack[|stack| - 1];
      stack := stack[..|stack| - 1];
      count := count + 1;
      var children: seq<nat> := Children(logs, logs[child].EpisodeId());
      PendingChildren(logs, stack, children, |children|, child, height);
      assert children[..|children|] == children;
      stack := stack + children;
    }
  }

  // The account one parent log keeps, event by event.

  datatype Account = Account(
    own: Spend, child: Spend, active: map<string, Amounts>, running: set<string>, seen: set<string>)

  const NoAccount := Account(NoSpend, NoSpend, map[], {}, {})

  function Stated(amounts: Amounts): Spend {
    Spend(amounts.calls.GetOr(0), amounts.input.GetOr(0), amounts.output.GetOr(0))
  }

  function Book(a: Account, body: Body): Account {
    match body
    case ModelRequest(_, _, _, _) => a.(own := a.own.Plus(SpendOf(body)))
    case AssistantMessage(_, _, _, _, _) => a.(own := a.own.Plus(SpendOf(body)))
    case BudgetReserve(Some(id), Some(reserved)) => if id in a.active then a else a.(active := a.active[id := reserved])
    case SpawnStart(Some(id)) => a.(running := a.running + {id}, seen := a.seen + {id})
    case SpawnEnd(Some(id), _) => a.(running := a.running - {id})
    case BudgetRelease(Some(id), Some(spent)) =>
      if id in a.active then a.(active := a.active - {id}, child := a.child.Plus(Stated(spent))) else a
    case _ => a
  }

  function Books(events: seq<Event>): Account {
    if |events| == 0 then NoAccount else Book(Books(events[..|events| - 1]), events[|events| - 1].body)
  }

  ghost function ActiveTotal(active: map<string, Amounts>, d: Dim): int {
    SumMap(map id | id in active :: Amount(active[id], d).GetOr(0))
  }

  function Totals(budget: Option<Budget>): Amounts {
    match budget
    case Some(b) => b.totals
    case None => Amounts(None, None, None)
  }

  /** A cap that is absent has the runtime's default, and one that is no number bounds nothing. */
  predicate Fits(n: int, cap: Cap, default: int) {
    match cap
    case Default => n <= default
    case Limit(m) => n <= m
    case NotANumber => true
  }

  function Concurrent(budget: Option<Budget>): Cap {
    if budget.Some? then budget.value.maxConcurrent else Default
  }

  function Episodes(budget: Option<Budget>): Cap {
    if budget.Some? then budget.value.maxEpisodes else Default
  }

  function LastOutcome(events: seq<Event>): Option<string> {
    if |events| == 0 then None
    else if events[|events| - 1].body.EpisodeEnd? then events[|events| - 1].body.outcome
    else LastOutcome(events[..|events| - 1])
  }

  /** Whether every recorded route accepts the runtime's output cap. */
  predicate OutputEnforced(events: seq<Event>) {
    forall i :: 0 <= i < |events| ==> events[i].body.RequestHeader? ==> events[i].body.provider != Some("openai-codex")
  }

  /** The dimensions in which a reservation bounds what its child may spend. */
  predicate Bounded(logs: seq<Log>, id: string, d: Dim) {
    match d
    case Calls => true
    case Input => false
    case Output => ById(logs, id).None? || OutputEnforced(logs[ById(logs, id).value].events)
  }

  ghost predicate ReservedOk(a: Account, budget: Option<Budget>, active: map<string, Amounts>, d: Dim) {
    Amount(Totals(budget), d).Some? ==>
      a.own.Get(d) + a.child.Get(d) + ActiveTotal(active, d) <= Amount(Totals(budget), d).value
  }

  ghost predicate ReserveOk(a: Account, budget: Option<Budget>, id: Option<string>, reserved: Option<Amounts>) {
    && id.Some? && id.value !in a.active && reserved.Some?
    && var active := a.active[id.value := reserved.value];
    && ReservedOk(a, budget, active, Calls)
    && ReservedOk(a, budget, active, Input)
    && ReservedOk(a, budget, active, Output)
  }

  /** What the subtree recorded under `id` spent. */
  ghost function MeasuredSpend(logs: seq<Log>, height: seq<nat>, id: string): Option<Spend> {
    var child := ById(logs, id);
    if child.Some? && Walkable(logs, child.value, height) then Some(Subtree(logs, child.value, height)) else None
  }

  ghost predicate ReleasedOk(
    logs: seq<Log>, height: seq<nat>, id: string, reserved: Amounts, spent: Amounts, d: Dim)
  {
    Amount(spent, d).Some? ==>
      var value := Amount(spent, d).value;
      && (Bounded(logs, id, d) ==> value <= Amount(reserved, d).GetOr(value))
      && (MeasuredSpend(logs, height, id).Some? ==> value == MeasuredSpend(logs, height, id).value.Get(d))
  }

  ghost predicate ReleaseOk(
    logs: seq<Log>, height: seq<nat>, a: Account, id: Option<string>, spent: Option<Amounts>)
  {
    && id.Some? && id.value in a.active && spent.Some?
    && var reserved := a.active[id.value];
    && ReleasedOk(logs, height, id.value, reserved, spent.value, Calls)
    && ReleasedOk(logs, height, id.value, reserved, spent.value, Input)
    && ReleasedOk(logs, height, id.value, reserved, spent.value, Output)
  }

  predicate SpawnStartOk(a: Account, budget: Option<Budget>, id: Option<string>) {
    && id.Some? && id.value in a.active && id.value !in a.running
    && Fits(|a.running + {id.value}|, Concurrent(budget), 4)
  }

  /** The log recorded under `id` is a child of log `k` and ended as the parent says. */
  predicate ChildOk(logs: seq<Log>, k: nat, id: string, outcome: Option<string>)
    requires k < |logs|
  {
    var child := ById(logs, id);
    && child.Some?
    && logs[child.value].ParentId() == Some(logs[k].EpisodeId())
    && outcome == LastOutcome(logs[child.value].events)
  }

  predicate SpawnEndOk(logs: seq<Log>, k: nat, a: Account, id: Option<string>, outcome: Option<string>)
    requires k < |logs|
  {
    id.Some? && id.value in a.running && ChildOk(logs, k, id.value, outcome)
  }

  function BudgetOf(log: Log): Option<Budget> {
    match log.Started()
    case Some(start) => start.budget
    case None => None
  }

  /** The checks one event of log `k` meets, given the account before it. */
  ghost predicate Admits(logs: seq<Log>, k: nat, height: seq<nat>, a: Account, body: Body)
    requires k < |logs|
  {
    match body
    case BudgetReserve(id, reserved) => ReserveOk(a, BudgetOf(logs[k]), id, reserved)
    case SpawnStart(id) => SpawnStartOk(a, BudgetOf(logs[k]), id)
    case SpawnEnd(id, outcome) => SpawnEndOk(logs, k, a, id, outcome)
    case BudgetRelease(id, spent) => ReleaseOk(logs, height, a, id, spent)
    case _ => true
  }

  ghost predicate AdmitsAll(logs: seq<Log>, k: nat, height: seq<nat>, n: nat)
    requires k < |logs| && n <= |logs[k].events|
  {
    n == 0 || (AdmitsAll(logs, k, height, n - 1) &&
      Admits(logs, k, height, Books(logs[k].events[..n - 1]), logs[k].events[n - 1].body))
  }

  function ChildIds(logs: seq<Log>, children: seq<nat>): set<string>
    requires forall i :: 0 <= i < |children| ==> children[i] < |logs|
  {
    set i | 0 <= i < |children| :: logs[children[i]].EpisodeId()
  }

  ghost predicate Closes(logs: seq<Log>, k: nat, height: seq<nat>, a: Account)
    requires k < |logs|
  {
    && a.active == map[]
    && a.running == {}
    && a.seen == ChildIds(logs, Children(logs, logs[k].EpisodeId()))
    && (Walkable(logs, k, height) ==> Fits(Size(logs, k, height), Episodes(BudgetOf(logs[k])), 8))
  }

  predicate BudgetEvent(body: Body) {
    body.BudgetReserve? || body.BudgetRelease? || body.SpawnStart? || body.SpawnEnd?
  }

  predicate Applies(logs: seq<Log>, k: nat)
    requires k < |logs|
  {
    (exists i :: 0 <= i < |logs[k].events| && BudgetEvent(logs[k].events[i].body)) ||
      Children(logs, logs[k].EpisodeId()) != []
  }

  /** The walk that measures a released child ends. */
  ghost predicate Measurable(logs: seq<Log>, height: seq<nat>, a: Account, body: Body) {
    match body
    case BudgetRelease(Some(id), Some(_)) =>
      id in a.active && ById(logs, id).Some? ==> Walkable(logs, ById(logs, id).value, height)
    case _ => true
  }

  /** Every walk the checks of log `k` make ends: over released children, and over its own subtree when it is capped. */
  ghost predicate WalksEnd(logs: seq<Log>, k: nat, height: seq<nat>)
    requires k < |logs|
  {
    Applies(logs, k) ==>
      && (Episodes(BudgetOf(logs[k])).NotANumber? || Walkable(logs, k, height))
      && forall i :: 0 <= i < |logs[k].events| ==>
           Measurable(logs, height, Books(logs[k].events[..i]), logs[k].events[i].body)
  }

  /** Log `k` meets every budget check that applies to it. */
  ghost predicate Balanced(logs: seq<Log>, k: nat, height: seq<nat>)
    requires k < |logs|
  {
    Applies(logs, k) ==>
      && BudgetOf(logs[k]).Some?
      && AdmitsAll(logs, k, height, |logs[k].events|)
      && Closes(logs, k, height, Books(logs[k].events))
  }

  // The checker.

  const DIMS: seq<Dim> := [Calls, Input, Output]

  method SumActive(active: map<string, Amounts>, d: Dim) returns (total: int)
    ensures total == ActiveTotal(active, d)
  {
    total := 0;
    var rest := active;
    while rest != map[]
      invariant rest.Keys <= active.Keys && forall id :: id in rest ==> rest[id] == active[id]
      invariant total + ActiveTotal(rest, d) == ActiveTotal(active, d)
      decreases |rest|
    {
      var id :| id in rest;
      ghost var amounts := map i | i in rest :: Amount(rest[i], d).GetOr(0);
      SumMapRemove(amounts, id);
      assert amounts - {id} == map i | i in rest - {id} :: Amount((rest - {id})[i], d).GetOr(0);
      total := total + Amount(rest[id], d).GetOr(0);
      rest := rest - {id};
    }
  }

  method CheckReserved(
    eval: Evaluation, episode: string, at: nat, a: Account, active: map<string, Amounts>,
    budget: Option<Budget>, d: Dim)
    requires eval.Valid()
    modifies eval
    ensures eval.Valid()
    ensures eval.Clean() <==> old(eval.Clean()) && ReservedOk(a, budget, active, d)
  {
    hide Evaluation.Valid, Evaluation.Clean;
    var total := Amount(Totals(budget), d);
    if total.Some? {
      var activeTotal := SumActive(active, d);
      var used := a.own.Get(d) + a.child.Get(d) + activeTotal;
      eval.Check(Budgets, used <= total.value, episode, Some(at));
    }
  }

  method CheckReserve(
    eval: Evaluation, episode: string, at: nat, a: Account, budget: Option<Budget>, id: Option<string>,
    reserved: Option<Amounts>)
    returns (a': Account)
    requires eval.Valid()
    modifies eval
    ensures eval.Valid() && a' == Book(a, BudgetReserve(id, reserved))
    ensures eval.Clean() <==> old(eval.Clean()) && ReserveOk(a, budget, id, reserved)
  {
    hide ReservedOk, Evaluation.Valid, Evaluation.Clean;
    a' := a;
    var valid := id.Some? && id.value !in a.active && reserved.Some?;
    eval.Check(Budgets, valid, episode, Some(at));
    if valid {
      a' := a.(active := a.active[id.value := reserved.value]);
      for i := 0 to |DIMS|
        invariant eval.Valid()
        invariant eval.Clean() <==>
          old(eval.Clean()) && forall j :: 0 <= j < i ==> ReservedOk(a, budget, a'.active, DIMS[j])
      {
        CheckReserved(eval, episode, at, a, a'.active, budget, DIMS[i]);
      }
      assert DIMS[0] == Calls && DIMS[1] == Input && DIMS[2] == Output;
    }
  }

  method CheckReleased(
    eval: Evaluation, logs: seq<Log>, ghost height: seq<nat>, episode: string, at: nat, id: string, reserved: Amounts,
    spent: Amounts, measured: Option<Spend>, d: Dim)
    requires eval.Valid() && measured == MeasuredSpend(logs, height, id)
    modifies eval
    ensures eval.Valid()
    ensures eval.Clean() <==> old(eval.Clean()) && ReleasedOk(logs, height, id, reserved, spent, d)
  {
    hide MeasuredSpend, Evaluation.Valid, Evaluation.Clean;
    var value := Amount(spent, d);
    if value.Some? {
      if Bounded(logs, id, d) {
        eval.Check(Budgets, value.value <= Amount(reserved, d).GetOr(value.value), episode, Some(at));
      }
      if measured.Some? {
        eval.Check(Budgets, value.value == measured.value.Get(d), episode, Some(at));
      }
    }
  }

  /** The spend of the child recorded under `id`, when a log records it. */
  method Measure(logs: seq<Log>, ghost height: seq<nat>, id: string) returns (measured: Option<Spend>)
    requires ById(logs, id).Some? ==> Walkable(logs, ById(logs, id).value, height)
    ensures measured == MeasuredSpend(logs, height, id)
  {
    var child := ById(logs, id);
    measured := None;
    if child.Some? {
      var spend := SubtreeSpend(logs, child.value, height);
      measured := Some(spend);
    }
  }

  method CheckRelease(
    eval: Evaluation, logs: seq<Log>, ghost height: seq<nat>, episode: string, at: nat, a: Account, id: Option<string>,
    spent: Option<Amounts>)
    returns (a': Account)
    requires eval.Valid() && Measurable(logs, height, a, BudgetRelease(id, spent))
    modifies eval
    ensures eval.Valid() && a' == Book(a, BudgetRelease(id, spent))
    ensures eval.Clean() <==> old(eval.Clean()) && ReleaseOk(logs, height, a, id, spent)
  {
    hide ReleasedOk, MeasuredSpend, Walkable, Evaluation.Valid, Evaluation.Clean;
    a' := a;
    var valid := id.Some? && id.value in a.active && spent.Some?;
    eval.Check(Budgets, valid, episode, Some(at));
    if valid {
      var reserved := a.active[id.value];
      var measured := Measure(logs, height, id.value);
      for i := 0 to |DIMS|
        invariant eval.Valid()
        invariant eval.Clean() <==>
          old(eval.Clean()) && forall j :: 0 <= j < i ==>
            ReleasedOk(logs, height, id.value, reserved, spent.value, DIMS[j])
      {
        CheckReleased(eval, logs, height, episode, at, id.value, reserved, spent.value, measured, DIMS[i]);
      }
      a' := a.(active := a.active - {id.value}, child := a.child.Plus(Stated(spent.value)));
      assert DIMS[0] == Calls && DIMS[1] == Input && DIMS[2] == Output;
    }
  }

  method CheckSpawnStart(
    eval: Evaluation, episode: string, at: nat, a: Account, budget: Option<Budget>, id: Option<string>)
    returns (a': Account)
    requires eval.Valid()
    modifies eval
    ensures eval.Valid() && a' == Book(a, SpawnStart(id))
    ensures eval.Clean() <==> old(eval.Clean()) && SpawnStartOk(a, budget, id)
  {
    hide Fits, Concurrent, Evaluation.Valid, Evaluation.Clean;
    a' := a;
    var valid := id.Some? && id.value in a.active && id.value !in a.running;
    eval.Check(Budgets, valid, episode, Some(at));
    if id.Some? {
      a' := a.(running := a.running + {id.value}, seen := a.seen + {id.value});
    }
    var within := Fits(|a'.running|, Concurrent(budget), 4);
    assert SpawnStartOk(a, budget, id) <==> valid && within;
    eval.Check(Budgets, within, episode, Some(at));
  }

  method CheckChild(eval: Evaluation, logs: seq<Log>, k: nat, at: nat, id: string, outcome: Option<string>)
    requires eval.Valid() && k < |logs|
    modifies eval
    ensures eval.Valid()
    ensures eval.Clean() <==> old(eval.Clean()) && ChildOk(logs, k, id, outcome)
  {
    hide Evaluation.Valid, Evaluation.Clean;
    var child := ById(logs, id);
    var placed := child.Some? && logs[child.value].ParentId() == Some(logs[k].EpisodeId());
    eval.Check(Budgets, placed, logs[k].EpisodeId(), Some(at));
    if child.Some? {
      eval.Check(Budgets, outcome == LastOutcome(logs[child.value].events), logs[k].EpisodeId(), Some(at));
    }
  }

  method CheckSpawnEnd(
    eval: Evaluation, logs: seq<Log>, k: nat, at: nat, a: Account, id: Option<string>, outcome: Option<string>)
    returns (a': Account)
    requires eval.Valid() && k < |logs|
    modifies eval
    ensures eval.Valid() && a' == Book(a, SpawnEnd(id, outcome))
    ensures eval.Clean() <==> old(eval.Clean()) && SpawnEndOk(logs, k, a, id, outcome)
  {
    hide ChildOk, Evaluation.Valid, Evaluation.Clean;
    a' := a;
    eval.Check(Budgets, id.Some? && id.value in a.running, logs[k].EpisodeId(), Some(at));
    if id.Some? {
      a' := a.(running := a.running - {id.value});
      CheckChild(eval, logs, k, at, id.value, outcome);
    }
  }

  method CheckBudgetEvent(
    eval: Evaluation, logs: seq<Log>, k: nat, ghost height: seq<nat>, at: nat, a: Account, body: Body)
    returns (a': Account)
    requires eval.Valid() && k < |logs| && Measurable(logs, height, a, body)
    modifies eval
    ensures eval.Valid() && a' == Book(a, body)
    ensures eval.Clean() <==> old(eval.Clean()) && Admits(logs, k, height, a, body)
  {
    hide Evaluation.Valid, Evaluation.Clean;
    a' := a;
    match body {
      case BudgetReserve(id, reserved) =>
        a' := CheckReserve(eval, logs[k].EpisodeId(), at, a, BudgetOf(logs[k]), id, reserved);
      case BudgetRelease(id, spent) =>
        a' := CheckRelease(eval, logs, height, logs[k].EpisodeId(), at, a, id, spent);
      case SpawnStart(id) =>
        a' := CheckSpawnStart(eval, logs[k].EpisodeId(), at, a, BudgetOf(logs[k]), id);
      case SpawnEnd(id, outcome) =>
        a' := CheckSpawnEnd(eval, logs, k, at, a, id, outcome);
      case _ =>
        a' := a.(own := a.own.Plus(SpendOf(body)));
    }
  }

  method CheckLog(eval: Evaluation, logs: seq<Log>, k: nat, ghost height: seq<nat>)
    requires eval.Valid() && k < |logs| && WalksEnd(logs, k, height)
    modifies eval
    ensures eval.Valid()
    ensures eval.Clean() <==> old(eval.Clean()) && Balanced(logs, k, height)
  {
    hide Admits, Size, Walkable, Measurable, Evaluation.Valid, Evaluation.Clean;
    var events, episode := logs[k].events, logs[k].EpisodeId();
    var children: seq<nat> := Children(logs, episode);
    if !Applies(logs, k) {
      return;
    }
    eval.Check(Budgets, BudgetOf(logs[k]).Some?, episode, Some(0));
    var a := NoAccount;
    for i := 0 to |events|
      invariant eval.Valid() && a == Books(events[..i])
      invariant eval.Clean() <==> old(eval.Clean()) && BudgetOf(logs[k]).Some? && AdmitsAll(logs, k, height, i)
    {
      assert events[..i + 1][..i] == events[..i];
      a := CheckBudgetEvent(eval, logs, k, height, i, a, events[i].body);
    }
    assert events[..|events|] == events;
    eval.Check(Budgets, a.active == map[], episode, None);
    eval.Check(Budgets, a.running == {}, episode, None);
    eval.Check(Budgets, a.seen == ChildIds(logs, children), episode, None);
    var cap := Episodes(BudgetOf(logs[k]));
    if !cap.NotANumber? {
      var count := CountEpisodes(logs, k, height);
      eval.Check(Budgets, Fits(count, cap, 8), episode, None);
    }
  }

  method CheckBudgets(eval: Evaluation, logs: seq<Log>, ghost height: seq<nat>)
    requires eval.Valid() && forall k :: 0 <= k < |logs| ==> WalksEnd(logs, k, height)
    modifies eval
    ensures eval.Valid()
    ensures eval.Clean() <==> old(eval.Clean()) && forall k :: 0 <= k < |logs| ==> Balanced(logs, k, height)
  {
    hide Balanced, WalksEnd, Evaluation.Valid, Evaluation.Clean;
    for k := 0 to |logs|
      invariant eval.Valid()
      invariant eval.Clean() <==> old(eval.Clean()) && forall j :: 0 <= j < k ==> Balanced(logs, j, height)
    {
      CheckLog(eval, logs, k, height);
    }
  }
}
