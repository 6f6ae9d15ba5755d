/** What a log that passes the budget checks is, in positions of its events and plain sums of what they state. */
module BudgetLaws {
  import opened Prelude
  import opened EpisodeLog
  import opened BudgetCheck
  import opened BudgetRuns

  // Amounts, by name.

  function Of(amounts: Amounts, d: Dim): Option<int> {
    match d
    case Calls => amounts.calls
    case Input => amounts.input
    case Output => amounts.output
  }

  function FieldOf(spend: Spend, d: Dim): int {
    match d
    case Calls => spend.calls
    case Input => spend.input
    case Output => spend.output
  }

  lemma {:induction false} AmountIs(amounts: Amounts, d: Dim)
    ensures Amount(amounts, d) == Of(amounts, d)
  {
  }

  lemma {:induction false} GetIs(spend: Spend, d: Dim)
    ensures spend.Get(d) == FieldOf(spend, d)
  {
  }

  /** What one event of the log itself spends: a request one call, a message the tokens its usage states. */
  function Spends(body: Body, d: Dim): int {
    match (d, body)
    case (Calls, ModelRequest(_, _, _, _)) => 1
    case (Input, AssistantMessage(_, _, _, _, Some(usage))) => Number(usage.input)
    case (Output, AssistantMessage(_, _, _, _, Some(usage))) => Number(usage.output)
    case _ => 0
  }

  function Number(c: Count): int {
    match c
    case Whole(n) => n
    case Flag(true) => 1
    case _ => 0
  }

  function OwnSum(events: seq<Event>, d: Dim): int {
    if |events| == 0 then 0 else OwnSum(events[..|events| - 1], d) + Spends(events[|events| - 1].body, d)
  }

  /** What the releases state. */
  function ReleasedSum(events: seq<Event>, d: Dim): int {
    if |events| == 0 then 0 else
      ReleasedSum(events[..|events| - 1], d) +
      match events[|events| - 1].body
      case BudgetRelease(_, Some(spent)) => Of(spent, d).GetOr(0)
      case _ => 0
  }

  lemma {:induction false} OwnIs(events: seq<Event>, d: Dim)
    ensures Own(events).Get(d) == OwnSum(events, d)
  {
    if |events| > 0 {
      OwnIs(events[..|events| - 1], d);
      SpendIs(events[|events| - 1].body, d);
      hide SpendOf, Spends;
    }
  }

  lemma {:induction false} SpendIs(body: Body, d: Dim)
    ensures SpendOf(body).Get(d) == Spends(body, d)
  {
  }

  // Which reservations are open and which children run.

  predicate Reserves(events: seq<Event>, j: nat, id: string) {
    j < |events| && events[j].body.BudgetReserve? && events[j].body.childId == Some(id) && events[j].body.reserved.Some?
  }

  predicate Releases(events: seq<Event>, j: nat, id: string) {
    j < |events| && events[j].body.BudgetRelease? && events[j].body.childId == Some(id) && events[j].body.spent.Some?
  }

  /** The reservation event `j` makes for the child is not released before `n`. */
  ghost predicate Open(events: seq<Event>, n: nat, j: nat, id: string) {
    j < n && Reserves(events, j, id) && forall i: nat :: j < i < n ==> !Releases(events, i, id)
  }

  /** A start of the child is followed by no end of it before `n`. */
  ghost predicate Runs(events: seq<Event>, n: nat, id: string) {
    exists j: nat :: j < n && Started(events, j, id) && forall i: nat :: j < i < n ==> !Ended(events, i, id)
  }

  predicate Started(events: seq<Event>, j: nat, id: string) {
    j < |events| && events[j].body == SpawnStart(Some(id))
  }

  predicate Ended(events: seq<Event>, j: nat, id: string) {
    j < |events| && events[j].body.SpawnEnd? && events[j].body.childId == Some(id)
  }

  /** The open reservations are the active ones, each child's with the amounts its event states. */
  ghost predicate ActiveAre(events: seq<Event>, n: nat, active: map<string, Amounts>) {
    && (forall id :: id in active <==> exists j: nat :: Open(events, n, j, id))
    && (forall id, j: nat :: Open(events, n, j, id) ==> active[id] == events[j].body.reserved.value)
    && (forall id, i: nat, j: nat :: Open(events, n, i, id) && Open(events, n, j, id) ==> i == j)
  }

  lemma {:induction false} OpenStep(events: seq<Event>, n: nat, j: nat, id: string)
    requires n < |events|
    ensures Open(events, n + 1, j, id) <==>
      if j == n then Reserves(events, n, id) else Open(events, n, j, id) && !Releases(events, n, id)
  {
  }

  lemma {:induction false} ActiveStep(
    events: seq<Event>, n: nat, active: map<string, Amounts>, next: map<string, Amounts>)
    requires n < |events| && ActiveAre(events, n, active)
    requires match events[n].body
      case BudgetReserve(Some(id), Some(reserved)) => id !in active && next == active[id := reserved]
      case BudgetRelease(Some(id), Some(_)) => next == active - {id}
      case _ => next == active
    ensures ActiveAre(events, n + 1, next)
  {
    var m := n + 1;
    forall id, j: nat
      ensures Open(events, m, j, id) <==>
        if j == n then Reserves(events, n, id) else Open(events, n, j, id) && !Releases(events, n, id)
      ensures Open(events, n, j, id) ==> j < n
    {
      OpenStep(events, n, j, id);
    }
    hide Open;
    forall id
      ensures id in next ==> exists j: nat :: Open(events, m, j, id)
    {
      if id in next {
        if Reserves(events, n, id) {
          assert Open(events, m, n, id);
        } else {
          var j: nat :| Open(events, n, j, id);
          assert Open(events, m, j, id);
        }
      }
    }
    forall id, j: nat | Open(events, m, j, id)
      ensures id in next && next[id] == events[j].body.reserved.value
    {
      if j != n {
        assert Open(events, n, j, id);
      }
    }
    forall id, i: nat, j: nat | Open(events, m, i, id) && Open(events, m, j, id)
      ensures i == j
    {
      assert i == n || Open(events, n, i, id);
      assert j == n || Open(events, n, j, id);
    }
  }

  lemma {:induction false} BooksActive(logs: seq<Log>, k: nat, height: seq<nat>, n: nat)
    requires k < |logs| && n <= |logs[k].events| && AdmitsAll(logs, k, height, n)
    ensures ActiveAre(logs[k].events, n, Books(logs[k].events[..n]).active)
  {
    var events := logs[k].events;
    if n > 0 {
      AdmittedAt(logs, k, height, n, n - 1);
      BooksActive(logs, k, height, n - 1);
      var a := Books(events[..n - 1]);
      AdmittedActive(logs, k, height, a, events[n - 1].body);
      hide Admits, ActiveAre, Books, Book;
      ActiveStep(events, n - 1, a.active, Book(a, events[n - 1].body).active);
    } else {
      assert Books(events[..0]) == NoAccount;
    }
  }

  lemma {:induction false} AdmittedActive(logs: seq<Log>, k: nat, height: seq<nat>, a: Account, body: Body)
    requires k < |logs| && Admits(logs, k, height, a, body)
    ensures var next := Book(a, body).active;
      match body
      case BudgetReserve(Some(id), Some(reserved)) => id !in a.active && next == a.active[id := reserved]
      case BudgetRelease(Some(id), Some(_)) => next == a.active - {id}
      case _ => next == a.active
  {
    hide ReservedOk, ReleasedOk, ChildOk, Fits;
  }

  lemma {:induction false} RunsStep(events: seq<Event>, n: nat, id: string)
    requires n < |events|
    ensures Runs(events, n + 1, id) <==> Started(events, n, id) || (Runs(events, n, id) && !Ended(events, n, id))
    ensures !Runs(events, 0, id)
  {
    if Started(events, n, id) {
      assert forall i: nat :: n < i < n + 1 ==> !Ended(events, i, id);
    }
    if Runs(events, n, id) && !Ended(events, n, id) {
      var j: nat :| j < n && Started(events, j, id) && forall i: nat :: j < i < n ==> !Ended(events, i, id);
      assert forall i: nat :: j < i < n + 1 ==> !Ended(events, i, id);
    }
  }

  /** The books say which children run and which were ever started. */
  lemma {:induction false} BooksRunning(events: seq<Event>, n: nat, id: string)
    requires n <= |events|
    ensures id in Books(events[..n]).running <==> Runs(events, n, id)
    ensures id in Books(events[..n]).seen <==> exists j: nat :: j < n && Started(events, j, id)
  {
    if n > 0 {
      BooksRunning(events, n - 1, id);
      BooksStep(events, n - 1);
      RunsStep(events, n - 1, id);
      RunningIs(Books(events[..n - 1]), events[n - 1].body, id);
      hide Books, Book, Runs;
      if Started(events, n - 1, id) {
        assert exists j: nat :: j < n && Started(events, j, id);
      }
    } else {
      assert Books(events[..0]) == NoAccount;
    }
  }

  lemma {:induction false} RunningIs(a: Account, body: Body, id: string)
    ensures var b := Book(a, body);
      && (id in b.running <==>
            body == SpawnStart(Some(id)) || (id in a.running && !(body.SpawnEnd? && body.childId == Some(id))))
      && (id in b.seen <==> body == SpawnStart(Some(id)) || id in a.seen)
  {
  }

  // Plain sums of what the books hold.

  /** What the reservations among the first `m` events that are open after `n` state. */
  ghost function OpenSum(events: seq<Event>, n: nat, m: nat, d: Dim): int
    requires m <= n <= |events|
  {
    if m == 0 then 0 else
      OpenSum(events, n, m - 1, d) +
      match events[m - 1].body
      case BudgetReserve(Some(id), Some(reserved)) =>
        if Open(events, n, m - 1, id) then Of(reserved, d).GetOr(0) else 0
      case _ => 0
  }

  /** The open reservations among the first `m` events. */
  ghost function OpenMap(events: seq<Event>, n: nat, m: nat): map<string, Amounts>
    requires m <= n <= |events|
  {
    if m == 0 then map[] else
      var before := OpenMap(events, n, m - 1);
      match events[m - 1].body
      case BudgetReserve(Some(id), Some(reserved)) =>
        if Open(events, n, m - 1, id) then before[id := reserved] else before
      case _ => before
  }

  lemma {:induction false} OpenMapHas(events: seq<Event>, n: nat, m: nat, id: string)
    requires m <= n <= |events|
    ensures id in OpenMap(events, n, m) <==> exists j: nat :: j < m && Open(events, n, j, id)
  {
    if m > 0 {
      OpenMapHas(events, n, m - 1, id);
      OpenReserves(events, n);
      hide Open;
      if id in OpenMap(events, n, m) && id !in OpenMap(events, n, m - 1) {
        assert Open(events, n, m - 1, id);
      }
    }
  }

  lemma {:induction false} OpenReserves(events: seq<Event>, n: nat)
    ensures forall id, j: nat :: Open(events, n, j, id) ==> Reserves(events, j, id) && j < n
  {
  }

  lemma {:induction false} OpenMapSum(events: seq<Event>, n: nat, m: nat, active: map<string, Amounts>, d: Dim)
    requires m <= n <= |events| && ActiveAre(events, n, active)
    ensures ActiveTotal(OpenMap(events, n, m), d) == OpenSum(events, n, m, d)
    ensures forall id :: id in OpenMap(events, n, m) ==> id in active && OpenMap(events, n, m)[id] == active[id]
  {
    if m == 0 {
      NothingActive(events, d);
    } else {
      OpenMapSum(events, n, m - 1, active, d);
      match events[m - 1].body {
        case BudgetReserve(Some(id), Some(reserved)) =>
          if Open(events, n, m - 1, id) {
            OpenMapHas(events, n, m - 1, id);
            AmountIs(reserved, d);
            hide Open, ActiveTotal;
            forall j: nat | j < m - 1
              ensures !Open(events, n, j, id)
            {
              assert Open(events, n, m - 1, id);
            }
            ActiveInsert(OpenMap(events, n, m - 1), id, reserved, d);
          }
        case _ =>
      }
    }
  }

  /** Reserved spend is the plain sum of what the open reservations state. */
  lemma {:induction false} ActiveSums(events: seq<Event>, n: nat, active: map<string, Amounts>, d: Dim)
    requires n <= |events| && ActiveAre(events, n, active)
    ensures ActiveTotal(active, d) == OpenSum(events, n, n, d)
  {
    OpenMapSum(events, n, n, active, d);
    OpenReserves(events, n);
    forall id | id in active
      ensures id in OpenMap(events, n, n)
    {
      OpenMapHas(events, n, n, id);
      var j: nat :| Open(events, n, j, id);
    }
    hide Open;
    assert OpenMap(events, n, n) == active;
  }

  lemma {:induction false} BooksReleased(logs: seq<Log>, k: nat, height: seq<nat>, n: nat, d: Dim)
    requires k < |logs| && n <= |logs[k].events| && AdmitsAll(logs, k, height, n)
    ensures Books(logs[k].events[..n]).child.Get(d) == ReleasedSum(logs[k].events[..n], d)
  {
    var events := logs[k].events;
    if n > 0 {
      AdmittedAt(logs, k, height, n, n - 1);
      BooksReleased(logs, k, height, n - 1, d);
      assert events[..n][..n - 1] == events[..n - 1];
      AdmittedReleased(logs, k, height, Books(events[..n - 1]), events[n - 1].body, d);
      hide Admits, Books, Book;
    } else {
      assert Books(events[..0]) == NoAccount;
    }
  }

  lemma {:induction false} AdmittedReleased(logs: seq<Log>, k: nat, height: seq<nat>, a: Account, body: Body, d: Dim)
    requires k < |logs| && Admits(logs, k, height, a, body)
    ensures Book(a, body).child.Get(d) == a.child.Get(d) +
      match body
      case BudgetRelease(_, Some(spent)) => Of(spent, d).GetOr(0)
      case _ => 0
  {
    hide ReservedOk, ReleasedOk, ChildOk, Fits;
  }

  // The checks, event by event.

  /** A log that starts has the id and the parent its start states; without an id it goes by its path. */
  lemma {:induction false} LogNames(log: Log)
    ensures log.Started().Some? <==> |log.events| > 0 && log.events[0].body.EpisodeStart?
    ensures log.Started().Some? ==>
      var start := log.events[0].body.start;
      && log.ParentId() == start.parentId
      && log.EpisodeId() == if start.id == None then log.path else start.id.value
    ensures log.Started().None? ==> log.ParentId() == None && log.EpisodeId() == log.path
  {
  }

  function BudgetStated(log: Log): Option<Budget> {
    if |log.events| > 0 && log.events[0].body.EpisodeStart? then log.events[0].body.start.budget else None
  }

  function TotalStated(log: Log, d: Dim): Option<int> {
    match BudgetStated(log)
    case Some(budget) => Of(budget.totals, d)
    case None => None
  }

  /** `n` is within a cap: one of a number, the default when none is stated, and any when it is no number. */
  predicate AtMost(n: int, cap: Option<Cap>, default: int) {
    match cap
    case Some(Limit(m)) => n <= m
    case Some(NotANumber) => true
    case _ => n <= default
  }

  function RunCap(log: Log): Option<Cap> {
    if BudgetStated(log).Some? then Some(BudgetStated(log).value.maxConcurrent) else None
  }

  function TreeCap(log: Log): Option<Cap> {
    if BudgetStated(log).Some? then Some(BudgetStated(log).value.maxEpisodes) else None
  }

  /** Log `c` is the last that starts under the id. */
  ghost predicate Records(logs: seq<Log>, c: nat, id: string) {
    && c < |logs| && logs[c].Started().Some? && logs[c].EpisodeId() == id
    && forall b :: c < b < |logs| && logs[b].Started().Some? ==> logs[b].EpisodeId() != id
  }

  /** The log's last end states the outcome, or no event ends it and the outcome is none. */
  ghost predicate EndsAs(events: seq<Event>, outcome: Option<string>) {
    (exists e :: LastEnd(events, e) && events[e].body.outcome == outcome)
    || (outcome == None && forall e :: 0 <= e < |events| ==> !events[e].body.EpisodeEnd?)
  }

  ghost predicate LastEnd(events: seq<Event>, e: int) {
    && 0 <= e < |events| && events[e].body.EpisodeEnd?
    && forall i :: e < i < |events| ==> !events[i].body.EpisodeEnd?
  }

  /** The child's log names a route that ignores the runtime's output cap. */
  ghost predicate Uncapped(logs: seq<Log>, id: string) {
    exists c: nat, i :: Records(logs, c, id) && 0 <= i < |logs[c].events| &&
      logs[c].events[i].body == RequestHeader(Some("openai-codex"))
  }

  ghost predicate ReserveSound(logs: seq<Log>, k: nat, i: nat, id: Option<string>, reserved: Option<Amounts>)
    requires k < |logs| && i < |logs[k].events|
  {
    var events := logs[k].events;
    && id.Some? && reserved.Some?
    && (forall j: nat :: !Open(events, i, j, id.value))
    && forall d: Dim :: TotalStated(logs[k], d).Some? ==>
         OwnSum(events[..i], d) + ReleasedSum(events[..i], d) + OpenSum(events, i + 1, i + 1, d)
           <= TotalStated(logs[k], d).value
  }

  /** The amount a release states, against the reservation it closes and what the child's log measures. */
  ghost predicate AmountSound(
    logs: seq<Log>, height: seq<nat>, id: string, reserved: Amounts, spent: Amounts, d: Dim)
  {
    Of(spent, d).Some? ==>
      && (d == Calls || (d == Output && !Uncapped(logs, id)) ==>
            Of(reserved, d) == None || Of(spent, d).value <= Of(reserved, d).value)
      && (forall c: nat :: Records(logs, c, id) && Walkable(logs, c, height) ==>
            Of(spent, d).value == FieldOf(Subtree(logs, c, height), d))
  }

  ghost predicate ReleaseSound(
    logs: seq<Log>, k: nat, height: seq<nat>, i: nat, id: Option<string>, spent: Option<Amounts>)
    requires k < |logs| && i < |logs[k].events|
  {
    && id.Some? && spent.Some?
    && exists j: nat :: Open(logs[k].events, i, j, id.value) &&
         forall d: Dim ::
           AmountSound(logs, height, id.value, logs[k].events[j].body.reserved.value, spent.value, d)
  }

  /** The ids of the children that run after `n` events. */
  ghost function RunningIds(events: seq<Event>, n: nat): set<string>
    requires n <= |events|
  {
    set j | 0 <= j < n && events[j].body.SpawnStart? && events[j].body.childId.Some? &&
      Runs(events, n, events[j].body.childId.value) :: events[j].body.childId.value
  }

  ghost predicate StartSound(logs: seq<Log>, k: nat, i: nat, id: Option<string>)
    requires k < |logs| && i < |logs[k].events|
  {
    && id.Some?
    && (exists j: nat :: Open(logs[k].events, i, j, id.value))
    && !Runs(logs[k].events, i, id.value)
    && AtMost(|RunningIds(logs[k].events, i + 1)|, RunCap(logs[k]), 4)
  }

  ghost predicate EndSound(logs: seq<Log>, k: nat, i: nat, id: Option<string>, outcome: Option<string>)
    requires k < |logs| && i < |logs[k].events|
  {
    && id.Some? && Runs(logs[k].events, i, id.value)
    && exists c: nat :: Records(logs, c, id.value) &&
         logs[c].ParentId() == Some(logs[k].EpisodeId()) && EndsAs(logs[c].events, outcome)
  }

  ghost predicate EventSound(logs: seq<Log>, k: nat, height: seq<nat>, i: nat)
    requires k < |logs| && i < |logs[k].events|
  {
    match logs[k].events[i].body
    case BudgetReserve(id, reserved) => ReserveSound(logs, k, i, id, reserved)
    case BudgetRelease(id, spent) => ReleaseSound(logs, k, height, i, id, spent)
    case SpawnStart(id) => StartSound(logs, k, i, id)
    case SpawnEnd(id, outcome) => EndSound(logs, k, i, id, outcome)
    case _ => true
  }

  lemma {:induction false} DimsAre(a: Account, budget: Option<Budget>, active: map<string, Amounts>)
    ensures (ReservedOk(a, budget, active, Calls) && ReservedOk(a, budget, active, Input)
             && ReservedOk(a, budget, active, Output))
        <==> forall d: Dim :: ReservedOk(a, budget, active, d)
  {
    hide ReservedOk;
    forall d: Dim | ReservedOk(a, budget, active, Calls) && ReservedOk(a, budget, active, Input)
        && ReservedOk(a, budget, active, Output)
      ensures ReservedOk(a, budget, active, d)
    {
      match d case Calls => case Input => case Output =>
    }
  }

  lemma {:induction false} TotalIs(log: Log, d: Dim)
    ensures Amount(Totals(BudgetOf(log)), d) == TotalStated(log, d)
    ensures BudgetOf(log) == BudgetStated(log)
  {
  }

  lemma {:induction false} ReservedMeans(logs: seq<Log>, k: nat, height: seq<nat>, i: nat, d: Dim)
    requires k < |logs| && i < |logs[k].events| && AdmitsAll(logs, k, height, i)
    requires logs[k].events[i].body.BudgetReserve?
    requires logs[k].events[i].body.childId.Some? && logs[k].events[i].body.reserved.Some?
    requires logs[k].events[i].body.childId.value !in Books(logs[k].events[..i]).active
    ensures var body, a := logs[k].events[i].body, Books(logs[k].events[..i]);
      ReservedOk(a, BudgetOf(logs[k]), a.active[body.childId.value := body.reserved.value], d) <==>
        (TotalStated(logs[k], d).Some? ==>
           OwnSum(logs[k].events[..i], d) + ReleasedSum(logs[k].events[..i], d)
             + OpenSum(logs[k].events, i + 1, i + 1, d) <= TotalStated(logs[k], d).value)
  {
    var events, body, a := logs[k].events, logs[k].events[i].body, Books(logs[k].events[..i]);
    BooksActive(logs, k, height, i);
    BooksReleased(logs, k, height, i, d);
    BooksOwn(events[..i]);
    OwnIs(events[..i], d);
    TotalIs(logs[k], d);
    hide ActiveAre, Books, ActiveTotal, AdmitsAll, OwnSum, ReleasedSum, OpenSum, Own;
    var next := a.active[body.childId.value := body.reserved.value];
    ActiveStep(events, i, a.active, next);
    ActiveSums(events, i + 1, next, d);
  }

  lemma {:induction false} ReserveMeans(logs: seq<Log>, k: nat, height: seq<nat>, i: nat)
    requires k < |logs| && i < |logs[k].events| && AdmitsAll(logs, k, height, i)
    requires logs[k].events[i].body.BudgetReserve?
    ensures var body := logs[k].events[i].body;
      ReserveOk(Books(logs[k].events[..i]), BudgetOf(logs[k]), body.childId, body.reserved) <==>
        ReserveSound(logs, k, i, body.childId, body.reserved)
  {
    var events, body, a := logs[k].events, logs[k].events[i].body, Books(logs[k].events[..i]);
    BooksActive(logs, k, height, i);
    hide Books, ReservedOk, AdmitsAll, OpenSum, OwnSum, ReleasedSum, Open, TotalStated;
    if body.childId.Some? && body.reserved.Some? && body.childId.value !in a.active {
      var active := a.active[body.childId.value := body.reserved.value];
      DimsAre(a, BudgetOf(logs[k]), active);
      forall d: Dim
        ensures ReservedOk(a, BudgetOf(logs[k]), active, d) <==>
          (TotalStated(logs[k], d).Some? ==>
             OwnSum(events[..i], d) + ReleasedSum(events[..i], d) + OpenSum(events, i + 1, i + 1, d)
               <= TotalStated(logs[k], d).value)
      {
        ReservedMeans(logs, k, height, i, d);
      }
    }
  }

  lemma {:induction false} RecordsIs(logs: seq<Log>, n: nat, id: string)
    requires n <= |logs|
    ensures ByIdIn(logs, n, id).Some? ==>
      var c := ByIdIn(logs, n, id).value; forall b :: c < b < n && logs[b].Started().Some? ==> logs[b].EpisodeId() != id
    ensures ByIdIn(logs, n, id).None? ==>
      forall b :: 0 <= b < n && logs[b].Started().Some? ==> logs[b].EpisodeId() != id
  {
    if n > 0 {
      RecordsIs(logs, n - 1, id);
    }
  }

  lemma {:induction false} RecordedIs(logs: seq<Log>, id: string)
    ensures forall c: nat :: Records(logs, c, id) <==> ById(logs, id) == Some(c)
  {
    RecordsIs(logs, |logs|, id);
    var r := ById(logs, id);
    hide ById;
    forall c: nat
      ensures Records(logs, c, id) <==> r == Some(c)
    {
      if Records(logs, c, id) && r.Some? {
        assert !(c < r.value) && !(r.value < c);
      }
    }
  }

  lemma {:induction false} BoundedIs(logs: seq<Log>, id: string, d: Dim)
    ensures Bounded(logs, id, d) <==> d == Calls || (d == Output && !Uncapped(logs, id))
  {
    RecordedIs(logs, id);
    hide ById, Records;
    var r := ById(logs, id);
    if r.Some? && d == Output {
      var events := logs[r.value].events;
      if i :| 0 <= i < |events| && events[i].body.RequestHeader? && events[i].body.provider == Some("openai-codex") {
        assert events[i].body == RequestHeader(Some("openai-codex"));
        assert Records(logs, r.value, id);
        assert Uncapped(logs, id);
      }
    }
  }

  lemma {:induction false} ReleasedMeans(
    logs: seq<Log>, height: seq<nat>, id: string, reserved: Amounts, spent: Amounts, d: Dim)
    ensures ReleasedOk(logs, height, id, reserved, spent, d) <==> AmountSound(logs, height, id, reserved, spent, d)
  {
    BoundedIs(logs, id, d);
    RecordedIs(logs, id);
    AmountIs(spent, d);
    AmountIs(reserved, d);
    hide ById, Records, Uncapped, Bounded, Walkable, Subtree;
    if MeasuredSpend(logs, height, id).Some? {
      GetIs(MeasuredSpend(logs, height, id).value, d);
    }
  }

  lemma {:induction false} ReleasedDims(
    logs: seq<Log>, height: seq<nat>, id: string, reserved: Amounts, spent: Amounts)
    ensures (
      ReleasedOk(logs, height, id, reserved, spent, Calls) && ReleasedOk(logs, height, id, reserved, spent, Input)
             && ReleasedOk(logs, height, id, reserved, spent, Output))
        <==> forall d: Dim :: ReleasedOk(logs, height, id, reserved, spent, d)
  {
    hide ReleasedOk;
    forall d: Dim | ReleasedOk(logs, height, id, reserved, spent, Calls)
        && ReleasedOk(logs, height, id, reserved, spent, Input) && ReleasedOk(logs, height, id, reserved, spent, Output)
      ensures ReleasedOk(logs, height, id, reserved, spent, d)
    {
      match d case Calls => case Input => case Output =>
    }
  }

  lemma {:induction false} ReleaseMeans(logs: seq<Log>, k: nat, height: seq<nat>, i: nat)
    requires k < |logs| && i < |logs[k].events| && AdmitsAll(logs, k, height, i)
    requires logs[k].events[i].body.BudgetRelease?
    ensures var body := logs[k].events[i].body;
      ReleaseOk(logs, height, Books(logs[k].events[..i]), body.childId, body.spent) <==>
        ReleaseSound(logs, k, height, i, body.childId, body.spent)
  {
    var events, body, a := logs[k].events, logs[k].events[i].body, Books(logs[k].events[..i]);
    BooksActive(logs, k, height, i);
    hide Books, ReleasedOk, AdmitsAll, Open, AmountSound;
    if body.childId.Some? && body.spent.Some? && body.childId.value in a.active {
      var id, spent := body.childId.value, body.spent.value;
      var j: nat :| Open(events, i, j, id);
      forall d: Dim
        ensures ReleasedOk(logs, height, id, a.active[id], spent, d)
            <==> AmountSound(logs, height, id, a.active[id], spent, d)
      {
        ReleasedMeans(logs, height, id, a.active[id], spent, d);
      }
      assert a.active[id] == events[j].body.reserved.value;
      ReleasedDims(logs, height, id, a.active[id], spent);
    }
  }

  lemma {:induction false} RunningSet(events: seq<Event>, n: nat)
    requires n <= |events|
    ensures RunningIds(events, n) == Books(events[..n]).running
  {
    forall id
      ensures id in RunningIds(events, n) <==> id in Books(events[..n]).running
    {
      BooksRunning(events, n, id);
      if Runs(events, n, id) {
        var j: nat :| j < n && Started(events, j, id) && forall i: nat :: j < i < n ==> !Ended(events, i, id);
        assert events[j].body.childId.value == id;
      }
    }
  }

  lemma {:induction false} CapIs(n: int, log: Log)
    ensures Fits(n, Concurrent(BudgetOf(log)), 4) <==> AtMost(n, RunCap(log), 4)
    ensures Fits(n, Episodes(BudgetOf(log)), 8) <==> AtMost(n, TreeCap(log), 8)
  {
  }

  lemma {:induction false} StartMeans(logs: seq<Log>, k: nat, height: seq<nat>, i: nat)
    requires k < |logs| && i < |logs[k].events| && AdmitsAll(logs, k, height, i) && logs[k].events[i].body.SpawnStart?
    ensures var body := logs[k].events[i].body;
      SpawnStartOk(Books(logs[k].events[..i]), BudgetOf(logs[k]), body.childId) <==>
        StartSound(logs, k, i, body.childId)
  {
    var events, body, a := logs[k].events, logs[k].events[i].body, Books(logs[k].events[..i]);
    BooksActive(logs, k, height, i);
    RunningSet(events, i + 1);
    BooksStep(events, i);
    if body.childId.Some? {
      var id := body.childId.value;
      BooksRunning(events, i, id);
      assert Book(a, body).running == a.running + {id};
      CapIs(|a.running + {id}|, logs[k]);
    }
    hide Books, AdmitsAll, Open, Fits, AtMost, Runs, RunningIds;
  }

  lemma {:induction false} OutcomeIs(events: seq<Event>, outcome: Option<string>)
    ensures LastOutcome(events) == outcome <==> EndsAs(events, outcome)
  {
    if |events| > 0 {
      var before, n := events[..|events| - 1], |events| - 1;
      OutcomeIs(before, outcome);
      if events[n].body.EpisodeEnd? {
        assert LastEnd(events, n);
      } else {
        assert forall e :: LastEnd(events, e) <==> LastEnd(before, e);
      }
    }
  }

  lemma {:induction false} EndMeans(logs: seq<Log>, k: nat, i: nat)
    requires k < |logs| && i < |logs[k].events| && logs[k].events[i].body.SpawnEnd?
    ensures var body := logs[k].events[i].body;
      SpawnEndOk(logs, k, Books(logs[k].events[..i]), body.childId, body.childOutcome) <==>
        EndSound(logs, k, i, body.childId, body.childOutcome)
  {
    var events, body := logs[k].events, logs[k].events[i].body;
    if body.childId.Some? {
      var id := body.childId.value;
      BooksRunning(events, i, id);
      RecordedIs(logs, id);
      if ById(logs, id).Some? {
        OutcomeIs(logs[ById(logs, id).value].events, body.childOutcome);
        assert Records(logs, ById(logs, id).value, id);
      }
    }
    hide Books, Runs, Records, ById, EndsAs, LastOutcome;
  }

  lemma {:induction false} EventMeans(logs: seq<Log>, k: nat, height: seq<nat>, i: nat)
    requires k < |logs| && i < |logs[k].events| && AdmitsAll(logs, k, height, i)
    ensures Admits(logs, k, height, Books(logs[k].events[..i]), logs[k].events[i].body)
        <==> EventSound(logs, k, height, i)
  {
    hide ReserveOk, ReleaseOk, SpawnStartOk, SpawnEndOk, ReserveSound, ReleaseSound, StartSound, EndSound, Books;
    match logs[k].events[i].body {
      case BudgetReserve(_, _) => ReserveMeans(logs, k, height, i);
      case BudgetRelease(_, _) => ReleaseMeans(logs, k, height, i);
      case SpawnStart(_) => StartMeans(logs, k, height, i);
      case SpawnEnd(_, _) => EndMeans(logs, k, i);
      case _ =>
    }
  }

  lemma {:induction false} EventsMean(logs: seq<Log>, k: nat, height: seq<nat>, n: nat)
    requires k < |logs| && n <= |logs[k].events|
    ensures AdmitsAll(logs, k, height, n) <==> forall i :: 0 <= i < n ==> EventSound(logs, k, height, i)
  {
    hide EventSound, Admits, Books;
    if n > 0 {
      EventsMean(logs, k, height, n - 1);
      if AdmitsAll(logs, k, height, n - 1) {
        EventMeans(logs, k, height, n - 1);
      }
    }
  }

  // The whole log.

  /** Some log names the id of log `k` as its parent. */
  ghost predicate IsParent(logs: seq<Log>, k: nat)
    requires k < |logs|
  {
    exists c :: 0 <= c < |logs| && logs[c].ParentId() == Some(logs[k].EpisodeId())
  }

  predicate OfBudget(body: Body) {
    match body
    case BudgetReserve(_, _) => true
    case BudgetRelease(_, _) => true
    case SpawnStart(_) => true
    case SpawnEnd(_, _) => true
    case _ => false
  }

  ghost predicate EverStarted(events: seq<Event>, id: string) {
    exists j: nat :: Started(events, j, id)
  }

  /** A log under the id names log `k` as its parent. */
  ghost predicate HasChild(logs: seq<Log>, k: nat, id: string)
    requires k < |logs|
  {
    exists c :: 0 <= c < |logs| && logs[c].ParentId() == Some(logs[k].EpisodeId()) && logs[c].EpisodeId() == id
  }

  /** At the end nothing is reserved or runs, and the started ids are those of the logs that name log `k`. */
  ghost predicate Settles(logs: seq<Log>, k: nat, height: seq<nat>)
    requires k < |logs|
  {
    var events := logs[k].events;
    && (forall id, j: nat :: !Open(events, |events|, j, id))
    && (forall id :: !Runs(events, |events|, id))
    && (forall id :: EverStarted(events, id) <==> HasChild(logs, k, id))
    && (Walkable(logs, k, height) ==> AtMost(Size(logs, k, height), TreeCap(logs[k]), 8))
  }

  /** What a log that meets the budget checks is. */
  ghost predicate Sound(logs: seq<Log>, k: nat, height: seq<nat>)
    requires k < |logs|
  {
    (exists i :: 0 <= i < |logs[k].events| && OfBudget(logs[k].events[i].body)) || IsParent(logs, k) ==>
      && BudgetStated(logs[k]).Some?
      && (forall i :: 0 <= i < |logs[k].events| ==> EventSound(logs, k, height, i))
      && Settles(logs, k, height)
  }

  lemma {:induction false} ChildrenHold(logs: seq<Log>, n: nat, id: string, c: nat)
    requires n <= |logs|
    ensures c in ChildrenIn(logs, n, id) <==> c < n && logs[c].ParentId() == Some(id)
  {
    if n > 0 {
      ChildrenHold(logs, n - 1, id, c);
    }
  }

  lemma {:induction false} AppliesMeans(logs: seq<Log>, k: nat)
    requires k < |logs|
    ensures Applies(logs, k) <==>
      (exists i :: 0 <= i < |logs[k].events| && OfBudget(logs[k].events[i].body)) || IsParent(logs, k)
  {
    var id, children := logs[k].EpisodeId(), Children(logs, logs[k].EpisodeId());
    if children != [] {
      assert logs[children[0]].ParentId() == Some(id);
    }
    if c :| 0 <= c < |logs| && logs[c].ParentId() == Some(id) {
      ChildrenHold(logs, |logs|, id, c);
    }
    forall i | 0 <= i < |logs[k].events|
      ensures BudgetEvent(logs[k].events[i].body) <==> OfBudget(logs[k].events[i].body)
    {
    }
  }

  lemma {:induction false} ChildIdsHold(logs: seq<Log>, k: nat, id: string)
    requires k < |logs|
    ensures id in ChildIds(logs, Children(logs, logs[k].EpisodeId())) <==> HasChild(logs, k, id)
  {
    var parent := logs[k].EpisodeId();
    var children := Children(logs, parent);
    if c :| 0 <= c < |logs| && logs[c].ParentId() == Some(parent) && logs[c].EpisodeId() == id {
      ChildrenHold(logs, |logs|, parent, c);
      var i :| 0 <= i < |children| && children[i] == c;
    }
  }

  lemma {:induction false} ClosesMeans(logs: seq<Log>, k: nat, height: seq<nat>)
    requires k < |logs| && AdmitsAll(logs, k, height, |logs[k].events|)
    ensures Closes(logs, k, height, Books(logs[k].events)) <==> Settles(logs, k, height)
  {
    var events, children := logs[k].events, Children(logs, logs[k].EpisodeId());
    var a := Books(events);
    assert events[..|events|] == events;
    BooksActive(logs, k, height, |events|);
    forall id
      ensures id in a.running <==> Runs(events, |events|, id)
      ensures id in a.seen <==> EverStarted(events, id)
      ensures id in ChildIds(logs, children) <==> HasChild(logs, k, id)
    {
      BooksRunning(events, |events|, id);
      ChildIdsHold(logs, k, id);
      if j: nat :| Started(events, j, id) {
        assert j < |events|;
      }
    }
    if Walkable(logs, k, height) {
      CapIs(Size(logs, k, height), logs[k]);
    }
    hide Books, AdmitsAll, Open, Runs, EverStarted, HasChild, ChildIds, Children, Fits, AtMost, Size;
    MapIsEmpty(a.active);
    SetIsEmpty(a.running);
    SameMembers(a.seen, ChildIds(logs, children));
  }

  lemma {:induction false} SameMembers(s: set<string>, t: set<string>)
    ensures s == t <==> forall id :: id in s <==> id in t
  {
  }

  lemma {:induction false} MapIsEmpty(m: map<string, Amounts>)
    ensures m == map[] <==> forall id :: id !in m
  {
    if forall id :: id !in m {
      assert m.Keys == {};
    }
  }

  lemma {:induction false} SetIsEmpty(s: set<string>)
    ensures s == {} <==> forall id :: id !in s
  {
  }

  /**
   * The budget checks pass over a log exactly when it is sound: every reservation, start, end and release stands where
   * the events before it allow it, and its amounts fit the totals, the reservations and what the child logs spent.
   */
  lemma {:induction false} BalancedMeans(logs: seq<Log>, k: nat, height: seq<nat>)
    requires k < |logs|
    ensures Balanced(logs, k, height) <==> Sound(logs, k, height)
  {
    AppliesMeans(logs, k);
    TotalIs(logs[k], Calls);
    EventsMean(logs, k, height, |logs[k].events|);
    if AdmitsAll(logs, k, height, |logs[k].events|) {
      ClosesMeans(logs, k, height);
    }
    hide Applies, AdmitsAll, EventSound, Closes, Settles, IsParent, Books;
  }

  /** At every reservation of an accepted log, own, released and reserved spend fit each total that is stated. */
  lemma {:induction false} ReservationsFit(logs: seq<Log>, k: nat, height: seq<nat>, i: nat, d: Dim)
    requires k < |logs| && i < |logs[k].events| && Balanced(logs, k, height)
    requires logs[k].events[i].body.BudgetReserve? && TotalStated(logs[k], d).Some?
    ensures OwnSum(logs[k].events[..i], d) + ReleasedSum(logs[k].events[..i], d)
        + OpenSum(logs[k].events, i + 1, i + 1, d) <= TotalStated(logs[k], d).value
  {
    BalancedMeans(logs, k, height);
    hide Balanced, Settles, IsParent, TotalStated, OwnSum, ReleasedSum, OpenSum, Open, BudgetStated;
    assert OfBudget(logs[k].events[i].body);
    assert EventSound(logs, k, height, i);
  }
}
