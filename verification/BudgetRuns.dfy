/** What holds at every event of a log whose budget checks pass. */
module BudgetRuns {
  import opened Prelude
  import opened EpisodeLog
  import opened BudgetCheck

  // Committed spend between reservations.

  ghost function Committed(a: Account, d: Dim): int {
    a.child.Get(d) + ActiveTotal(a.active, d)
  }

  /** What a release states beyond the reservation it closes, an amount that is not stated counting nothing. */
  function Lift(a: Account, body: Body, d: Dim): nat {
    match body
    case BudgetRelease(Some(id), Some(spent)) =>
      if id in a.active then Max(Amount(spent, d).GetOr(0) - Amount(a.active[id], d).GetOr(0), 0) else 0
    case _ => 0
  }

  lemma {:induction false} ActiveInsert(active: map<string, Amounts>, id: string, reserved: Amounts, d: Dim)
    requires id !in active
    ensures ActiveTotal(active[id := reserved], d) == ActiveTotal(active, d) + Amount(reserved, d).GetOr(0)
  {
    var amounts := map i | i in active :: Amount(active[i], d).GetOr(0);
    var more := active[id := reserved];
    assert (map i | i in more :: Amount(more[i], d).GetOr(0)) == amounts[id := Amount(reserved, d).GetOr(0)];
    SumMapInsert(amounts, id, Amount(reserved, d).GetOr(0));
  }

  lemma {:induction false} ActiveRemove(active: map<string, Amounts>, id: string, d: Dim)
    requires id in active
    ensures ActiveTotal(active - {id}, d) == ActiveTotal(active, d) - Amount(active[id], d).GetOr(0)
  {
    ActiveInsert(active - {id}, id, active[id], d);
    assert (active - {id})[id := active[id]] == active;
  }

  /** Apart from a reservation, an event of a log lets committed spend rise in this way and no other. */
  lemma {:induction false} CommittedFalls(a: Account, body: Body, d: Dim)
    requires !body.BudgetReserve?
    ensures if Lift(a, body, d) > 0 then Committed(Book(a, body), d) == Committed(a, d) + Lift(a, body, d)
      else Committed(Book(a, body), d) <= Committed(a, d)
  {
    if body.BudgetRelease? && body.childId.Some? && body.childId.value in a.active {
      ActiveRemove(a.active, body.childId.value, d);
    }
  }

  /**
   * Where a reservation bounds its child, an accepted release lifts exactly when it states nothing and closes a
   * negative reservation, or states some and closes a reservation that stated none.
   */
  lemma {:induction false} LiftsWhen(
    logs: seq<Log>, k: nat, height: seq<nat>, a: Account, id: string, spent: Amounts, d: Dim)
    requires k < |logs| && Admits(logs, k, height, a, BudgetRelease(Some(id), Some(spent))) && Bounded(logs, id, d)
    ensures id in a.active
    ensures Lift(a, BudgetRelease(Some(id), Some(spent)), d) > 0 <==>
      match (Amount(a.active[id], d), Amount(spent, d)) {
        case (Some(reserved), None) => reserved < 0
        case (None, Some(stated)) => stated > 0
        case _ => false
      }
  {
    hide MeasuredSpend;
    assert ReleasedOk(logs, height, id, a.active[id], spent, d);
  }

  lemma {:induction false} ReservedFits(a: Account, budget: Option<Budget>, body: Body, d: Dim)
    requires body.BudgetReserve? && ReserveOk(a, budget, body.childId, body.reserved)
    requires Amount(Totals(budget), d).Some?
    ensures Committed(Book(a, body), d) <= Amount(Totals(budget), d).value - a.own.Get(d)
  {
    hide ReservedOk;
    assert ReservedOk(a, budget, a.active[body.childId.value := body.reserved.value], d) by {
      match d case Calls => case Input => case Output =>
    }
    TotalFits(a, budget, a.active[body.childId.value := body.reserved.value], d);
  }

  lemma {:induction false} TotalFits(a: Account, budget: Option<Budget>, active: map<string, Amounts>, d: Dim)
    requires ReservedOk(a, budget, active, d) && Amount(Totals(budget), d).Some?
    ensures a.own.Get(d) + a.child.Get(d) + ActiveTotal(active, d) <= Amount(Totals(budget), d).value
  {
  }

  function LastReserve(events: seq<Event>): (r: Option<nat>)
    ensures r.Some? ==> r.value < |events| && events[r.value].body.BudgetReserve?
  {
    if |events| == 0 then None
    else if events[|events| - 1].body.BudgetReserve? then Some(|events| - 1)
    else LastReserve(events[..|events| - 1])
  }

  lemma {:induction false} BookOwn(a: Account, body: Body)
    ensures Book(a, body).own == a.own.Plus(SpendOf(body))
  {
    match body
    case ModelRequest(_, _, _, _) =>
    case AssistantMessage(_, _, _, _, _) =>
    case _ =>
  }

  lemma {:induction false} BooksOwn(events: seq<Event>)
    ensures Books(events).own == Own(events)
  {
    hide Book, SpendOf;
    if |events| > 0 {
      BooksOwn(events[..|events| - 1]);
      BookOwn(Books(events[..|events| - 1]), events[|events| - 1].body);
    }
  }

  lemma {:induction false} AdmittedAt(logs: seq<Log>, k: nat, height: seq<nat>, n: nat, i: nat)
    requires k < |logs| && i < n <= |logs[k].events| && AdmitsAll(logs, k, height, n)
    ensures AdmitsAll(logs, k, height, i)
    ensures Admits(logs, k, height, Books(logs[k].events[..i]), logs[k].events[i].body)
    ensures Books(logs[k].events[..i + 1]) == Book(Books(logs[k].events[..i]), logs[k].events[i].body)
  {
    hide Admits, Book, Books;
    BooksStep(logs[k].events, i);
    if i < n - 1 {
      AdmittedAt(logs, k, height, n - 1, i);
    }
  }

  lemma {:induction false} BooksStep(events: seq<Event>, i: nat)
    requires i < |events|
    ensures Books(events[..i + 1]) == Book(Books(events[..i]), events[i].body)
  {
    hide Book;
    assert events[..i + 1][..i] == events[..i];
  }

  /** What may be committed after `i` events: the total, less what the parent had spent when it last reserved. */
  function Committable(events: seq<Event>, total: int, i: nat, d: Dim): int
    requires i <= |events|
  {
    match LastReserve(events[..i])
    case Some(r) => total - Own(events[..r]).Get(d)
    case None => 0
  }

  lemma {:induction false} CommittableStep(events: seq<Event>, total: int, i: nat, d: Dim)
    requires i < |events|
    ensures Committable(events, total, i + 1, d) == if events[i].body.BudgetReserve?
      then total - Books(events[..i]).own.Get(d) else Committable(events, total, i, d)
  {
    hide Own, Books;
    BooksOwn(events[..i]);
    var upto := events[..i + 1];
    assert upto[..i] == events[..i] && upto[i] == events[i];
    var r := LastReserve(upto);
    if r.Some? && r.value < i {
      assert upto[..r.value] == events[..r.value] == events[..i][..r.value];
    }
  }

  lemma {:induction false} AdmitsReserve(logs: seq<Log>, k: nat, height: seq<nat>, a: Account, body: Body)
    requires k < |logs| && Admits(logs, k, height, a, body) && body.BudgetReserve?
    ensures ReserveOk(a, BudgetOf(logs[k]), body.childId, body.reserved)
  {
  }

  lemma {:induction false} BalancedAdmits(logs: seq<Log>, k: nat, height: seq<nat>, i: nat)
    requires k < |logs| && i < |logs[k].events| && Balanced(logs, k, height) && Applies(logs, k)
    ensures Admits(logs, k, height, Books(logs[k].events[..i]), logs[k].events[i].body)
    ensures Books(logs[k].events[..i + 1]) == Book(Books(logs[k].events[..i]), logs[k].events[i].body)
  {
    hide Admits, Books, Book, Closes, Applies;
    AdmittedAt(logs, k, height, |logs[k].events|, i);
  }

  /** What committed spend was lifted by since the last reservation. */
  function Lifted(events: seq<Event>, d: Dim): nat {
    if |events| == 0 || events[|events| - 1].body.BudgetReserve? then 0 else
      var before := events[..|events| - 1];
      Lifted(before, d) + Lift(Books(before), events[|events| - 1].body, d)
  }

  lemma {:induction false} LiftedStep(events: seq<Event>, i: nat, d: Dim)
    requires i < |events|
    ensures Lifted(events[..i + 1], d) == if events[i].body.BudgetReserve? then 0
      else Lifted(events[..i], d) + Lift(Books(events[..i]), events[i].body, d)
    ensures LastReserve(events[..i + 1]) == if events[i].body.BudgetReserve? then Some(i) else LastReserve(events[..i])
    ensures events[i].body.BudgetReserve? ==> Lift(Books(events[..i]), events[i].body, d) == 0
  {
    hide Books;
    assert events[..i + 1][..i] == events[..i];
  }

  /** Nothing was lifted exactly when no event since the last reservation lifts. */
  lemma {:induction false} NothingLifted(events: seq<Event>, i: nat, d: Dim)
    requires i <= |events|
    ensures Lifted(events[..i], d) == 0 <==>
      forall j :: LastReserve(events[..i]).GetOr(0) <= j < i ==> Lift(Books(events[..j]), events[j].body, d) == 0
  {
    hide Lift, Books, Lifted, LastReserve;
    if i == 0 {
      NoneLifted(events, d);
    } else {
      NothingLifted(events, i - 1, d);
      LiftedStep(events, i - 1, d);
      ReserveBefore(events, i - 1);
    }
  }

  lemma {:induction false} NoneLifted(events: seq<Event>, d: Dim)
    ensures Lifted(events[..0], d) == 0
  {
  }

  lemma {:induction false} ReserveBefore(events: seq<Event>, i: nat)
    requires i <= |events|
    ensures LastReserve(events[..i]).GetOr(0) <= i
  {
  }

  /**
   * At every event of an accepted log, what children have spent and may still spend
   * stays within what may be committed and what has been lifted since.
   */
  lemma {:induction false} CommittedFits(logs: seq<Log>, k: nat, height: seq<nat>, i: nat, d: Dim)
    requires k < |logs| && i <= |logs[k].events| && Balanced(logs, k, height)
    requires Amount(Totals(BudgetOf(logs[k])), d).Some?
    ensures Committed(Books(logs[k].events[..i]), d) <=
      Committable(logs[k].events, Amount(Totals(BudgetOf(logs[k])), d).value, i, d) + Lifted(logs[k].events[..i], d)
  {
    var events, total := logs[k].events, Amount(Totals(BudgetOf(logs[k])), d).value;
    if !Applies(logs, k) || i == 0 {
      NothingCommitted(events, i, d);
    } else {
      BalancedAdmits(logs, k, height, i - 1);
      hide *;
      if !events[i - 1].body.BudgetReserve? {
        CommittedFits(logs, k, height, i - 1, d);
      }
      FitsStep(logs, k, height, i - 1, d, total);
    }
  }

  lemma {:induction false} FitsStep(logs: seq<Log>, k: nat, height: seq<nat>, i: nat, d: Dim, total: int)
    requires k < |logs| && i < |logs[k].events| && Amount(Totals(BudgetOf(logs[k])), d) == Some(total)
    requires Admits(logs, k, height, Books(logs[k].events[..i]), logs[k].events[i].body)
    requires Books(logs[k].events[..i + 1]) == Book(Books(logs[k].events[..i]), logs[k].events[i].body)
    requires logs[k].events[i].body.BudgetReserve? || Committed(Books(logs[k].events[..i]), d)
      <= Committable(logs[k].events, total, i, d) + Lifted(logs[k].events[..i], d)
    ensures Committed(Books(logs[k].events[..i + 1]), d)
      <= Committable(logs[k].events, total, i + 1, d) + Lifted(logs[k].events[..i + 1], d)
  {
    var events := logs[k].events;
    hide *;
    CommittableStep(events, total, i, d);
    LiftedStep(events, i, d);
    if events[i].body.BudgetReserve? {
      AdmitsReserve(logs, k, height, Books(events[..i]), events[i].body);
      ReservedFits(Books(events[..i]), BudgetOf(logs[k]), events[i].body, d);
    } else {
      CommittedFalls(Books(events[..i]), events[i].body, d);
    }
  }

  lemma {:induction false} NothingCommitted(events: seq<Event>, i: nat, d: Dim)
    requires i <= |events| && forall j :: 0 <= j < i ==> !BudgetEvent(events[j].body)
    ensures Committed(Books(events[..i]), d) == 0 && LastReserve(events[..i]) == None
    ensures Books(events[..i]).active == map[] && Books(events[..i]).running == {} &&
      Books(events[..i]).child == NoSpend
  {
    hide Books, Book, LastReserve, ActiveTotal;
    if i > 0 {
      NothingCommitted(events, i - 1, d);
      BooksStep(events, i - 1);
      LiftedStep(events, i - 1, d);
      BooksQuietly(Books(events[..i - 1]), events[i - 1].body);
    } else {
      NothingActive(events, d);
    }
  }

  lemma {:induction false} NothingActive(events: seq<Event>, d: Dim)
    ensures Books(events[..0]) == NoAccount && Committed(NoAccount, d) == 0
    ensures LastReserve(events[..0]) == None
  {
    var none: map<string, Amounts> := map[];
    assert (map id | id in none :: Amount(none[id], d).GetOr(0)).Keys == {};
  }

  lemma {:induction false} BooksQuietly(a: Account, body: Body)
    requires !BudgetEvent(body)
    ensures var b := Book(a, body); b.active == a.active && b.running == a.running && b.child == a.child
  {
  }

  /** The children that run fit the cap. */
  ghost predicate RunningOk(a: Account, budget: Option<Budget>) {
    a.running == {} || Fits(|a.running|, Concurrent(budget), 4)
  }

  lemma {:induction false} RunningStep(logs: seq<Log>, k: nat, height: seq<nat>, a: Account, body: Body)
    requires k < |logs| && Admits(logs, k, height, a, body) && RunningOk(a, BudgetOf(logs[k]))
    ensures RunningOk(Book(a, body), BudgetOf(logs[k]))
  {
    hide ReserveOk, ReleaseOk, ChildOk;
    if body.SpawnEnd? && body.childId.Some? {
      SubsetSize(a.running - {body.childId.value}, a.running);
    }
  }

  lemma {:induction false} BalancedCloses(logs: seq<Log>, k: nat, height: seq<nat>)
    requires k < |logs| && Balanced(logs, k, height) && Applies(logs, k)
    ensures Books(logs[k].events).running == {} && Books(logs[k].events).active == map[]
  {
    hide AdmitsAll, Books, Applies;
  }

  /** The children that run at once never exceed the cap, and none is left running or reserved at the end. */
  lemma {:induction false} RunningFits(logs: seq<Log>, k: nat, height: seq<nat>, i: nat)
    requires k < |logs| && i <= |logs[k].events| && Balanced(logs, k, height)
    ensures RunningOk(Books(logs[k].events[..i]), BudgetOf(logs[k]))
    ensures i == |logs[k].events| ==>
      Books(logs[k].events[..i]).running == {} && Books(logs[k].events[..i]).active == map[]
  {
    var events := logs[k].events;
    assert events[..|events|] == events;
    if !Applies(logs, k) || i == 0 {
      NothingCommitted(events, i, Calls);
    } else {
      hide Balanced, Applies, Admits, Books, Book, RunningOk;
      RunningFits(logs, k, height, i - 1);
      BalancedAdmits(logs, k, height, i - 1);
      RunningStep(logs, k, height, Books(events[..i - 1]), events[i - 1].body);
      BalancedCloses(logs, k, height);
    }
  }
}
