/** The metering proxy's accounts: atomic steps on a shared table of attempts, in any interleaving. */
module MeterModel {
  import opened Prelude

  datatype Json = Null | Boolean(b: bool) | Whole(n: int) | Other

  datatype Dimension = InputTokens | OutputTokens

  datatype Usage = Usage(input: nat, output: nat, cacheRead: nat) {
    function Get(d: Dimension): nat {
      match d
      case InputTokens => input
      case OutputTokens => output
    }

    function Plus(other: Usage): Usage {
      Usage(input + other.input, output + other.output, cacheRead + other.cacheRead)
    }
  }

  const NoUsage := Usage(0, 0, 0)

  /** The value of the first key that is present and not null; None is the error raised for anything but a count. */
  function CountOf(values: seq<Json>): Option<nat> {
    if |values| == 0 then None
    else match values[0]
      case Null => CountOf(values[1..])
      case Whole(n) => if n >= 0 then Some(n) else None
      case _ => None
  }

  /** When every value is null there is no count. */
  lemma {:induction false} NoCount(values: seq<Json>)
    requires forall i :: 0 <= i < |values| ==> values[i].Null?
    ensures CountOf(values) == None
  {
    if |values| > 0 {
      NoCount(values[1..]);
    }
  }

  /** A count is read exactly when the first value that is not null is a whole number that is not negative. */
  lemma {:induction false} CountIsFirst(values: seq<Json>, i: nat)
    requires i < |values| && !values[i].Null? && forall j :: 0 <= j < i ==> values[j].Null?
    ensures CountOf(values) == if values[i].Whole? && values[i].n >= 0 then Some(values[i].n) else None
  {
    if i > 0 {
      CountIsFirst(values[1..], i - 1);
    }
  }

  // Budgets.

  datatype Budget = Budget(input: Option<nat>, output: Option<nat>) {
    function Get(d: Dimension): Option<nat> {
      match d
      case InputTokens => input
      case OutputTokens => output
    }

    function With(d: Dimension, limit: Option<nat>): Budget {
      match d
      case InputTokens => Budget(limit, output)
      case OutputTokens => Budget(input, limit)
    }
  }

  datatype Document = NotAnObject | Object(items: seq<(string, Json)>)

  function KeyName(d: Dimension): string {
    match d
    case InputTokens => "input_tokens"
    case OutputTokens => "output_tokens"
  }

  function DimensionNamed(key: string): Option<Dimension> {
    if key == "input_tokens" then Some(InputTokens) else if key == "output_tokens" then Some(OutputTokens) else None
  }

  predicate ItemOk(item: (string, Json)) {
    DimensionNamed(item.0).Some? && (item.1.Null? || (item.1.Whole? && item.1.n >= 0))
  }

  function LimitOf(value: Json): Option<nat> {
    if value.Whole? && value.n >= 0 then Some(value.n) else None
  }

  function WithItems(current: Budget, items: seq<(string, Json)>): Budget {
    if |items| == 0 then current else
      var before, item := WithItems(current, items[..|items| - 1]), items[|items| - 1];
      if ItemOk(item) then before.With(DimensionNamed(item.0).value, LimitOf(item.1)) else before
  }

  /** The document is one the control endpoint accepts. */
  predicate DocumentOk(document: Document) {
    document.Object? && forall i :: 0 <= i < |document.items| ==> ItemOk(document.items[i])
  }

  method BudgetFromDocument(document: Document, current: Budget) returns (r: Option<Budget>)
    ensures r == if DocumentOk(document) then Some(WithItems(current, document.items)) else None
  {
    if document.NotAnObject? {
      return None;
    }
    var budget, items := current, document.items;
    for i := 0 to |items|
      invariant budget == WithItems(current, items[..i])
      invariant forall j :: 0 <= j < i ==> ItemOk(items[j])
    {
      assert items[..i + 1][..i] == items[..i];
      var (key, value) := items[i];
      if DimensionNamed(key).None? {
        return None;
      }
      if !value.Null? && !(value.Whole? && value.n >= 0) {
        return None;
      }
      budget := budget.With(DimensionNamed(key).value, LimitOf(value));
    }
    assert items[..|items|] == items;
    r := Some(budget);
  }

  /** A dimension the document does not name stays as it is. */
  lemma {:induction false} WithItemsUnnamed(current: Budget, items: seq<(string, Json)>, d: Dimension)
    requires forall i :: 0 <= i < |items| ==> items[i].0 != KeyName(d)
    ensures WithItems(current, items).Get(d) == current.Get(d)
  {
    if |items| > 0 {
      WithItemsUnnamed(current, items[..|items| - 1], d);
    }
  }

  /** A dimension the document names takes the value it names last; null lifts its limit. */
  lemma {:induction false} WithItemsNamed(current: Budget, items: seq<(string, Json)>, i: nat, d: Dimension)
    requires DocumentOk(Object(items)) && i < |items| && items[i].0 == KeyName(d)
    requires forall j :: i < j < |items| ==> items[j].0 != KeyName(d)
    ensures WithItems(current, items).Get(d) == LimitOf(items[i].1)
  {
    var before, item := items[..|items| - 1], items[|items| - 1];
    assert ItemOk(item);
    if i < |items| - 1 {
      assert DocumentOk(Object(before)) && before[i] == items[i];
      WithItemsNamed(current, before, i, d);
    }
  }

  // Attempts and the steps on them.

  datatype Attempt = Attempt(budget: Budget, used: Usage, requests: nat, refused: nat, metered: nat, unmetered: nat) {
    /** The first dimension whose sum has reached its budget. */
    function Exhausted(): Option<Dimension> {
      if Spent(InputTokens) then Some(InputTokens) else if Spent(OutputTokens) then Some(OutputTokens) else None
    }

    predicate Spent(d: Dimension) {
      budget.Get(d).Some? && used.Get(d) >= budget.Get(d).value
    }
  }

  function NewAttempt(budget: Budget): Attempt {
    Attempt(budget, NoUsage, 0, 0, 0, 0)
  }

  type Attempts = map<string, Attempt>

  function At(attempts: Attempts, initial: Budget, name: string): Attempt {
    if name in attempts then attempts[name] else NewAttempt(initial)
  }

  datatype Step =
    | Arrive(name: string)
    | Settle(name: string, usage: Option<Usage>, succeeded: bool)
    | Control(name: string, document: Document)
    | Query(name: string)

  /** What a step does to its own attempt. */
  function Move(a: Attempt, step: Step): Attempt {
    match step
    case Arrive(_) => if a.Exhausted().None? then a.(requests := a.requests + 1) else a.(refused := a.refused + 1)
    case Settle(_, Some(usage), _) => a.(used := a.used.Plus(usage), metered := a.metered + 1)
    case Settle(_, None, succeeded) => if succeeded then a.(unmetered := a.unmetered + 1) else a
    case Control(_, document) => if DocumentOk(document) then a.(budget := WithItems(a.budget, document.items)) else a
    case Query(_) => a
  }

  function Apply(attempts: Attempts, initial: Budget, step: Step): Attempts {
    attempts[step.name := Move(At(attempts, initial, step.name), step)]
  }

  function Run(initial: Budget, steps: seq<Step>): Attempts {
    if |steps| == 0 then map[] else Apply(Run(initial, steps[..|steps| - 1]), initial, steps[|steps| - 1])
  }

  class Meter {
    const initial: Budget
    var attempts: Attempts

    constructor (initial: Budget)
      ensures this.initial == initial && attempts == map[]
    {
      this.initial := initial;
      attempts := map[];
    }

    method Ensure(name: string) returns (attempt: Attempt)
      modifies this
      ensures attempt == At(old(attempts), initial, name)
      ensures attempts == old(attempts)[name := attempt]
    {
      if name !in attempts {
        attempts := attempts[name := NewAttempt(initial)];
      }
      attempt := attempts[name];
    }

    method SetBudget(name: string, document: Document) returns (r: Option<Attempt>)
      modifies this
      ensures attempts == Apply(old(attempts), initial, Control(name, document))
      ensures r == if DocumentOk(document) then Some(attempts[name]) else None
    {
      var attempt := Ensure(name);
      var budget := BudgetFromDocument(document, attempt.budget);
      if budget.None? {
        return None;
      }
      attempt := attempt.(budget := budget.value);
      attempts := attempts[name := attempt];
      r := Some(attempt);
    }

    method ReadUsage(name: string) returns (attempt: Attempt)
      modifies this
      ensures attempts == Apply(old(attempts), initial, Query(name)) && attempt == attempts[name]
    {
      attempt := Ensure(name);
    }

    method OpenRequest(name: string) returns (number: nat, exhausted: Option<Dimension>)
      modifies this
      ensures attempts == Apply(old(attempts), initial, Arrive(name))
      ensures number == attempts[name].requests + attempts[name].refused
      ensures exhausted == At(old(attempts), initial, name).Exhausted()
    {
      var attempt := Ensure(name);
      exhausted := attempt.Exhausted();
      if exhausted.None? {
        attempt := attempt.(requests := attempt.requests + 1);
      } else {
        attempt := attempt.(refused := attempt.refused + 1);
      }
      attempts := attempts[name := attempt];
      number := attempt.requests + attempt.refused;
    }

    method Charge(name: string, usage: Option<Usage>, succeeded: bool)
      modifies this
      ensures attempts == Apply(old(attempts), initial, Settle(name, usage, succeeded))
    {
      var attempt := Ensure(name);
      if usage.Some? {
        attempt := attempt.(used := attempt.used.Plus(usage.value), metered := attempt.metered + 1);
      } else if succeeded {
        attempt := attempt.(unmetered := attempt.unmetered + 1);
      }
      attempts := attempts[name := attempt];
    }
  }

  // Runs: what holds at every point of every interleaving.

  /** The attempt after a run. */
  function After(initial: Budget, steps: seq<Step>, name: string): Attempt {
    At(Run(initial, steps), initial, name)
  }

  /** The steps on one attempt. */
  function Only(steps: seq<Step>, name: string): seq<Step> {
    if |steps| == 0 then [] else
      Only(steps[..|steps| - 1], name) + (if steps[|steps| - 1].name == name then [steps[|steps| - 1]] else [])
  }

  lemma {:induction false} AfterStep(initial: Budget, steps: seq<Step>, step: Step, name: string)
    ensures After(initial, steps + [step], name) ==
      if step.name == name then Move(After(initial, steps, name), step) else After(initial, steps, name)
  {
    assert (steps + [step])[..|steps|] == steps;
  }

  /** Attempts do not affect each other. */
  lemma {:induction false} Independent(initial: Budget, steps: seq<Step>, name: string)
    ensures After(initial, steps, name) == After(initial, Only(steps, name), name)
  {
    if |steps| > 0 {
      var before, step := steps[..|steps| - 1], steps[|steps| - 1];
      assert before + [step] == steps;
      Independent(initial, before, name);
      AfterStep(initial, before, step, name);
      if step.name == name {
        AfterStep(initial, Only(before, name), step, name);
      } else {
        assert Only(steps, name) == Only(before, name);
      }
    }
  }

  predicate Admitted(initial: Budget, steps: seq<Step>, i: nat, name: string)
    requires i < |steps|
  {
    steps[i] == Arrive(name) && After(initial, steps[..i], name).Exhausted().None?
  }

  function Arrivals(steps: seq<Step>, name: string): nat {
    if |steps| == 0 then 0 else
      Arrivals(steps[..|steps| - 1], name) + (if steps[|steps| - 1] == Arrive(name) then 1 else 0)
  }

  function Forwarded(initial: Budget, steps: seq<Step>, name: string): nat {
    if |steps| == 0 then 0 else
      Forwarded(initial, steps[..|steps| - 1], name) + (if Admitted(initial, steps, |steps| - 1, name) then 1 else 0)
  }

  /** How a forwarded request settles. */
  datatype Outcome = Metered | Unmetered | Unsuccessful

  function OutcomeOf(usage: Option<Usage>, succeeded: bool): Outcome {
    if usage.Some? then Metered else if succeeded then Unmetered else Unsuccessful
  }

  function SettledAs(steps: seq<Step>, name: string, outcome: Outcome): nat {
    if |steps| == 0 then 0 else
      SettledAs(steps[..|steps| - 1], name, outcome) +
      (var s := steps[|steps| - 1];
       if s.Settle? && s.name == name && OutcomeOf(s.usage, s.succeeded) == outcome then 1 else 0)
  }

  function SettledAll(steps: seq<Step>, name: string): nat {
    if |steps| == 0 then 0 else
      SettledAll(steps[..|steps| - 1], name)
        + (var s := steps[|steps| - 1]; if s.Settle? && s.name == name then 1 else 0)
  }

  function Charged(steps: seq<Step>, name: string): Usage {
    if |steps| == 0 then NoUsage else
      var s := steps[|steps| - 1];
      if s.Settle? && s.name == name && s.usage.Some? then Charged(steps[..|steps| - 1], name).Plus(s.usage.value)
      else Charged(steps[..|steps| - 1], name)
  }

  /** The account of an attempt is a record of its steps, whatever other attempts do in between. */
  lemma {:induction false} AccountRecords(initial: Budget, steps: seq<Step>, name: string)
    ensures var a := After(initial, steps, name);
      && a.requests == Forwarded(initial, steps, name)
      && a.requests + a.refused == Arrivals(steps, name)
      && a.metered == SettledAs(steps, name, Metered)
      && a.unmetered == SettledAs(steps, name, Unmetered)
      && a.used == Charged(steps, name)
  {
    if |steps| > 0 {
      var before, step := steps[..|steps| - 1], steps[|steps| - 1];
      assert before + [step] == steps;
      AccountRecords(initial, before, name);
      AfterStep(initial, before, step, name);
    }
  }

  /** The number a request receives is its place in its attempt's order of arrival, so numbers run 1, 2, 3 and so on. */
  lemma {:induction false} NumbersInOrder(initial: Budget, steps: seq<Step>, name: string)
    ensures var a := After(initial, steps + [Arrive(name)], name); a.requests + a.refused == Arrivals(steps, name) + 1
  {
    AccountRecords(initial, steps + [Arrive(name)], name);
    assert (steps + [Arrive(name)])[..|steps|] == steps;
  }

  /** Forwarded requests that have not settled. */
  function InFlight(initial: Budget, steps: seq<Step>, name: string): int {
    Forwarded(initial, steps, name) - SettledAll(steps, name)
  }

  lemma {:induction false} OutcomesPartition(steps: seq<Step>, name: string)
    ensures SettledAll(steps, name) ==
      SettledAs(steps, name, Metered) + SettledAs(steps, name, Unmetered) + SettledAs(steps, name, Unsuccessful)
  {
    if |steps| > 0 {
      OutcomesPartition(steps[..|steps| - 1], name);
    }
  }

  /** Every forwarded request is metered, unmetered, unsuccessful or still in flight. */
  lemma {:induction false} RequestsBalance(initial: Budget, steps: seq<Step>, name: string)
    ensures var a := After(initial, steps, name);
      a.requests == a.metered + a.unmetered + SettledAs(steps, name, Unsuccessful) + InFlight(initial, steps, name)
  {
    AccountRecords(initial, steps, name);
    OutcomesPartition(steps, name);
  }

  lemma {:induction false} ExhaustedStays(initial: Budget, steps: seq<Step>, i: nat, j: nat, name: string)
    requires i <= j <= |steps| && After(initial, steps[..i], name).Exhausted().Some?
    requires forall k :: i <= k < j ==> !(steps[k].Control? && steps[k].name == name)
    ensures After(initial, steps[..j], name).Exhausted().Some?
    decreases j
  {
    if i < j {
      ExhaustedStays(initial, steps, i, j - 1, name);
      assert steps[..j] == steps[..j - 1] + [steps[j - 1]];
      AfterStep(initial, steps[..j - 1], steps[j - 1], name);
    }
  }

  /** Once an attempt is exhausted, every later request of it is refused until its budget is set. */
  lemma {:induction false} RefusedUntilSet(initial: Budget, steps: seq<Step>, i: nat, j: nat, name: string)
    requires i <= j < |steps| && After(initial, steps[..i], name).Exhausted().Some? && steps[j] == Arrive(name)
    requires forall k :: i <= k < j ==> !(steps[k].Control? && steps[k].name == name)
    ensures !Admitted(initial, steps, j, name)
    ensures After(initial, steps[..j + 1], name).refused == After(initial, steps[..j], name).refused + 1
  {
    ExhaustedStays(initial, steps, i, j, name);
    assert steps[..j + 1] == steps[..j] + [steps[j]];
    AfterStep(initial, steps[..j], steps[j], name);
  }

  // How far a budget can be overrun.

  /**
   * From step `from` on only forwarded requests settle, at most `c` are in flight at once, each reports at most
   * `m`, and the budget is not set.
   */
  ghost predicate Steady(
    initial: Budget, steps: seq<Step>, from: nat, name: string, d: Dimension, c: nat, m: nat)
  {
    && (forall i :: from <= i <= |steps| ==> 0 <= InFlight(initial, steps[..i], name) <= c)
    && (forall i :: from <= i < |steps| && steps[i].name == name ==>
          !steps[i].Control? && (steps[i].Settle? && steps[i].usage.Some? ==> steps[i].usage.value.Get(d) <= m))
  }

  lemma {:induction false} BudgetKept(initial: Budget, steps: seq<Step>, from: nat, name: string)
    requires from <= |steps| && forall i :: from <= i < |steps| && steps[i].name == name ==> !steps[i].Control?
    ensures After(initial, steps, name).budget == After(initial, steps[..from], name).budget
  {
    if from == |steps| {
      assert steps[..from] == steps;
    } else {
      var before, step := steps[..|steps| - 1], steps[|steps| - 1];
      assert before + [step] == steps && before[..from] == steps[..from];
      BudgetKept(initial, before, from, name);
      AfterStep(initial, before, step, name);
    }
  }

  lemma {:induction false} SteadyPrefix(
    initial: Budget, steps: seq<Step>, from: nat, name: string, d: Dimension, c: nat, m: nat)
    requires from < |steps| && Steady(initial, steps, from, name, d, c, m)
    ensures Steady(initial, steps[..|steps| - 1], from, name, d, c, m)
  {
    var before := steps[..|steps| - 1];
    forall i | from <= i <= |before|
      ensures 0 <= InFlight(initial, before[..i], name) <= c
    {
      assert before[..i] == steps[..i];
    }
  }

  /** What has been used and what may still be reported exceed a limit by no more than the requests let in. */
  ghost predicate Overrun(initial: Budget, steps: seq<Step>, name: string, d: Dimension, limit: nat, c: nat, m: nat) {
    After(initial, steps, name).used.Get(d) + m * InFlight(initial, steps, name) <= limit - 1 + c * m
  }

  lemma {:induction false} InFlightStep(initial: Budget, steps: seq<Step>, step: Step, name: string)
    ensures InFlight(initial, steps + [step], name) == InFlight(initial, steps, name)
      + (if step == Arrive(name) && After(initial, steps, name).Exhausted().None? then 1 else 0)
      - (if step.Settle? && step.name == name then 1 else 0)
  {
    hide After;
    assert (steps + [step])[..|steps|] == steps;
  }

  lemma {:induction false} OverrunStep(
    initial: Budget, steps: seq<Step>, step: Step, name: string, d: Dimension, limit: nat, c: nat, m: nat)
    requires After(initial, steps, name).budget.Get(d) == Some(limit) && limit > 0
    requires Overrun(initial, steps, name, d, limit, c, m) && InFlight(initial, steps + [step], name) <= c
    requires step.name == name ==> !step.Control? && (step.Settle? && step.usage.Some? ==> step.usage.value.Get(d) <= m)
    ensures Overrun(initial, steps + [step], name, d, limit, c, m)
  {
    hide After, InFlight;
    AfterStep(initial, steps, step, name);
    InFlightStep(initial, steps, step, name);
    var a, flying := After(initial, steps, name), InFlight(initial, steps, name);
    if step == Arrive(name) && a.Exhausted().None? {
      assert a.used.Get(d) <= limit - 1;
      Scaled(m, flying + 1, c);
    } else if step.Settle? && step.name == name {
      Scaled(m, flying, c);
    }
  }

  /** From whatever step a limit is in force and so kept, however it was set, it stays so kept until it is set anew. */
  lemma {:induction false} OverrunBounded(
    initial: Budget, steps: seq<Step>, from: nat, name: string, d: Dimension, limit: nat, c: nat, m: nat)
    requires from <= |steps| && Steady(initial, steps, from, name, d, c, m)
    requires After(initial, steps[..from], name).budget.Get(d) == Some(limit) && limit > 0
    requires Overrun(initial, steps[..from], name, d, limit, c, m)
    ensures Overrun(initial, steps, name, d, limit, c, m)
  {
    hide After, InFlight, Overrun;
    if from == |steps| {
      assert steps[..from] == steps;
    } else {
      var before, step := steps[..|steps| - 1], steps[|steps| - 1];
      assert before + [step] == steps && steps[..|steps|] == steps && before[..from] == steps[..from];
      SteadyPrefix(initial, steps, from, name, d, c, m);
      OverrunBounded(initial, before, from, name, d, limit, c, m);
      BudgetKept(initial, before, from, name);
      assert 0 <= InFlight(initial, steps[..|steps|], name) <= c;
      OverrunStep(initial, before, step, name, d, limit, c, m);
    }
  }

  /**
   * A limit that is set, or in force from the start,
   * while less than it has been used is exceeded by less than what `c` requests report.
   */
  lemma {:induction false} OverrunSinceSet(
    initial: Budget, steps: seq<Step>, from: nat, name: string, d: Dimension, limit: nat, c: nat, m: nat)
    requires from <= |steps| && Steady(initial, steps, from, name, d, c, m)
    requires After(initial, steps[..from], name).budget.Get(d) == Some(limit)
    requires After(initial, steps[..from], name).used.Get(d) < limit
    ensures After(initial, steps, name).used.Get(d) < limit + c * m
  {
    var flying := InFlight(initial, steps[..from], name);
    assert flying <= c && 0 <= InFlight(initial, steps[..|steps|], name) && steps[..|steps|] == steps;
    Scaled(m, flying, c);
    OverrunBounded(initial, steps, from, name, d, limit, c, m);
    NotNegative(m, InFlight(initial, steps, name));
  }

  lemma {:induction false} NotNegative(m: nat, n: int)
    requires n >= 0
    ensures m * n >= 0
  {
  }

  lemma {:induction false} Scaled(m: nat, n: int, c: nat)
    ensures n <= c ==> m * n <= c * m
    ensures m * (n - 1) == m * n - m
  {
  }
}
