/** The meter's decisions in plain sums and in the words of the control documents. */
module MeterLaws {
  import opened Prelude
  import opened MeterModel

  function InputSum(steps: seq<Step>, name: string): nat {
    if |steps| == 0 then 0 else
      var s := steps[|steps| - 1];
      InputSum(steps[..|steps| - 1], name)
        + if s.Settle? && s.name == name && s.usage.Some? then s.usage.value.input else 0
  }

  function OutputSum(steps: seq<Step>, name: string): nat {
    if |steps| == 0 then 0 else
      var s := steps[|steps| - 1];
      OutputSum(steps[..|steps| - 1], name)
        + if s.Settle? && s.name == name && s.usage.Some? then s.usage.value.output else 0
  }

  function CacheSum(steps: seq<Step>, name: string): nat {
    if |steps| == 0 then 0 else
      var s := steps[|steps| - 1];
      CacheSum(steps[..|steps| - 1], name)
        + if s.Settle? && s.name == name && s.usage.Some? then s.usage.value.cacheRead else 0
  }

  /** Every item names a budget and gives it null or a number that is not negative. */
  predicate Acceptable(items: seq<(string, Json)>) {
    forall i :: 0 <= i < |items| ==>
      && items[i].0 in ["input_tokens", "output_tokens"]
      && (items[i].1 == Null || (items[i].1.Whole? && items[i].1.n >= 0))
  }

  /** The limit the items leave under a key: the value of the last item with the key, or the limit before. */
  function LimitAfter(items: seq<(string, Json)>, key: string, limit: Option<nat>): Option<nat> {
    if |items| == 0 then limit else
      var (name, value) := items[|items| - 1];
      if name != key then LimitAfter(items[..|items| - 1], key, limit)
      else if value.Whole? && value.n >= 0 then Some(value.n)
      else None
  }

  /** The limit in force under a key after a run: what the last accepted documents on the attempt left of it. */
  function LimitIn(steps: seq<Step>, name: string, key: string, initial: Option<nat>): Option<nat> {
    if |steps| == 0 then initial else
      var s, before := steps[|steps| - 1], LimitIn(steps[..|steps| - 1], name, key, initial);
      if s.Control? && s.name == name && s.document.Object? && Acceptable(s.document.items)
      then LimitAfter(s.document.items, key, before) else before
  }

  lemma {:induction false} ItemsLimit(budget: Budget, items: seq<(string, Json)>)
    requires Acceptable(items)
    ensures WithItems(budget, items).input == LimitAfter(items, "input_tokens", budget.input)
    ensures WithItems(budget, items).output == LimitAfter(items, "output_tokens", budget.output)
  {
    if |items| > 0 {
      ItemsLimit(budget, items[..|items| - 1]);
      assert items[|items| - 1].0 in ["input_tokens", "output_tokens"];
    }
  }

  lemma {:induction false} AcceptedDocument(document: Document)
    ensures DocumentOk(document) <==> document.Object? && Acceptable(document.items)
  {
    if document.Object? {
      var items := document.items;
      forall i | 0 <= i < |items|
        ensures ItemOk(items[i]) <==>
          items[i].0 in ["input_tokens", "output_tokens"] &&
          (items[i].1 == Null || (items[i].1.Whole? && items[i].1.n >= 0))
      {
      }
    }
  }

  /** The control endpoint takes a document exactly when every item is in order, and then sets what the items say. */
  lemma {:induction false} DocumentSets(document: Document, current: Budget)
    ensures DocumentOk(document) <==> document.Object? && Acceptable(document.items)
    ensures DocumentOk(document) ==>
      WithItems(current, document.items) == Budget(
        LimitAfter(document.items, "input_tokens", current.input),
        LimitAfter(document.items, "output_tokens", current.output))
  {
    AcceptedDocument(document);
    if DocumentOk(document) {
      ItemsLimit(current, document.items);
    }
  }

  /** After any run an attempt holds the limits in force and the plain sums of the usages charged to it. */
  lemma {:induction false} AttemptHolds(initial: Budget, steps: seq<Step>, name: string)
    ensures var a := After(initial, steps, name);
      && a.budget.input == LimitIn(steps, name, "input_tokens", initial.input)
      && a.budget.output == LimitIn(steps, name, "output_tokens", initial.output)
      && a.used == Usage(InputSum(steps, name), OutputSum(steps, name), CacheSum(steps, name))
  {
    if |steps| > 0 {
      var before, step := steps[..|steps| - 1], steps[|steps| - 1];
      assert before + [step] == steps;
      AttemptHolds(initial, before, name);
      AfterStep(initial, before, step, name);
      if step.Control? {
        DocumentSets(step.document, After(initial, before, name).budget);
        hide Acceptable, DocumentOk, WithItems, LimitAfter;
      }
    }
  }

  /**
   * A request that arrives is forwarded exactly when in each dimension no limit is in force or the usage settled so
   * far is below it; a refusal names the first dimension in which it is not.
   */
  lemma {:induction false} ForwardedWhen(initial: Budget, steps: seq<Step>, name: string)
    ensures var before, after := After(initial, steps, name), After(initial, steps + [Arrive(name)], name);
      var input := LimitIn(steps, name, "input_tokens", initial.input);
      var output := LimitIn(steps, name, "output_tokens", initial.output);
      var inputLeft := input == None || InputSum(steps, name) < input.value;
      var outputLeft := output == None || OutputSum(steps, name) < output.value;
      && before.Exhausted() ==
           (if !inputLeft then Some(InputTokens) else if !outputLeft then Some(OutputTokens) else None)
      && after.requests == before.requests + (if inputLeft && outputLeft then 1 else 0)
      && after.refused == before.refused + (if inputLeft && outputLeft then 0 else 1)
  {
    AttemptHolds(initial, steps, name);
    AfterStep(initial, steps, Arrive(name), name);
  }

  /** A request is forwarded at 600 input tokens of 1000, and refused at 1000. */
  lemma {:induction false} ForwardedBelowLimit()
    ensures Attempt(Budget(Some(1000), None), Usage(600, 0, 0), 1, 0, 1, 0).Exhausted() == None
    ensures Attempt(Budget(Some(1000), None), Usage(1000, 0, 0), 1, 0, 1, 0).Exhausted() == Some(InputTokens)
    ensures Attempt(Budget(None, Some(7)), Usage(1000, 7, 0), 1, 0, 1, 0).Exhausted() == Some(OutputTokens)
  {
  }
}
