/** The account every checker writes to: how many checks ran, how many passed, and what was violated. */
module Evaluations {
  import opened Prelude

  datatype Dimension = Evidence | Budgets | Compaction

  datatype Violation = Violation(dimension: Dimension, episode: string, at: Option<nat>)

  datatype Stat = Stat(checks: nat, passed: nat, episodes: set<string>)

  function Recorded(violations: seq<Violation>, d: Dimension): nat {
    if |violations| == 0 then 0 else
      Recorded(violations[..|violations| - 1], d) + (if violations[|violations| - 1].dimension == d then 1 else 0)
  }

  lemma {:induction false} RecordedMore(violations: seq<Violation>, v: Violation, d: Dimension)
    ensures Recorded(violations + [v], d) == Recorded(violations, d) + (if v.dimension == d then 1 else 0)
  {
    assert (violations + [v])[..|violations|] == violations;
  }

  lemma {:induction false} RecordedSome(violations: seq<Violation>, k: nat)
    requires k < |violations|
    ensures Recorded(violations, violations[k].dimension) > 0
  {
    if k < |violations| - 1 {
      RecordedSome(violations[..|violations| - 1], k);
    }
  }

  class Evaluation {
    var stats: map<Dimension, Stat>
    var violations: seq<Violation>

    ghost predicate Valid()
      reads this
    {
      forall d: Dimension :: d in stats && stats[d].checks == stats[d].passed + Recorded(violations, d)
    }

    /** The report's verdict. */
    predicate Clean()
      reads this
    {
      violations == []
    }

    constructor ()
      ensures Valid() && Clean()
    {
      stats := map[Evidence := Stat(0, 0, {}), Budgets := Stat(0, 0, {}), Compaction := Stat(0, 0, {})];
      violations := [];
      new;
      forall d: Dimension
        ensures d in stats && stats[d] == Stat(0, 0, {})
      {
        match d case Evidence => case Budgets => case Compaction =>
      }
    }

    method Check(dimension: Dimension, condition: bool, episode: string, at: Option<nat>)
      requires Valid()
      modifies this
      ensures Valid()
      ensures violations == old(violations) + (if condition then [] else [Violation(dimension, episode, at)])
      ensures Clean() <==> old(Clean()) && condition
      ensures stats == old(stats)[dimension := stats[dimension]]
      ensures stats[dimension].checks == old(stats)[dimension].checks + 1
      ensures stats[dimension].episodes == old(stats)[dimension].episodes + {episode}
    {
      hide Recorded;
      var stat := stats[dimension];
      stats := stats[dimension :=
        Stat(stat.checks + 1, if condition then stat.passed + 1 else stat.passed, stat.episodes + {episode})];
      if !condition {
        forall d: Dimension
          ensures Recorded(violations + [Violation(dimension, episode, at)], d)
              == Recorded(violations, d) + (if dimension == d then 1 else 0)
        {
          RecordedMore(violations, Violation(dimension, episode, at), d);
        }
        violations := violations + [Violation(dimension, episode, at)];
      } else {
        assert violations == old(violations) + [];
      }
    }

    /** The report is valid exactly when every dimension passed all it checked. */
    lemma {:induction false} ValidReport()
      requires Valid()
      ensures Clean() <==> forall d: Dimension :: d in stats && stats[d].passed == stats[d].checks
    {
      if !Clean() {
        RecordedSome(violations, 0);
        var d := violations[0].dimension;
        assert stats[d].passed != stats[d].checks;
      }
    }
  }
}
