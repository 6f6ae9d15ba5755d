/** A log accepted as evidence whose trajectory states fewer tokens than its subtree spent. */
module AccountCases {
  import opened Prelude
  import opened EpisodeLog
  import opened BudgetCheck
  import opened Accounts
  import opened AccountTree
  import opened AccountsAgree
  import EvidenceCheck
  import EvidenceCases

  const ROOT := Dir(0, [])

  const HEIGHT: seq<nat> := [1]

  /** One request with two answers, of 3 and of 5 input tokens. */
  ghost predicate TwoAnswers(events: seq<Event>) {
    && |events| == 5
    && events[0].body.EpisodeStart? && events[0].body.start.id.Some? && events[0].body.start.parentId.None?
    && events[1].body.ModelRequest? && events[1].body.id == Named("a")
    && events[2].body.AssistantMessage? && events[2].body.id == Named("a")
    && events[2].body.usage == Some(Usage(Whole(3), Whole(1)))
    && events[3].body.AssistantMessage? && events[3].body.id == Named("a")
    && events[3].body.usage == Some(Usage(Whole(5), Whole(2)))
    && events[4].body.EpisodeEnd?
  }

  lemma {:induction false} OneCall(events: seq<Event>)
    requires TwoAnswers(events)
    ensures Followed(events).calls == [ModelCall(events[1].seqNo, 1, Some(2), Some(3), Some(1))]
  {
    hide Followed, OpenOk;
    FollowedNone(events);
    FollowedStep(events, 0);
    FollowedStep(events, 1);
    FollowedStep(events, 2);
    FollowedStep(events, 3);
    FollowedStep(events, 4);
    assert events[..5] == events;
    var asked := ModelCall(events[1].seqNo, 1, None, None, None);
    assert [] + [asked] == [asked];
    assert [asked][0 := Answered(asked, 2, events[2].body.usage)] == [Answered(asked, 2, events[2].body.usage)];
    assert map["a" := 0] - {"a"} == map[];
  }

  lemma {:induction false} OwnInputStep(events: seq<Event>, i: nat)
    requires i < |events|
    ensures Own(events[..i + 1]).input == Own(events[..i]).input + SpendOf(events[i].body).input
    ensures Own(events[..0]).input == 0
  {
    assert events[..i + 1][..i] == events[..i];
  }

  lemma {:induction false} OwnInput(events: seq<Event>)
    requires TwoAnswers(events)
    ensures Own(events).input == 8
  {
    hide Own;
    OwnInputStep(events, 0);
    OwnInputStep(events, 1);
    OwnInputStep(events, 2);
    OwnInputStep(events, 3);
    OwnInputStep(events, 4);
    assert events[..5] == events;
  }

  lemma {:induction false} AloneShape(log: Log)
    requires TwoAnswers(log.events)
    ensures Identified([log]) && Walkable([log], 0, HEIGHT) && Placed([log], ROOT, None) && HoldsAll([log], ROOT)
    ensures Held([log], ROOT)
    ensures Children([log], log.EpisodeId()) == []
  {
    assert IndicesIn(ROOT, 0) == {} && Indices(ROOT) == {0};
    assert log.ParentId() == None;
    assert ChildrenIn([log], 0, log.EpisodeId()) == [];
  }

  lemma {:induction false} AloneTotal(log: Log)
    requires TwoAnswers(log.events) && Held([log], ROOT)
    ensures Total([log], ROOT, Input) == Some(3)
  {
    OneCall(log.events);
    var calls := Followed(log.events).calls;
    hide Followed;
    var agent := AgentOf(log, 0);
    assert GatheredIn([log], ROOT, 0, 1) == [];
    assert Gathered([log], ROOT, 0) == [agent];
    assert [agent][..0] == [] && CallsOf([agent]) == calls;
    assert Values(calls, Input) == [Some(3)];
    assert [Some(3)][..0] == [];
  }

  lemma {:induction false} AloneSubtree(log: Log)
    requires TwoAnswers(log.events) && Walkable([log], 0, HEIGHT) && Children([log], log.EpisodeId()) == []
    ensures Subtree([log], 0, HEIGHT).input == 8
  {
    OwnInput(log.events);
    hide Own, Children;
    assert SubtreeOver([log], [], 0, 0, HEIGHT) == NoSpend;
  }

  lemma {:induction false} TwoAnswersFallShort(log: Log)
    requires TwoAnswers(log.events)
    ensures Identified([log]) && Walkable([log], 0, HEIGHT) && Placed([log], ROOT, None) && HoldsAll([log], ROOT)
    ensures Held([log], ROOT) && Total([log], ROOT, Input) == Some(3) && Subtree([log], 0, HEIGHT).input == 8
  {
    AloneShape(log);
    AloneTotal(log);
    AloneSubtree(log);
  }

  lemma {:induction false} AnsweredTwiceIs()
    ensures TwoAnswers(EvidenceCases.AnsweredTwice())
  {
  }

  /** A second answer in a log accepted as evidence makes a stated total fall short of what the subtree spent. */
  lemma {:induction false} SecondAnswerFallsShort(path: string)
    ensures var log := Log(path, EvidenceCases.AnsweredTwice());
      && EvidenceCheck.Conforms(log.events)
      && Walkable([log], 0, HEIGHT) && Placed([log], ROOT, None) && HoldsAll([log], ROOT)
      && Held([log], ROOT) && Total([log], ROOT, Input) == Some(3) && Subtree([log], 0, HEIGHT).input == 8
  {
    EvidenceCases.AnsweredTwiceConforms();
    AnsweredTwiceIs();
    hide *;
    TwoAnswersFallShort(Log(path, EvidenceCases.AnsweredTwice()));
  }
}
