/** An accepted log with a call, an inner call and both their results. */
module EvidenceWitness {
  import opened Prelude
  import opened EpisodeLog
  import opened PairLaws
  import opened MessageLaws
  import opened EvidenceLaws
  import EvidenceCheck

  const OUTER := Call(Some("t"), Some("read"), Some("a.txt"))

  /** The list of the second request: what the message said, and the result of its call but not of the inner one. */
  const LIST := [Assistant("look", [OUTER], []), Tool("t", "read", "text", false)]

  function Nested(): seq<Event> {
    [Event(Some(0), true, EpisodeStart(Start(None, None, "", "", false, None))),
     Event(Some(1), true, ModelRequest(Named("a"), None, Some([]), [])),
     Event(Some(2), true, AssistantMessage(Named("a"), "look", [OUTER], [], None)),
     Event(Some(3), true, InnerCall(Some("t"), Some("u"), Some("peek"), Some(0))),
     Event(Some(4), true, ToolResult(Some("u"), Some("peek"), "inside", false)),
     Event(Some(5), true, ToolResult(Some("t"), Some("read"), "text", false)),
     Event(Some(6), true, ModelRequest(Named("b"), None, Some([]), LIST)),
     Event(Some(7), true, EpisodeEnd(None))]
  }

  /** The log makes its two calls and holds their results, and no others. */
  ghost predicate TwoCalls(events: seq<Event>) {
    && |events| == 8
    && events[2].body == AssistantMessage(Named("a"), "look", [OUTER], [], None)
    && events[3].body == InnerCall(Some("t"), Some("u"), Some("peek"), Some(0))
    && events[4].body == ToolResult(Some("u"), Some("peek"), "inside", false)
    && events[5].body == ToolResult(Some("t"), Some("read"), "text", false)
    && events[1].body == ModelRequest(Named("a"), None, Some([]), [])
    && events[6].body == ModelRequest(Named("b"), None, Some([]), LIST)
    && events[0].body.EpisodeStart? && events[7].body.EpisodeEnd?
    && forall i :: 0 <= i < 8 ==> events[i].seqNo == Some(i) && events[i].enveloped
  }

  lemma {:induction false} NestedIs()
    ensures TwoCalls(Nested())
  {
  }

  lemma {:induction false} TheCalls(events: seq<Event>, e: nat, x: nat, id: Option<string>, name: Option<string>)
    requires TwoCalls(events)
    ensures CallAt(events, e, x, id, name) <==>
      || (e == 2 && x == 0 && id == Some("t") && name == Some("read"))
      || (e == 3 && x == 0 && id == Some("u") && name == Some("peek"))
  {
  }

  lemma {:induction false} TheResults(events: seq<Event>, r: nat, id: string)
    requires TwoCalls(events)
    ensures ResultAt(events, r, id) <==> (r == 4 && id == "u") || (r == 5 && id == "t")
  {
  }

  lemma {:induction false} NestedPairs(events: seq<Event>)
    requires TwoCalls(events)
    ensures CallsPair(events)
  {
    NestedSettled(events);
    NestedInside(events);
    forall e: nat, x: nat, id, name
      ensures CallAt(events, e, x, id, name) <==>
        || (e == 2 && x == 0 && id == Some("t") && name == Some("read"))
        || (e == 3 && x == 0 && id == Some("u") && name == Some("peek"))
    {
      TheCalls(events, e, x, id, name);
    }
    forall r: nat, id
      ensures ResultAt(events, r, id) <==> (r == 4 && id == "u") || (r == 5 && id == "t")
    {
      TheResults(events, r, id);
    }
    hide CallAt, ResultAt, EachSettled, InnersInside, TwoCalls;
    assert CallAt(events, 2, 0, Some("t"), Some("read"));
    assert CallAt(events, 3, 0, Some("u"), Some("peek"));
    assert "t" != "u";
  }

  lemma {:induction false} NestedSettled(events: seq<Event>)
    requires TwoCalls(events)
    ensures EachSettled(events)
  {
    forall e: nat, x: nat, id, name | CallAt(events, e, x, id, name)
      ensures exists r: nat :: SettledBy(events, e, id, name, r)
    {
      TheCalls(events, e, x, id, name);
      assert SettledBy(events, e, id, name, if e == 2 then 5 else 4);
    }
  }

  lemma {:induction false} NestedInside(events: seq<Event>)
    requires TwoCalls(events)
    ensures InnersInside(events)
  {
    assert CallAt(events, 2, 0, Some("t"), Some("read"));
    assert CountInner(events, 0, "t") == 0;
    assert CountInner(events, 1, "t") == 0;
    assert CountInner(events, 2, "t") == 0;
    assert CountInner(events, 3, "t") == 0;
    forall r: nat | r < 3
      ensures !ResultAt(events, r, "t")
    {
      TheResults(events, r, "t");
    }
    hide CountInner, ResultAt, CallAt;
    assert InnerAt(events, 3);
  }

  lemma {:induction false} Tellings(events: seq<Event>, k: nat, message: Message)
    requires TwoCalls(events)
    ensures Tells(events, k, message) <==> (k == 2 && message == LIST[0]) || (k == 5 && message == LIST[1])
  {
    assert CalledInside(events, 4, "u") by {
      assert events[3].body.InnerCall? && events[3].body.callId == Some("u");
    }
    assert !CalledInside(events, 5, "t");
    assert NamedContent(events, []) == [];
    hide CalledInside, NamedContent;
  }

  lemma {:induction false} NestedCarries(events: seq<Event>)
    requires TwoCalls(events)
    ensures Carries(events, 1, []) && Carries(events, 6, LIST)
  {
    assert NamedContent(events, []) == [];
    assert Consumed(events, 1, []) && Consumed(events, 6, []);
    forall k: nat, message
      ensures Tells(events, k, message) <==> (k == 2 && message == LIST[0]) || (k == 5 && message == LIST[1])
    {
      Tellings(events, k, message);
    }
    hide Tells, NamedContent, Consumed;
    assert Opens(events, 1, [], 0) && Opens(events, 6, [], 0);
    hide TwoCalls, Opens;
    assert InOrder(events, 0, 1, [], []);
    assert InOrder(events, 0, 6, [2, 5], LIST);
    hide *;
    ListCarried(events, 1, [], []);
    ListCarried(events, 6, [2, 5], LIST);
  }

  /** A list that opens with nothing and ends with nothing is what the events tell. */
  lemma {:induction false} ListCarried(events: seq<Event>, j: nat, places: seq<nat>, told: seq<Message>)
    requires Opens(events, j, [], 0) && InOrder(events, 0, j, places, told) && Consumed(events, j, [])
    ensures Carries(events, j, told)
  {
    assert [] + told + [] == told;
    hide InOrder, Opens, Consumed;
    assert Listed(events, 0, j, told);
    assert Composed(events, j, told, [], 0, told, []);
  }

  lemma {:induction false} NestedRequests(events: seq<Event>)
    requires TwoCalls(events)
    ensures EventSound(events, 1) && EventSound(events, 2) && EventSound(events, 6)
  {
    NestedCarries(events);
    assert events[1].body.id == Named("a") && events[6].body.id == Named("b") && "a" != "b";
    hide Carries;
    assert Requested(events, 2, "a") by {
      assert events[1].body.ModelRequest?;
    }
  }

  lemma {:induction false} NestedSound(events: seq<Event>)
    requires TwoCalls(events)
    ensures Sound(events)
  {
    NestedPairs(events);
    NestedRequests(events);
    hide CallsPair, RequestSound;
    assert EventSound(events, 0) && EventSound(events, 3) && EventSound(events, 4);
    assert EventSound(events, 5) && EventSound(events, 7);
    hide EventSound;
  }

  /** The log is accepted: the inner call's result is no message of the list, and the outer call's is. */
  lemma {:induction false} NestedConforms()
    ensures EvidenceCheck.Conforms(Nested())
  {
    NestedIs();
    hide *;
    NestedSound(Nested());
    ConformsMeans(Nested());
  }
}
