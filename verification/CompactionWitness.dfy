/** A log that the compaction check accepts, whose span holds a call that succeeds and one that fails. */
module CompactionWitness {
  import opened Prelude
  import opened EpisodeLog
  import opened SortedNames
  import opened CompactionCheck
  import opened CompactionLaws
  import opened CompactionMeans

  const READS := Call(Some("r"), Some("read"), Some("a.txt"))

  const WRITES := Call(Some("w"), Some("write"), Some("b.txt"))

  const STATED := Summary("t", "", "one", "", Span(1, 3), Files(["a.txt"], [], []), Some(4), Some(5))

  function Touching(): seq<Event> {
    [Event(Some(0), true, EpisodeStart(Start(None, None, "t", "", true, None))),
     Event(Some(1), true, AssistantMessage(Named("a"), "", [READS, WRITES], [], None)),
     Event(Some(2), true, ToolResult(Some("r"), Some("read"), "text", false)),
     Event(Some(3), true, ToolResult(Some("w"), Some("write"), "denied", true)),
     Event(Some(4), true, CompactionStart(Span(1, 3))),
     Event(Some(5), true, ModelRequest(Named("cmp_1"), None, Some([]), [])),
     Event(Some(6), true, AssistantMessage(Named("cmp_1"), "one", [], [], None)),
     Event(Some(7), true, CompactionSummary(STATED)),
     Event(Some(8), true, CompactionEnd(true)),
     Event(Some(9), true, EpisodeEnd(None))]
  }

  ghost predicate TwoTouch(events: seq<Event>) {
    && |events| == 10
    && events[0].body == EpisodeStart(Start(None, None, "t", "", true, None))
    && events[1].body == AssistantMessage(Named("a"), "", [READS, WRITES], [], None)
    && events[2].body == ToolResult(Some("r"), Some("read"), "text", false)
    && events[3].body == ToolResult(Some("w"), Some("write"), "denied", true)
    && events[4].body == CompactionStart(Span(1, 3))
    && events[5].body == ModelRequest(Named("cmp_1"), None, Some([]), [])
    && events[6].body == AssistantMessage(Named("cmp_1"), "one", [], [], None)
    && events[7].body == CompactionSummary(STATED)
    && events[8].body == CompactionEnd(true)
    && events[9].body.EpisodeEnd?
    && forall i :: 0 <= i < 10 ==> events[i].seqNo == Some(i)
  }

  lemma {:induction false} TouchingIs()
    ensures TwoTouch(Touching())
  {
  }

  lemma {:induction false} OneFails(events: seq<Event>)
    requires TwoTouch(events)
    ensures Fails(events, Some("w")) && !Fails(events, Some("r"))
  {
    assert events[3].body.ToolResult? && events[3].body.isError;
  }

  lemma {:induction false} OneUsed(events: seq<Event>, tool: string, path: string)
    requires TwoTouch(events)
    ensures Used(events, Span(1, 3), tool, path) <==> tool == "read" && path == "a.txt"
  {
    OneFails(events);
    hide Fails;
    if tool == "read" && path == "a.txt" {
      assert Uses(events, Span(1, 3), tool, path, 1, 0);
    }
    forall i: nat, x: nat | Uses(events, Span(1, 3), tool, path, i, x)
      ensures tool == "read" && path == "a.txt"
    {
      assert i == 1 && x < 2;
    }
  }

  lemma {:induction false} TouchedFiles(events: seq<Event>)
    requires TwoTouch(events)
    ensures FilesSound(events, Span(1, 3), Files([], [], []), Files(["a.txt"], [], []))
  {
    forall tool, path
      ensures Used(events, Span(1, 3), tool, path) <==> tool == "read" && path == "a.txt"
    {
      OneUsed(events, tool, path);
    }
    hide Used, TwoTouch;
  }

  lemma {:induction false} TouchedSummary(events: seq<Event>)
    requires TwoTouch(events)
    ensures SummarySound(events, 4, 10, 7, None)
  {
    TouchedFiles(events);
    hide FilesSound;
    assert OnlyAnswer(events, 4, 10, Named("cmp_1"), 6);
    assert "cmp_" <= "cmp_1";
    assert ExchangedBy(events, 4, 10, 7, STATED, 5, 6, "cmp_1");
    hide ExchangedBy;
  }

  lemma {:induction false} TouchedRound(events: seq<Event>)
    requires TwoTouch(events)
    ensures RoundSound(events, 4, 10)
  {
    TouchedSummary(events);
    assert OnlyEnd(events, 4, 10, 8) && OnlySummary(events, 4, 10, 7);
    assert PriorAt(events, 4, None);
    assert SummaryAt(events, None) == None;
    hide SummarySound, OnlyEnd, OnlySummary, PriorAt, SummaryAt;
  }

  lemma {:induction false} TouchedSound(events: seq<Event>)
    requires TwoTouch(events)
    ensures Sound(events)
  {
    TouchedRound(events);
    OneRound(events);
    hide RoundSound, SpansRound;
  }

  lemma {:induction false} OneRound(events: seq<Event>)
    requires TwoTouch(events)
    ensures forall a: nat, b: nat :: SpansRound(events, a, b) ==> a == 4 && b == 10
  {
  }

  /** The log is accepted, and its summary lists the file that was read and not the one whose writing failed. */
  lemma {:induction false} FailedCallUnlisted(path: string)
    ensures Continuous(Log(path, Touching())) && STATED.files == Files(["a.txt"], [], [])
    ensures Touching()[7].body == CompactionSummary(STATED)
  {
    TouchingIs();
    var log := Log(path, Touching());
    hide Sound, Continuous, TwoTouch;
    TouchedSound(Touching());
    ContinuousMeans(log);
  }
}
