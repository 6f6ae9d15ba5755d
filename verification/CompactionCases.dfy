/** A log whose compactions overlap although the compaction check accepts it. */
module CompactionCases {
  import opened Prelude
  import opened EpisodeLog
  import opened SortedNames
  import opened CompactionCheck

  const FIRST := Summary("t", "", "one", "", Span(1, 5), NoFiles, Some(6), Some(2))

  const SECOND := Summary("t", "", "two", "", Span(6, 2), NoFiles, Some(3), Some(7))

  /** One summary of events 1 to 5, and a second whose span runs backwards, from 6 to 2, and keeps events from 3 on. */
  function Overlapping(): seq<Event> {
    [Event(Some(0), true, EpisodeStart(Start(None, None, "t", "", true, None))),
     Event(Some(1), true, CompactionStart(Span(1, 5))),
     Event(Some(2), true, ModelRequest(Named("cmp_1"), None, Some([]), [])),
     Event(Some(3), true, AssistantMessage(Named("cmp_1"), "one", [], [], None)),
     Event(Some(4), true, CompactionSummary(FIRST)),
     Event(Some(5), true, CompactionEnd(true)),
     Event(Some(6), true, CompactionStart(Span(6, 2))),
     Event(Some(7), true, ModelRequest(Named("cmp_2"), None, Some([]), [])),
     Event(Some(8), true, AssistantMessage(Named("cmp_2"), "two", [], [], None)),
     Event(Some(9), true, CompactionSummary(SECOND)),
     Event(Some(10), true, CompactionEnd(true)),
     Event(Some(11), true, EpisodeEnd(None))]
  }

  lemma {:induction false} EndsNone(events: seq<Event>, lo: nat, hi: nat)
    requires hi <= |events| && forall i :: lo <= i < hi ==> !events[i].body.CompactionEnd?
    ensures Ends(events, lo, hi) == []
  {
    if lo < hi {
      EndsNone(events, lo, hi - 1);
    }
  }

  lemma {:induction false} EndsOne(events: seq<Event>, lo: nat, hi: nat, at: nat)
    requires lo <= at < hi <= |events| && events[at].body.CompactionEnd?
    requires forall i :: lo <= i < hi && i != at ==> !events[i].body.CompactionEnd?
    ensures Ends(events, lo, hi) == [at]
  {
    if at < hi - 1 {
      EndsOne(events, lo, hi - 1, at);
    } else {
      EndsNone(events, lo, at);
    }
  }

  lemma {:induction false} SummariesNone(events: seq<Event>, lo: nat, hi: nat)
    requires hi <= |events| && forall i :: lo <= i < hi ==> !events[i].body.CompactionSummary?
    ensures Summaries(events, lo, hi) == []
  {
    if lo < hi {
      SummariesNone(events, lo, hi - 1);
    }
  }

  lemma {:induction false} SummariesOne(events: seq<Event>, lo: nat, hi: nat, at: nat)
    requires lo <= at < hi <= |events| && events[at].body.CompactionSummary?
    requires forall i :: lo <= i < hi && i != at ==> !events[i].body.CompactionSummary?
    ensures Summaries(events, lo, hi) == [at]
  {
    if at < hi - 1 {
      SummariesOne(events, lo, hi - 1, at);
    } else {
      SummariesNone(events, lo, at);
    }
  }

  lemma {:induction false} AnswersNone(events: seq<Event>, lo: nat, hi: nat, id: RequestId)
    requires hi <= |events| && forall i :: lo <= i < hi ==> !events[i].body.AssistantMessage?
    ensures Answers(events, lo, hi, id) == []
  {
    if lo < hi {
      AnswersNone(events, lo, hi - 1, id);
    }
  }

  lemma {:induction false} AnswersOne(events: seq<Event>, lo: nat, hi: nat, id: RequestId, at: nat)
    requires lo <= at < hi <= |events| && events[at].body.AssistantMessage? && events[at].body.id == id
    requires forall i :: lo <= i < hi && i != at ==> !events[i].body.AssistantMessage?
    ensures Answers(events, lo, hi, id) == [at]
  {
    if at < hi - 1 {
      AnswersOne(events, lo, hi - 1, id, at);
    } else {
      AnswersNone(events, lo, at, id);
    }
  }

  lemma {:induction false} NoPaths(events: seq<Event>, failed: set<Option<string>>, access: Access, span: Span)
    requires forall i :: 0 <= i < |events| && events[i].body.AssistantMessage? ==> events[i].body.toolCalls == []
    ensures Paths(events, failed, access, span) == []
  {
    if |events| > 0 {
      NoPaths(events[..|events| - 1], failed, access, span);
    }
  }

  lemma {:induction false} NoCompactedFiles(events: seq<Event>, span: Span)
    requires forall i :: 0 <= i < |events| && events[i].body.AssistantMessage? ==> events[i].body.toolCalls == []
    ensures CompactedFiles(events, span, NoFiles) == NoFiles
  {
    forall access: Access
      ensures Compacted(events, span, NoFiles, access) == []
    {
      NoPaths(events, Failed(events), access, span);
    }
  }

  lemma {:induction false} StartsNone(events: seq<Event>, lo: nat, hi: nat)
    requires lo <= hi <= |events| && forall i :: lo <= i < hi ==> !events[i].body.CompactionStart?
    ensures Starts(events[..hi]) == Starts(events[..lo])
  {
    if lo < hi {
      StartsNone(events, lo, hi - 1);
      assert events[..hi][..hi - 1] == events[..hi - 1];
    }
  }

  lemma {:induction false} StartsNext(events: seq<Event>, at: nat)
    requires at < |events| && events[at].body.CompactionStart?
    ensures Starts(events[..at + 1]) == Starts(events[..at]) + [at]
  {
    assert events[..at + 1][..at] == events[..at];
  }

  lemma {:induction false} OverlappingStarts()
    ensures Starts(Overlapping()) == [1, 6]
  {
    hide Starts;
    var log := Overlapping();
    assert Starts(log[..0]) == [] by {
      NoStarts(log);
    }
    StartsNone(log, 0, 1);
    StartsNext(log, 1);
    StartsNone(log, 2, 6);
    StartsNext(log, 6);
    StartsNone(log, 7, 12);
    assert log[..12] == log;
  }

  lemma {:induction false} NoStarts(events: seq<Event>)
    ensures Starts(events[..0]) == []
  {
  }

  /** The round from `lo` to `hi` meets its checks and records `s`. */
  ghost predicate Records(events: seq<Event>, start: Start, lo: nat, hi: nat, previous: Option<Summary>, s: Summary) {
    && lo < hi <= |events| && events[lo].body.CompactionStart?
    && RoundOk(events, start, lo, hi, previous) && Succeeds(events, lo, hi) && SummaryOf(events, lo, hi) == s
  }

  lemma {:induction false} OverlappingFirst(start: Start)
    requires start.task == "t" && start.doneWhen == ""
    ensures Records(Overlapping(), start, 1, 6, None, FIRST)
  {
    hide Ends, Summaries, Answers, CompactedFiles;
    var log := Overlapping();
    EndsOne(log, 1, 6, 5);
    SummariesOne(log, 1, 6, 4);
    AnswersOne(log, 1, 6, Named("cmp_1"), 3);
    NoCompactedFiles(log, Span(1, 5));
  }

  lemma {:induction false} OverlappingSecond(start: Start)
    requires start.task == "t" && start.doneWhen == ""
    ensures Records(Overlapping(), start, 6, 12, Some(FIRST), SECOND)
  {
    hide Ends, Summaries, Answers, CompactedFiles;
    var log := Overlapping();
    EndsOne(log, 6, 12, 10);
    SummariesOne(log, 6, 12, 9);
    AnswersOne(log, 6, 12, Named("cmp_2"), 8);
    NoCompactedFiles(log, Span(6, 2));
  }

  lemma {:induction false} TwoRounds(
    events: seq<Event>, start: Start, at: nat, next: nat, first: Summary, second: Summary)
    requires Starts(events) == [at, next]
    requires Records(events, start, at, next, None, first) &&
      Records(events, start, next, |events|, Some(first), second)
    ensures RoundsOk(events, start, 2) && Successes(events, 2) == [first, second]
  {
    hide Starts, RoundOk, Succeeds, SummaryOf;
    assert Successes(events, 0) == [];
    assert Successes(events, 1) == [first];
    assert RoundsOk(events, start, 1);
  }

  lemma {:induction false} StartedContinuous(log: Log, start: Start)
    requires log.Started() == Some(start) && start.compact && RoundsOk(log.events, start, |Starts(log.events)|)
    ensures Continuous(log)
  {
  }

  lemma {:induction false} SpansOfTwo(first: Summary, second: Summary)
    ensures Spans([first, second]) == [first.covered, second.covered]
  {
    assert [first, second][..1] == [first] && [first][..0] == [];
  }

  lemma {:induction false} OverlappingCoverage(spans: seq<Span>)
    requires spans == [Span(1, 5), Span(6, 2)]
    ensures Coverage(spans, 2, 3) == 1 && !Tiles(spans, 2)
  {
    assert Coverage(spans, 0, 3) == 0;
    assert Coverage(spans, 1, 3) == 1;
  }

  /** An accepted log that keeps an event it has covered, so that the next compaction would cover it again. */
  lemma {:induction false} SpansOverlap(path: string)
    ensures var log := Log(path, Overlapping()); var spans := Spans(Successes(log.events, |Starts(log.events)|));
      && Continuous(log)
      && spans == [Span(1, 5), Span(6, 2)]
      && Coverage(spans, 2, 3) == 1 && !Tiles(spans, 2)
  {
    var events := Overlapping();
    var start := events[0].body.start;
    assert |events| == 12;
    OverlappingFirst(start);
    OverlappingSecond(start);
    OverlappingStarts();
    hide Starts, Successes, RoundsOk, Continuous, Records, Spans, Coverage, Tiles;
    TwoRounds(events, start, 1, 6, FIRST, SECOND);
    StartedContinuous(Log(path, events), start);
    SpansOfTwo(FIRST, SECOND);
    OverlappingCoverage([Span(1, 5), Span(6, 2)]);
  }
}
