/** Logs that the evidence check accepts although they lack what one might take it to promise. */
module EvidenceCases {
  import opened Prelude
  import opened EpisodeLog
  import opened Pairing
  import opened Messages
  import opened EvidenceCheck

  /**
   * A log the checker accepts although two requests consume its one inbox item:
   * once by its place, once from the end.
   */
  function TwiceConsumed(): seq<Event> {
    [Event(Some(0), true, EpisodeStart(Start(None, None, "", "", false, None))),
     Event(Some(1), true, InboxItem(Some(["hi"]))),
     Event(Some(2), true, ModelRequest(Named("a"), None, Some([Some(1)]), [User(["hi"])])),
     Event(Some(3), true, ModelRequest(Named("b"), None, Some([Some(-4)]), [User(["hi"])])),
     Event(Some(4), true, EpisodeEnd(None))]
  }

  lemma {:induction false} PrefixNone(events: seq<Event>)
    ensures var none := events[..0];
      && Ops(none) == [] && InboxOf(none) == map[] && RequestIds(none) == map[] && ConsumedBy(none) == {}
      && LatestHeader(none) == None && LastSummary(none) == None
  {
  }

  lemma {:induction false} TwiceConsumedTables()
    ensures var log := TwiceConsumed();
      && Ops(log) == []
      && InboxOf(log) == map[1 := ["hi"]]
      && RequestIds(log[..2]) == map[] && RequestIds(log[..3]) == map["a" := 2]
      && ConsumedBy(log[..2]) == {} && ConsumedBy(log[..3]) == {1}
      && LatestHeader(log[..2]) == LatestHeader(log[..3]) == None
      && LastSummary(log[..2]) == LastSummary(log[..3]) == None
  {
    hide Ops, InboxOf, RequestIds, ConsumedBy, LatestHeader, LastSummary;
    var log := TwiceConsumed();
    PrefixNone(log);
    PrefixStep(log, 0);
    PrefixStep(log, 1);
    PrefixStep(log, 2);
    PrefixStep(log, 3);
    PrefixStep(log, 4);
    assert log[..5] == log;
    var one: seq<Option<int>> := [Some(1)];
    assert Numbers(one) == {1} by {
      assert one[0] == Some(1);
    }
  }

  lemma {:induction false} TwiceConsumedDelivers()
    ensures var log := TwiceConsumed();
      Consumes(log, 2) == [User(["hi"])] && Consumes(log, 3) == []
  {
    TwiceConsumedTables();
    var one: seq<Option<int>> := [Some(1)];
    var four: seq<Option<int>> := [Some(-4)];
    assert one[..0] == [] && four[..0] == [];
    assert Content(map[1 := ["hi"]], one) == ["hi"] && Content(map[1 := ["hi"]], four) == [];
  }

  lemma {:induction false} TwiceConsumedSaid()
    ensures SaidBetween(TwiceConsumed(), 0, 2) == [] && SaidBetween(TwiceConsumed(), 0, 3) == [User(["hi"])]
  {
    var log := TwiceConsumed();
    TwiceConsumedDelivers();
    assert Said(log, 0) == [] && Said(log, 1) == [] && Said(log, 2) == Consumes(log, 2);
    assert SaidBetween(log, 0, 0) == [];
    assert SaidBetween(log, 0, 1) == [];
  }

  lemma {:induction false} TwiceConsumedMessages()
    ensures MessagesOk(TwiceConsumed(), 2) && MessagesOk(TwiceConsumed(), 3)
  {
    var log := TwiceConsumed();
    assert TwoPass(Ops(log)) && LastSummary(log[..2]) == LastSummary(log[..3]) == None by {
      TwiceConsumedTables();
    }
    DeriveIsSaid(log, 2);
    DeriveIsSaid(log, 3);
    TwiceConsumedDelivers();
    TwiceConsumedSaid();
  }

  lemma {:induction false} TwiceConsumedEvents()
    ensures EventOk(TwiceConsumed(), 2) && EventOk(TwiceConsumed(), 3)
  {
    var log := TwiceConsumed();
    TwiceConsumedTables();
    TwiceConsumedMessages();
    assert Numbers(log[2].body.consumed.value[..0]) == {} && Numbers(log[3].body.consumed.value[..0]) == {};
    assert RequestOk(log, 2);
    assert RequestOk(log, 3);
  }

  lemma {:induction false} TwiceConsumedEventsOk()
    ensures EventsOk(TwiceConsumed(), 5)
  {
    hide RequestOk, NamesRequest;
    var log := TwiceConsumed();
    TwiceConsumedEvents();
    assert EventOk(log, 0) && EventOk(log, 1) && EventOk(log, 4);
    hide EventOk;
    assert EventsOk(log, 2);
    assert EventsOk(log, 4);
  }

  lemma {:induction false} TwiceConsumedConforms()
    ensures Conforms(TwiceConsumed())
  {
    hide EventsOk, Ops, TwoPass;
    var log := TwiceConsumed();
    TwiceConsumedTables();
    EmptyPairs();
    TwiceConsumedEventsOk();
  }

  lemma {:induction false} EmptyPairs()
    ensures TwoPass([])
  {
  }

  /** An accepted log in which two requests consume the one inbox item. */
  lemma {:induction false} NegativeNumberRepeats()
    ensures var log := TwiceConsumed();
      Conforms(log) && Entered(log, 2, 0) && Entered(log, 3, 0) &&
      Position(|log|, NumberAt(log, 2, 0)) == Position(|log|, NumberAt(log, 3, 0)) == Some(1)
  {
    hide Conforms;
    TwiceConsumedConforms();
  }

  /** A summary says that the conversation begins at 4, beyond itself, and drops the answer at 3. */
  function CutOff(): seq<Event> {
    var summary := Summary("t", "r", "", "", Span(1, 3), Files([], [], []), Some(4), None);
    [Event(Some(0), true, EpisodeStart(Start(None, None, "t", "", true, None))),
     Event(Some(1), true, CompactionSummary(summary)),
     Event(Some(2), true, ModelRequest(Named("a"), None, Some([]), [User(["t"]), User(["r"])])),
     Event(Some(3), true, AssistantMessage(Named("a"), "hello", [], [], None)),
     Event(Some(4), true, ModelRequest(Named("b"), None, Some([]), [User(["t"]), User(["r"])])),
     Event(Some(5), true, EpisodeEnd(None))]
  }

  lemma {:induction false} CutOffTables()
    ensures var log := CutOff();
      && Ops(log) == []
      && RequestIds(log[..2]) == map[] && RequestIds(log[..3]) == RequestIds(log[..4]) == map["a" := 2]
      && ConsumedBy(log[..2]) == ConsumedBy(log[..4]) == {}
      && LatestHeader(log[..2]) == LatestHeader(log[..4]) == None
  {
    hide Ops, InboxOf, RequestIds, ConsumedBy, LatestHeader, LastSummary;
    var log := CutOff();
    PrefixNone(log);
    PrefixStep(log, 0);
    PrefixStep(log, 1);
    PrefixStep(log, 2);
    PrefixStep(log, 3);
    PrefixStep(log, 4);
    PrefixStep(log, 5);
    assert log[..6] == log;
  }

  lemma {:induction false} CutOffSummary()
    ensures LastSummary(CutOff()[..2]) == LastSummary(CutOff()[..4]) == Some(CutOff()[1].body.summary)
  {
    var log := CutOff();
    SameSummary(log, 2, 4);
    assert log[..2][1] == log[1];
  }

  lemma {:induction false} CutOffMessages()
    ensures MessagesOk(CutOff(), 2) && MessagesOk(CutOff(), 4)
  {
    var log := CutOff();
    CutOffTables();
    CutOffSummary();
    EmptyPairs();
    hide LastSummary, Ops, TwoPass;
    DeriveIsSaid(log, 2);
    DeriveIsSaid(log, 4);
    var none: seq<Option<int>> := [];
    assert Content(InboxOf(log), none) == [];
  }

  lemma {:induction false} CutOffConforms()
    ensures Conforms(CutOff())
  {
    hide MessagesOk, Ops, TwoPass, RequestIds, ConsumedBy, LatestHeader;
    var log := CutOff();
    CutOffTables();
    CutOffMessages();
    EmptyPairs();
    assert RequestOk(log, 2) && RequestOk(log, 4);
    assert EventOk(log, 0) && EventOk(log, 1) && EventOk(log, 2) && EventOk(log, 3) && EventOk(log, 4) &&
      EventOk(log, 5);
    hide EventOk;
    assert EventsOk(log, 2);
    assert EventsOk(log, 4);
    assert EventsOk(log, 6);
  }

  /** An accepted log that drops what was said between two requests, although no compaction lies between them. */
  lemma {:induction false} ConversationCut()
    ensures var log := CutOff();
      && Conforms(log) && OrdinaryRequest(log, 2) && OrdinaryRequest(log, 4)
      && (forall k :: 2 < k < 4 ==> !log[k].body.CompactionSummary?)
      && Said(log, 3) == [Assistant("hello", [], [])]
      && !ListGrows(log, 2, 4)
  {
    hide Conforms;
    var log := CutOff();
    CutOffConforms();
    CutOffTables();
    CutOffSummary();
    assert Said(log, 3) == [Assistant("hello", [], [])];
    assert SaidBetween(log, 2, 4) == SaidBetween(log, 2, 3) + Said(log, 3);
    ConversationGrows(log, 2, 4);
  }

  /** Two messages answer the one request. */
  function AnsweredTwice(): seq<Event> {
    [Event(Some(0), true, EpisodeStart(Start(Some("e"), None, "t", "", false, None))),
     Event(Some(1), true, ModelRequest(Named("a"), None, Some([]), [])),
     Event(Some(2), true, AssistantMessage(Named("a"), "", [], [], Some(Usage(Whole(3), Whole(1))))),
     Event(Some(3), true, AssistantMessage(Named("a"), "", [], [], Some(Usage(Whole(5), Whole(2))))),
     Event(Some(4), true, EpisodeEnd(None))]
  }

  lemma {:induction false} AnsweredTwiceTables()
    ensures var log := AnsweredTwice();
      && Ops(log) == []
      && RequestIds(log[..1]) == map[] && RequestIds(log[..2]) == RequestIds(log[..3]) == map["a" := 1]
      && ConsumedBy(log[..1]) == {} && LatestHeader(log[..1]) == None && LastSummary(log[..1]) == None
  {
    hide Ops, InboxOf, RequestIds, ConsumedBy, LatestHeader, LastSummary;
    var log := AnsweredTwice();
    PrefixNone(log);
    PrefixStep(log, 0);
    PrefixStep(log, 1);
    PrefixStep(log, 2);
    PrefixStep(log, 3);
    PrefixStep(log, 4);
    assert log[..5] == log;
  }

  lemma {:induction false} AnsweredTwiceMessages()
    ensures MessagesOk(AnsweredTwice(), 1)
  {
    var log := AnsweredTwice();
    AnsweredTwiceTables();
    EmptyPairs();
    hide LastSummary, Ops, TwoPass;
    DeriveIsSaid(log, 1);
    assert Said(log, 0) == [] && SaidBetween(log, 0, 0) == [];
    var none: seq<Option<int>> := [];
    assert Content(InboxOf(log), none) == [];
  }

  lemma {:induction false} AnsweredTwiceConforms()
    ensures Conforms(AnsweredTwice())
  {
    hide MessagesOk, Ops, TwoPass, RequestIds, ConsumedBy, LatestHeader;
    var log := AnsweredTwice();
    AnsweredTwiceTables();
    AnsweredTwiceMessages();
    EmptyPairs();
    assert RequestOk(log, 1);
    assert EventOk(log, 0) && EventOk(log, 1) && EventOk(log, 2) && EventOk(log, 3) && EventOk(log, 4);
    hide EventOk;
    assert EventsOk(log, 2);
    assert EventsOk(log, 4);
  }
}
