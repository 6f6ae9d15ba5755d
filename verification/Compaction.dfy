/** The compaction check over one log: covered spans, carried file lists and the recorded summary. */
module CompactionCheck {
  import opened Prelude
  import opened EpisodeLog
  import opened Evaluations
  import opened SortedNames

  // Which files the calls of a stretch of the log touched.

  datatype Access = Read | Written | Edited

  function Target(name: Option<string>): Option<Access> {
    if name == Some("read") then Some(Read)
    else if name == Some("write") then Some(Written)
    else if name == Some("edit") then Some(Edited)
    else None
  }

  function Listed(files: Files, access: Access): seq<string> {
    match access
    case Read => files.read
    case Written => files.written
    case Edited => files.edited
  }

  /** The ids of the calls whose result, anywhere in the log, is an error. */
  function Failed(events: seq<Event>): set<Option<string>> {
    set i | 0 <= i < |events| && events[i].body.ToolResult? && events[i].body.isError :: events[i].body.settles
  }

  predicate Touches(call: Entry, failed: set<Option<string>>, access: Access) {
    call.Call? && call.id !in failed && Target(call.name) == Some(access) && call.path.Some?
  }

  function PathsOf(calls: seq<Entry>, failed: set<Option<string>>, access: Access): seq<string> {
    if |calls| == 0 then [] else
      var before, call := PathsOf(calls[..|calls| - 1], failed, access), calls[|calls| - 1];
      if Touches(call, failed, access) then before + [call.path.value] else before
  }

  predicate InSpan(e: Event, span: Span) {
    e.seqNo.Some? && span.first <= e.seqNo.value <= span.last
  }

  function Paths(events: seq<Event>, failed: set<Option<string>>, access: Access, span: Span): seq<string> {
    if |events| == 0 then [] else
      var before, e := Paths(events[..|events| - 1], failed, access, span), events[|events| - 1];
      if e.body.AssistantMessage? && InSpan(e, span) then before + PathsOf(e.body.toolCalls, failed, access) else before
  }

  const NoFiles := Files([], [], [])

  function Compacted(events: seq<Event>, span: Span, carried: Files, access: Access): seq<string> {
    SortedSet(Listed(carried, access) + Paths(events, Failed(events), access, span))
  }

  function CompactedFiles(events: seq<Event>, span: Span, carried: Files): Files {
    Files(
      Compacted(events, span, carried, Read),
      Compacted(events, span, carried, Written),
      Compacted(events, span, carried, Edited))
  }

  /** Two spans that meet cover the paths of the span they make. */
  lemma {:induction false} PathsMeet(
    events: seq<Event>, failed: set<Option<string>>, access: Access, first: int, middle: int, last: int)
    requires first <= middle + 1 <= last + 1
    ensures Elements(Paths(events, failed, access, Span(first, last))) ==
      Elements(Paths(events, failed, access, Span(first, middle)))
        + Elements(Paths(events, failed, access, Span(middle + 1, last)))
  {
    if |events| > 0 {
      var before, e := events[..|events| - 1], events[|events| - 1];
      PathsMeet(before, failed, access, first, middle, last);
      if e.body.AssistantMessage? {
        var more := PathsOf(e.body.toolCalls, failed, access);
        ElementsConcat(Paths(before, failed, access, Span(first, last)), more);
        ElementsConcat(Paths(before, failed, access, Span(first, middle)), more);
        ElementsConcat(Paths(before, failed, access, Span(middle + 1, last)), more);
      }
    }
  }

  // The rounds of a log: each compaction start with the events up to the next.

  function Starts(events: seq<Event>): (r: seq<nat>)
    ensures forall i :: 0 <= i < |r| ==> r[i] < |events| && events[r[i]].body.CompactionStart?
  {
    if |events| == 0 then [] else
      Starts(events[..|events| - 1]) + (if events[|events| - 1].body.CompactionStart? then [|events| - 1] else [])
  }

  function Summaries(events: seq<Event>, lo: nat, hi: nat): (r: seq<nat>)
    requires hi <= |events|
    ensures forall i :: 0 <= i < |r| ==> lo <= r[i] < hi && events[r[i]].body.CompactionSummary?
  {
    if hi <= lo then [] else
      Summaries(events, lo, hi - 1) + (if events[hi - 1].body.CompactionSummary? then [hi - 1] else [])
  }

  function Ends(events: seq<Event>, lo: nat, hi: nat): (r: seq<nat>)
    requires hi <= |events|
    ensures forall i :: 0 <= i < |r| ==> lo <= r[i] < hi && events[r[i]].body.CompactionEnd?
  {
    if hi <= lo then [] else
      Ends(events, lo, hi - 1) + (if events[hi - 1].body.CompactionEnd? then [hi - 1] else [])
  }

  function Answers(events: seq<Event>, lo: nat, hi: nat, id: RequestId): (r: seq<nat>)
    requires hi <= |events|
    ensures forall i :: 0 <= i < |r| ==> lo <= r[i] < hi && events[r[i]].body.AssistantMessage?
  {
    if hi <= lo then [] else
      Answers(events, lo, hi - 1, id) +
      (if events[hi - 1].body.AssistantMessage? && events[hi - 1].body.id == id then [hi - 1] else [])
  }

  function RoundEnd(events: seq<Event>, starts: seq<nat>, i: nat): (hi: nat)
    requires i < |starts| && forall j :: 0 <= j < |starts| ==> starts[j] < |events|
    ensures hi <= |events|
  {
    if i + 1 < |starts| then starts[i + 1] else |events|
  }

  predicate EndsOk(events: seq<Event>, lo: nat, hi: nat)
    requires hi <= |events|
  {
    |Ends(events, lo, hi)| == 1 && events[Ends(events, lo, hi)[0]].body.ok
  }

  /** The round recorded one summary and ended well. */
  predicate Succeeds(events: seq<Event>, lo: nat, hi: nat)
    requires hi <= |events|
  {
    EndsOk(events, lo, hi) && |Summaries(events, lo, hi)| == 1
  }

  function SummaryOf(events: seq<Event>, lo: nat, hi: nat): Summary
    requires hi <= |events| && Succeeds(events, lo, hi)
  {
    events[Summaries(events, lo, hi)[0]].body.summary
  }

  predicate RequestNamed(events: seq<Event>, lo: nat, at: nat, requestSeq: Option<int>)
    requires at < |events|
  {
    && requestSeq.Some?
    && lo < requestSeq.value < |events|
    && requestSeq.value < events[at].seqNo.GetOr(-1)
    && events[requestSeq.value].body.ModelRequest?
    && events[requestSeq.value].body.id.Named?
    && IsSummarization(events[requestSeq.value].body.id.name)
  }

  predicate Answered(events: seq<Event>, lo: nat, hi: nat, id: RequestId, narrative: string)
    requires hi <= |events|
  {
    var answers := Answers(events, lo, hi, id);
    |answers| == 1 && events[answers[0]].body.text == narrative
  }

  function Expected(previous: Option<Summary>): int {
    match previous
    case None => 1
    case Some(s) => s.firstKept.GetOr(1)
  }

  function Carried(previous: Option<Summary>): Files {
    match previous
    case None => NoFiles
    case Some(s) => s.files
  }

  /** The summary states the span its compaction opened with, and what must never change across one. */
  predicate StateOk(summary: Summary, covered: Span, start: Start, previous: Option<Summary>) {
    && covered.first == Expected(previous)
    && summary.covered == covered
    && summary.task == start.task
    && summary.doneWhen == start.doneWhen
    && summary.firstKept == Some(covered.last + 1)
  }

  /** The summary is the recorded answer to a recorded summarization request of its own round. */
  predicate ExchangeOk(events: seq<Event>, lo: nat, hi: nat, at: nat)
    requires lo < hi <= |events| && at < |events| && events[at].body.CompactionSummary?
  {
    var summary := events[at].body.summary;
    && RequestNamed(events, lo, at, summary.requestSeq)
    && Answered(events, lo, hi, events[summary.requestSeq.value].body.id, summary.narrative)
  }

  /** The checks on what a successful round records, given the summary before it. */
  predicate SummaryOk(events: seq<Event>, start: Start, lo: nat, hi: nat, at: nat, previous: Option<Summary>)
    requires lo < hi <= |events| && events[lo].body.CompactionStart? && at < |events| &&
      events[at].body.CompactionSummary?
  {
    && StateOk(events[at].body.summary, events[lo].body.covered, start, previous)
    && ExchangeOk(events, lo, hi, at)
    && events[at].body.summary.files == CompactedFiles(events, events[lo].body.covered, Carried(previous))
  }

  predicate RoundOk(events: seq<Event>, start: Start, lo: nat, hi: nat, previous: Option<Summary>)
    requires lo < hi <= |events| && events[lo].body.CompactionStart?
  {
    && |Ends(events, lo, hi)| == 1
    && |Summaries(events, lo, hi)| == (if EndsOk(events, lo, hi) then 1 else 0)
    && (Succeeds(events, lo, hi) ==> SummaryOk(events, start, lo, hi, Summaries(events, lo, hi)[0], previous))
  }

  lemma {:induction false} StartsAscend(events: seq<Event>)
    ensures forall i, j :: 0 <= i < j < |Starts(events)| ==> Starts(events)[i] < Starts(events)[j]
  {
    if |events| > 0 {
      StartsAscend(events[..|events| - 1]);
    }
  }

  lemma {:induction false} RoundSpan(events: seq<Event>, i: nat)
    requires i < |Starts(events)|
    ensures Starts(events)[i] < RoundEnd(events, Starts(events), i) <= |events|
  {
    StartsAscend(events);
  }

  /** The summaries of the first `n` rounds that succeeded, in order. */
  function Successes(events: seq<Event>, n: nat): seq<Summary>
    requires n <= |Starts(events)|
  {
    if n == 0 then [] else
      var lo, hi := Starts(events)[n - 1], RoundEnd(events, Starts(events), n - 1);
      Successes(events, n - 1) + (if Succeeds(events, lo, hi) then [SummaryOf(events, lo, hi)] else [])
  }

  function Last(summaries: seq<Summary>): Option<Summary> {
    if |summaries| == 0 then None else Some(summaries[|summaries| - 1])
  }

  ghost predicate RoundsOk(events: seq<Event>, start: Start, n: nat)
    requires n <= |Starts(events)|
  {
    n == 0 || (
      var lo, hi := Starts(events)[n - 1], RoundEnd(events, Starts(events), n - 1);
      && RoundsOk(events, start, n - 1)
      && lo < hi
      && RoundOk(events, start, lo, hi, Last(Successes(events, n - 1))))
  }

  predicate Compacts(e: Event) {
    e.body.CompactionStart? || e.body.CompactionSummary? || e.body.CompactionEnd?
  }

  /** What an accepted log is, as far as compaction goes. */
  ghost predicate Continuous(log: Log) {
    (exists i :: 0 <= i < |log.events| && Compacts(log.events[i])) ==>
      && log.Started().Some?
      && log.Started().value.compact
      && RoundsOk(log.events, log.Started().value, |Starts(log.events)|)
  }

  // The checker.

  method AddPaths(calls: seq<Entry>, failed: set<Option<string>>, files: Files) returns (files': Files)
    ensures files' == Files(
      files.read + PathsOf(calls, failed, Read),
      files.written + PathsOf(calls, failed, Written),
      files.edited + PathsOf(calls, failed, Edited))
  {
    files' := files;
    for i := 0 to |calls|
      invariant files' == Files(
        files.read + PathsOf(calls[..i], failed, Read),
        files.written + PathsOf(calls[..i], failed, Written),
        files.edited + PathsOf(calls[..i], failed, Edited))
    {
      assert calls[..i + 1][..i] == calls[..i];
      var call := calls[i];
      if call.NotAnObject? || call.id in failed {
        continue;
      }
      var target := Target(call.name);
      if target.Some? && call.path.Some? {
        match target.value {
          case Read => files' := files'.(read := files'.read + [call.path.value]);
          case Written => files' := files'.(written := files'.written + [call.path.value]);
          case Edited => files' := files'.(edited := files'.edited + [call.path.value]);
        }
      }
    }
    assert calls[..|calls|] == calls;
  }

  method CompactFiles(events: seq<Event>, covered: Span, carried: Files) returns (files: Files)
    ensures files == CompactedFiles(events, covered, carried)
  {
    var failed := Failed(events);
    files := carried;
    for i := 0 to |events|
      invariant files == Files(
        carried.read + Paths(events[..i], failed, Read, covered),
        carried.written + Paths(events[..i], failed, Written, covered),
        carried.edited + Paths(events[..i], failed, Edited, covered))
    {
      assert events[..i + 1][..i] == events[..i];
      if events[i].body.AssistantMessage? && InSpan(events[i], covered) {
        files := AddPaths(events[i].body.toolCalls, failed, files);
      }
    }
    assert events[..|events|] == events;
    files := Files(SortedSet(files.read), SortedSet(files.written), SortedSet(files.edited));
  }

  method CheckState(
    eval: Evaluation, episode: string, at: nat, summary: Summary, covered: Span, start: Start,
    previous: Option<Summary>)
    requires eval.Valid()
    modifies eval
    ensures eval.Valid()
    ensures eval.Clean() <==> old(eval.Clean()) && StateOk(summary, covered, start, previous)
  {
    hide Evaluation.Valid, Evaluation.Clean;
    eval.Check(Compaction, covered.first == Expected(previous), episode, Some(at));
    eval.Check(Compaction, summary.covered == covered, episode, Some(at));
    eval.Check(Compaction, summary.task == start.task, episode, Some(at));
    eval.Check(Compaction, summary.doneWhen == start.doneWhen, episode, Some(at));
    eval.Check(Compaction, summary.firstKept == Some(covered.last + 1), episode, Some(at));
  }

  /** `raised` is an index error: a request number below minus the length of the log. */
  method CheckExchange(eval: Evaluation, log: Log, lo: nat, hi: nat, at: nat) returns (raised: bool)
    requires eval.Valid() && lo < hi <= |log.events| && at < |log.events| && log.events[at].body.CompactionSummary?
    modifies eval
    ensures eval.Valid()
    ensures raised ==> !ExchangeOk(log.events, lo, hi, at)
    ensures !raised ==> (eval.Clean() <==> old(eval.Clean()) && ExchangeOk(log.events, lo, hi, at))
  {
    hide Evaluation.Valid, Evaluation.Clean;
    var events, summary := log.events, log.events[at].body.summary;
    raised := summary.requestSeq.Some? && summary.requestSeq.value < 0 - |events|;
    if raised {
      return;
    }
    var id := Absent;
    if summary.requestSeq.Some? && summary.requestSeq.value < |events| {
      var stated := summary.requestSeq.value;
      var place := if stated < 0 then |events| + stated else stated;
      if events[place].body.ModelRequest? {
        id := events[place].body.id;
      }
    }
    var named := RequestNamed(events, lo, at, summary.requestSeq);
    eval.Check(Compaction, named, log.EpisodeId(), Some(at));
    eval.Check(Compaction, Answered(events, lo, hi, id, summary.narrative), log.EpisodeId(), Some(at));
  }

  method CheckSummary(
    eval: Evaluation, log: Log, start: Start, lo: nat, hi: nat, at: nat,
    previous: Option<Summary>) returns (raised: bool)
    requires eval.Valid() && lo < hi <= |log.events| && log.events[lo].body.CompactionStart?
    requires at < |log.events| && log.events[at].body.CompactionSummary?
    modifies eval
    ensures eval.Valid()
    ensures raised ==> !SummaryOk(log.events, start, lo, hi, at, previous)
    ensures !raised ==> (eval.Clean() <==> old(eval.Clean()) && SummaryOk(log.events, start, lo, hi, at, previous))
  {
    hide StateOk, ExchangeOk, CompactedFiles, Evaluation.Valid, Evaluation.Clean;
    var summary, covered := log.events[at].body.summary, log.events[lo].body.covered;
    CheckState(eval, log.EpisodeId(), at, summary, covered, start, previous);
    raised := CheckExchange(eval, log, lo, hi, at);
    if raised {
      return;
    }
    var expected := CompactFiles(log.events, covered, Carried(previous));
    eval.Check(Compaction, summary.files == expected, log.EpisodeId(), Some(at));
  }

  method CheckRound(eval: Evaluation, log: Log, start: Start, lo: nat, hi: nat, previous: Option<Summary>)
    returns (previous': Option<Summary>, raised: bool)
    requires eval.Valid() && lo < hi <= |log.events| && log.events[lo].body.CompactionStart?
    modifies eval
    ensures eval.Valid()
    ensures raised ==> !RoundOk(log.events, start, lo, hi, previous)
    ensures !raised ==> (eval.Clean() <==> old(eval.Clean()) && RoundOk(log.events, start, lo, hi, previous))
    ensures !raised ==>
      previous' == if Succeeds(log.events, lo, hi) then Some(SummaryOf(log.events, lo, hi)) else previous
  {
    hide SummaryOk, Ends, Summaries, Evaluation.Valid, Evaluation.Clean;
    previous', raised := previous, false;
    var ends, summaries := Ends(log.events, lo, hi), Summaries(log.events, lo, hi);
    eval.Check(Compaction, |ends| == 1, log.EpisodeId(), Some(lo));
    if |ends| != 1 {
      return;
    }
    var ok := log.events[ends[0]].body.ok;
    eval.Check(Compaction, |summaries| == (if ok then 1 else 0), log.EpisodeId(), Some(lo));
    if !ok || |summaries| != 1 {
      return;
    }
    raised := CheckSummary(eval, log, start, lo, hi, summaries[0], previous);
    previous' := Some(log.events[summaries[0]].body.summary);
  }

  method CheckRounds(eval: Evaluation, log: Log, start: Start) returns (raised: bool)
    requires eval.Valid()
    modifies eval
    ensures eval.Valid()
    ensures raised ==> !RoundsOk(log.events, start, |Starts(log.events)|)
    ensures !raised ==> (eval.Clean() <==> old(eval.Clean()) && RoundsOk(log.events, start, |Starts(log.events)|))
  {
    hide RoundOk, Succeeds, Evaluation.Valid, Evaluation.Clean;
    raised := false;
    var events, previous: Option<Summary> := log.events, None;
    var starts: seq<nat> := Starts(events);
    for i := 0 to |starts|
      invariant eval.Valid() && previous == Last(Successes(events, i))
      invariant eval.Clean() <==> old(eval.Clean()) && RoundsOk(events, start, i)
    {
      RoundSpan(events, i);
      previous, raised := CheckRound(eval, log, start, starts[i], RoundEnd(events, starts, i), previous);
      if raised {
        if RoundsOk(events, start, |starts|) {
          RoundAt(events, start, |starts|, i);
        }
        return;
      }
    }
  }

  lemma {:induction false} RoundAt(events: seq<Event>, start: Start, n: nat, i: nat)
    requires i < n <= |Starts(events)| && RoundsOk(events, start, n)
    ensures var lo, hi := Starts(events)[i], RoundEnd(events, Starts(events), i);
      lo < hi && RoundOk(events, start, lo, hi, Last(Successes(events, i)))
  {
    if i < n - 1 {
      RoundAt(events, start, n - 1, i);
    }
  }

  method CheckCompaction(eval: Evaluation, log: Log) returns (raised: bool)
    requires eval.Valid()
    modifies eval
    ensures eval.Valid()
    ensures raised ==> !Continuous(log)
    ensures !raised ==> (eval.Clean() <==> old(eval.Clean()) && Continuous(log))
  {
    hide Evaluation.Valid, Evaluation.Clean;
    raised := false;
    var applies := exists i :: 0 <= i < |log.events| && Compacts(log.events[i]);
    if !applies {
      return;
    }
    var start := if log.Started().Some? then log.Started().value else Start(None, None, "", "", false, None);
    eval.Check(Compaction, start.compact, log.EpisodeId(), Some(0));
    raised := CheckRounds(eval, log, start);
  }

  // What acceptance says of the whole run.

  /** Spans that follow one another from the first event after the start. */
  ghost predicate Chained(spans: seq<Span>) {
    && (|spans| > 0 ==> spans[0].first == 1)
    && (forall i :: 0 < i < |spans| ==> spans[i].first == spans[i - 1].last + 1)
  }

  function Spans(summaries: seq<Summary>): (r: seq<Span>)
    ensures |r| == |summaries| && forall i :: 0 <= i < |r| ==> r[i] == summaries[i].covered
  {
    if |summaries| == 0 then [] else Spans(summaries[..|summaries| - 1]) + [summaries[|summaries| - 1].covered]
  }

  lemma {:induction false} RoundState(events: seq<Event>, start: Start, lo: nat, hi: nat, previous: Option<Summary>)
    requires lo < hi <= |events| && events[lo].body.CompactionStart?
    requires RoundOk(events, start, lo, hi, previous) && Succeeds(events, lo, hi)
    ensures var s := SummaryOf(events, lo, hi);
      StateOk(s, s.covered, start, previous) && s.files == CompactedFiles(events, s.covered, Carried(previous))
  {
    hide ExchangeOk, CompactedFiles;
  }

  lemma {:induction false} SuccessesStep(events: seq<Event>, n: nat)
    requires n < |Starts(events)|
    ensures var lo, hi := Starts(events)[n], RoundEnd(events, Starts(events), n);
      && (Succeeds(events, lo, hi) ==> Successes(events, n + 1) == Successes(events, n) + [SummaryOf(events, lo, hi)])
      && (!Succeeds(events, lo, hi) ==> Successes(events, n + 1) == Successes(events, n))
  {
    hide Succeeds, SummaryOf;
  }

  /** Each summary covers the span after the one before it and says where the next begins. */
  ghost predicate Continues(summaries: seq<Summary>) {
    && Chained(Spans(summaries))
    && (forall i :: 0 <= i < |summaries| ==> summaries[i].firstKept == Some(summaries[i].covered.last + 1))
  }

  lemma {:induction false} ContinuesStep(before: seq<Summary>, s: Summary, start: Start)
    requires Continues(before) && StateOk(s, s.covered, start, Last(before))
    ensures Continues(before + [s])
  {
    assert (before + [s])[..|before|] == before;
  }

  /** The check on where a span begins chains the spans of the rounds that succeeded. */
  lemma {:induction false} SuccessesLink(events: seq<Event>, start: Start, n: nat)
    requires n <= |Starts(events)| && RoundsOk(events, start, n)
    ensures Continues(Successes(events, n))
  {
    hide RoundOk, Succeeds, Continues, Successes, StateOk, SummaryOf, CompactedFiles, Starts, RoundEnd, Last;
    if n > 0 {
      SuccessesLink(events, start, n - 1);
      SuccessesStep(events, n - 1);
      var lo, hi := Starts(events)[n - 1], RoundEnd(events, Starts(events), n - 1);
      if Succeeds(events, lo, hi) {
        RoundState(events, start, lo, hi, Last(Successes(events, n - 1)));
        ContinuesStep(Successes(events, n - 1), SummaryOf(events, lo, hi), start);
      }
    } else {
      NoSuccess(events);
    }
  }

  lemma {:induction false} NoSuccess(events: seq<Event>)
    ensures Successes(events, 0) == [] && Continues([])
  {
  }

  /** How many of the first `k` spans hold `s`. */
  function Coverage(spans: seq<Span>, k: nat, s: int): nat
    requires k <= |spans|
  {
    if k == 0 then 0 else Coverage(spans, k - 1, s) + (if spans[k - 1].first <= s <= spans[k - 1].last then 1 else 0)
  }

  /** The first `k` spans hold every event from 1 to the end of the last of them once, and nothing else. */
  ghost predicate Tiles(spans: seq<Span>, k: nat)
    requires 0 < k <= |spans|
  {
    forall s :: Coverage(spans, k, s) == if 1 <= s <= spans[k - 1].last then 1 else 0
  }

  predicate Forward(span: Span) {
    1 <= span.first <= span.last + 1 || (span.first <= 1 && span.last < span.first)
  }

  ghost predicate AllForward(spans: seq<Span>, k: nat)
    requires k <= |spans|
  {
    forall i :: 0 <= i < k ==> Forward(spans[i])
  }

  lemma {:induction false} ForwardTiles(spans: seq<Span>, k: nat)
    requires Chained(spans) && 0 < k <= |spans| && AllForward(spans, k)
    ensures Tiles(spans, k)
  {
    if k > 1 {
      ForwardTiles(spans, k - 1);
    }
    forall s ensures Coverage(spans, k, s) == if 1 <= s <= spans[k - 1].last then 1 else 0 {
      assert k > 1 ==> Coverage(spans, k - 1, s) == if 1 <= s <= spans[k - 2].last then 1 else 0;
      assert k == 1 ==> Coverage(spans, k - 1, s) == 0;
      assert Forward(spans[k - 1]);
    }
  }

  lemma {:induction false} TilesForward(spans: seq<Span>, k: nat)
    requires Chained(spans) && 0 < k <= |spans| && Tiles(spans, k) && (k > 1 ==> Tiles(spans, k - 1))
    ensures Forward(spans[k - 1])
  {
    var span := spans[k - 1];
    var probe := if span.first <= span.last then span.first else span.first - 1;
    assert Coverage(spans, k, probe) == if 1 <= probe <= span.last then 1 else 0;
    assert k > 1 ==> Coverage(spans, k - 1, probe) == if 1 <= probe <= spans[k - 2].last then 1 else 0;
    assert k == 1 ==> Coverage(spans, k - 1, probe) == 0;
  }

  /**
   * The spans an accepted log compacts tile its events from 1, at every success, exactly when each span
   * runs forward. The check itself leaves the end of a span free.
   */
  lemma {:induction false} CompactionTiles(log: Log)
    requires Continuous(log) && exists i :: 0 <= i < |log.events| && Compacts(log.events[i])
    ensures var spans := Spans(Successes(log.events, |Starts(log.events)|));
      && Chained(spans)
      && ((forall k :: 0 < k <= |spans| ==> Tiles(spans, k)) <==> AllForward(spans, |spans|))
  {
    SuccessesLink(log.events, log.Started().value, |Starts(log.events)|);
    var spans := Spans(Successes(log.events, |Starts(log.events)|));
    if AllForward(spans, |spans|) {
      forall k | 0 < k <= |spans| ensures Tiles(spans, k) {
        ForwardTiles(spans, k);
      }
    }
    if forall k :: 0 < k <= |spans| ==> Tiles(spans, k) {
      forall i | 0 <= i < |spans| ensures Forward(spans[i]) {
        assert Tiles(spans, i + 1) && (i > 0 ==> Tiles(spans, i));
        TilesForward(spans, i + 1);
      }
    }
  }

  /** The paths of every span compacted so far, in order. */
  function SpanPaths(events: seq<Event>, spans: seq<Span>, access: Access): seq<string> {
    if |spans| == 0 then [] else
      SpanPaths(events, spans[..|spans| - 1], access) + Paths(events, Failed(events), access, spans[|spans| - 1])
  }

  ghost predicate Accumulated(events: seq<Event>, summaries: seq<Summary>, access: Access) {
    |summaries| > 0 ==>
      Listed(summaries[|summaries| - 1].files, access) == SortedSet(SpanPaths(events, Spans(summaries), access))
  }

  lemma {:induction false} SpansSnoc(before: seq<Summary>, s: Summary)
    ensures Spans(before + [s]) == Spans(before) + [s.covered]
  {
    assert (before + [s])[..|before|] == before;
  }

  lemma {:induction false} SpanPathsSnoc(events: seq<Event>, spans: seq<Span>, span: Span, access: Access)
    ensures SpanPaths(events, spans + [span], access)
        == SpanPaths(events, spans, access) + Paths(events, Failed(events), access, span)
  {
    assert (spans + [span])[..|spans|] == spans;
    hide Paths, Failed;
  }

  lemma {:induction false} CompactedIs(events: seq<Event>, span: Span, carried: Files, access: Access)
    ensures Listed(CompactedFiles(events, span, carried), access)
        == SortedSet(Listed(carried, access) + Paths(events, Failed(events), access, span))
  {
    hide Paths, Failed, SortedSet;
  }

  lemma {:induction false} AccumulateStep(events: seq<Event>, before: seq<Summary>, s: Summary, access: Access)
    requires Accumulated(events, before, access)
    requires s.files == CompactedFiles(events, s.covered, Carried(Last(before)))
    ensures Accumulated(events, before + [s], access)
  {
    SpanPathsNone(events, Spans(before), access);
    hide Paths, Failed, SortedSet, SpanPaths, CompactedFiles, Spans;
    SpansSnoc(before, s);
    SpanPathsSnoc(events, Spans(before), s.covered, access);
    CompactedIs(events, s.covered, Carried(Last(before)), access);
    var done, more := SpanPaths(events, Spans(before), access), Paths(events, Failed(events), access, s.covered);
    if |before| > 0 {
      SortedSetCarries(done, more);
    } else {
      assert [] + more == more;
    }
  }

  lemma {:induction false} SpanPathsNone(events: seq<Event>, spans: seq<Span>, access: Access)
    ensures |spans| == 0 ==> SpanPaths(events, spans, access) == []
  {
  }

  /** Each recorded list, built on the one before it, is the sorted set of all the paths compacted so far. */
  lemma {:induction false} FilesAccumulate(events: seq<Event>, start: Start, n: nat, access: Access)
    requires n <= |Starts(events)| && RoundsOk(events, start, n)
    ensures Accumulated(events, Successes(events, n), access)
  {
    hide RoundOk, Succeeds, Accumulated, CompactedFiles, Successes, StateOk, SummaryOf, Starts, RoundEnd, Last;
    if n > 0 {
      FilesAccumulate(events, start, n - 1, access);
      SuccessesStep(events, n - 1);
      var lo, hi := Starts(events)[n - 1], RoundEnd(events, Starts(events), n - 1);
      if Succeeds(events, lo, hi) {
        RoundState(events, start, lo, hi, Last(Successes(events, n - 1)));
        AccumulateStep(events, Successes(events, n - 1), SummaryOf(events, lo, hi), access);
      }
    } else {
      NoSuccess(events);
      NothingAccumulated(events, access);
    }
  }

  lemma {:induction false} NothingAccumulated(events: seq<Event>, access: Access)
    ensures Accumulated(events, [], access)
  {
  }

  lemma {:induction false} SpanPathsTile(events: seq<Event>, spans: seq<Span>, access: Access)
    requires Chained(spans) && |spans| > 0
    requires forall i :: 0 <= i < |spans| ==> spans[i].first <= spans[i].last + 1
    ensures spans[|spans| - 1].last >= 0
    ensures Elements(SpanPaths(events, spans, access)) ==
      Elements(Paths(events, Failed(events), access, Span(1, spans[|spans| - 1].last)))
  {
    var k := |spans| - 1;
    if k == 0 {
      assert spans == [spans[0]] && spans[..0] == [];
    } else {
      SpanPathsTile(events, spans[..k], access);
      PathsMeet(events, Failed(events), access, 1, spans[k - 1].last, spans[k].last);
      ElementsConcat(SpanPaths(events, spans[..k], access), Paths(events, Failed(events), access, spans[k]));
      assert spans[k] == Span(spans[k - 1].last + 1, spans[k].last);
    }
  }

  lemma {:induction false} RoundsBefore(events: seq<Event>, start: Start, all: nat, n: nat)
    requires n <= all <= |Starts(events)| && RoundsOk(events, start, all)
    ensures RoundsOk(events, start, n)
  {
    hide RoundOk, Successes, Starts, RoundEnd;
    if n < all {
      RoundsBefore(events, start, all - 1, n);
    }
  }

  /**
   * After any number of rounds, when the spans so far run forward, the lists the last summary carries are what one
   * pass over everything compacted so far would list.
   */
  lemma {:induction false} FilesInOnePass(log: Log, n: nat, access: Access)
    requires Continuous(log) && exists i :: 0 <= i < |log.events| && Compacts(log.events[i])
    requires n <= |Starts(log.events)| && |Successes(log.events, n)| > 0
    requires forall i :: 0 <= i < |Successes(log.events, n)| ==>
      var span := Successes(log.events, n)[i].covered; span.first <= span.last + 1
    ensures var last := Last(Successes(log.events, n)).value;
      Listed(last.files, access) == SortedSet(Paths(log.events, Failed(log.events), access, Span(1, last.covered.last)))
  {
    var events, start := log.events, log.Started().value;
    RoundsBefore(events, start, |Starts(events)|, n);
    var summaries := Successes(events, n);
    var spans, last := Spans(summaries), Last(summaries).value;
    SuccessesLink(events, start, n);
    FilesAccumulate(events, start, n, access);
    hide Paths, SortedSet, Successes, SpanPaths, Failed, RoundsOk, Continuous;
    SpanPathsTile(events, spans, access);
    var all := Paths(events, Failed(events), access, Span(1, last.covered.last));
    SortedSetSorts(SpanPaths(events, spans, access));
    SortedSetSorts(all);
    AscendingUnique(SortedSet(SpanPaths(events, spans, access)), SortedSet(all));
  }
}
