/** The compaction check, round by round: what each must record, by the positions of its events. */
module CompactionMeans {
  import opened Prelude
  import opened EpisodeLog
  import opened SortedNames
  import opened CompactionCheck
  import opened CompactionCases
  import opened CompactionLaws

  /** A compaction starts at `a`, and the next one, or the end of the log, is at `b`. */
  ghost predicate SpansRound(events: seq<Event>, a: nat, b: nat) {
    && a < b <= |events| && events[a].body.CompactionStart?
    && (b < |events| ==> events[b].body.CompactionStart?)
    && forall i :: a < i < b ==> !events[i].body.CompactionStart?
  }

  ghost predicate OnlyEnd(events: seq<Event>, a: nat, b: nat, e: nat) {
    && a <= e < b <= |events| && events[e].body.CompactionEnd?
    && forall i :: a <= i < b && events[i].body.CompactionEnd? ==> i == e
  }

  ghost predicate OnlySummary(events: seq<Event>, a: nat, b: nat, c: nat) {
    && a <= c < b <= |events| && events[c].body.CompactionSummary?
    && forall i :: a <= i < b && events[i].body.CompactionSummary? ==> i == c
  }

  ghost predicate OnlyAnswer(events: seq<Event>, a: nat, b: nat, id: RequestId, m: nat) {
    && a <= m < b <= |events| && events[m].body.AssistantMessage? && events[m].body.id == id
    && forall i :: a <= i < b && events[i].body.AssistantMessage? && events[i].body.id == id ==> i == m
  }

  /** The round ends well, once, and records the one summary at `c`. */
  ghost predicate RecordsAt(events: seq<Event>, a: nat, b: nat, c: nat) {
    && SpansRound(events, a, b) && OnlySummary(events, a, b, c)
    && exists e: nat :: OnlyEnd(events, a, b, e) && events[e].body.ok
  }

  /** The last summary a round before `a` records is at the position, if there is one. */
  ghost predicate PriorAt(events: seq<Event>, a: nat, prior: Option<nat>) {
    match prior
    case None => forall lo: nat, hi: nat, c: nat :: RecordsAt(events, lo, hi, c) ==> a <= lo
    case Some(p) =>
      && (exists lo: nat, hi: nat :: lo < a && RecordsAt(events, lo, hi, p))
      && forall lo: nat, hi: nat, c: nat :: RecordsAt(events, lo, hi, c) && lo < a ==> c <= p
  }

  /** What a summary says of its span, given the one before it and the start of the log. */
  predicate Continued(events: seq<Event>, a: nat, s: Summary, prior: Option<Summary>)
    requires a < |events| && events[a].body.CompactionStart? && events[0].body.EpisodeStart?
  {
    var covered, start := events[a].body.covered, events[0].body.start;
    && covered.first == (match prior {
         case None => 1
         case Some(before) => if before.firstKept.Some? then before.firstKept.value else 1
       })
    && s.covered == covered && s.firstKept == Some(covered.last + 1)
    && s.task == start.task && s.doneWhen == start.doneWhen
  }

  /** The summary is the round's one answer to a summarization request the round made before it. */
  ghost predicate Exchanged(events: seq<Event>, a: nat, b: nat, c: nat, s: Summary) {
    exists r: nat, m: nat, name :: ExchangedBy(events, a, b, c, s, r, m, name)
  }

  ghost predicate ExchangedBy(
    events: seq<Event>, a: nat, b: nat, c: nat, s: Summary, r: nat, m: nat, name: string)
  {
    && s.requestSeq == Some(r) && a < r < |events| && c < |events|
    && events[c].seqNo.Some? && r < events[c].seqNo.value
    && events[r].body.ModelRequest? && events[r].body.id == Named(name) && "cmp_" <= name
    && OnlyAnswer(events, a, b, Named(name), m) && events[m].body.text == s.narrative
  }

  ghost predicate SummarySound(events: seq<Event>, a: nat, b: nat, c: nat, prior: Option<Summary>)
    requires a < |events| && events[a].body.CompactionStart? && events[0].body.EpisodeStart?
    requires c < |events| && events[c].body.CompactionSummary?
  {
    var s := events[c].body.summary;
    && Continued(events, a, s, prior)
    && Exchanged(events, a, b, c, s)
    && FilesSound(
         events, events[a].body.covered, if prior.Some? then prior.value.files else Files([], [], []), s.files)
  }

  function SummaryAt(events: seq<Event>, prior: Option<nat>): Option<Summary> {
    match prior
    case Some(p) => if p < |events| && events[p].body.CompactionSummary? then Some(events[p].body.summary) else None
    case None => None
  }

  /** The round ends once. It records one sound summary when it ends well, and none when it fails. */
  ghost predicate RoundSound(events: seq<Event>, a: nat, b: nat)
    requires |events| > 0 && events[0].body.EpisodeStart?
  {
    exists e: nat :: OnlyEnd(events, a, b, e) &&
      if events[e].body.ok
      then exists c: nat, prior :: OnlySummary(events, a, b, c) && PriorAt(events, a, prior) &&
             a < |events| && events[a].body.CompactionStart? &&
             SummarySound(events, a, b, c, SummaryAt(events, prior))
      else forall i :: a <= i < b && i < |events| ==> !events[i].body.CompactionSummary?
  }

  predicate OfCompaction(body: Body) {
    match body
    case CompactionStart(_) => true
    case CompactionSummary(_) => true
    case CompactionEnd(_) => true
    case _ => false
  }

  ghost predicate Sound(events: seq<Event>) {
    (exists i :: 0 <= i < |events| && OfCompaction(events[i].body)) ==>
      && events[0].body.EpisodeStart? && events[0].body.start.compact
      && forall a: nat, b: nat :: SpansRound(events, a, b) ==> RoundSound(events, a, b)
  }

  // The lists the check reads off a round.

  lemma {:induction false} EndsHold(events: seq<Event>, lo: nat, hi: nat, x: nat)
    requires hi <= |events|
    ensures x in Ends(events, lo, hi) <==> lo <= x < hi && events[x].body.CompactionEnd?
  {
    if lo < hi {
      EndsHold(events, lo, hi - 1, x);
    }
  }

  lemma {:induction false} EndsOnly(events: seq<Event>, lo: nat, hi: nat, e: nat)
    requires hi <= |events| && Ends(events, lo, hi) == [e]
    ensures OnlyEnd(events, lo, hi, e)
  {
    EndsHold(events, lo, hi, e);
    forall i: nat | lo <= i < hi && events[i].body.CompactionEnd?
      ensures i == e
    {
      EndsHold(events, lo, hi, i);
    }
    hide Ends;
  }

  lemma {:induction false} EndsMean(events: seq<Event>, lo: nat, hi: nat)
    requires hi <= |events|
    ensures forall e: nat :: OnlyEnd(events, lo, hi, e) <==> Ends(events, lo, hi) == [e]
  {
    forall e: nat
      ensures OnlyEnd(events, lo, hi, e) <==> Ends(events, lo, hi) == [e]
    {
      if OnlyEnd(events, lo, hi, e) {
        EndsOne(events, lo, hi, e);
      }
      if Ends(events, lo, hi) == [e] {
        EndsOnly(events, lo, hi, e);
      }
    }
  }

  lemma {:induction false} SummariesHold(events: seq<Event>, lo: nat, hi: nat, x: nat)
    requires hi <= |events|
    ensures x in Summaries(events, lo, hi) <==> lo <= x < hi && events[x].body.CompactionSummary?
  {
    if lo < hi {
      SummariesHold(events, lo, hi - 1, x);
    }
  }

  lemma {:induction false} SummariesOnly(events: seq<Event>, lo: nat, hi: nat, c: nat)
    requires hi <= |events| && Summaries(events, lo, hi) == [c]
    ensures OnlySummary(events, lo, hi, c)
  {
    SummariesHold(events, lo, hi, c);
    forall i: nat | lo <= i < hi && events[i].body.CompactionSummary?
      ensures i == c
    {
      SummariesHold(events, lo, hi, i);
    }
    hide Summaries;
  }

  lemma {:induction false} NoSummaries(events: seq<Event>, lo: nat, hi: nat)
    requires hi <= |events|
    ensures Summaries(events, lo, hi) == [] <==> forall i :: lo <= i < hi ==> !events[i].body.CompactionSummary?
  {
    if Summaries(events, lo, hi) == [] {
      forall i: nat | lo <= i < hi
        ensures !events[i].body.CompactionSummary?
      {
        SummariesHold(events, lo, hi, i);
      }
    } else {
      SummariesHold(events, lo, hi, Summaries(events, lo, hi)[0]);
    }
    hide Summaries;
  }

  lemma {:induction false} SummariesMean(events: seq<Event>, lo: nat, hi: nat)
    requires hi <= |events|
    ensures forall c: nat :: OnlySummary(events, lo, hi, c) <==> Summaries(events, lo, hi) == [c]
    ensures Summaries(events, lo, hi) == [] <==> forall i :: lo <= i < hi ==> !events[i].body.CompactionSummary?
  {
    NoSummaries(events, lo, hi);
    forall c: nat
      ensures OnlySummary(events, lo, hi, c) <==> Summaries(events, lo, hi) == [c]
    {
      if OnlySummary(events, lo, hi, c) {
        SummariesOne(events, lo, hi, c);
      }
      if Summaries(events, lo, hi) == [c] {
        SummariesOnly(events, lo, hi, c);
      }
    }
  }

  lemma {:induction false} AnswersHold(events: seq<Event>, lo: nat, hi: nat, id: RequestId, x: nat)
    requires hi <= |events|
    ensures x in Answers(events, lo, hi, id) <==>
      lo <= x < hi && events[x].body.AssistantMessage? && events[x].body.id == id
  {
    if lo < hi {
      AnswersHold(events, lo, hi - 1, id, x);
      var last := if events[hi - 1].body.AssistantMessage? && events[hi - 1].body.id == id then [hi - 1] else [];
      InConcat(x, Answers(events, lo, hi - 1, id), last);
      assert Answers(events, lo, hi, id) == Answers(events, lo, hi - 1, id) + last;
      hide Answers;
    }
  }

  lemma {:induction false} NoOtherAnswers(events: seq<Event>, lo: nat, hi: nat, id: RequestId)
    requires hi <= |events|
    requires forall i :: lo <= i < hi ==> !(events[i].body.AssistantMessage? && events[i].body.id == id)
    ensures Answers(events, lo, hi, id) == []
  {
    if lo < hi {
      NoOtherAnswers(events, lo, hi - 1, id);
    }
  }

  lemma {:induction false} OneAnswer(events: seq<Event>, lo: nat, hi: nat, id: RequestId, m: nat)
    requires OnlyAnswer(events, lo, hi, id, m)
    ensures Answers(events, lo, hi, id) == [m]
  {
    if m < hi - 1 {
      OneAnswer(events, lo, hi - 1, id, m);
    } else {
      NoOtherAnswers(events, lo, m, id);
    }
  }

  lemma {:induction false} AnswersOnly(events: seq<Event>, lo: nat, hi: nat, id: RequestId, m: nat)
    requires hi <= |events| && Answers(events, lo, hi, id) == [m]
    ensures OnlyAnswer(events, lo, hi, id, m)
  {
    AnswersHold(events, lo, hi, id, m);
    forall i: nat | lo <= i < hi && events[i].body.AssistantMessage? && events[i].body.id == id
      ensures i == m
    {
      AnswersHold(events, lo, hi, id, i);
    }
    hide Answers;
  }

  lemma {:induction false} AnswersMean(events: seq<Event>, lo: nat, hi: nat, id: RequestId)
    requires hi <= |events|
    ensures forall m: nat :: OnlyAnswer(events, lo, hi, id, m) <==> Answers(events, lo, hi, id) == [m]
  {
    forall m: nat
      ensures OnlyAnswer(events, lo, hi, id, m) <==> Answers(events, lo, hi, id) == [m]
    {
      if OnlyAnswer(events, lo, hi, id, m) {
        OneAnswer(events, lo, hi, id, m);
      }
      if Answers(events, lo, hi, id) == [m] {
        AnswersOnly(events, lo, hi, id, m);
      }
    }
  }

  // One round.

  lemma {:induction false} StateMeans(events: seq<Event>, a: nat, s: Summary, prior: Option<Summary>)
    requires a < |events| && events[a].body.CompactionStart? && events[0].body.EpisodeStart?
    ensures StateOk(s, events[a].body.covered, events[0].body.start, prior) <==> Continued(events, a, s, prior)
  {
  }

  lemma {:induction false} ExchangeMeans(events: seq<Event>, a: nat, b: nat, c: nat)
    requires a < b <= |events| && c < |events| && events[c].body.CompactionSummary?
    ensures ExchangeOk(events, a, b, c) <==> Exchanged(events, a, b, c, events[c].body.summary)
  {
    var s := events[c].body.summary;
    if s.requestSeq.Some? && 0 <= s.requestSeq.value < |events| && events[s.requestSeq.value].body.ModelRequest? {
      AnswersMean(events, a, b, events[s.requestSeq.value].body.id);
    }
    hide Answers, OnlyAnswer;
    if ExchangeOk(events, a, b, c) {
      var r := s.requestSeq.value;
      var m := Answers(events, a, b, events[r].body.id)[0];
      assert Answers(events, a, b, events[r].body.id) == [m];
      assert ExchangedBy(events, a, b, c, s, r, m, events[r].body.id.name);
    }
    if Exchanged(events, a, b, c, s) {
      var r: nat, m: nat, name :| ExchangedBy(events, a, b, c, s, r, m, name);
      assert Answers(events, a, b, Named(name)) == [m];
    }
  }

  lemma {:induction false} SummaryMeans(events: seq<Event>, a: nat, b: nat, c: nat, prior: Option<Summary>)
    requires a < b <= |events| && events[a].body.CompactionStart? && events[0].body.EpisodeStart?
    requires c < |events| && events[c].body.CompactionSummary?
    ensures SummaryOk(events, events[0].body.start, a, b, c, prior) <==> SummarySound(events, a, b, c, prior)
  {
    var s := events[c].body.summary;
    StateMeans(events, a, s, prior);
    ExchangeMeans(events, a, b, c);
    FilesMean(events, events[a].body.covered, Carried(prior), s.files);
    hide StateOk, Continued, ExchangeOk, Exchanged, CompactedFiles, FilesSound;
  }

  /** The round meets its checks and those on its summary, given the summary before it. */
  ghost predicate Checked(events: seq<Event>, a: nat, b: nat, before: Option<Summary>)
    requires |events| > 0 && events[0].body.EpisodeStart?
  {
    exists e: nat :: OnlyEnd(events, a, b, e) &&
      if events[e].body.ok
      then exists c: nat :: OnlySummary(events, a, b, c) && a < |events| && events[a].body.CompactionStart? &&
             SummarySound(events, a, b, c, before)
      else forall i :: a <= i < b && i < |events| ==> !events[i].body.CompactionSummary?
  }

  lemma {:induction false} SucceedsMeans(events: seq<Event>, a: nat, b: nat, c: nat)
    requires SpansRound(events, a, b)
    ensures RecordsAt(events, a, b, c) <==> Succeeds(events, a, b) && Summaries(events, a, b) == [c]
  {
    EndsMean(events, a, b);
    SummariesMean(events, a, b);
    hide Ends, Summaries, OnlyEnd, OnlySummary, SpansRound;
    if Succeeds(events, a, b) {
      var e := Ends(events, a, b)[0];
      assert Ends(events, a, b) == [e];
      assert OnlyEnd(events, a, b, e);
    }
  }

  lemma {:induction false} OkIsChecked(events: seq<Event>, a: nat, b: nat, before: Option<Summary>)
    requires a < b <= |events| && events[a].body.CompactionStart? && events[0].body.EpisodeStart?
    requires RoundOk(events, events[0].body.start, a, b, before)
    ensures Checked(events, a, b, before)
  {
    EndsMean(events, a, b);
    SummariesMean(events, a, b);
    hide Ends, Summaries, OnlyEnd, OnlySummary, SummaryOk, SummarySound;
    var e := Ends(events, a, b)[0];
    assert Ends(events, a, b) == [e];
    assert OnlyEnd(events, a, b, e);
    if events[e].body.ok {
      var c := Summaries(events, a, b)[0];
      assert Summaries(events, a, b) == [c];
      SummaryMeans(events, a, b, c, before);
      assert OnlySummary(events, a, b, c);
    } else {
      assert Summaries(events, a, b) == [];
    }
  }

  lemma {:induction false} CheckedIsOk(events: seq<Event>, a: nat, b: nat, before: Option<Summary>)
    requires a < b <= |events| && events[a].body.CompactionStart? && events[0].body.EpisodeStart?
    requires Checked(events, a, b, before)
    ensures RoundOk(events, events[0].body.start, a, b, before)
  {
    EndsMean(events, a, b);
    SummariesMean(events, a, b);
    hide Ends, Summaries, OnlyEnd, OnlySummary, SummaryOk, SummarySound;
    var e: nat :| OnlyEnd(events, a, b, e) &&
      if events[e].body.ok
      then exists c: nat :: OnlySummary(events, a, b, c) && a < |events| && events[a].body.CompactionStart? &&
             SummarySound(events, a, b, c, before)
      else forall i :: a <= i < b && i < |events| ==> !events[i].body.CompactionSummary?;
    assert Ends(events, a, b) == [e];
    if events[e].body.ok {
      var c: nat :| OnlySummary(events, a, b, c) && SummarySound(events, a, b, c, before);
      assert Summaries(events, a, b) == [c];
      SummaryMeans(events, a, b, c, before);
    }
  }

  lemma {:induction false} RoundMeans(events: seq<Event>, a: nat, b: nat, before: Option<Summary>)
    requires a < b <= |events| && events[a].body.CompactionStart? && events[0].body.EpisodeStart?
    ensures RoundOk(events, events[0].body.start, a, b, before) <==> Checked(events, a, b, before)
  {
    hide RoundOk, Checked;
    if RoundOk(events, events[0].body.start, a, b, before) {
      OkIsChecked(events, a, b, before);
    }
    if Checked(events, a, b, before) {
      CheckedIsOk(events, a, b, before);
    }
  }

  // All rounds.

  lemma {:induction false} StartsHold(events: seq<Event>, x: nat)
    ensures x in Starts(events) <==> x < |events| && events[x].body.CompactionStart?
  {
    if |events| > 0 {
      StartsHold(events[..|events| - 1], x);
    }
  }

  lemma {:induction false} StartsOrder(events: seq<Event>, n: nat, m: nat)
    requires n < |Starts(events)| && m < |Starts(events)| && Starts(events)[n] < Starts(events)[m]
    ensures n < m
  {
    StartsAscend(events);
  }

  lemma {:induction false} RoundsAre(events: seq<Event>, n: nat)
    requires n < |Starts(events)|
    ensures SpansRound(events, Starts(events)[n], RoundEnd(events, Starts(events), n))
  {
    StartsAscend(events);
    var starts := Starts(events);
    var a, b := starts[n], RoundEnd(events, starts, n);
    forall i: nat | a < i && i in starts
      ensures b <= i
    {
      var m :| 0 <= m < |starts| && starts[m] == i;
      StartsOrder(events, n, m);
    }
    forall i: nat
      ensures i in starts <==> i < |events| && events[i].body.CompactionStart?
    {
      StartsHold(events, i);
    }
    hide Starts;
  }

  lemma {:induction false} RoundFrom(events: seq<Event>, a: nat, b: nat) returns (n: nat)
    requires SpansRound(events, a, b)
    ensures n < |Starts(events)| && a == Starts(events)[n] && b == RoundEnd(events, Starts(events), n)
  {
    StartsHold(events, a);
    var starts := Starts(events);
    n :| 0 <= n < |starts| && starts[n] == a;
    RoundsAre(events, n);
    RoundEndsOnce(events, a, b, RoundEnd(events, starts, n));
  }

  lemma {:induction false} RoundEndsOnce(events: seq<Event>, a: nat, b: nat, c: nat)
    requires SpansRound(events, a, b) && SpansRound(events, a, c)
    ensures b == c
  {
  }

  /** The first event of round `n`, or the end of the log when there are no more rounds. */
  function Begins(events: seq<Event>, n: nat): nat
    requires n <= |Starts(events)|
  {
    if n < |Starts(events)| then Starts(events)[n] else |events|
  }

  lemma {:induction false} NothingCarried(events: seq<Event>)
    ensures PriorAt(events, Begins(events, 0), None) && Last(Successes(events, 0)) == None
  {
    StartsAscend(events);
    forall lo: nat, hi: nat, c: nat | RecordsAt(events, lo, hi, c)
      ensures Begins(events, 0) <= lo
    {
      var m := RoundFrom(events, lo, hi);
    }
  }

  lemma {:induction false} BeginsAre(events: seq<Event>, n: nat)
    requires n < |Starts(events)|
    ensures Begins(events, n) == Starts(events)[n] < RoundEnd(events, Starts(events), n) == Begins(events, n + 1)
  {
    StartsAscend(events);
    hide Starts;
  }

  lemma {:induction false} LastSnoc(summaries: seq<Summary>, s: Summary)
    ensures Last(summaries + [s]) == Some(s)
  {
  }

  lemma {:induction false} CarriedStep(events: seq<Event>, n: nat, before: Option<nat>) returns (prior: Option<nat>)
    requires n < |Starts(events)|
    requires PriorAt(events, Begins(events, n), before)
    requires SummaryAt(events, before) == Last(Successes(events, n))
    ensures PriorAt(events, Begins(events, n + 1), prior)
    ensures SummaryAt(events, prior) == Last(Successes(events, n + 1))
  {
    hide *;
    var lo, hi := Starts(events)[n], RoundEnd(events, Starts(events), n);
    BeginsAre(events, n);
    RoundsAre(events, n);
    SuccessesStep(events, n);
    if Succeeds(events, lo, hi) {
      prior := CarriedRecorded(events, n + 1, lo, hi);
      LastSnoc(Successes(events, n), SummaryOf(events, lo, hi));
    } else {
      prior := before;
      PriorSkips(events, n + 1, lo, hi, before);
    }
  }

  /** The summary the check carries into round `n` is that of the last round before it that records one. */
  lemma {:induction false} CarriedIs(events: seq<Event>, n: nat) returns (prior: Option<nat>)
    requires n <= |Starts(events)|
    ensures PriorAt(events, Begins(events, n), prior) && SummaryAt(events, prior) == Last(Successes(events, n))
  {
    hide *;
    if n == 0 {
      prior := None;
      NothingCarried(events);
      NoSummaryAt(events);
    } else {
      var before := CarriedIs(events, n - 1);
      prior := CarriedStep(events, n - 1, before);
    }
  }

  lemma {:induction false} NoSummaryAt(events: seq<Event>)
    ensures SummaryAt(events, None) == None
  {
  }

  lemma {:induction false} CarriedRecorded(events: seq<Event>, n: nat, lo: nat, hi: nat) returns (prior: Option<nat>)
    requires 0 < n <= |Starts(events)| && lo == Starts(events)[n - 1] && hi == RoundEnd(events, Starts(events), n - 1)
    requires Succeeds(events, lo, hi) && SpansRound(events, lo, hi)
    ensures PriorAt(events, hi, prior) && SummaryAt(events, prior) == Some(SummaryOf(events, lo, hi))
    ensures prior.Some? && prior.value < hi
  {
    hide Starts, SpansRound, PriorAt, RecordsAt;
    var c := Summaries(events, lo, hi)[0];
    assert Summaries(events, lo, hi) == [c];
    SucceedsMeans(events, lo, hi, c);
    prior := Some(c);
    PriorRecorded(events, n, lo, hi, c);
  }

  lemma {:induction false} PriorRecorded(events: seq<Event>, n: nat, lo: nat, hi: nat, c: nat)
    requires 0 < n <= |Starts(events)| && lo == Starts(events)[n - 1] && hi == RoundEnd(events, Starts(events), n - 1)
    requires RecordsAt(events, lo, hi, c)
    ensures PriorAt(events, hi, Some(c)) && c < hi
  {
    StartsAscend(events);
    hide Starts, OnlyEnd;
    forall x: nat, y: nat, d: nat | RecordsAt(events, x, y, d) && x < hi
      ensures d <= c
    {
      var m := RoundFrom(events, x, y);
      RoundBefore(events, m, n - 1);
    }
  }

  /** Of two rounds the earlier one ends before the later one begins. */
  lemma {:induction false} RoundBefore(events: seq<Event>, m: nat, n: nat)
    requires m < |Starts(events)| && n < |Starts(events)|
    ensures var starts := Starts(events);
      && (m < n ==> RoundEnd(events, starts, m) <= starts[n])
      && (n < m ==> RoundEnd(events, starts, n) <= starts[m])
  {
    StartsAscend(events);
  }

  lemma {:induction false} PriorSkips(events: seq<Event>, n: nat, lo: nat, hi: nat, before: Option<nat>)
    requires 0 < n <= |Starts(events)| && lo == Starts(events)[n - 1] && hi == RoundEnd(events, Starts(events), n - 1)
    requires PriorAt(events, lo, before) && !Succeeds(events, lo, hi) && lo < hi
    ensures PriorAt(events, hi, before)
  {
    StartsAscend(events);
    RoundsAre(events, n - 1);
    forall x: nat, y: nat, d: nat | RecordsAt(events, x, y, d) && x < hi
      ensures x < lo
    {
      var m := RoundFrom(events, x, y);
      RoundBefore(events, m, n - 1);
      if m == n - 1 {
        SucceedsMeans(events, lo, hi, d);
      }
    }
    hide RecordsAt, Starts, Succeeds;
  }

  lemma {:induction false} PriorOnce(events: seq<Event>, a: nat, p: Option<nat>, q: Option<nat>)
    requires PriorAt(events, a, p) && PriorAt(events, a, q)
    ensures p == q
  {
    hide RecordsAt;
  }

  lemma {:induction false} CheckedIsSound(events: seq<Event>, n: nat)
    requires n < |Starts(events)| && |events| > 0 && events[0].body.EpisodeStart?
    ensures var a, b := Starts(events)[n], RoundEnd(events, Starts(events), n);
      Checked(events, a, b, Last(Successes(events, n))) <==> RoundSound(events, a, b)
  {
    var a, b := Starts(events)[n], RoundEnd(events, Starts(events), n);
    var prior := CarriedIs(events, n);
    assert Begins(events, n) == a;
    forall other | PriorAt(events, a, other)
      ensures other == prior
    {
      PriorOnce(events, a, other, prior);
    }
    hide PriorAt, OnlyEnd, OnlySummary, SummarySound, Successes, Starts;
  }

  ghost predicate AllSound(events: seq<Event>, n: nat)
    requires n <= |Starts(events)| && |events| > 0 && events[0].body.EpisodeStart?
  {
    forall m: nat :: m < n ==> RoundSound(events, Starts(events)[m], RoundEnd(events, Starts(events), m))
  }

  lemma {:induction false} AllSoundStep(events: seq<Event>, n: nat)
    requires n < |Starts(events)| && |events| > 0 && events[0].body.EpisodeStart?
    ensures AllSound(events, n + 1) <==>
      AllSound(events, n) && RoundSound(events, Starts(events)[n], RoundEnd(events, Starts(events), n))
    ensures AllSound(events, 0)
  {
    hide RoundSound, Starts, RoundEnd;
  }

  lemma {:induction false} RoundsStep(events: seq<Event>, start: Start, n: nat)
    requires n < |Starts(events)|
    ensures var lo, hi := Starts(events)[n], RoundEnd(events, Starts(events), n);
      RoundsOk(events, start, n + 1) <==>
        RoundsOk(events, start, n) && lo < hi && RoundOk(events, start, lo, hi, Last(Successes(events, n)))
    ensures RoundsOk(events, start, 0)
  {
    hide RoundOk, Successes, Starts, RoundEnd;
  }

  lemma {:induction false} RoundsMean(events: seq<Event>, n: nat)
    requires n <= |Starts(events)| && |events| > 0 && events[0].body.EpisodeStart?
    ensures RoundsOk(events, events[0].body.start, n) <==> AllSound(events, n)
  {
    if n > 0 {
      RoundsAre(events, n - 1);
      var lo, hi := Starts(events)[n - 1], RoundEnd(events, Starts(events), n - 1);
      assert lo < hi && events[lo].body.CompactionStart?;
      hide *;
      RoundsMean(events, n - 1);
      RoundsStep(events, events[0].body.start, n - 1);
      AllSoundStep(events, n - 1);
      CheckedIsSound(events, n - 1);
      RoundMeans(events, lo, hi, Last(Successes(events, n - 1)));
    } else {
      hide Starts;
    }
  }

  lemma {:induction false} AllRoundsSound(events: seq<Event>)
    requires |events| > 0 && events[0].body.EpisodeStart?
    ensures AllSound(events, |Starts(events)|) <==>
      forall a: nat, b: nat :: SpansRound(events, a, b) ==> RoundSound(events, a, b)
  {
    hide RoundSound, Starts, SpansRound, RoundEnd;
    if AllSound(events, |Starts(events)|) {
      forall a: nat, b: nat | SpansRound(events, a, b)
        ensures RoundSound(events, a, b)
      {
        var m := RoundFrom(events, a, b);
      }
    }
    if forall a: nat, b: nat :: SpansRound(events, a, b) ==> RoundSound(events, a, b) {
      forall m: nat | m < |Starts(events)|
        ensures RoundSound(events, Starts(events)[m], RoundEnd(events, Starts(events), m))
      {
        RoundsAre(events, m);
      }
    }
  }

  /** The compaction check passes over a log exactly when every round of it is sound. */
  lemma {:induction false} ContinuousMeans(log: Log)
    ensures Continuous(log) <==> Sound(log.events)
  {
    var events := log.events;
    forall i | 0 <= i < |events|
      ensures Compacts(events[i]) <==> OfCompaction(events[i].body)
    {
    }
    if |events| > 0 && events[0].body.EpisodeStart? {
      RoundsMean(events, |Starts(events)|);
      AllRoundsSound(events);
      hide RoundsOk, Starts, AllSound, RoundSound, SpansRound;
    }
  }
}
