/**
 * The second account of an episode: the model calls a trajectory keeps,
 * with the tokens of the message that answered each.
 */
module Accounts {
  import opened Prelude
  import opened EpisodeLog
  import opened BudgetCheck
  import EvidenceCheck

  /** `started` and `ended` are the positions of the events whose times the call keeps. */
  datatype ModelCall = ModelCall(
    seqNo: Option<int>, started: nat, ended: Option<nat>, input: Option<int>, output: Option<int>)
  {
    predicate HasUsage() {
      input.Some? && output.Some?
    }
  }

  /** `str` of the field: an absent or null id is the text None. */
  function Key(id: RequestId): string {
    if id.Named? then id.name else "None"
  }

  /** A boolean is no count here, where the trace checker counts it. */
  function WholeOrNone(c: Count): Option<int> {
    if c.Whole? then Some(c.n) else None
  }

  function Answered(call: ModelCall, i: nat, usage: Option<Usage>): ModelCall {
    match usage
    case Some(u) => call.(ended := Some(i), input := WholeOrNone(u.input), output := WholeOrNone(u.output))
    case None => call.(ended := Some(i), input := None, output := None)
  }

  /** The calls so far, and for each id the place of the latest call with it that no message has answered. */
  datatype Open = Open(calls: seq<ModelCall>, byId: map<string, nat>)

  ghost predicate OpenOk(o: Open) {
    && (forall id :: id in o.byId ==> o.byId[id] < |o.calls| && o.calls[o.byId[id]].ended == None)
    && (forall id, other :: id in o.byId && other in o.byId && o.byId[id] == o.byId[other] ==> id == other)
    && (forall c :: 0 <= c < |o.calls| && o.calls[c].ended == None ==>
      o.calls[c].input == None && o.calls[c].output == None)
  }

  function Follow(o: Open, e: Event, i: nat): (r: Open)
    requires OpenOk(o)
    ensures OpenOk(r)
  {
    match e.body
    case ModelRequest(id, _, _, _) =>
      Open(o.calls + [ModelCall(e.seqNo, i, None, None, None)], o.byId[Key(id) := |o.calls|])
    case AssistantMessage(id, _, _, _, usage) =>
      if Key(id) in o.byId then
        var c := o.byId[Key(id)];
        Open(o.calls[c := Answered(o.calls[c], i, usage)], o.byId - {Key(id)})
      else o
    case _ => o
  }

  function Followed(events: seq<Event>): (r: Open)
    ensures OpenOk(r)
  {
    if |events| == 0 then Open([], map[]) else
      Follow(Followed(events[..|events| - 1]), events[|events| - 1], |events| - 1)
  }

  lemma {:induction false} FollowedStep(events: seq<Event>, i: nat)
    requires i < |events|
    ensures Followed(events[..i + 1]) == Follow(Followed(events[..i]), events[i], i)
  {
    assert events[..i + 1][..i] == events[..i];
  }

  method ModelCallsOf(events: seq<Event>) returns (calls: seq<ModelCall>)
    ensures calls == Followed(events).calls
  {
    hide OpenOk, Followed;
    calls := [];
    var openById: map<string, nat> := map[];
    FollowedNone(events);
    for i := 0 to |events|
      invariant Open(calls, openById) == Followed(events[..i])
    {
      FollowedStep(events, i);
      OpenAt(Open(calls, openById));
      match events[i].body {
        case ModelRequest(id, _, _, _) =>
          openById := openById[Key(id) := |calls|];
          calls := calls + [ModelCall(events[i].seqNo, i, None, None, None)];
        case AssistantMessage(id, _, _, _, usage) =>
          if Key(id) in openById {
            var call := openById[Key(id)];
            openById := openById - {Key(id)};
            calls := calls[call := Answered(calls[call], i, usage)];
          }
        case _ =>
      }
    }
    assert events[..|events|] == events;
  }

  lemma {:induction false} FollowedNone(events: seq<Event>)
    ensures Followed(events[..0]) == Open([], map[])
  {
  }

  lemma {:induction false} OpenAt(o: Open)
    requires OpenOk(o)
    ensures forall id :: id in o.byId ==> o.byId[id] < |o.calls|
  {
  }

  // What a list of calls adds up to.

  /** A call counts one, and its tokens when the message that answered it stated them. */
  function Tokens(call: ModelCall, d: Dim): Option<int> {
    match d
    case Calls => Some(1)
    case Input => call.input
    case Output => call.output
  }

  /** The sum, or None as soon as one value is missing. */
  function SumAll(values: seq<Option<int>>): Option<int> {
    if |values| == 0 then Some(0) else
      var before, last := SumAll(values[..|values| - 1]), values[|values| - 1];
      if before.Some? && last.Some? then Some(before.value + last.value) else None
  }

  method SumOrNone(values: seq<Option<int>>) returns (total: Option<int>)
    ensures total == SumAll(values)
  {
    var sum := 0;
    for i := 0 to |values|
      invariant SumAll(values[..i]) == Some(sum)
    {
      assert values[..i + 1][..i] == values[..i];
      if values[i].None? {
        SumAllNone(values, i);
        return None;
      }
      sum := sum + values[i].value;
    }
    assert values[..|values|] == values;
    return Some(sum);
  }

  lemma {:induction false} SumAllNone(values: seq<Option<int>>, i: nat)
    requires i < |values| && values[i] == None
    ensures SumAll(values) == None
  {
    if i < |values| - 1 {
      SumAllNone(values[..|values| - 1], i);
    }
  }

  function Values(calls: seq<ModelCall>, d: Dim): seq<Option<int>> {
    seq(|calls|, i requires 0 <= i < |calls| => Tokens(calls[i], d))
  }

  /** The stated values alone. */
  function Known(calls: seq<ModelCall>, d: Dim): int {
    if |calls| == 0 then 0 else Known(calls[..|calls| - 1], d) + Tokens(calls[|calls| - 1], d).GetOr(0)
  }

  /** A total is stated exactly when every call has the count, and is then their sum. */
  lemma {:induction false} TotalStated(calls: seq<ModelCall>, d: Dim)
    ensures SumAll(Values(calls, d)).Some? <==> forall c :: 0 <= c < |calls| ==> Tokens(calls[c], d).Some?
    ensures SumAll(Values(calls, d)).Some? ==> SumAll(Values(calls, d)).value == Known(calls, d)
  {
    if |calls| > 0 {
      TotalStated(calls[..|calls| - 1], d);
      assert Values(calls, d)[..|calls| - 1] == Values(calls[..|calls| - 1], d);
    }
  }

  lemma {:induction false} KnownConcat(calls: seq<ModelCall>, more: seq<ModelCall>, d: Dim)
    ensures Known(calls + more, d) == Known(calls, d) + Known(more, d)
  {
    if |more| == 0 {
      assert calls + more == calls;
    } else {
      assert (calls + more)[..|calls + more| - 1] == calls + more[..|more| - 1];
      KnownConcat(calls, more[..|more| - 1], d);
    }
  }

  lemma {:induction false} KnownUpdate(calls: seq<ModelCall>, c: nat, call: ModelCall, d: Dim)
    requires c < |calls|
    ensures Known(calls[c := call], d) == Known(calls, d) - Tokens(calls[c], d).GetOr(0) + Tokens(call, d).GetOr(0)
  {
    if c < |calls| - 1 {
      assert calls[c := call][..|calls| - 1] == calls[..|calls| - 1][c := call];
      KnownUpdate(calls[..|calls| - 1], c, call, d);
    } else {
      assert calls[c := call][..|calls| - 1] == calls[..|calls| - 1];
    }
  }

  // The two accounts of one log.

  predicate Drops(o: Open, body: Body) {
    body.AssistantMessage? && Key(body.id) !in o.byId
  }

  /** What the messages that answer no open request state: the trajectory leaves it out. */
  function Dropped(events: seq<Event>): Spend {
    if |events| == 0 then NoSpend else
      var before, body := events[..|events| - 1], events[|events| - 1].body;
      if Drops(Followed(before), body) then Dropped(before).Plus(SpendOf(body)) else Dropped(before)
  }

  /** Every call that a message answered has the count. */
  ghost predicate Complete(calls: seq<ModelCall>, d: Dim) {
    forall c :: 0 <= c < |calls| && calls[c].ended.Some? ==> Tokens(calls[c], d).Some?
  }

  /** An answered call keeps its count for good. */
  lemma {:induction false} CompleteBefore(o: Open, e: Event, i: nat, d: Dim)
    requires OpenOk(o) && Complete(Follow(o, e, i).calls, d)
    ensures Complete(o.calls, d)
  {
    var r := Follow(o, e, i);
    forall c | 0 <= c < |o.calls| && o.calls[c].ended.Some?
      ensures Tokens(o.calls[c], d).Some?
    {
      assert r.calls[c] == o.calls[c];
    }
  }

  /** A message that states the count adds it to the call it answers. */
  lemma {:induction false} AnswerTokens(call: ModelCall, i: nat, body: Body, d: Dim)
    requires body.AssistantMessage? && call.input == None && call.output == None
    requires Tokens(Answered(call, i, body.usage), d).Some?
    ensures Tokens(Answered(call, i, body.usage), d).value == Tokens(call, d).GetOr(0) + SpendOf(body).Get(d)
  {
    match d case Calls => case Input => case Output =>
  }

  lemma {:induction false} KnownSnoc(calls: seq<ModelCall>, call: ModelCall, d: Dim)
    ensures Known(calls + [call], d) == Known(calls, d) + Tokens(call, d).GetOr(0)
  {
    assert (calls + [call])[..|calls|] == calls;
  }

  lemma {:induction false} AnswerCounts(o: Open, e: Event, i: nat, d: Dim)
    requires OpenOk(o) && Complete(Follow(o, e, i).calls, d)
    requires e.body.AssistantMessage? && Key(e.body.id) in o.byId
    ensures Known(Follow(o, e, i).calls, d) == Known(o.calls, d) + SpendOf(e.body).Get(d)
  {
    var c := o.byId[Key(e.body.id)];
    var call := Answered(o.calls[c], i, e.body.usage);
    assert Follow(o, e, i).calls == o.calls[c := call] && o.calls[c := call][c] == call;
    hide Known, SpendOf, OpenOk, Follow, Tokens;
    KnownUpdate(o.calls, c, call, d);
    AnswerTokens(o.calls[c], i, e.body, d);
  }

  lemma {:induction false} FollowCounts(o: Open, e: Event, i: nat, d: Dim)
    requires OpenOk(o) && Complete(Follow(o, e, i).calls, d)
    ensures Known(Follow(o, e, i).calls, d)
        == Known(o.calls, d) + if Drops(o, e.body) then 0 else SpendOf(e.body).Get(d)
  {
    hide Known, Complete, OpenOk;
    match e.body
    case ModelRequest(id, _, _, _) =>
      KnownSnoc(o.calls, ModelCall(e.seqNo, i, None, None, None), d);
    case AssistantMessage(id, _, _, _, usage) =>
      if Key(id) in o.byId {
        AnswerCounts(o, e, i, d);
      }
    case _ =>
  }

  /**
   * When every answered call has the count, the calls account for all that the log spends but what messages that
   * answer no open request state.
   */
  lemma {:induction false} CallsAccount(events: seq<Event>, d: Dim)
    requires Complete(Followed(events).calls, d)
    ensures Own(events).Get(d) == Known(Followed(events).calls, d) + Dropped(events).Get(d)
  {
    if |events| > 0 {
      var before, last := events[..|events| - 1], events[|events| - 1];
      hide Known, Follow, Complete, Drops, SpendOf;
      CompleteBefore(Followed(before), last, |events| - 1, d);
      CallsAccount(before, d);
      FollowCounts(Followed(before), last, |events| - 1, d);
    }
  }

  /** No message states a call, so the number of calls is the same in both accounts. */
  lemma {:induction false} DroppedCalls(events: seq<Event>)
    ensures Dropped(events).calls == 0
  {
    if |events| > 0 {
      DroppedCalls(events[..|events| - 1]);
    }
  }

  // What the account of an accepted log leaves out.

  ghost function AnsweredIds(events: seq<Event>): set<string> {
    if |events| == 0 then {} else
      var before, body := AnsweredIds(events[..|events| - 1]), events[|events| - 1].body;
      if body.AssistantMessage? then before + {Key(body.id)} else before
  }

  predicate RepliesTo(events: seq<Event>, i: nat, id: string) {
    i < |events| && events[i].body.AssistantMessage? && Key(events[i].body.id) == id
  }

  lemma {:induction false} AnsweredIdsAre(events: seq<Event>, n: nat, id: string)
    requires n <= |events|
    ensures id in AnsweredIds(events[..n]) <==> exists i: nat :: i < n && RepliesTo(events, i, id)
  {
    if n > 0 {
      AnsweredIdsAre(events, n - 1, id);
      assert events[..n][..n - 1] == events[..n - 1];
      assert id in AnsweredIds(events[..n]) <==> id in AnsweredIds(events[..n - 1]) || RepliesTo(events, n - 1, id);
    }
  }

  /** The ids still open are those requested and not yet answered. */
  ghost predicate OpenIs(events: seq<Event>) {
    && AnsweredIds(events) <= EvidenceCheck.RequestIds(events).Keys
    && Followed(events).byId.Keys == EvidenceCheck.RequestIds(events).Keys - AnsweredIds(events)
  }

  lemma {:induction false} AcceptedOpens(events: seq<Event>, n: nat)
    requires n <= |events| && EvidenceCheck.EventsOk(events, n)
    ensures OpenIs(events[..n])
  {
    if n > 0 {
      AcceptedOpens(events, n - 1);
      assert events[..n][..n - 1] == events[..n - 1] && events[..n][n - 1] == events[n - 1];
      assert EvidenceCheck.EventOk(events, n - 1);
      OpensStep(events[..n]);
    }
  }

  lemma {:induction false} OpensStep(events: seq<Event>)
    requires |events| > 0 && OpenIs(events[..|events| - 1])
    requires var ids, body := EvidenceCheck.RequestIds(events[..|events| - 1]), events[|events| - 1].body;
      && (body.ModelRequest? ==> body.id.Named? && body.id.name !in ids)
      && (body.AssistantMessage? ==> body.id.Named? && body.id.name in ids)
    ensures OpenIs(events)
  {
    hide OpenOk;
  }

  /** In an accepted log the account leaves a message out exactly when an earlier message answered the same request. */
  lemma {:induction false} DropsWhen(events: seq<Event>, i: nat)
    requires EvidenceCheck.Conforms(events) && i < |events| && events[i].body.AssistantMessage?
    ensures Drops(Followed(events[..i]), events[i].body)
        <==> exists j: nat :: j < i && RepliesTo(events, j, Key(events[i].body.id))
  {
    EvidenceCheck.EventAt(events, |events|, i);
    EventsBefore(events, |events|, i);
    AcceptedOpens(events, i);
    AnsweredIdsAre(events, i, Key(events[i].body.id));
  }

  lemma {:induction false} EventsBefore(events: seq<Event>, n: nat, i: nat)
    requires i <= n <= |events| && EvidenceCheck.EventsOk(events, n)
    ensures EvidenceCheck.EventsOk(events, i)
  {
    if i < n {
      EventsBefore(events, n - 1, i);
    }
  }

  /** No two messages answer the same request. */
  ghost predicate AnsweredOnce(events: seq<Event>) {
    forall i: nat, j: nat, id :: i < j && RepliesTo(events, i, id) ==> !RepliesTo(events, j, id)
  }

  /** The account of an accepted log leaves nothing out when no request is answered twice. */
  lemma {:induction false} AcceptedDropsNothing(events: seq<Event>, n: nat)
    requires EvidenceCheck.Conforms(events) && AnsweredOnce(events) && n <= |events|
    ensures Dropped(events[..n]) == NoSpend
  {
    if n > 0 {
      AcceptedDropsNothing(events, n - 1);
      assert events[..n][..n - 1] == events[..n - 1];
      hide AnsweredOnce, EvidenceCheck.Conforms, Followed, RepliesTo;
      if Drops(Followed(events[..n - 1]), events[n - 1].body) {
        DropsWhen(events, n - 1);
        NotAnsweredBefore(events, n - 1);
      }
    }
  }

  lemma {:induction false} NotAnsweredBefore(events: seq<Event>, i: nat)
    requires AnsweredOnce(events) && i < |events| && events[i].body.AssistantMessage?
    ensures !exists j: nat :: j < i && RepliesTo(events, j, Key(events[i].body.id))
  {
    assert RepliesTo(events, i, Key(events[i].body.id));
  }
}
