/** The reconstructable-evidence check over one log, and what its acceptance says of the whole run. */
module EvidenceCheck {
  import opened Prelude
  import opened EpisodeLog
  import opened Evaluations
  import opened Pairing
  import opened Messages

  function LatestHeader(events: seq<Event>): Option<int> {
    if |events| == 0 then None else
      if events[|events| - 1].body.RequestHeader? then Some(|events| - 1) else LatestHeader(events[..|events| - 1])
  }

  function RequestIds(events: seq<Event>): map<string, nat> {
    if |events| == 0 then map[] else
      var ids, e := RequestIds(events[..|events| - 1]), events[|events| - 1];
      if e.body.ModelRequest? && e.body.id.Named? then ids[e.body.id.name := |events| - 1] else ids
  }

  function Numbers(consumed: seq<Option<int>>): set<int> {
    set k | 0 <= k < |consumed| && consumed[k].Some? :: consumed[k].value
  }

  function ConsumedBy(events: seq<Event>): set<int> {
    if |events| == 0 then {} else
      var before, e := ConsumedBy(events[..|events| - 1]), events[|events| - 1];
      if e.body.ModelRequest? && e.body.consumed.Some? then before + Numbers(e.body.consumed.value) else before
  }

  /** Where a list index points: a negative one counts from the end, and one out of range raises. */
  function Position(length: nat, s: int): (p: Option<int>)
    ensures p.Some? ==> 0 <= p.value < length
  {
    if 0 <= s < length then Some(s) else if 0 - length <= s < 0 then Some(length + s) else None
  }

  predicate NamesInboxItem(events: seq<Event>, s: int) {
    Position(|events|, s).Some? && events[Position(|events|, s).value].body.InboxItem?
  }

  ghost predicate ConsumedOk(events: seq<Event>, index: nat, before: set<int>, consumed: seq<Option<int>>) {
    forall k :: 0 <= k < |consumed| ==>
      && consumed[k].Some?
      && consumed[k].value < index
      && consumed[k].value !in before + Numbers(consumed[..k])
      && NamesInboxItem(events, consumed[k].value)
  }

  predicate NamesRequest(events: seq<Event>, index: nat, id: RequestId)
    requires index <= |events|
  {
    id.Named? && id.name in RequestIds(events[..index])
  }

  predicate MessagesOk(events: seq<Event>, i: nat)
    requires i < |events| && events[i].body.ModelRequest?
  {
    var body := events[i].body;
    body.id.Named? && !IsSummarization(body.id.name) ==> body.messages == Derive(events, i)
  }

  ghost predicate ConsumptionOk(events: seq<Event>, i: nat, before: set<int>)
    requires i < |events| && events[i].body.ModelRequest?
  {
    events[i].body.consumed.Some? && ConsumedOk(events, i, before, events[i].body.consumed.value)
  }

  ghost predicate RequestOk(events: seq<Event>, i: nat)
    requires i < |events| && events[i].body.ModelRequest?
  {
    var body := events[i].body;
    && body.id.Named?
    && body.id.name !in RequestIds(events[..i])
    && body.headerSeq == LatestHeader(events[..i])
    && ConsumptionOk(events, i, ConsumedBy(events[..i]))
    && MessagesOk(events, i)
  }

  ghost predicate EventOk(events: seq<Event>, i: nat)
    requires i < |events|
  {
    match events[i].body
    case ModelRequest(_, _, _, _) => RequestOk(events, i)
    case AssistantMessage(id, _, _, _, _) => NamesRequest(events, i, id)
    case AssistantChunk(id) => NamesRequest(events, i, id)
    case _ => true
  }

  ghost predicate EventsOk(events: seq<Event>, n: nat)
    requires n <= |events|
  {
    n == 0 || (EventsOk(events, n - 1) && EventOk(events, n - 1))
  }

  lemma {:induction false} EventAt(events: seq<Event>, n: nat, i: nat)
    requires i < n <= |events| && EventsOk(events, n)
    ensures EventOk(events, i)
  {
    if i < n - 1 {
      EventAt(events, n - 1, i);
    }
  }

  ghost predicate Enveloped(events: seq<Event>) {
    forall i :: 0 <= i < |events| ==> events[i].enveloped
  }

  ghost predicate Bracketed(events: seq<Event>) {
    && (forall i :: 0 <= i < |events| ==> (events[i].body.EpisodeStart? <==> i == 0))
    && (forall i :: 0 <= i < |events| ==> (events[i].body.EpisodeEnd? <==> i == |events| - 1))
  }

  /** What an accepted log is, without reference to the order in which the checker finds it out. */
  ghost predicate Conforms(events: seq<Event>) {
    && |events| > 0
    && Contiguous(events)
    && Enveloped(events)
    && Bracketed(events)
    && EventsOk(events, |events|)
    && TwoPass(Ops(events))
  }

  // The checker.

  method CheckEnvelopes(eval: Evaluation, log: Log)
    requires eval.Valid()
    modifies eval
    ensures eval.Valid()
    ensures eval.Clean() <==> old(eval.Clean()) && Contiguous(log.events) && Enveloped(log.events)
  {
    hide Evaluation.Valid, Evaluation.Clean;
    for i := 0 to |log.events|
      invariant eval.Valid()
      invariant eval.Clean() <==>
        old(eval.Clean()) && forall k :: 0 <= k < i ==> log.events[k].seqNo == Some(k) && log.events[k].enveloped
    {
      eval.Check(Evidence, log.events[i].seqNo == Some(i), log.EpisodeId(), Some(i));
      eval.Check(Evidence, log.events[i].enveloped, log.EpisodeId(), Some(i));
    }
  }

  method CheckBrackets(eval: Evaluation, log: Log)
    requires eval.Valid() && |log.events| > 0
    modifies eval
    ensures eval.Valid()
    ensures eval.Clean() <==> old(eval.Clean()) && Bracketed(log.events)
  {
    hide Evaluation.Valid, Evaluation.Clean;
    var events := log.events;
    var n := |events| - 1;
    var starts, ends := 0, 0;
    for i := 0 to |events|
      invariant 0 <= starts <= i && 0 <= ends <= i
      invariant starts == 0 <==> forall k :: 0 <= k < i ==> !events[k].body.EpisodeStart?
      invariant i > 0 && events[0].body.EpisodeStart? ==>
        starts >= 1 && (starts == 1 <==> forall k :: 0 < k < i ==> !events[k].body.EpisodeStart?)
      invariant ends == 0 <==> forall k :: 0 <= k < i ==> !events[k].body.EpisodeEnd?
      invariant i == |events| && events[n].body.EpisodeEnd? ==>
        (ends == 1 <==> forall k :: 0 <= k < n ==> !events[k].body.EpisodeEnd?)
    {
      if events[i].body.EpisodeStart? {
        starts := starts + 1;
      }
      if events[i].body.EpisodeEnd? {
        ends := ends + 1;
      }
    }
    eval.Check(Evidence, starts == 1 && events[0].body.EpisodeStart?, log.EpisodeId(), Some(0));
    eval.Check(Evidence, ends == 1 && events[n].body.EpisodeEnd?, log.EpisodeId(), Some(n));
  }

  /** An entry that is looked up: an earlier number, not consumed before. */
  predicate LookedUp(index: nat, seen: set<int>, entry: Option<int>) {
    entry.Some? && entry.value < index && entry.value !in seen
  }

  lemma {:induction false} ConsumedStep(
    events: seq<Event>, index: nat, before: set<int>, consumed: seq<Option<int>>, k: nat)
    requires k < |consumed|
    ensures ConsumedOk(events, index, before, consumed[..k + 1]) <==>
      && ConsumedOk(events, index, before, consumed[..k])
      && LookedUp(index, before + Numbers(consumed[..k]), consumed[k])
      && NamesInboxItem(events, consumed[k].value)
    ensures Numbers(consumed[..k + 1])
        == Numbers(consumed[..k]) + (if consumed[k].Some? then {consumed[k].value} else {})
  {
    var upto := consumed[..k + 1];
    assert upto[..k] == consumed[..k] && upto[k] == consumed[k];
    assert forall j :: 0 <= j < k ==> upto[..j] == consumed[..k][..j];
    hide NamesInboxItem;
  }

  /** The lookup of entry `k` is out of range, and all before it were in order. */
  ghost predicate RaisesAt(events: seq<Event>, index: nat, seen: set<int>, consumed: seq<Option<int>>, k: nat) {
    && k < |consumed|
    && ConsumedOk(events, index, seen, consumed[..k])
    && LookedUp(index, seen + Numbers(consumed[..k]), consumed[k])
    && consumed[k].value < 0 - |events|
  }

  lemma {:induction false} RaisesInvalid(
    events: seq<Event>, index: nat, seen: set<int>, consumed: seq<Option<int>>, k: nat)
    requires RaisesAt(events, index, seen, consumed, k)
    ensures !ConsumedOk(events, index, seen, consumed)
  {
    assert !NamesInboxItem(events, consumed[k].value);
  }

  /** `raised` is an index error: a number below minus the length of the log, when all before it are valid. */
  method CheckConsumed(events: seq<Event>, index: nat, seen: set<int>, consumed: seq<Option<int>>)
    returns (valid: bool, seen': set<int>, raised: bool)
    requires index <= |events|
    ensures !raised ==> seen' == seen + Numbers(consumed) && (valid <==> ConsumedOk(events, index, seen, consumed))
    ensures raised ==> !ConsumedOk(events, index, seen, consumed)
    ensures raised <==> exists k: nat :: RaisesAt(events, index, seen, consumed, k)
  {
    hide ConsumedOk, Numbers;
    valid, seen', raised := true, seen, false;
    NothingConsumed(events, index, seen);
    for k := 0 to |consumed|
      invariant forall j: nat :: j < k ==> !RaisesAt(events, index, seen, consumed, j)
      invariant seen' == seen + Numbers(consumed[..k])
      invariant valid <==> ConsumedOk(events, index, seen, consumed[..k])
    {
      var entry := consumed[k];
      ConsumedStep(events, index, seen, consumed, k);
      valid := valid && LookedUp(index, seen', entry);
      if valid && Position(|events|, entry.value).None? {
        raised := true;
        assert RaisesAt(events, index, seen, consumed, k);
        RaisesInvalid(events, index, seen, consumed, k);
        return;
      }
      valid := valid && events[Position(|events|, entry.value).value].body.InboxItem?;
      if entry.Some? {
        seen' := seen' + {entry.value};
      }
    }
    assert consumed[..|consumed|] == consumed;
  }

  lemma {:induction false} NothingConsumed(events: seq<Event>, index: nat, seen: set<int>)
    ensures ConsumedOk(events, index, seen, []) && Numbers([]) == {}
  {
  }

  method CheckMessages(eval: Evaluation, log: Log, index: nat)
    requires eval.Valid() && index < |log.events| && log.events[index].body.ModelRequest?
    modifies eval
    ensures eval.Valid()
    ensures eval.Clean() <==> old(eval.Clean()) && MessagesOk(log.events, index)
  {
    hide Evaluation.Valid, Evaluation.Clean;
    var request := log.events[index].body;
    if request.id.Named? && !IsSummarization(request.id.name) {
      var expected := MessagesForRequest(log.events, index);
      eval.Check(Evidence, request.messages == expected, log.EpisodeId(), Some(index));
    }
  }

  method CheckConsumption(
    eval: Evaluation, log: Log, index: nat, seen: set<int>) returns (seen': set<int>, raised: bool)
    requires eval.Valid() && index < |log.events| && log.events[index].body.ModelRequest?
    modifies eval
    ensures eval.Valid()
    ensures raised ==> !ConsumptionOk(log.events, index, seen)
    ensures !raised ==> (eval.Clean() <==> old(eval.Clean()) && ConsumptionOk(log.events, index, seen))
    ensures !raised ==>
      seen' == seen + (var c := log.events[index].body.consumed; if c.Some? then Numbers(c.value) else {})
  {
    hide Evaluation.Valid, Evaluation.Clean;
    var consumed := log.events[index].body.consumed;
    seen', raised := seen, false;
    var valid := consumed.Some?;
    if valid {
      valid, seen', raised := CheckConsumed(log.events, index, seen, consumed.value);
      if raised {
        return;
      }
    }
    eval.Check(Evidence, valid, log.EpisodeId(), Some(index));
  }

  method CheckRequest(
    eval: Evaluation, log: Log, index: nat, ids: map<string, nat>, header: Option<int>, seen: set<int>)
    returns (ids': map<string, nat>, seen': set<int>, raised: bool)
    requires eval.Valid() && index < |log.events| && log.events[index].body.ModelRequest?
    requires ids == RequestIds(log.events[..index])
    requires header == LatestHeader(log.events[..index])
    requires seen == ConsumedBy(log.events[..index])
    modifies eval
    ensures eval.Valid()
    ensures raised ==> !RequestOk(log.events, index)
    ensures !raised ==> (eval.Clean() <==> old(eval.Clean()) && RequestOk(log.events, index))
    ensures !raised ==> ids' == RequestIds(log.events[..index + 1]) && seen' == ConsumedBy(log.events[..index + 1])
  {
    hide Evaluation.Valid, Evaluation.Clean;
    var request := log.events[index].body;
    var episode := log.EpisodeId();
    ids', seen', raised := ids, seen, false;
    eval.Check(Evidence, request.id.Named? && request.id.name !in ids, episode, Some(index));
    if request.id.Named? {
      ids' := ids[request.id.name := index];
    }
    eval.Check(Evidence, request.headerSeq == header, episode, Some(index));
    seen', raised := CheckConsumption(eval, log, index, seen);
    if raised {
      return;
    }
    CheckMessages(eval, log, index);
    assert log.events[..index + 1][..index] == log.events[..index];
  }

  lemma {:induction false} CollectAppend(ops: seq<Op>, op: Op)
    ensures Collect(ops + [op]) == Record(Collect(ops), op)
  {
    assert (ops + [op])[..|ops|] == ops;
  }

  method CheckToolCalls(
    eval: Evaluation, episode: string, index: nat, calls: seq<Entry>, t: Tables, ghost before: seq<Op>)
    returns (t': Tables)
    requires eval.Valid() && t == Collect(before)
    requires t.ok || !eval.Clean()
    modifies eval
    ensures eval.Valid() && t' == Collect(before + Issued(index, calls)) && (t'.ok ==> t.ok)
    ensures eval.Clean() <==> old(eval.Clean()) && t'.ok
  {
    hide Evaluation.Valid, Evaluation.Clean;
    t' := t;
    assert before + [] == before;
    for k := 0 to |calls|
      invariant eval.Valid() && t' == Collect(before + Issued(index, calls[..k])) && (t'.ok ==> t.ok)
      invariant eval.Clean() <==> old(eval.Clean()) && t'.ok
    {
      assert calls[..k + 1][..k] == calls[..k];
      ghost var so := before + Issued(index, calls[..k]);
      if calls[k].NotAnObject? {
        assert Issued(index, calls[..k + 1]) == Issued(index, calls[..k]);
        continue;
      }
      var id, name := calls[k].id, calls[k].name;
      var valid := id.Some? && id.value !in t'.calls && name.Some?;
      eval.Check(Evidence, valid, episode, Some(index));
      CollectAppend(so, Issue(index, id, name));
      assert before + Issued(index, calls[..k + 1]) == so + [Issue(index, id, name)];
      t' := t'.(ok := t'.ok && valid);
      if id.Some? && name.Some? {
        t' := t'.(calls := t'.calls[id.value := (index, name.value)], issued := t'.issued + {id.value});
      }
    }
    assert calls[..|calls|] == calls;
  }

  method CheckInnerCall(eval: Evaluation, episode: string, op: Op, t: Tables) returns (t': Tables)
    requires eval.Valid() && op.Inner?
    modifies eval
    ensures eval.Valid() && t' == Record(t, op)
    ensures eval.Clean() <==> old(eval.Clean()) && OpOk(t, op)
  {
    hide Evaluation.Valid, Evaluation.Clean;
    var Inner(at, outer, id, name, index) := op;
    var validOuter := outer.Some? && outer.value in t.issued && outer.value !in t.results;
    eval.Check(Evidence, validOuter, episode, Some(at));
    var validCall := id.Some? && id.value !in t.calls && name.Some?;
    eval.Check(Evidence, validCall, episode, Some(at));
    var indices := if outer.Some? && outer.value in t.inner then t.inner[outer.value] else [];
    var validIndex := index.Some? && index.value == |indices|;
    eval.Check(Evidence, validIndex, episode, Some(at));
    t' := t.(ok := t.ok && validOuter && validCall && validIndex);
    if outer.Some? {
      t' := t'.(inner := t.inner[outer.value := if index.Some? then indices + [index.value] else indices]);
    }
    if validCall {
      t' := t'.(calls := t.calls[id.value := (at, name.value)]);
    }
  }

  method CheckCalls(eval: Evaluation, episode: string, t: Tables)
    requires eval.Valid()
    modifies eval
    ensures eval.Valid()
    ensures eval.Clean() <==> old(eval.Clean()) && forall id :: id in t.calls ==> SettledOnce(t, id)
  {
    hide Evaluation.Valid, Evaluation.Clean;
    var calls := t.calls.Keys;
    while calls != {}
      invariant eval.Valid() && calls <= t.calls.Keys
      invariant eval.Clean() <==> old(eval.Clean()) && forall id :: id in t.calls && id !in calls ==> SettledOnce(t, id)
      decreases |calls|
    {
      var id :| id in calls;
      calls := calls - {id};
      var matched := if id in t.results then t.results[id] else [];
      var correct := |matched| == 1;
      if correct {
        correct := matched[0].0 > t.calls[id].0 && matched[0].1 == Some(t.calls[id].1);
      }
      eval.Check(Evidence, correct, episode, Some(t.calls[id].0));
    }
  }

  method CheckResults(eval: Evaluation, episode: string, t: Tables)
    requires eval.Valid()
    modifies eval
    ensures eval.Valid()
    ensures eval.Clean() <==>
      old(eval.Clean()) && forall id :: id in t.results ==> id in t.calls && |t.results[id]| == 1
  {
    hide Evaluation.Valid, Evaluation.Clean;
    var results := t.results.Keys;
    while results != {}
      invariant eval.Valid() && results <= t.results.Keys
      invariant eval.Clean() <==>
        old(eval.Clean()) && forall id :: id in t.results && id !in results ==> id in t.calls && |t.results[id]| == 1
      decreases |results|
    {
      var id :| id in results;
      results := results - {id};
      var place := if |t.results[id]| > 0 then Some(t.results[id][0].0) else None;
      eval.Check(Evidence, id in t.calls && |t.results[id]| == 1, episode, place);
    }
  }

  /** What one event adds to each record of a log. */
  lemma {:induction false} PrefixStep(events: seq<Event>, k: nat)
    requires k < |events|
    ensures var before, upto := events[..k], events[..k + 1];
      && Ops(upto) == Ops(before) + OpsOf(k, events[k])
      && InboxOf(upto) == (var e := events[k];
           if e.body.InboxItem? && e.seqNo.Some? && e.body.content.Some?
           then InboxOf(before)[e.seqNo.value := e.body.content.value]
           else InboxOf(before))
      && RequestIds(upto) == (var e := events[k];
           if e.body.ModelRequest? && e.body.id.Named?
           then RequestIds(before)[e.body.id.name := k] else RequestIds(before))
      && ConsumedBy(upto) == (var e := events[k];
           if e.body.ModelRequest? && e.body.consumed.Some?
           then ConsumedBy(before) + Numbers(e.body.consumed.value) else ConsumedBy(before))
      && LatestHeader(upto) == (if events[k].body.RequestHeader? then Some(k) else LatestHeader(before))
      && LastSummary(upto) ==
        (if events[k].body.CompactionSummary? then Some(events[k].body.summary) else LastSummary(before))
  {
    assert events[..k + 1][..k] == events[..k];
  }

  /** What the checker carries from one event to the next. */
  datatype Progress = Progress(header: Option<int>, ids: map<string, nat>, seen: set<int>, tables: Tables)

  ghost predicate Tracks(p: Progress, events: seq<Event>) {
    && p.header == LatestHeader(events)
    && p.ids == RequestIds(events)
    && p.seen == ConsumedBy(events)
    && p.tables == Collect(Ops(events))
  }

  method CheckNamesRequest(eval: Evaluation, log: Log, index: nat, ids: map<string, nat>, id: RequestId)
    requires eval.Valid() && index < |log.events| && ids == RequestIds(log.events[..index])
    modifies eval
    ensures eval.Valid()
    ensures eval.Clean() <==> old(eval.Clean()) && NamesRequest(log.events, index, id)
  {
    hide Evaluation.Valid, Evaluation.Clean;
    RequestIdsEarlier(log.events[..index]);
    eval.Check(Evidence, id.Named? && id.name in ids && ids[id.name] < index, log.EpisodeId(), Some(index));
  }

  method CheckEvent(eval: Evaluation, log: Log, index: nat, p: Progress) returns (p': Progress, raised: bool)
    requires eval.Valid() && index < |log.events|
    requires Tracks(p, log.events[..index]) && (p.tables.ok || !eval.Clean())
    modifies eval
    ensures eval.Valid()
    ensures raised ==> !EventOk(log.events, index)
    ensures !raised ==> Tracks(p', log.events[..index + 1]) && (p'.tables.ok ==> p.tables.ok)
    ensures !raised ==> (eval.Clean() <==> old(eval.Clean()) && p'.tables.ok && EventOk(log.events, index))
  {
    hide RequestOk, NamesRequest, Evaluation.Valid, Evaluation.Clean;
    hide Ops, RequestIds, ConsumedBy, LatestHeader, Issued, Collect;
    p', raised := p, false;
    var event := log.events[index];
    ghost var ops := Ops(log.events[..index]);
    PrefixStep(log.events, index);
    assert ops + [] == ops;
    if event.body.ModelRequest? {
      var ids, seen;
      ids, seen, raised := CheckRequest(eval, log, index, p.ids, p.header, p.seen);
      if raised {
        return;
      }
      p' := p.(ids := ids, seen := seen);
      return;
    }
    match event.body {
      case RequestHeader(_) =>
        p' := p.(header := Some(index));
      case AssistantMessage(id, _, calls, _, _) =>
        CheckNamesRequest(eval, log, index, p.ids, id);
        var tables := CheckToolCalls(eval, log.EpisodeId(), index, calls, p.tables, ops);
        p' := p.(tables := tables);
      case AssistantChunk(id) =>
        CheckNamesRequest(eval, log, index, p.ids, id);
      case InnerCall(outer, call, name, inner) =>
        var op := Inner(index, outer, call, name, inner);
        CollectAppend(ops, op);
        var tables := CheckInnerCall(eval, log.EpisodeId(), op, p.tables);
        p' := p.(tables := tables);
      case ToolResult(Some(call), name, _, _) =>
        CollectAppend(ops, Settle(index, call, name));
        p' := p.(tables := Record(p.tables, Settle(index, call, name)));
      case _ =>
    }
  }

  method CheckEvents(eval: Evaluation, log: Log) returns (tables: Tables, raised: bool)
    requires eval.Valid()
    modifies eval
    ensures eval.Valid() && (!raised ==> tables == Collect(Ops(log.events)))
    ensures raised ==> !EventsOk(log.events, |log.events|)
    ensures !raised ==> (eval.Clean() <==> old(eval.Clean()) && tables.ok && EventsOk(log.events, |log.events|))
  {
    hide Evaluation.Valid, Evaluation.Clean;
    var p := Progress(None, map[], {}, NoTables);
    for index := 0 to |log.events|
      invariant eval.Valid() && Tracks(p, log.events[..index])
      invariant eval.Clean() <==> old(eval.Clean()) && p.tables.ok && EventsOk(log.events, index)
    {
      p, raised := CheckEvent(eval, log, index, p);
      if raised {
        if EventsOk(log.events, |log.events|) {
          EventAt(log.events, |log.events|, index);
        }
        return p.tables, true;
      }
    }
    assert log.events[..|log.events|] == log.events;
    return p.tables, false;
  }

  method CheckEvidence(eval: Evaluation, log: Log) returns (raised: bool)
    requires eval.Valid()
    modifies eval
    ensures eval.Valid()
    ensures raised ==> !Conforms(log.events)
    ensures !raised ==> (eval.Clean() <==> old(eval.Clean()) && Conforms(log.events))
  {
    hide EventsOk, Contiguous, Enveloped, Bracketed, Evaluation.Valid, Evaluation.Clean;
    raised := false;
    eval.Check(Evidence, |log.events| > 0, log.EpisodeId(), None);
    if |log.events| == 0 {
      return;
    }
    CheckEnvelopes(eval, log);
    CheckBrackets(eval, log);
    var tables;
    tables, raised := CheckEvents(eval, log);
    if !raised {
      CheckCalls(eval, log.EpisodeId(), tables);
      CheckResults(eval, log.EpisodeId(), tables);
    }
  }

  lemma {:induction false} RequestIdsEarlier(events: seq<Event>)
    ensures forall id :: id in RequestIds(events) ==> RequestIds(events)[id] < |events|
  {
    if |events| > 0 {
      RequestIdsEarlier(events[..|events| - 1]);
    }
  }

  // What acceptance says of a whole run.

  predicate OrdinaryRequest(events: seq<Event>, i: nat) {
    i < |events| && events[i].body.ModelRequest? && events[i].body.id.Named? && events[i].body.id.Ordinary()
  }

  /** The `seq` from which request `i` derives its list. */
  function Boundary(events: seq<Event>, i: nat): nat
    requires i <= |events|
  {
    Max(FromSeq(LastSummary(events[..i])), 0)
  }

  function Consumes(events: seq<Event>, i: nat): seq<Message>
    requires i < |events| && events[i].body.ModelRequest?
  {
    Delivered(InboxOf(events), events[i].body.consumed)
  }

  /** The recorded list of an accepted ordinary request, written out. */
  lemma {:induction false} RecordedList(events: seq<Event>, j: nat)
    requires Conforms(events) && OrdinaryRequest(events, j)
    ensures events[j].body.messages ==
      Preface(LastSummary(events[..j])) + SaidBetween(events, Boundary(events, j), j) + Consumes(events, j)
  {
    EventAt(events, |events|, j);
    DeriveIsSaid(events, j);
  }

  lemma {:induction false} SameSummary(events: seq<Event>, i: nat, j: nat)
    requires i <= j <= |events|
    requires forall k :: i <= k < j ==> !events[k].body.CompactionSummary?
    ensures LastSummary(events[..j]) == LastSummary(events[..i])
    decreases j
  {
    if i < j {
      SameSummary(events, i, j - 1);
      assert events[..j][..j - 1] == events[..j - 1];
    }
  }

  /** The list at `j` is the list at `i`, what was said in between, and what `j` consumes. */
  predicate ListGrows(events: seq<Event>, i: nat, j: nat)
    requires i < j && OrdinaryRequest(events, i) && OrdinaryRequest(events, j)
  {
    events[j].body.messages == events[i].body.messages + SaidBetween(events, i + 1, j) + Consumes(events, j)
  }

  lemma {:induction false} RequestSays(events: seq<Event>, i: nat)
    requires OrdinaryRequest(events, i)
    ensures Said(events, i) == Consumes(events, i)
  {
  }

  lemma {:induction false} SaidFromRequest(events: seq<Event>, i: nat, j: nat)
    requires i < j <= |events| && OrdinaryRequest(events, i)
    ensures SaidBetween(events, i, j) == Consumes(events, i) + SaidBetween(events, i + 1, j)
  {
    hide Said, Consumes;
    SaidSplit(events, i, i + 1, j);
    RequestSays(events, i);
    assert SaidBetween(events, i, i + 1) == [] + Said(events, i);
  }

  lemma {:induction false} Regroup<T>(a: seq<T>, b: seq<T>, c: seq<T>, d: seq<T>, e: seq<T>)
    ensures a + (b + (c + d)) + e == ((a + b) + c) + d + e
  {
  }

  lemma {:induction false} Cancel<T>(p: seq<T>, cut: seq<T>, rest: seq<T>, d: seq<T>)
    ensures p + (cut + rest) + d == p + rest + d <==> cut == []
  {
    if cut == [] {
      assert cut + rest == rest;
    } else {
      assert |p + (cut + rest) + d| != |p + rest + d|;
    }
  }

  /**
   * Between two compactions the conversation only grows, exactly when the boundary in force lies at or
   * before the earlier request, or cuts off nothing that was said.
   */
  lemma {:induction false} ConversationGrows(events: seq<Event>, i: nat, j: nat)
    requires Conforms(events) && i < j && OrdinaryRequest(events, i) && OrdinaryRequest(events, j)
    requires forall k :: i < k < j ==> !events[k].body.CompactionSummary?
    ensures ListGrows(events, i, j) <==>
      Boundary(events, j) <= i || SaidBetween(events, i, Min(Boundary(events, j), j)) == []
  {
    RecordedList(events, i);
    RecordedList(events, j);
    SameSummary(events, i, j);
    SaidFromRequest(events, i, j);
    var preface, b := Preface(LastSummary(events[..i])), Boundary(events, j);
    var ours, later, own := Consumes(events, i), SaidBetween(events, i + 1, j), Consumes(events, j);
    if b <= i {
      SaidSplit(events, b, i, j);
      Regroup(preface, SaidBetween(events, b, i), ours, later, own);
    } else {
      var cut := Min(b, j);
      SaidSplit(events, i, cut, j);
      Cancel(preface, SaidBetween(events, i, cut), SaidBetween(events, cut, j), own);
      Regroup(preface, [], ours, later, own);
      assert SaidBetween(events, i, j) == [] + (ours + later);
      assert SaidBetween(events, b, j) == SaidBetween(events, cut, j);
    }
  }

  /** A compaction replaces what came before its boundary and leaves the rest of the derivation as it was. */
  lemma {:induction false} CompactionKeepsSuffix(events: seq<Event>, c: nat, j: nat)
    requires Conforms(events) && c < j && OrdinaryRequest(events, j)
    requires events[c].body.CompactionSummary? && forall k :: c < k < j ==> !events[k].body.CompactionSummary?
    ensures var s := events[c].body.summary;
      && Boundary(events, j) == Max(s.firstKept.GetOr(0), 0)
      && events[j].body.messages ==
           [User([s.task]), User([s.rendering])] + SaidBetween(events, Boundary(events, j), j) + Consumes(events, j)
      && (if Boundary(events, j) <= j then
            SaidBetween(events, 0, j)
              == SaidBetween(events, 0, Boundary(events, j)) + SaidBetween(events, Boundary(events, j), j)
          else SaidBetween(events, Boundary(events, j), j) == [])
  {
    hide Conforms, Delivered, Said;
    RecordedList(events, j);
    SameSummary(events, c + 1, j);
    assert events[..c + 1][..c] == events[..c];
    if Boundary(events, j) <= j {
      SaidSplit(events, 0, Boundary(events, j), j);
    }
  }

  // Inbox consumption.

  /** Entry `a` of the list request `i` consumes. */
  predicate Entered(events: seq<Event>, i: nat, a: nat) {
    i < |events| && events[i].body.ModelRequest? && events[i].body.consumed.Some? && a < |events[i].body.consumed.value|
      && events[i].body.consumed.value[a].Some?
  }

  function NumberAt(events: seq<Event>, i: nat, a: nat): int
    requires Entered(events, i, a)
  {
    events[i].body.consumed.value[a].value
  }

  lemma {:induction false} ConsumedEarlier(events: seq<Event>, i: nat, a: nat)
    requires Entered(events, i, a)
    ensures NumberAt(events, i, a) in ConsumedBy(events)
  {
    if i < |events| - 1 {
      assert Entered(events[..|events| - 1], i, a);
      ConsumedEarlier(events[..|events| - 1], i, a);
    }
  }

  /** In an accepted log no number is consumed twice, by one request or by two. */
  lemma {:induction false} ConsumedOnce(events: seq<Event>, i: nat, a: nat, j: nat, b: nat)
    requires Conforms(events) && Entered(events, i, a) && Entered(events, j, b)
    requires i < j || (i == j && a < b)
    ensures NumberAt(events, i, a) != NumberAt(events, j, b)
  {
    EventAt(events, |events|, j);
    var consumed := events[j].body.consumed.value;
    assert consumed[b].value !in ConsumedBy(events[..j]) + Numbers(consumed[..b]);
    if i < j {
      assert Entered(events[..j], i, a);
      ConsumedEarlier(events[..j], i, a);
    } else {
      assert consumed[..b][a] == consumed[a];
    }
  }

  lemma {:induction false} InboxKeys(events: seq<Event>)
    requires Contiguous(events)
    ensures forall s :: s in InboxOf(events) <==>
      0 <= s < |events| && events[s].body.InboxItem? && events[s].body.content.Some?
    ensures forall s :: s in InboxOf(events) ==> InboxOf(events)[s] == events[s].body.content.value
  {
    if |events| > 0 {
      InboxKeys(events[..|events| - 1]);
    }
  }

  /**
   * A consumed number of an accepted log names an earlier inbox item exactly when it is not negative; a
   * negative one delivers nothing to the request that states it.
   */
  lemma {:induction false} ConsumedNames(events: seq<Event>, i: nat, a: nat)
    requires Conforms(events) && Entered(events, i, a)
    ensures var s := NumberAt(events, i, a);
      && (0 <= s <==> 0 <= s < i && events[s].body.InboxItem?)
      && (s in InboxOf(events) <==> 0 <= s && events[s].body.content.Some?)
  {
    EventAt(events, |events|, i);
    InboxKeys(events);
  }

  /** Two different entries stand for the same inbox item. */
  predicate SameItem(events: seq<Event>, i: nat, a: nat, j: nat, b: nat) {
    && Entered(events, i, a) && Entered(events, j, b) && (i, a) != (j, b)
    && Position(|events|, NumberAt(events, i, a)) == Position(|events|, NumberAt(events, j, b))
  }

  /**
   * Two entries of an accepted log stand for the same item exactly when
   * one counts from the end what the other names.
   */
  lemma {:induction false} SameItemWhen(events: seq<Event>, i: nat, a: nat, j: nat, b: nat)
    requires Conforms(events) && Entered(events, i, a) && Entered(events, j, b) && (i, a) != (j, b)
    ensures SameItem(events, i, a, j, b) <==>
      || NumberAt(events, i, a) == NumberAt(events, j, b) + |events|
      || NumberAt(events, j, b) == NumberAt(events, i, a) + |events|
  {
    hide Conforms;
    EntryNames(events, i, a);
    EntryNames(events, j, b);
    if i < j || (i == j && a < b) {
      ConsumedOnce(events, i, a, j, b);
    } else {
      ConsumedOnce(events, j, b, i, a);
    }
  }

  lemma {:induction false} EntryNames(events: seq<Event>, i: nat, a: nat)
    requires Conforms(events) && Entered(events, i, a)
    ensures Position(|events|, NumberAt(events, i, a)).Some?
  {
    EventAt(events, |events|, i);
    assert NamesInboxItem(events, NumberAt(events, i, a));
  }

  lemma {:induction false} ConsumedFrom(events: seq<Event>, s: int) returns (i: nat, a: nat)
    requires s in ConsumedBy(events)
    ensures Entered(events, i, a) && NumberAt(events, i, a) == s
  {
    var before, e := events[..|events| - 1], events[|events| - 1];
    if s in ConsumedBy(before) {
      i, a := ConsumedFrom(before, s);
    } else {
      i := |events| - 1;
      a :| 0 <= a < |e.body.consumed.value| && e.body.consumed.value[a] == Some(s);
    }
  }

  /** Both `s` and the number the same place has counted from the start are consumed. */
  predicate Twins(events: seq<Event>, s: int) {
    s < 0 && s in ConsumedBy(events) && s + |events| in ConsumedBy(events)
  }

  /** An accepted log names no inbox item twice exactly when no item is consumed both from the end and by its number. */
  lemma {:induction false} DeliveredOnce(events: seq<Event>)
    requires Conforms(events)
    ensures (forall i, a, j, b :: !SameItem(events, i, a, j, b)) <==> (forall s :: !Twins(events, s))
  {
    hide Conforms, SameItem, Entered, NumberAt, ConsumedBy;
    forall i: nat, a: nat, j: nat, b: nat | SameItem(events, i, a, j, b)
      ensures exists s :: Twins(events, s)
    {
      SameItemTwins(events, i, a, j, b);
    }
    forall s | Twins(events, s)
      ensures exists i, a, j, b :: SameItem(events, i, a, j, b)
    {
      var i, a := ConsumedFrom(events, s);
      var j, b := ConsumedFrom(events, s + |events|);
      assert NumberAt(events, i, a) != NumberAt(events, j, b) by {
        ConformsIsLong(events);
      }
      SameItemWhen(events, i, a, j, b);
    }
  }

  lemma {:induction false} ConformsIsLong(events: seq<Event>)
    requires Conforms(events)
    ensures |events| > 0
  {
  }

  lemma {:induction false} SameItemTwins(events: seq<Event>, i: nat, a: nat, j: nat, b: nat)
    requires Conforms(events) && SameItem(events, i, a, j, b)
    ensures exists s :: Twins(events, s)
  {
    hide Conforms;
    var s, t := NumberAt(events, i, a), NumberAt(events, j, b);
    SameItemWhen(events, i, a, j, b);
    EntryNames(events, i, a);
    EntryNames(events, j, b);
    ConsumedEarlier(events, i, a);
    ConsumedEarlier(events, j, b);
    var low := if s < t then s else t;
    assert Twins(events, low);
  }
}
