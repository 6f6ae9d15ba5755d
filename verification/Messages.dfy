/** The message list of a model request, derived from the log that precedes it. */
module Messages {
  import opened Prelude
  import opened EpisodeLog
  import opened PairedRuns
  import opened Pairing

  type Inbox = map<int, seq<string>>

  /** Inbox content by the `seq` its event states; a later event with the same `seq` replaces an earlier one. */
  function InboxOf(events: seq<Event>): Inbox {
    if |events| == 0 then map[] else
      var inbox, e := InboxOf(events[..|events| - 1]), events[|events| - 1];
      if e.body.InboxItem? && e.seqNo.Some? && e.body.content.Some?
      then inbox[e.seqNo.value := e.body.content.value] else inbox
  }

  function InnerIds(events: seq<Event>): set<string> {
    if |events| == 0 then {} else
      var ids, e := InnerIds(events[..|events| - 1]), events[|events| - 1];
      if e.body.InnerCall? && e.body.callId.Some? then ids + {e.body.callId.value} else ids
  }

  function LastSummary(events: seq<Event>): Option<Summary> {
    if |events| == 0 then None else
      var e := events[|events| - 1];
      if e.body.CompactionSummary? then Some(e.body.summary) else LastSummary(events[..|events| - 1])
  }

  function Content(inbox: Inbox, consumed: seq<Option<int>>): seq<string> {
    if |consumed| == 0 then [] else
      var content, last := Content(inbox, consumed[..|consumed| - 1]), consumed[|consumed| - 1];
      if last.Some? && last.value in inbox then content + inbox[last.value] else content
  }

  /** The one user message a request's consumed items make, or nothing. */
  function Delivered(inbox: Inbox, consumed: Option<seq<Option<int>>>): seq<Message> {
    match consumed
    case None => []
    case Some(seqs) => if Content(inbox, seqs) == [] then [] else [User(Content(inbox, seqs))]
  }

  function Contribution(inbox: Inbox, inner: set<string>, body: Body): seq<Message> {
    match body
    case ModelRequest(id, _, consumed, _) => if id.Ordinary() then Delivered(inbox, consumed) else []
    case AssistantMessage(id, text, calls, thinking, _) =>
      if id.Ordinary() then [Assistant(text, calls, thinking)] else []
    case ToolResult(call, name, rendered, isError) =>
      if call.Some? && call.value in inner then [] else [Tool(call.GetOr(""), name.GetOr(""), rendered, isError)]
    case _ => []
  }

  function Walk(events: seq<Event>, inbox: Inbox, inner: set<string>, from: int, until: int): seq<Message> {
    if |events| == 0 then [] else
      var before, e := Walk(events[..|events| - 1], inbox, inner, from, until), events[|events| - 1];
      if e.seqNo.Some? && from <= e.seqNo.value < until then before + Contribution(inbox, inner, e.body) else before
  }

  function Preface(summary: Option<Summary>): seq<Message> {
    match summary
    case None => []
    case Some(s) => [User([s.task]), User([s.rendering])]
  }

  function FromSeq(summary: Option<Summary>): int {
    match summary
    case None => 0
    case Some(s) => s.firstKept.GetOr(0)
  }

  /** The list the checker expects request `j` to carry. */
  function Derive(events: seq<Event>, j: nat): seq<Message>
    requires j < |events| && events[j].body.ModelRequest?
  {
    var request := events[j].body;
    if request.id.Named? && IsSummarization(request.id.name) then request.messages else
      var summary := LastSummary(events[..j]);
      Preface(summary)
      + Walk(events, InboxOf(events), InnerIds(events[..j]), FromSeq(summary), j)
      + Delivered(InboxOf(events), request.consumed)
  }

  method AddConsumed(inbox: Inbox, consumed: Option<seq<Option<int>>>) returns (messages: seq<Message>)
    ensures messages == Delivered(inbox, consumed)
  {
    if consumed.None? {
      return [];
    }
    var content, seqs := [], consumed.value;
    for i := 0 to |seqs|
      invariant content == Content(inbox, seqs[..i])
    {
      assert seqs[..i + 1][..i] == seqs[..i];
      if seqs[i].Some? && seqs[i].value in inbox {
        content := content + inbox[seqs[i].value];
      }
    }
    assert seqs[..|seqs|] == seqs;
    messages := if content == [] then [] else [User(content)];
  }

  method LatestSummary(events: seq<Event>, j: nat) returns (summary: Option<Summary>)
    requires j <= |events|
    ensures summary == LastSummary(events[..j])
  {
    var k := j;
    while k > 0
      invariant 0 <= k <= j
      invariant LastSummary(events[..k]) == LastSummary(events[..j])
    {
      assert events[..k][..k - 1] == events[..k - 1];
      k := k - 1;
      if events[k].body.CompactionSummary? {
        return Some(events[k].body.summary);
      }
    }
    summary := None;
  }

  method InnerCallIds(events: seq<Event>, j: nat) returns (inner: set<string>)
    requires j <= |events|
    ensures inner == InnerIds(events[..j])
  {
    inner := {};
    for k := 0 to j
      invariant inner == InnerIds(events[..k])
    {
      assert events[..k + 1][..k] == events[..k];
      if events[k].body.InnerCall? && events[k].body.callId.Some? {
        inner := inner + {events[k].body.callId.value};
      }
    }
  }

  method ReadInbox(events: seq<Event>) returns (inbox: Inbox)
    ensures inbox == InboxOf(events)
  {
    inbox := map[];
    for k := 0 to |events|
      invariant inbox == InboxOf(events[..k])
    {
      assert events[..k + 1][..k] == events[..k];
      var e := events[k];
      if e.body.InboxItem? && e.seqNo.Some? && e.body.content.Some? {
        inbox := inbox[e.seqNo.value := e.body.content.value];
      }
    }
    assert events[..|events|] == events;
  }

  method AddEvent(
    inbox: Inbox, inner: set<string>, body: Body, messages: seq<Message>) returns (messages': seq<Message>)
    ensures messages' == messages + Contribution(inbox, inner, body)
  {
    messages' := messages;
    match body {
      case ModelRequest(id, _, consumed, _) =>
        if id.Ordinary() {
          var more := AddConsumed(inbox, consumed);
          messages' := messages + more;
        }
      case AssistantMessage(id, text, calls, thinking, _) =>
        if id.Ordinary() {
          messages' := messages + [Assistant(text, calls, thinking)];
        }
      case ToolResult(call, name, rendered, isError) =>
        if call.None? || call.value !in inner {
          messages' := messages + [Tool(call.GetOr(""), name.GetOr(""), rendered, isError)];
        }
      case _ =>
    }
  }

  method MessagesForRequest(events: seq<Event>, j: nat) returns (messages: seq<Message>)
    requires j < |events| && events[j].body.ModelRequest?
    ensures messages == Derive(events, j)
  {
    var request := events[j].body;
    if request.id.Named? && IsSummarization(request.id.name) {
      return request.messages;
    }
    var summary := LatestSummary(events, j);
    var inner := InnerCallIds(events, j);
    messages := Preface(summary);
    var from := FromSeq(summary);
    var inbox := ReadInbox(events);
    for k := 0 to |events|
      invariant messages == Preface(summary) + Walk(events[..k], inbox, inner, from, j)
    {
      assert events[..k + 1][..k] == events[..k];
      var e := events[k];
      if e.seqNo.Some? && from <= e.seqNo.value < j {
        messages := AddEvent(inbox, inner, e.body, messages);
      }
    }
    assert events[..|events|] == events;
    var last := AddConsumed(inbox, request.consumed);
    messages := messages + last;
  }

  // What the derivation says of an accepted log.

  /** What event `k` puts into the conversation, judged by the events up to it alone. */
  function Said(events: seq<Event>, k: nat): seq<Message>
    requires k < |events|
  {
    Contribution(InboxOf(events), InnerIds(events[..k]), events[k].body)
  }

  function SaidBetween(events: seq<Event>, i: nat, j: nat): seq<Message>
    requires j <= |events|
    decreases j
  {
    if j <= i then [] else SaidBetween(events, i, j - 1) + Said(events, j - 1)
  }

  lemma {:induction false} SaidSplit(events: seq<Event>, i: nat, k: nat, j: nat)
    requires i <= k <= j <= |events|
    ensures SaidBetween(events, i, j) == SaidBetween(events, i, k) + SaidBetween(events, k, j)
    decreases j
  {
    if k < j {
      SaidSplit(events, i, k, j - 1);
    }
  }

  lemma {:induction false} OpAt(events: seq<Event>, e: nat) returns (p: nat)
    requires e < |events|
    requires events[e].body.InnerCall? || (events[e].body.ToolResult? && events[e].body.settles.Some?)
    ensures p < |Ops(events)| && Ops(events)[p] == OpsOf(e, events[e])[0]
  {
    var n := |events| - 1;
    if e == n {
      p := |Ops(events[..n])|;
    } else {
      p := OpAt(events[..n], e);
    }
  }

  lemma {:induction false} InnerIdFrom(events: seq<Event>, id: string) returns (e: nat)
    requires id in InnerIds(events)
    ensures e < |events| && events[e].body.InnerCall? && events[e].body.callId == Some(id)
  {
    var n := |events| - 1;
    if events[n].body.InnerCall? && events[n].body.callId == Some(id) {
      e := n;
    } else {
      e := InnerIdFrom(events[..n], id);
    }
  }

  lemma {:induction false} InnerIdAt(events: seq<Event>, e: nat)
    requires e < |events| && events[e].body.InnerCall? && events[e].body.callId.Some?
    ensures events[e].body.callId.value in InnerIds(events)
  {
    if e < |events| - 1 {
      InnerIdAt(events[..|events| - 1], e);
    }
  }

  lemma {:induction false} ResultFollowsInnerCall(events: seq<Event>, k: nat, e: nat)
    requires TwoPass(Ops(events)) && k < |events| && e < |events|
    requires events[k].body.ToolResult? && events[k].body.settles.Some?
    requires events[e].body.InnerCall? && events[e].body.callId == events[k].body.settles
    ensures e < k
  {
    var ops := Ops(events);
    var q := OpAt(events, k);
    var p := OpAt(events, e);
    assert CallsDistinct(ops) && ResultsMatched(ops) && Timed(ops) by {
      AcceptedRunsPair(events);
      OpsTimed(events);
    }
    assert ops[q].Settle? && ops[p].Inner? && ops[q].at == k && ops[p].at == e;
    var p' :| Settles(ops, p', q);
    assert ops[p'].id == ops[p].id;
    assert p' == p;
  }

  /** Pairing is what keeps a result's classification: no call opened after a result can make it an inner one. */
  lemma {:induction false} ClassifiedOnce(events: seq<Event>, k: nat, j: nat)
    requires TwoPass(Ops(events)) && k < j <= |events|
    requires events[k].body.ToolResult? && events[k].body.settles.Some?
    ensures events[k].body.settles.value in InnerIds(events[..j]) <==>
      events[k].body.settles.value in InnerIds(events[..k])
  {
    var id := events[k].body.settles.value;
    var early, late := events[..k], events[..j];
    if id in InnerIds(early) {
      var e := InnerIdFrom(early, id);
      assert late[e] == early[e];
      InnerIdAt(late, e);
    } else if id in InnerIds(late) {
      var e := InnerIdFrom(late, id);
      ResultFollowsInnerCall(events, k, e);
      assert early[e] == late[e];
      InnerIdAt(early, e);
    }
  }

  lemma {:induction false} SameClassSameContribution(inbox: Inbox, early: set<string>, late: set<string>, body: Body)
    requires body.ToolResult? && body.settles.Some? ==> (body.settles.value in early <==> body.settles.value in late)
    ensures Contribution(inbox, early, body) == Contribution(inbox, late, body)
  {
  }

  lemma {:induction false} SaidAtRequest(events: seq<Event>, k: nat, j: nat)
    requires TwoPass(Ops(events)) && k < j <= |events|
    ensures Contribution(InboxOf(events), InnerIds(events[..j]), events[k].body) == Said(events, k)
  {
    var body := events[k].body;
    if body.ToolResult? && body.settles.Some? {
      ClassifiedOnce(events, k, j);
    }
    SameClassSameContribution(InboxOf(events), InnerIds(events[..k]), InnerIds(events[..j]), body);
  }

  lemma {:induction false} WalkIsSaid(events: seq<Event>, n: nat, from: int, j: nat)
    requires Contiguous(events) && TwoPass(Ops(events)) && n <= |events| && j <= |events|
    ensures Walk(events[..n], InboxOf(events), InnerIds(events[..j]), from, j) ==
      SaidBetween(events, Max(from, 0), Min(n, j))
  {
    hide TwoPass, Said, Contribution, InnerIds, InboxOf;
    if n > 0 {
      WalkIsSaid(events, n - 1, from, j);
      assert events[..n][..n - 1] == events[..n - 1];
      if from <= n - 1 < j {
        SaidAtRequest(events, n - 1, j);
      }
    }
  }

  /** An ordinary request's list: what opens it, what was said from the boundary on, and what it consumes. */
  lemma {:induction false} DeriveIsSaid(events: seq<Event>, j: nat)
    requires Contiguous(events) && TwoPass(Ops(events))
    requires j < |events| && events[j].body.ModelRequest? && events[j].body.id.Ordinary()
    ensures var summary := LastSummary(events[..j]);
      Derive(events, j) ==
        Preface(summary) + SaidBetween(events, Max(FromSeq(summary), 0), j)
          + Delivered(InboxOf(events), events[j].body.consumed)
  {
    assert events[..|events|] == events;
    WalkIsSaid(events, |events|, FromSeq(LastSummary(events[..j])), j);
  }
}
