/** The message list of a request, told event by event and without the tables it is derived with. */
module MessageLaws {
  import opened Prelude
  import opened EpisodeLog
  import opened Pairing
  import opened Messages

  /** The request belongs to the episode: it names none, or one that no summarization uses. */
  predicate Ordinarily(id: RequestId) {
    match id
    case Absent => true
    case NotText => false
    case Named(name) => !("cmp_" <= name)
  }

  /** An inner call before event `k` states the id. */
  ghost predicate CalledInside(events: seq<Event>, k: nat, id: string) {
    exists e :: 0 <= e < k && e < |events| && events[e].body.InnerCall? && events[e].body.callId == Some(id)
  }

  /** The content of the inbox item with the number, if it has one. */
  function ItemContent(events: seq<Event>, s: int): seq<string> {
    if 0 <= s < |events| && events[s].body.InboxItem? && events[s].body.content.Some?
    then events[s].body.content.value else []
  }

  /** The content of the items named, in the order they are named. */
  function NamedContent(events: seq<Event>, consumed: seq<Option<int>>): seq<string> {
    if |consumed| == 0 then [] else
      NamedContent(events, consumed[..|consumed| - 1]) +
      match consumed[|consumed| - 1]
      case Some(s) => ItemContent(events, s)
      case None => []
  }

  /** Event `k` puts the message into the conversation. */
  ghost predicate Tells(events: seq<Event>, k: nat, message: Message) {
    k < |events| &&
    match (events[k].body, message)
    case (ModelRequest(id, _, Some(consumed), _), User(content)) =>
      Ordinarily(id) && content != [] && content == NamedContent(events, consumed)
    case (AssistantMessage(id, said, calls, thoughts, _), Assistant(text, toolCalls, thinking)) =>
      Ordinarily(id) && text == said && toolCalls == calls && thinking == thoughts
    case (ToolResult(settles, result, shown, failed), Tool(callId, name, rendered, isError)) =>
      && (settles.Some? ==> !CalledInside(events, k, settles.value))
      && callId == settles.GetOr("") && name == result.GetOr("") && rendered == shown && isError == failed
    case _ => false
  }

  lemma {:induction false} OrdinaryIs(id: RequestId)
    ensures id.Ordinary() <==> Ordinarily(id)
    ensures id.Named? ==> (IsSummarization(id.name) <==> "cmp_" <= id.name)
  {
  }

  lemma {:induction false} InboxIs(events: seq<Event>, n: nat, s: int)
    requires n <= |events| && Contiguous(events)
    ensures var inbox := InboxOf(events[..n]);
      && (s in inbox <==> 0 <= s < n && events[s].body.InboxItem? && events[s].body.content.Some?)
      && (s in inbox ==> inbox[s] == events[s].body.content.value)
  {
    if n > 0 {
      InboxIs(events, n - 1, s);
      assert events[..n][..n - 1] == events[..n - 1];
    }
  }

  lemma {:induction false} ContentIs(events: seq<Event>, consumed: seq<Option<int>>)
    requires Contiguous(events)
    ensures Content(InboxOf(events), consumed) == NamedContent(events, consumed)
  {
    if |consumed| > 0 {
      ContentIs(events, consumed[..|consumed| - 1]);
      var last := consumed[|consumed| - 1];
      if last.Some? {
        InboxIs(events, |events|, last.value);
        assert events[..|events|] == events;
      }
      hide InboxOf;
    }
  }

  lemma {:induction false} InnerIs(events: seq<Event>, k: nat, id: string)
    requires k <= |events|
    ensures id in InnerIds(events[..k]) <==> CalledInside(events, k, id)
  {
    if id in InnerIds(events[..k]) {
      var e := InnerIdFrom(events[..k], id);
      assert events[e].body.InnerCall?;
    }
    if CalledInside(events, k, id) {
      var e :| 0 <= e < k && e < |events| && events[e].body.InnerCall? && events[e].body.callId == Some(id);
      assert events[..k][e] == events[e];
      InnerIdAt(events[..k], e);
    }
  }

  /** What an event says is the one message it tells, or nothing when it tells none. */
  lemma {:induction false} SaidIs(events: seq<Event>, k: nat)
    requires Contiguous(events) && k < |events|
    ensures |Said(events, k)| <= 1
    ensures forall message :: Tells(events, k, message) <==> Said(events, k) == [message]
  {
    match events[k].body {
      case ModelRequest(id, _, consumed, _) =>
        OrdinaryIs(id);
        if consumed.Some? {
          ContentIs(events, consumed.value);
        }
        hide InboxOf, InnerIds, Content, NamedContent, RequestId.Ordinary, Ordinarily;
      case AssistantMessage(id, _, _, _, _) =>
        OrdinaryIs(id);
        hide InboxOf, InnerIds, Content, NamedContent, RequestId.Ordinary, Ordinarily;
      case ToolResult(settles, _, _, _) =>
        if settles.Some? {
          InnerIs(events, k, settles.value);
        }
        hide InboxOf, InnerIds, Content, NamedContent, CalledInside;
      case _ =>
    }
  }

  /** The messages correspond in order to the events that tell one, from `from` and before `until`. */
  ghost predicate InOrder(events: seq<Event>, from: int, until: nat, places: seq<nat>, messages: seq<Message>) {
    && |places| == |messages|
    && (forall x, y :: 0 <= x < y < |places| ==> places[x] < places[y])
    && (forall x :: 0 <= x < |places| ==> from <= places[x] < until && Tells(events, places[x], messages[x]))
    && (forall k: nat, message :: from <= k < until && Tells(events, k, message) ==> k in places)
  }

  ghost predicate Listed(events: seq<Event>, from: int, until: nat, messages: seq<Message>) {
    exists places :: InOrder(events, from, until, places, messages)
  }

  /** One more event adds the message it tells. */
  lemma {:induction false} OrderGrows(
    events: seq<Event>, from: nat, until: nat, places: seq<nat>, messages: seq<Message>)
    requires InOrder(events, from, until, places, messages) && from <= until < |events| && Contiguous(events)
    ensures var said := Said(events, until);
      InOrder(events, from, until + 1, if said == [] then places else places + [until], messages + said)
  {
    hide Tells, Said;
    SaidIs(events, until);
    var said := Said(events, until);
    assert said == [] || said == [said[0]];
    var more := if said == [] then places else places + [until];
    forall k: nat, message | from <= k < until + 1 && Tells(events, k, message)
      ensures k in more
    {
      if k == until {
        assert said == [message] && more[|places|] == until;
      } else {
        assert k in places;
      }
    }
  }

  lemma {:induction false} NothingInOrder(events: seq<Event>, from: nat, until: nat)
    requires until <= from
    ensures InOrder(events, from, until, [], [])
  {
    hide Tells;
  }

  lemma {:induction false} SaidInOrder(events: seq<Event>, from: nat, until: nat) returns (places: seq<nat>)
    requires Contiguous(events) && until <= |events|
    ensures InOrder(events, from, until, places, SaidBetween(events, from, until))
    decreases until
  {
    hide InOrder, Said;
    if until <= from {
      places := [];
      NothingInOrder(events, from, until);
    } else {
      var before := SaidInOrder(events, from, until - 1);
      OrderGrows(events, from, until - 1, before, SaidBetween(events, from, until - 1));
      places := if Said(events, until - 1) == [] then before else before + [until - 1];
    }
  }

  lemma {:induction false} OrderInside(
    events: seq<Event>, from: nat, until: nat, places: seq<nat>, messages: seq<Message>)
    requires InOrder(events, from, until, places, messages)
    ensures |places| == |messages| && (|places| > 0 ==> from < until)
    ensures forall x :: 0 <= x < |places| ==> places[x] <= places[|places| - 1]
  {
    hide Tells;
    if |places| > 0 {
      assert from <= places[0] < until;
    }
  }

  /** Where the last event tells nothing, the messages correspond to the events before it. */
  lemma {:induction false} OrderSkips(
    events: seq<Event>, from: nat, last: nat, places: seq<nat>, messages: seq<Message>)
    requires InOrder(events, from, last + 1, places, messages) && from <= last
    requires forall message :: !Tells(events, last, message)
    ensures InOrder(events, from, last, places, messages)
  {
    hide Tells;
  }

  /** Where it tells a message, that is the last one. */
  lemma {:induction false} OrderEnds(
    events: seq<Event>, from: nat, last: nat, places: seq<nat>, messages: seq<Message>, told: Message)
    requires InOrder(events, from, last + 1, places, messages) && from <= last
    requires forall message :: Tells(events, last, message) <==> message == told
    ensures |places| > 0 && messages == messages[..|messages| - 1] + [told]
    ensures InOrder(events, from, last, places[..|places| - 1], messages[..|messages| - 1])
  {
    OrderInside(events, from, last + 1, places, messages);
    hide Tells;
    assert Tells(events, last, told);
    assert last in places;
    var n := |places| - 1;
    assert places[n] == last && messages[n] == told;
    OrderKeeps(events, from, last + 1, places, messages);
  }

  lemma {:induction false} OrderKeeps(
    events: seq<Event>, from: nat, until: nat, places: seq<nat>, messages: seq<Message>)
    requires InOrder(events, from, until, places, messages) && |places| > 0 && places[|places| - 1] == until - 1
    ensures InOrder(events, from, until - 1, places[..|places| - 1], messages[..|messages| - 1])
  {
    hide Tells;
    var fewer := places[..|places| - 1];
    assert forall x :: 0 <= x < |fewer| ==> fewer[x] == places[x] < places[|places| - 1];
    forall k: nat, message | from <= k < until - 1 && Tells(events, k, message)
      ensures k in fewer
    {
      assert k in places;
      var y :| 0 <= y < |places| && places[y] == k;
      assert fewer[y] == k;
    }
  }

  lemma {:induction false} OrderIsSaid(
    events: seq<Event>, from: nat, until: nat, places: seq<nat>, messages: seq<Message>)
    requires InOrder(events, from, until, places, messages)
    requires Contiguous(events) && until <= |events|
    ensures messages == SaidBetween(events, from, until)
    decreases until
  {
    OrderInside(events, from, until, places, messages);
    if until > from {
      hide InOrder, Said, Tells;
      SaidIs(events, until - 1);
      var said := Said(events, until - 1);
      if said == [] {
        OrderSkips(events, from, until - 1, places, messages);
        OrderIsSaid(events, from, until - 1, places, messages);
      } else {
        assert said == [said[0]];
        OrderEnds(events, from, until - 1, places, messages, said[0]);
        OrderIsSaid(events, from, until - 1, places[..|places| - 1], messages[..|messages| - 1]);
      }
    }
  }

  /** The messages said between two positions are the only list that corresponds to the events there. */
  lemma {:induction false} SaidIsListed(events: seq<Event>, from: nat, until: nat, messages: seq<Message>)
    requires Contiguous(events) && until <= |events|
    ensures Listed(events, from, until, messages) <==> messages == SaidBetween(events, from, until)
  {
    hide InOrder, SaidBetween;
    var given := SaidInOrder(events, from, until);
    if Listed(events, from, until, messages) {
      var places :| InOrder(events, from, until, places, messages);
      OrderIsSaid(events, from, until, places, messages);
    }
  }

  // The whole list of a request.

  /** The latest summary before event `j` is at `c`. */
  ghost predicate LatestSummaryAt(events: seq<Event>, j: nat, c: nat) {
    && c < j && c < |events| && events[c].body.CompactionSummary?
    && forall k :: c < k < j && k < |events| ==> !events[k].body.CompactionSummary?
  }

  /** The messages that open the list, and the position the conversation begins at. */
  ghost predicate Opens(events: seq<Event>, j: nat, preface: seq<Message>, from: nat) {
    || (preface == [] && from == 0 && forall c: nat :: !LatestSummaryAt(events, j, c))
    || exists c: nat :: LatestSummaryAt(events, j, c) &&
         var s := events[c].body.summary;
         && preface == [User([s.task]), User([s.rendering])]
         && from == match s.firstKept { case Some(kept) => if kept > 0 then kept else 0 case None => 0 }
  }

  /** What the request itself consumes, as one message or none. */
  ghost predicate Consumed(events: seq<Event>, j: nat, own: seq<Message>) {
    j < |events| &&
    match events[j].body
    case ModelRequest(_, _, Some(consumed), _) =>
      own == if NamedContent(events, consumed) == [] then [] else [User(NamedContent(events, consumed))]
    case _ => own == []
  }

  /** The list is a preface, the conversation from the boundary on, and what the request consumes. */
  ghost predicate Carries(events: seq<Event>, j: nat, messages: seq<Message>) {
    exists preface, from: nat, said, own :: Composed(events, j, messages, preface, from, said, own)
  }

  ghost predicate Composed(
    events: seq<Event>, j: nat, messages: seq<Message>, preface: seq<Message>, from: nat, said: seq<Message>,
    own: seq<Message>)
  {
    && messages == preface + said + own
    && Opens(events, j, preface, from) && Listed(events, from, j, said) && Consumed(events, j, own)
  }

  lemma {:induction false} SummaryIs(events: seq<Event>, j: nat)
    requires j <= |events|
    ensures LastSummary(events[..j]).None? ==> forall c: nat :: !LatestSummaryAt(events, j, c)
    ensures LastSummary(events[..j]).Some? ==>
      exists c: nat :: LatestSummaryAt(events, j, c) && events[c].body.summary == LastSummary(events[..j]).value
  {
    if j > 0 {
      SummaryIs(events, j - 1);
      assert events[..j][..j - 1] == events[..j - 1];
      if events[j - 1].body.CompactionSummary? {
        assert LatestSummaryAt(events, j, j - 1);
      } else if LastSummary(events[..j]).Some? {
        var c: nat :| LatestSummaryAt(events, j - 1, c) && events[c].body.summary == LastSummary(events[..j - 1]).value;
        assert LatestSummaryAt(events, j, c);
      } else {
        forall c: nat
          ensures !LatestSummaryAt(events, j, c)
        {
          assert !LatestSummaryAt(events, j - 1, c);
        }
      }
    }
  }

  lemma {:induction false} OneLatest(events: seq<Event>, j: nat, b: nat, c: nat)
    requires LatestSummaryAt(events, j, b) && LatestSummaryAt(events, j, c)
    ensures b == c
  {
  }

  lemma {:induction false} OpensIs(events: seq<Event>, j: nat, preface: seq<Message>, from: nat)
    requires j <= |events|
    ensures Opens(events, j, preface, from) <==>
      preface == Preface(LastSummary(events[..j])) && from == Max(FromSeq(LastSummary(events[..j])), 0)
  {
    SummaryIs(events, j);
    hide LastSummary, LatestSummaryAt;
    var summary := LastSummary(events[..j]);
    if summary.Some? {
      var c: nat :| LatestSummaryAt(events, j, c) && events[c].body.summary == summary.value;
      forall b: nat | LatestSummaryAt(events, j, b)
        ensures b == c
      {
        OneLatest(events, j, b, c);
      }
    }
  }

  lemma {:induction false} ConsumedIs(events: seq<Event>, j: nat, own: seq<Message>)
    requires Contiguous(events) && j < |events| && events[j].body.ModelRequest?
    ensures Consumed(events, j, own) <==> own == Delivered(InboxOf(events), events[j].body.consumed)
  {
    if events[j].body.consumed.Some? {
      ContentIs(events, events[j].body.consumed.value);
    }
    hide Content, NamedContent, InboxOf;
  }

  /** The list derived for an ordinary request is the only one that the events before it make. */
  lemma {:induction false} DerivedCarries(events: seq<Event>, j: nat, messages: seq<Message>)
    requires Contiguous(events) && TwoPass(Ops(events))
    requires j < |events| && events[j].body.ModelRequest? && Ordinarily(events[j].body.id)
    ensures Carries(events, j, messages) <==> messages == Derive(events, j)
  {
    OrdinaryIs(events[j].body.id);
    DeriveIsSaid(events, j);
    hide TwoPass, Derive, Opens, Listed, Consumed, SaidBetween, InboxOf, Delivered, LastSummary;
    var summary := LastSummary(events[..j]);
    var preface, from := Preface(summary), Max(FromSeq(summary), 0);
    var said, own := SaidBetween(events, from, j), Delivered(InboxOf(events), events[j].body.consumed);
    OpensIs(events, j, preface, from);
    SaidIsListed(events, from, j, said);
    ConsumedIs(events, j, own);
    assert messages == preface + said + own ==> Composed(events, j, messages, preface, from, said, own);
    if Carries(events, j, messages) {
      var p, f: nat, s, o :| Composed(events, j, messages, p, f, s, o);
      OpensIs(events, j, p, f);
      SaidIsListed(events, f, j, s);
      ConsumedIs(events, j, o);
    }
  }
}
