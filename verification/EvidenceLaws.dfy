/** What a log accepted as evidence is, event by event and without the tables the check keeps. */
module EvidenceLaws {
  import opened Prelude
  import opened EpisodeLog
  import opened Pairing
  import opened PairedRuns
  import opened PairLaws
  import opened Messages
  import opened MessageLaws
  import opened EvidenceCheck

  /** An event before `i` is the request with the name. */
  ghost predicate Requested(events: seq<Event>, i: nat, name: string) {
    exists e :: 0 <= e < i && e < |events| && events[e].body.ModelRequest? && events[e].body.id == Named(name)
  }

  /** The latest header before `i` is at `h`. */
  ghost predicate HeaderAt(events: seq<Event>, i: nat, h: int) {
    && 0 <= h < i && h < |events| && events[h].body.RequestHeader?
    && forall e :: h < e < i && e < |events| ==> !events[e].body.RequestHeader?
  }

  ghost predicate HeaderStated(events: seq<Event>, i: nat, header: Option<int>) {
    match header
    case Some(h) => HeaderAt(events, i, h)
    case None => forall e :: 0 <= e < i && e < |events| ==> !events[e].body.RequestHeader?
  }

  /** Request `i` states `s` as entry `a` of what it consumes. */
  predicate Consumes(events: seq<Event>, i: nat, a: nat, s: int) {
    && i < |events| && events[i].body.ModelRequest? && events[i].body.consumed.Some?
    && a < |events[i].body.consumed.value| && events[i].body.consumed.value[a] == Some(s)
  }

  /** The number is of an inbox item: by its position, or counted from the end when it is negative. */
  predicate NumbersItem(events: seq<Event>, s: int) {
    if s >= 0 then s < |events| && events[s].body.InboxItem?
    else |events| + s >= 0 && events[|events| + s].body.InboxItem?
  }

  /** Entry `a` of request `i` is an earlier number of an inbox item that nothing before it consumes. */
  ghost predicate EntrySound(events: seq<Event>, i: nat, a: nat) {
    exists s :: Consumes(events, i, a, s) && s < i && NumbersItem(events, s) &&
      (forall e: nat, b: nat :: e < i ==> !Consumes(events, e, b, s)) &&
      (forall b: nat :: b < a ==> !Consumes(events, i, b, s))
  }

  ghost predicate RequestSound(events: seq<Event>, i: nat)
    requires i < |events| && events[i].body.ModelRequest?
  {
    var request := events[i].body;
    && request.id.Named? && !Requested(events, i, request.id.name)
    && HeaderStated(events, i, request.headerSeq)
    && request.consumed.Some?
    && (forall a: nat :: a < |request.consumed.value| ==> EntrySound(events, i, a))
    && ("cmp_" <= request.id.name || Carries(events, i, request.messages))
  }

  ghost predicate EventSound(events: seq<Event>, i: nat)
    requires i < |events|
  {
    match events[i].body
    case ModelRequest(_, _, _, _) => RequestSound(events, i)
    case AssistantMessage(Named(name), _, _, _, _) => Requested(events, i, name)
    case AssistantMessage(_, _, _, _, _) => false
    case AssistantChunk(Named(name)) => Requested(events, i, name)
    case AssistantChunk(_) => false
    case _ => true
  }

  /** The log is numbered from zero, starts once and first, ends once and last, and each event is in order. */
  ghost predicate Sound(events: seq<Event>) {
    && |events| > 0
    && (forall i :: 0 <= i < |events| ==> events[i].seqNo == Some(i) && events[i].enveloped)
    && (forall i :: 0 <= i < |events| ==> (events[i].body.EpisodeStart? <==> i == 0))
    && (forall i :: 0 <= i < |events| ==> (events[i].body.EpisodeEnd? <==> i + 1 == |events|))
    && (forall i :: 0 <= i < |events| ==> EventSound(events, i))
    && CallsPair(events)
  }

  lemma {:induction false} RequestedIs(events: seq<Event>, i: nat, name: string)
    requires i <= |events|
    ensures name in RequestIds(events[..i]) <==> Requested(events, i, name)
  {
    if i > 0 {
      RequestedIs(events, i - 1, name);
      assert events[..i][..i - 1] == events[..i - 1];
      var e := events[i - 1].body;
      if e.ModelRequest? && e.id == Named(name) {
        assert Requested(events, i, name);
      }
    }
  }

  lemma {:induction false} HeaderIs(events: seq<Event>, i: nat, header: Option<int>)
    requires i <= |events|
    ensures header == LatestHeader(events[..i]) <==> HeaderStated(events, i, header)
  {
    if i > 0 {
      HeaderIs(events, i - 1, header);
      assert events[..i][..i - 1] == events[..i - 1];
      if events[i - 1].body.RequestHeader? {
        assert HeaderAt(events, i, i - 1);
      } else if header.Some? {
        assert HeaderAt(events, i, header.value) <==> HeaderAt(events, i - 1, header.value);
      }
    }
  }

  lemma {:induction false} ConsumedIs(events: seq<Event>, i: nat, s: int)
    requires i <= |events|
    ensures s in ConsumedBy(events[..i]) <==> exists e: nat, b: nat :: e < i && Consumes(events, e, b, s)
  {
    if i > 0 {
      ConsumedIs(events, i - 1, s);
      assert events[..i][..i - 1] == events[..i - 1];
      NumbersAre(events, i - 1, s);
      hide Numbers, Consumes;
      if e: nat, b: nat :| e < i && Consumes(events, e, b, s) {
        assert e == i - 1 || e < i - 1;
      }
    }
  }

  lemma {:induction false} NumbersAre(events: seq<Event>, e: nat, s: int)
    requires e < |events|
    ensures (exists b: nat :: Consumes(events, e, b, s)) <==>
      events[e].body.ModelRequest? && events[e].body.consumed.Some? && s in Numbers(events[e].body.consumed.value)
  {
    var body := events[e].body;
    if body.ModelRequest? && body.consumed.Some? && s in Numbers(body.consumed.value) {
      var b :| 0 <= b < |body.consumed.value| && body.consumed.value[b] == Some(s);
      assert Consumes(events, e, b, s);
    }
  }

  lemma {:induction false} NumbersUpTo(events: seq<Event>, i: nat, a: nat, s: int)
    requires i < |events| && events[i].body.ModelRequest? && events[i].body.consumed.Some?
    requires a <= |events[i].body.consumed.value|
    ensures s in Numbers(events[i].body.consumed.value[..a]) <==> exists b: nat :: b < a && Consumes(events, i, b, s)
  {
    var consumed := events[i].body.consumed.value;
    if s in Numbers(consumed[..a]) {
      var b :| 0 <= b < a && consumed[..a][b] == Some(s);
      assert Consumes(events, i, b, s);
    }
    if b: nat :| b < a && Consumes(events, i, b, s) {
      assert consumed[..a][b] == Some(s);
    }
  }

  lemma {:induction false} EntryMeans(events: seq<Event>, i: nat, a: nat)
    requires i < |events| && events[i].body.ModelRequest? && events[i].body.consumed.Some?
    requires a < |events[i].body.consumed.value|
    ensures var consumed := events[i].body.consumed.value;
      (LookedUp(i, ConsumedBy(events[..i]) + Numbers(consumed[..a]), consumed[a]) &&
       NamesInboxItem(events, consumed[a].value))
      <==> EntrySound(events, i, a)
  {
    var consumed := events[i].body.consumed.value;
    if consumed[a].Some? {
      var s := consumed[a].value;
      ConsumedIs(events, i, s);
      NumbersUpTo(events, i, a, s);
      assert NamesInboxItem(events, s) <==> NumbersItem(events, s);
      assert Consumes(events, i, a, s);
    }
    hide ConsumedBy, Numbers, NamesInboxItem, NumbersItem;
  }

  lemma {:induction false} ConsumptionMeans(events: seq<Event>, i: nat)
    requires i < |events| && events[i].body.ModelRequest? && events[i].body.consumed.Some?
    ensures ConsumedOk(events, i, ConsumedBy(events[..i]), events[i].body.consumed.value) <==>
      forall a: nat :: a < |events[i].body.consumed.value| ==> EntrySound(events, i, a)
  {
    var consumed := events[i].body.consumed.value;
    forall a: nat | a < |consumed|
      ensures (LookedUp(i, ConsumedBy(events[..i]) + Numbers(consumed[..a]), consumed[a]) &&
               NamesInboxItem(events, consumed[a].value)) <==> EntrySound(events, i, a)
    {
      EntryMeans(events, i, a);
    }
    hide ConsumedBy, Numbers, NamesInboxItem, EntrySound;
  }

  lemma {:induction false} RequestMeans(events: seq<Event>, i: nat)
    requires Contiguous(events) && TwoPass(Ops(events)) && i < |events| && events[i].body.ModelRequest?
    ensures RequestOk(events, i) <==> RequestSound(events, i)
  {
    var request := events[i].body;
    HeaderIs(events, i, request.headerSeq);
    if request.id.Named? {
      RequestedIs(events, i, request.id.name);
      OrdinaryIs(request.id);
      if Ordinarily(request.id) {
        DerivedCarries(events, i, request.messages);
      }
    }
    if request.consumed.Some? {
      ConsumptionMeans(events, i);
    }
    hide TwoPass, Ops, Contiguous, HeaderStated, Requested, Carries, EntrySound, ConsumedOk, ConsumedBy, Derive,
      LatestHeader, RequestIds;
  }

  lemma {:induction false} EventMeans(events: seq<Event>, i: nat)
    requires Contiguous(events) && TwoPass(Ops(events)) && i < |events|
    ensures EventOk(events, i) <==> EventSound(events, i)
  {
    match events[i].body {
      case ModelRequest(_, _, _, _) =>
        RequestMeans(events, i);
      case AssistantMessage(id, _, _, _, _) =>
        if id.Named? {
          RequestedIs(events, i, id.name);
        }
      case AssistantChunk(id) =>
        if id.Named? {
          RequestedIs(events, i, id.name);
        }
      case _ =>
    }
    hide RequestOk, RequestSound, Requested, RequestIds, TwoPass, Ops, Contiguous;
  }

  lemma {:induction false} EventsMean(events: seq<Event>, n: nat)
    requires Contiguous(events) && TwoPass(Ops(events)) && n <= |events|
    ensures EventsOk(events, n) <==> forall i :: 0 <= i < n ==> EventSound(events, i)
  {
    hide EventOk, EventSound, TwoPass, Ops, Contiguous;
    if n > 0 {
      EventsMean(events, n - 1);
      EventMeans(events, n - 1);
    }
  }

  /** The evidence check passes over a log exactly when it is sound. */
  lemma {:induction false} ConformsMeans(events: seq<Event>)
    ensures Conforms(events) <==> Sound(events)
  {
    PairingMeans(events);
    hide TwoPass, Ops, CallsPair, EventsOk, EventSound;
    if Contiguous(events) && TwoPass(Ops(events)) {
      EventsMean(events, |events|);
    }
  }

  /**
   * In an accepted log the list of an ordinary request is what opens it, one message for each event from the boundary
   * on that tells one, in their order, and what the request consumes.
   */
  lemma {:induction false} AcceptedListCarries(events: seq<Event>, j: nat, name: string)
    requires Conforms(events) && j < |events| && events[j].body.ModelRequest?
    requires events[j].body.id == Named(name) && !("cmp_" <= name)
    ensures Carries(events, j, events[j].body.messages)
  {
    ConformsMeans(events);
    hide Conforms, Carries, HeaderStated, EntrySound, Requested, CallsPair;
    assert EventSound(events, j);
  }
}
