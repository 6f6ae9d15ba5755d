/** The model calls of a log told by its events, and the agents of a tree by its directories. */
module AccountLaws {
  import opened Prelude
  import opened EpisodeLog
  import opened Accounts
  import opened AccountTree

  // Calls.

  function Text(id: RequestId): string {
    match id
    case Named(name) => name
    case NotText => "None"
    case Absent => "None"
  }

  predicate Asks(events: seq<Event>, s: nat, id: string) {
    s < |events| && events[s].body.ModelRequest? && Text(events[s].body.id) == id
  }

  predicate Answers(events: seq<Event>, e: nat, id: string) {
    e < |events| && events[e].body.AssistantMessage? && Text(events[e].body.id) == id
  }

  /** No request and no message with the id lies strictly between the two positions. */
  ghost predicate Silent(events: seq<Event>, s: nat, e: nat, id: string) {
    forall i: nat :: s < i < e ==> !Asks(events, i, id) && !Answers(events, i, id)
  }

  /** The message at `e`, before `n`, answers the request at `s`: the first with its id before the id is asked again. */
  ghost predicate AnsweredAt(events: seq<Event>, n: nat, s: nat, e: nat) {
    && s < e < n && s < |events| && events[s].body.ModelRequest?
    && Answers(events, e, Text(events[s].body.id)) && Silent(events, s, e, Text(events[s].body.id))
  }

  function Stated(c: Count): Option<int> {
    match c
    case Whole(n) => Some(n)
    case Flag(_) => None
    case NoCount => None
  }

  /** The call is that of the request at `s`, with the end and the tokens of the message that answers it. */
  ghost predicate CallOf(events: seq<Event>, n: nat, s: nat, call: ModelCall) {
    && s < |events| && call.seqNo == events[s].seqNo && call.started == s
    && (forall e: nat :: AnsweredAt(events, n, s, e) ==>
          call.ended == Some(e) && States(call, events[e].body.usage))
    && ((forall e: nat :: !AnsweredAt(events, n, s, e)) ==>
          call.ended == None && call.input == None && call.output == None)
  }

  /** How many requests come before `n`. */
  function Asked(events: seq<Event>, n: nat): nat
    requires n <= |events|
  {
    if n == 0 then 0 else Asked(events, n - 1) + if events[n - 1].body.ModelRequest? then 1 else 0
  }

  lemma {:induction false} AskedRises(events: seq<Event>, s: nat, n: nat)
    requires s < n <= |events| && events[s].body.ModelRequest?
    ensures Asked(events, s) < Asked(events, n)
  {
    if s < n - 1 {
      AskedRises(events, s, n - 1);
    }
  }

  /** The request at `s` is the latest with its id and no message has answered it. */
  ghost predicate Pends(events: seq<Event>, n: nat, s: nat, id: string) {
    s < n && Asks(events, s, id) && Silent(events, s, n, id)
  }

  /** One call for each request, in order, and the table names those that pend. */
  ghost predicate Told(events: seq<Event>, n: nat, o: Open)
    requires n <= |events|
  {
    && |o.calls| == Asked(events, n)
    && (forall s: nat :: s < n && events[s].body.ModelRequest? ==>
          Asked(events, s) < |o.calls| && CallOf(events, n, s, o.calls[Asked(events, s)]))
    && Pending(events, n, o.byId)
  }

  ghost predicate Pending(events: seq<Event>, n: nat, byId: map<string, nat>)
    requires n <= |events|
  {
    && (forall id :: id in byId <==> exists s: nat :: Pends(events, n, s, id))
    && (forall id, s: nat :: Pends(events, n, s, id) ==> id in byId && byId[id] == Asked(events, s))
  }

  lemma {:induction false} TextIsKey(id: RequestId)
    ensures Key(id) == Text(id)
  {
  }

  lemma {:induction false} CountIsStated(c: Count)
    ensures WholeOrNone(c) == Stated(c)
  {
  }

  lemma {:induction false} AnsweredStep(events: seq<Event>, n: nat, s: nat, e: nat)
    requires n < |events|
    ensures AnsweredAt(events, n + 1, s, e) <==>
      if e == n then s < n && events[s].body.ModelRequest? && Pends(events, n, s, Text(events[s].body.id)) &&
                     Answers(events, n, Text(events[s].body.id))
      else AnsweredAt(events, n, s, e)
  {
  }

  lemma {:induction false} PendsStep(events: seq<Event>, n: nat, s: nat, id: string)
    requires n < |events|
    ensures Pends(events, n + 1, s, id) <==>
      if s == n then Asks(events, n, id)
      else Pends(events, n, s, id) && !Asks(events, n, id) && !Answers(events, n, id)
  {
  }

  lemma {:induction false} PendingUnanswered(events: seq<Event>, n: nat, s: nat, id: string, e: nat)
    requires Pends(events, n, s, id)
    ensures !AnsweredAt(events, n, s, e)
  {
  }

  /** A call whose request the next event does not answer stays as it is. */
  lemma {:induction false} CallStays(events: seq<Event>, n: nat, s: nat, call: ModelCall)
    requires n < |events| && s < n && events[s].body.ModelRequest? && CallOf(events, n, s, call)
    requires !(Pends(events, n, s, Text(events[s].body.id)) && Answers(events, n, Text(events[s].body.id)))
    ensures CallOf(events, n + 1, s, call)
  {
    var m := n + 1;
    forall e: nat
      ensures AnsweredAt(events, m, s, e) <==> AnsweredAt(events, n, s, e)
    {
      AnsweredStep(events, n, s, e);
      hide Silent;
    }
    hide AnsweredAt;
  }

  lemma {:induction false} CallAnswered(events: seq<Event>, n: nat, s: nat, call: ModelCall)
    requires n < |events| && s < n && events[s].body.ModelRequest? && CallOf(events, n, s, call)
    requires Pends(events, n, s, Text(events[s].body.id)) && Answers(events, n, Text(events[s].body.id))
    ensures CallOf(events, n + 1, s, Answered(call, n, events[n].body.usage))
  {
    var m, r := n + 1, Answered(call, n, events[n].body.usage);
    AnswerStates(call, n, events[n].body.usage);
    assert call.seqNo == events[s].seqNo && call.started == s;
    hide CallOf, Pends;
    forall e: nat
      ensures AnsweredAt(events, m, s, e) <==> e == n
    {
      AnsweredStep(events, n, s, e);
      PendingUnanswered(events, n, s, Text(events[s].body.id), e);
    }
    hide *;
    AnsweredOnlyAt(events, m, s, n, r);
  }

  lemma {:induction false} AnsweredOnlyAt(events: seq<Event>, m: nat, s: nat, n: nat, call: ModelCall)
    requires n < m && n < |events| && s < |events| && call.seqNo == events[s].seqNo && call.started == s
    requires events[n].body.AssistantMessage? && forall e: nat :: AnsweredAt(events, m, s, e) <==> e == n
    requires call.ended == Some(n) && States(call, events[n].body.usage)
    ensures CallOf(events, m, s, call)
  {
    hide AnsweredAt, States;
    assert AnsweredAt(events, m, s, n);
  }

  predicate States(call: ModelCall, usage: Option<Usage>) {
    && call.input == (if usage.Some? then Stated(usage.value.input) else None)
    && call.output == (if usage.Some? then Stated(usage.value.output) else None)
  }

  lemma {:induction false} AnswerStates(call: ModelCall, i: nat, usage: Option<Usage>)
    ensures var r := Answered(call, i, usage);
      && r.seqNo == call.seqNo && r.started == call.started && r.ended == Some(i) && States(r, usage)
  {
    if usage.Some? {
      CountIsStated(usage.value.input);
      CountIsStated(usage.value.output);
    }
  }

  lemma {:induction false} CallOpens(events: seq<Event>, n: nat)
    requires n < |events| && events[n].body.ModelRequest?
    ensures CallOf(events, n + 1, n, ModelCall(events[n].seqNo, n, None, None, None))
  {
    hide Silent;
  }

  lemma {:induction false} PendingStep(events: seq<Event>, n: nat, o: Open)
    requires n < |events| && Told(events, n, o) && OpenOk(o)
    ensures Pending(events, n + 1, Follow(o, events[n], n).byId)
  {
    var r, m := Follow(o, events[n], n), n + 1;
    KeysFollow(o, events, n);
    hide OpenOk, Follow;
    forall id
      ensures id in r.byId ==> exists s: nat :: Pends(events, m, s, id)
    {
      if id in r.byId {
        if Asks(events, n, id) {
          PendsStep(events, n, n, id);
        } else {
          var s: nat :| Pends(events, n, s, id);
          PendsStep(events, n, s, id);
        }
      }
    }
    forall id, s: nat | Pends(events, m, s, id)
      ensures id in r.byId && r.byId[id] == Asked(events, s)
    {
      PendsStep(events, n, s, id);
    }
  }

  lemma {:induction false} KeysFollow(o: Open, events: seq<Event>, n: nat)
    requires n < |events| && OpenOk(o)
    ensures var r := Follow(o, events[n], n);
      forall id ::
        && (id in r.byId <==> Asks(events, n, id) || (id in o.byId && !Answers(events, n, id)))
        && (id in r.byId ==> r.byId[id] == if Asks(events, n, id) then |o.calls| else o.byId[id])
  {
    match events[n].body {
      case ModelRequest(id, _, _, _) => TextIsKey(id);
      case AssistantMessage(id, _, _, _, _) => TextIsKey(id);
      case _ =>
    }
    hide OpenOk;
  }

  lemma {:induction false} CallsStep(events: seq<Event>, n: nat, o: Open)
    requires n < |events| && Told(events, n, o) && OpenOk(o)
    ensures var r := Follow(o, events[n], n);
      && |r.calls| == Asked(events, n + 1)
      && forall s: nat :: s < n + 1 && events[s].body.ModelRequest? ==>
           Asked(events, s) < |r.calls| && CallOf(events, n + 1, s, r.calls[Asked(events, s)])
  {
    var r := Follow(o, events[n], n);
    forall s: nat | s < n + 1 && events[s].body.ModelRequest?
      ensures Asked(events, s) < |r.calls| && CallOf(events, n + 1, s, r.calls[Asked(events, s)])
    {
      if s == n {
        CallOpens(events, n);
      } else {
        CallStep(events, n, o, s);
      }
    }
  }

  lemma {:induction false} CallStep(events: seq<Event>, n: nat, o: Open, s: nat)
    requires n < |events| && Told(events, n, o) && OpenOk(o) && s < n && events[s].body.ModelRequest?
    ensures var r := Follow(o, events[n], n);
      Asked(events, s) < |r.calls| && CallOf(events, n + 1, s, r.calls[Asked(events, s)])
  {
    var id, call := Text(events[s].body.id), o.calls[Asked(events, s)];
    if Pends(events, n, s, id) && Answers(events, n, id) {
      CallAnswered(events, n, s, call);
      TextIsKey(events[n].body.id);
      assert o.byId[id] == Asked(events, s);
    } else {
      CallStays(events, n, s, call);
      if events[n].body.AssistantMessage? && Key(events[n].body.id) in o.byId {
        TextIsKey(events[n].body.id);
        var other := Text(events[n].body.id);
        var t: nat :| Pends(events, n, t, other);
        assert o.byId[other] == Asked(events, t) && t != s;
        PlacesDiffer(events, s, t, n);
      }
    }
    hide CallOf, Pends, Answers;
  }

  lemma {:induction false} PlacesDiffer(events: seq<Event>, s: nat, t: nat, n: nat)
    requires s < n <= |events| && t < n && s != t && events[s].body.ModelRequest? && events[t].body.ModelRequest?
    ensures Asked(events, s) != Asked(events, t)
  {
    if s < t {
      AskedRises(events, s, t);
    } else {
      AskedRises(events, t, s);
    }
  }

  lemma {:induction false} FollowedTold(events: seq<Event>, n: nat)
    requires n <= |events|
    ensures Told(events, n, Followed(events[..n]))
  {
    if n == 0 {
      FollowedNone(events);
      NothingTold(events);
    } else {
      FollowedTold(events, n - 1);
      FollowedStep(events, n - 1);
      var o := Followed(events[..n - 1]);
      hide Follow, Followed, Pending, CallOf, OpenOk;
      PendingStep(events, n - 1, o);
      CallsStep(events, n - 1, o);
    }
  }

  lemma {:induction false} NothingTold(events: seq<Event>)
    ensures Told(events, 0, Open([], map[]))
  {
    hide Silent;
  }

  /**
   * The account keeps one call for each request, in their order. It ends at the first later message with the request's
   * id before the id is asked again, and has the tokens that message states.
   */
  lemma {:induction false} CallsMean(events: seq<Event>, s: nat)
    requires s < |events| && events[s].body.ModelRequest?
    ensures |Followed(events).calls| == Asked(events, |events|)
    ensures Asked(events, s) < |Followed(events).calls|
    ensures CallOf(events, |events|, s, Followed(events).calls[Asked(events, s)])
  {
    FollowedTold(events, |events|);
    assert events[..|events|] == events;
    hide Followed, CallOf, Pends;
  }

  /** The calls with usage are those that state both counts. */
  lemma {:induction false} UsageCountIs(calls: seq<ModelCall>)
    ensures UsageCount(calls) == |set c | 0 <= c < |calls| && calls[c].input.Some? && calls[c].output.Some?|
  {
    if |calls| > 0 {
      var last := |calls| - 1;
      UsageCountIs(calls[..last]);
      assert (set c | 0 <= c < |calls| && calls[c].input.Some? && calls[c].output.Some?)
          == (set c | 0 <= c < last && calls[..last][c].input.Some? && calls[..last][c].output.Some?)
          + if calls[last].input.Some? && calls[last].output.Some? then {last} else {};
    }
  }

  // Agents.

  /** The directories of a tree as ways down from its top, each before those below it. */
  function Ways(d: Dir): seq<seq<nat>>
    decreases d, |d.children| + 1
  {
    [[]] + WaysIn(d, |d.children|)
  }

  function WaysIn(d: Dir, n: nat): seq<seq<nat>>
    requires n <= |d.children|
    decreases d, n
  {
    if n == 0 then [] else WaysIn(d, n - 1) + Prefixed(n - 1, Ways(d.children[n - 1]))
  }

  function Prefixed(c: nat, ways: seq<seq<nat>>): (r: seq<seq<nat>>)
    ensures |r| == |ways| && forall i :: 0 <= i < |r| ==> r[i] == [c] + ways[i]
  {
    seq(|ways|, i requires 0 <= i < |ways| => [c] + ways[i])
  }

  predicate Leads(d: Dir, way: seq<nat>)
    decreases |way|
  {
    |way| == 0 || (way[0] < |d.children| && Leads(d.children[way[0]], way[1..]))
  }

  function LogAt(d: Dir, way: seq<nat>): nat
    requires Leads(d, way)
    decreases |way|
  {
    if |way| == 0 then d.log else LogAt(d.children[way[0]], way[1..])
  }

  /** The id the first event states, if it starts the episode and states one. */
  function IdStated(events: seq<Event>): string {
    if |events| == 0 then "None" else
      match events[0].body
      case EpisodeStart(Start(Some(id), _, _, _, _, _)) => id
      case _ => "None"
  }

  function ParentStated(events: seq<Event>): Option<string> {
    if |events| > 0 && events[0].body.EpisodeStart? then events[0].body.start.parentId else None
  }

  lemma {:induction false} AgentStates(log: Log, depth: nat)
    ensures var agent := AgentOf(log, depth);
      && agent.depth == depth && agent.modelCalls == Followed(log.events).calls
      && agent.id == IdStated(log.events) && agent.parentId == ParentStated(log.events)
  {
    hide Followed;
  }

  /** The agent is that of the directory the way leads to, as deep as the way is long. */
  ghost predicate AgentAt(logs: seq<Log>, d: Dir, way: seq<nat>, agent: Agent, depth: nat) {
    && Leads(d, way) && LogAt(d, way) < |logs|
    && var log := logs[LogAt(d, way)];
    && agent.depth == depth + |way|
    && agent.id == IdStated(log.events) && agent.parentId == ParentStated(log.events)
    && agent.modelCalls == Followed(log.events).calls
  }

  ghost predicate AgentsAt(logs: seq<Log>, d: Dir, ways: seq<seq<nat>>, agents: seq<Agent>, depth: nat) {
    |agents| == |ways| && forall i :: 0 <= i < |ways| ==> AgentAt(logs, d, ways[i], agents[i], depth)
  }

  lemma {:induction false} AgentsBelow(
    logs: seq<Log>, d: Dir, c: nat, ways: seq<seq<nat>>, agents: seq<Agent>, depth: nat)
    requires c < |d.children| && AgentsAt(logs, d.children[c], ways, agents, depth + 1)
    ensures AgentsAt(logs, d, Prefixed(c, ways), agents, depth)
  {
    var more := Prefixed(c, ways);
    hide Followed;
    forall i | 0 <= i < |more|
      ensures Leads(d, more[i]) && LogAt(d, more[i]) == LogAt(d.children[c], ways[i])
    {
      assert more[i][1..] == ways[i];
    }
  }

  lemma {:induction false} AgentsJoin(
    logs: seq<Log>, d: Dir, ways: seq<seq<nat>>, agents: seq<Agent>, more: seq<seq<nat>>, others: seq<Agent>,
    depth: nat)
    requires AgentsAt(logs, d, ways, agents, depth) && AgentsAt(logs, d, more, others, depth)
    ensures AgentsAt(logs, d, ways + more, agents + others, depth)
  {
    hide AgentAt;
  }

  /** Collecting a tree lists one agent for each directory, each before those below it, at the depth it lies. */
  lemma {:induction false} GatheredMeans(logs: seq<Log>, d: Dir, depth: nat)
    requires Held(logs, d)
    ensures AgentsAt(logs, d, Ways(d), Gathered(logs, d, depth), depth)
    decreases d, |d.children| + 1
  {
    HeldSelf(logs, d);
    AgentStates(logs[d.log], depth);
    GatheredInMeans(logs, d, |d.children|, depth);
    hide Followed, Held;
    assert AgentsAt(logs, d, [[]], [AgentOf(logs[d.log], depth)], depth);
    AgentsJoin(
      logs, d, [[]], [AgentOf(logs[d.log], depth)], WaysIn(d, |d.children|),
      GatheredIn(logs, d, |d.children|, depth + 1), depth);
  }

  lemma {:induction false} GatheredInMeans(logs: seq<Log>, d: Dir, n: nat, depth: nat)
    requires n <= |d.children| && Held(logs, d)
    ensures AgentsAt(logs, d, WaysIn(d, n), GatheredIn(logs, d, n, depth + 1), depth)
    decreases d, n
  {
    hide Followed, Held;
    if n > 0 {
      HeldChild(logs, d, n - 1);
      GatheredInMeans(logs, d, n - 1, depth);
      GatheredMeans(logs, d.children[n - 1], depth + 1);
      AgentsBelow(
        logs, d, n - 1, Ways(d.children[n - 1]), Gathered(logs, d.children[n - 1], depth + 1), depth);
      AgentsJoin(
        logs, d, WaysIn(d, n - 1), GatheredIn(logs, d, n - 1, depth + 1),
        Prefixed(n - 1, Ways(d.children[n - 1])), Gathered(logs, d.children[n - 1], depth + 1), depth);
    }
  }

  function Occurs(ways: seq<seq<nat>>, way: seq<nat>): nat {
    if |ways| == 0 then 0 else
      Occurs(ways[..|ways| - 1], way) + if ways[|ways| - 1] == way then 1 else 0
  }

  lemma {:induction false} OccursConcat(ways: seq<seq<nat>>, more: seq<seq<nat>>, way: seq<nat>)
    ensures Occurs(ways + more, way) == Occurs(ways, way) + Occurs(more, way)
  {
    if |more| == 0 {
      assert ways + more == ways;
    } else {
      assert (ways + more)[..|ways + more| - 1] == ways + more[..|more| - 1];
      OccursConcat(ways, more[..|more| - 1], way);
    }
  }

  /** Every way down is among them once, and no other. */
  lemma {:induction false} WaysAre(d: Dir, way: seq<nat>)
    ensures Occurs(Ways(d), way) == if Leads(d, way) then 1 else 0
    decreases d, |d.children| + 1
  {
    WaysInAre(d, |d.children|, way);
    OccursConcat([[]], WaysIn(d, |d.children|), way);
    OccursTop(way);
    hide Occurs, WaysIn;
  }

  lemma {:induction false} OccursTop(way: seq<nat>)
    ensures Occurs([[]], way) == if |way| == 0 then 1 else 0
  {
    var top: seq<seq<nat>> := [[]];
    assert top[..0] == [];
  }

  lemma {:induction false} WaysInAre(d: Dir, n: nat, way: seq<nat>)
    requires n <= |d.children|
    ensures Occurs(WaysIn(d, n), way) == if |way| > 0 && way[0] < n && Leads(d, way) then 1 else 0
    decreases d, n
  {
    if n > 0 {
      WaysInAre(d, n - 1, way);
      OccursConcat(WaysIn(d, n - 1), Prefixed(n - 1, Ways(d.children[n - 1])), way);
      PrefixedOccurs(n - 1, Ways(d.children[n - 1]), way);
      hide Ways, Occurs, Prefixed;
      if |way| > 0 && way[0] == n - 1 {
        WaysAre(d.children[n - 1], way[1..]);
      }
    }
  }

  lemma {:induction false} PrefixedOccurs(c: nat, ways: seq<seq<nat>>, way: seq<nat>)
    ensures Occurs(Prefixed(c, ways), way) == if |way| > 0 && way[0] == c then Occurs(ways, way[1..]) else 0
  {
    if |ways| > 0 {
      var before, last := ways[..|ways| - 1], ways[|ways| - 1];
      PrefixedOccurs(c, before, way);
      assert Prefixed(c, ways)[..|ways| - 1] == Prefixed(c, before);
      SameWay(c, last, way);
    }
  }

  lemma {:induction false} SameWay(c: nat, last: seq<nat>, way: seq<nat>)
    ensures [c] + last == way <==> |way| > 0 && way[0] == c && way[1..] == last
  {
    if |way| > 0 && way[0] == c {
      assert way == [c] + way[1..] && ([c] + last)[1..] == last;
    }
  }

  /** A directory's way comes before those that go on from it. */
  lemma {:induction false} WaysDown(d: Dir, i: nat, j: nat)
    requires i < |Ways(d)| && j < |Ways(d)| && Ways(d)[i] <= Ways(d)[j] && Ways(d)[i] != Ways(d)[j]
    ensures i < j
    decreases d, |d.children| + 1
  {
    if i > 0 {
      assert Ways(d)[i] == WaysIn(d, |d.children|)[i - 1];
      WaysInStart(d, |d.children|, i - 1);
      assert j > 0;
      assert Ways(d)[j] == WaysIn(d, |d.children|)[j - 1];
      WaysInDown(d, |d.children|, i - 1, j - 1);
    } else {
      assert Ways(d)[0] == [];
    }
  }

  lemma {:induction false} WaysInStart(d: Dir, n: nat, i: nat)
    requires n <= |d.children| && i < |WaysIn(d, n)|
    ensures |WaysIn(d, n)[i]| > 0 && WaysIn(d, n)[i][0] < n
    decreases d, n
  {
    if i < |WaysIn(d, n - 1)| {
      WaysInStart(d, n - 1, i);
    }
  }

  lemma {:induction false} WaysInHead(d: Dir, n: nat, i: nat)
    requires 0 < n <= |d.children| && i < |WaysIn(d, n)|
    ensures |WaysIn(d, n)[i]| > 0 && (WaysIn(d, n)[i][0] == n - 1 <==> i >= |WaysIn(d, n - 1)|)
  {
    if i < |WaysIn(d, n - 1)| {
      WaysInStart(d, n - 1, i);
      assert WaysIn(d, n)[i] == WaysIn(d, n - 1)[i];
    }
    hide Ways;
  }

  lemma {:induction false} WaysInDown(d: Dir, n: nat, i: nat, j: nat)
    requires n <= |d.children| && i < |WaysIn(d, n)| && j < |WaysIn(d, n)|
    requires WaysIn(d, n)[i] <= WaysIn(d, n)[j] && WaysIn(d, n)[i] != WaysIn(d, n)[j]
    ensures i < j
    decreases d, n
  {
    var k := |WaysIn(d, n - 1)|;
    WaysInHead(d, n, i);
    WaysInHead(d, n, j);
    if i < k {
      WaysInDown(d, n - 1, i, j);
    } else {
      var below := Ways(d.children[n - 1]);
      assert WaysIn(d, n)[i] == [n - 1] + below[i - k] && WaysIn(d, n)[j] == [n - 1] + below[j - k];
      assert below[i - k] == WaysIn(d, n)[i][1..] && below[j - k] == WaysIn(d, n)[j][1..];
      WaysDown(d.children[n - 1], i - k, j - k);
    }
  }
}
