/** The pairing of calls and results, told by the events of the log and the entries of its messages. */
module PairLaws {
  import opened Prelude
  import opened EpisodeLog
  import opened Pairing
  import opened PairedRuns

  /** Entry `x` of the message at `e` is a call, or the event is an inner call; ids and names are as stated. */
  predicate CallAt(events: seq<Event>, e: nat, x: nat, id: Option<string>, name: Option<string>) {
    e < |events| &&
    match events[e].body
    case AssistantMessage(_, _, entries, _, _) =>
      x < |entries| && entries[x].Call? && entries[x].id == id && entries[x].name == name
    case InnerCall(_, callId, callName, _) => x == 0 && callId == id && callName == name
    case _ => false
  }

  /** The event is the result of the call with the id. */
  predicate ResultAt(events: seq<Event>, r: nat, id: string) {
    r < |events| && events[r].body.ToolResult? && events[r].body.settles == Some(id)
  }

  ghost predicate EachNamed(events: seq<Event>) {
    forall e: nat, x: nat, id, name :: CallAt(events, e, x, id, name) ==> id.Some? && name.Some?
  }

  ghost predicate EachOnce(events: seq<Event>) {
    forall e: nat, x: nat, f: nat, y: nat, id, name, other ::
      CallAt(events, e, x, id, name) && CallAt(events, f, y, id, other) ==> e == f && x == y
  }

  /** A later result of the name settles the call. */
  predicate SettledBy(events: seq<Event>, e: nat, id: Option<string>, name: Option<string>, r: nat) {
    e < r && id.Some? && ResultAt(events, r, id.value) && events[r].body.resultName == name
  }

  ghost predicate EachSettled(events: seq<Event>) {
    forall e: nat, x: nat, id, name :: CallAt(events, e, x, id, name) ==>
      exists r: nat :: SettledBy(events, e, id, name, r)
  }

  ghost predicate ResultsOnce(events: seq<Event>) {
    forall q: nat, r: nat, id :: ResultAt(events, q, id) && ResultAt(events, r, id) ==> q == r
  }

  ghost predicate ResultsCalled(events: seq<Event>) {
    forall r: nat, id :: ResultAt(events, r, id) ==>
      exists e: nat, x: nat, name :: CallAt(events, e, x, Some(id), name)
  }

  /** How many inner calls of the outer call come before `e`. */
  function CountInner(events: seq<Event>, e: nat, outer: string): nat
    requires e <= |events|
  {
    if e == 0 then 0 else
      CountInner(events, e - 1, outer) +
      match events[e - 1].body
      case InnerCall(Some(name), _, _, _) => if name == outer then 1 else 0
      case _ => 0
  }

  /** A message before `e` calls with the id. */
  ghost predicate CalledBefore(events: seq<Event>, e: nat, outer: Option<string>) {
    exists f: nat, x: nat, name ::
      f < e && f < |events| && events[f].body.AssistantMessage? && CallAt(events, f, x, outer, name)
  }

  /** An inner call names a call that an earlier message made and no earlier result settled, and its turn in it. */
  ghost predicate InnerAt(events: seq<Event>, e: nat) {
    e < |events| && events[e].body.InnerCall? ==>
      var outer := events[e].body.outerId;
      && outer.Some?
      && events[e].body.index == Some(CountInner(events, e, outer.value))
      && CalledBefore(events, e, outer)
      && (forall r: nat :: r < e ==> !ResultAt(events, r, outer.value))
  }

  ghost predicate InnersInside(events: seq<Event>) {
    forall e: nat :: InnerAt(events, e)
  }

  /** Calls and results of the log correspond one to one, by id and name and in order, and inner calls nest. */
  ghost predicate CallsPair(events: seq<Event>) {
    && EachNamed(events) && EachOnce(events) && EachSettled(events)
    && ResultsOnce(events) && ResultsCalled(events) && InnersInside(events)
  }

  // Where a call stands among the operations.

  function Before(entries: seq<Entry>, x: nat): nat
    requires x <= |entries|
  {
    if x == 0 then 0 else Before(entries, x - 1) + if entries[x - 1].Call? then 1 else 0
  }

  lemma {:induction false} IssuedAtPlace(at: nat, entries: seq<Entry>, x: nat)
    requires x < |entries| && entries[x].Call?
    ensures Before(entries, x) < |Issued(at, entries)|
    ensures Issued(at, entries)[Before(entries, x)] == Issue(at, entries[x].id, entries[x].name)
  {
    IssuedCount(at, entries, |entries| - 1);
    assert entries[..|entries|] == entries;
    if x < |entries| - 1 {
      var fewer := entries[..|entries| - 1];
      IssuedAtPlace(at, fewer, x);
      BeforePrefix(fewer, entries, x);
    }
  }

  lemma {:induction false} BeforePrefix(fewer: seq<Entry>, entries: seq<Entry>, x: nat)
    requires fewer <= entries && x <= |fewer|
    ensures Before(fewer, x) == Before(entries, x)
  {
    if x > 0 {
      BeforePrefix(fewer, entries, x - 1);
    }
  }

  lemma {:induction false} IssuedCount(at: nat, entries: seq<Entry>, x: nat)
    requires x <= |entries|
    ensures |Issued(at, entries[..x])| == Before(entries, x)
  {
    if x > 0 {
      IssuedCount(at, entries, x - 1);
      assert entries[..x][..x - 1] == entries[..x - 1];
    }
  }

  lemma {:induction false} IssuedFrom(at: nat, entries: seq<Entry>, p: nat) returns (x: nat)
    requires p < |Issued(at, entries)|
    ensures x < |entries| && entries[x].Call? && Before(entries, x) == p
  {
    var n := |entries| - 1;
    IssuedCount(at, entries, n);
    if p == Before(entries, n) {
      x := n;
    } else {
      x := IssuedFrom(at, entries[..n], p);
      BeforePrefix(entries[..n], entries, x);
    }
  }

  lemma {:induction false} BeforeRises(entries: seq<Entry>, x: nat, y: nat)
    requires x < y <= |entries| && entries[x].Call?
    ensures Before(entries, x) < Before(entries, y)
  {
    if x < y - 1 {
      BeforeRises(entries, x, y - 1);
    }
  }

  function Rank(body: Body, x: nat): nat {
    match body
    case AssistantMessage(_, _, entries, _, _) => if x <= |entries| then Before(entries, x) else 0
    case _ => 0
  }

  /** The place among the operations of entry `x` of event `e`. */
  function PlaceOf(events: seq<Event>, e: nat, x: nat): nat
    requires e < |events|
  {
    |Ops(events[..e])| + Rank(events[e].body, x)
  }

  lemma {:induction false} OpsSplit(events: seq<Event>, e: nat)
    requires e < |events|
    ensures Ops(events[..e + 1]) == Ops(events[..e]) + OpsOf(e, events[e])
  {
    assert events[..e + 1][..e] == events[..e];
  }

  lemma {:induction false} OpsPrefix(events: seq<Event>, e: nat)
    requires e <= |events|
    ensures Ops(events[..e]) <= Ops(events)
    decreases |events| - e
  {
    if e == |events| {
      assert events[..e] == events;
    } else {
      OpsSplit(events, e);
      OpsPrefix(events, e + 1);
    }
  }

  lemma {:induction false} OpsRise(events: seq<Event>, e: nat, f: nat)
    requires e <= f <= |events|
    ensures |Ops(events[..e])| <= |Ops(events[..f])|
  {
    hide Ops, OpsOf;
    if e < f {
      OpsSplit(events, f - 1);
      OpsRise(events, e, f - 1);
    }
  }

  lemma {:induction false} OpHere(events: seq<Event>, e: nat, q: nat)
    requires e < |events| && q < |OpsOf(e, events[e])|
    ensures var p := |Ops(events[..e])| + q;
      p < |Ops(events[..e + 1])| <= |Ops(events)| && Ops(events)[p] == OpsOf(e, events[e])[q]
  {
    hide Ops, OpsOf;
    OpsSplit(events, e);
    OpsPrefix(events, e + 1);
    var before, upto, all := Ops(events[..e]), Ops(events[..e + 1]), Ops(events);
    assert upto[|before| + q] == OpsOf(e, events[e])[q];
    assert all[|before| + q] == upto[|before| + q];
  }

  lemma {:induction false} OpFrom(events: seq<Event>, p: nat) returns (e: nat, q: nat)
    requires p < |Ops(events)|
    ensures e < |events| && q < |OpsOf(e, events[e])| && p == |Ops(events[..e])| + q
  {
    var n := |events| - 1;
    if p < |Ops(events[..n])| {
      e, q := OpFrom(events[..n], p);
      assert events[..n][..e] == events[..e];
    } else {
      e, q := n, p - |Ops(events[..n])|;
    }
  }

  /** The operation a call makes. */
  predicate MakesOp(op: Op, e: nat, id: Option<string>, name: Option<string>) {
    Opening(op) && op.at == e && op.id == id && op.name == name
  }

  lemma {:induction false} CallHasOp(events: seq<Event>, e: nat, x: nat, id: Option<string>, name: Option<string>)
    requires CallAt(events, e, x, id, name)
    ensures e < |events| && var p := PlaceOf(events, e, x);
      && p < |Ops(events[..e + 1])| <= |Ops(events)| && MakesOp(Ops(events)[p], e, id, name)
      && (Ops(events)[p].Issue? <==> events[e].body.AssistantMessage?)
  {
    CallMakes(events, e, x, id, name);
    OpAtPlace(events, e, x);
    hide *;
  }

  lemma {:induction false} OpAtPlace(events: seq<Event>, e: nat, x: nat)
    requires e < |events| && Rank(events[e].body, x) < |OpsOf(e, events[e])|
    ensures PlaceOf(events, e, x) < |Ops(events[..e + 1])| <= |Ops(events)|
    ensures Ops(events)[PlaceOf(events, e, x)] == OpsOf(e, events[e])[Rank(events[e].body, x)]
  {
    OpHere(events, e, Rank(events[e].body, x));
    hide Ops, OpsOf, Rank;
  }

  lemma {:induction false} CallMakes(events: seq<Event>, e: nat, x: nat, id: Option<string>, name: Option<string>)
    requires CallAt(events, e, x, id, name)
    ensures e < |events| && var q, ops := Rank(events[e].body, x), OpsOf(e, events[e]);
      q < |ops| && MakesOp(ops[q], e, id, name) && (ops[q].Issue? <==> events[e].body.AssistantMessage?)
  {
    match events[e].body {
      case AssistantMessage(_, _, entries, _, _) =>
        IssuedAtPlace(e, entries, x);
      case InnerCall(_, _, _, _) =>
    }
  }

  lemma {:induction false} OpHasCall(events: seq<Event>, p: nat) returns (e: nat, x: nat)
    requires p < |Ops(events)| && Opening(Ops(events)[p])
    ensures CallAt(events, e, x, Ops(events)[p].id, Ops(events)[p].name) && p == PlaceOf(events, e, x)
    ensures Ops(events)[p].at == e && (Ops(events)[p].Issue? <==> events[e].body.AssistantMessage?)
    ensures Ops(events)[p].Inner? ==> var b := events[e].body;
      b.InnerCall? && Ops(events)[p].outer == b.outerId && Ops(events)[p].index == b.index
  {
    var q;
    e, q := OpFrom(events, p);
    OpHere(events, e, q);
    x := 0;
    if events[e].body.AssistantMessage? {
      x := IssuedFrom(e, events[e].body.toolCalls, q);
      IssuedAtPlace(e, events[e].body.toolCalls, x);
    }
    hide Ops;
  }

  lemma {:induction false} PlacesDiffer(
    events: seq<Event>, e: nat, x: nat, f: nat, y: nat, id: Option<string>, name: Option<string>, other: Option<string>)
    requires CallAt(events, e, x, id, name) && CallAt(events, f, y, id, other)
    requires PlaceOf(events, e, x) == PlaceOf(events, f, y)
    ensures e == f && x == y
  {
    CallHasOp(events, e, x, id, name);
    CallHasOp(events, f, y, id, other);
    hide Ops, Before;
    assert e == f;
    if events[e].body.AssistantMessage? {
      var entries := events[e].body.toolCalls;
      if x < y {
        BeforeRises(entries, x, y);
      } else if y < x {
        BeforeRises(entries, y, x);
      }
    }
  }

  lemma {:induction false} ResultHasOp(events: seq<Event>, r: nat, id: string)
    requires ResultAt(events, r, id)
    ensures var p := |Ops(events[..r])|;
      p < |Ops(events)| && Ops(events)[p] == Settle(r, id, events[r].body.resultName)
  {
    OpHere(events, r, 0);
    hide Ops;
  }

  lemma {:induction false} SettleOf(at: nat, event: Event, q: nat)
    requires q < |OpsOf(at, event)| && OpsOf(at, event)[q].Settle?
    ensures q == 0 && event.body.ToolResult? && event.body.settles == Some(OpsOf(at, event)[q].settled)
    ensures OpsOf(at, event)[q].at == at && OpsOf(at, event)[q].result == event.body.resultName
  {
    if event.body.AssistantMessage? {
      IssuedAt(at, event.body.toolCalls);
    }
  }

  lemma {:induction false} OpHasResult(events: seq<Event>, p: nat)
    requires p < |Ops(events)| && Ops(events)[p].Settle?
    ensures var op := Ops(events)[p];
      ResultAt(events, op.at, op.settled) && events[op.at].body.resultName == op.result && p == |Ops(events[..op.at])|
  {
    hide Ops;
    var e, q := OpFrom(events, p);
    OpHere(events, e, q);
    SettleOf(e, events[e], q);
  }

  // The two readings agree.

  lemma {:induction false} CallsAgree(events: seq<Event>)
    ensures CallsDistinct(Ops(events)) <==> EachNamed(events) && EachOnce(events)
  {
    var ops := Ops(events);
    hide Ops, CallAt;
    if CallsDistinct(ops) {
      forall e: nat, x: nat, id, name | CallAt(events, e, x, id, name)
        ensures id.Some? && name.Some?
      {
        CallHasOp(events, e, x, id, name);
      }
      forall e: nat, x: nat, f: nat, y: nat, id, name, other |
          CallAt(events, e, x, id, name) && CallAt(events, f, y, id, other)
        ensures e == f && x == y
      {
        CallHasOp(events, e, x, id, name);
        CallHasOp(events, f, y, id, other);
        CallInside(events, e, x, id, name);
        CallInside(events, f, y, id, other);
        var p, q := PlaceOf(events, e, x), PlaceOf(events, f, y);
        assert ops[p].id == ops[q].id;
        PlacesDiffer(events, e, x, f, y, id, name, other);
      }
    }
    if EachNamed(events) && EachOnce(events) {
      forall p | 0 <= p < |ops| && Opening(ops[p])
        ensures WellNamed(ops[p])
      {
        var e, x := OpHasCall(events, p);
      }
      forall p, q | 0 <= p < q < |ops| && Opening(ops[p]) && Opening(ops[q])
        ensures ops[p].id != ops[q].id
      {
        var e, x := OpHasCall(events, p);
        var f, y := OpHasCall(events, q);
      }
    }
  }

  lemma {:induction false} CallInside(events: seq<Event>, e: nat, x: nat, id: Option<string>, name: Option<string>)
    requires CallAt(events, e, x, id, name)
    ensures e < |events| && (events[e].body.AssistantMessage? || events[e].body.InnerCall?)
  {
  }

  lemma {:induction false} SettledAgree(events: seq<Event>)
    requires EachNamed(events)
    ensures CallsMatched(Ops(events)) <==> EachSettled(events)
  {
    var ops := Ops(events);
    OpsTimed(events);
    hide Ops, CallAt, EachNamed;
    if CallsMatched(ops) {
      forall e: nat, x: nat, id, name | CallAt(events, e, x, id, name)
        ensures exists r: nat :: SettledBy(events, e, id, name, r)
      {
        CallHasOp(events, e, x, id, name);
        CallInside(events, e, x, id, name);
        var p := PlaceOf(events, e, x);
        var q :| Settles(ops, p, q);
        OpHasResult(events, q);
        assert SettledBy(events, e, id, name, ops[q].at);
      }
    }
    if EachSettled(events) {
      forall p | 0 <= p < |ops| && Opening(ops[p])
        ensures exists q :: Settles(ops, p, q)
      {
        var e, x := OpHasCall(events, p);
        var r: nat :| SettledBy(events, e, ops[p].id, ops[p].name, r);
        ResultHasOp(events, r, ops[p].id.value);
        NamedHere(events, e, x, ops[p].id, ops[p].name);
        CallHasOp(events, e, x, ops[p].id, ops[p].name);
        OpsRise(events, e + 1, r);
        assert Settles(ops, p, |Ops(events[..r])|);
      }
    }
  }

  lemma {:induction false} NamedHere(events: seq<Event>, e: nat, x: nat, id: Option<string>, name: Option<string>)
    requires EachNamed(events) && CallAt(events, e, x, id, name)
    ensures id.Some? && name.Some? && e < |events|
  {
    hide CallAt;
    CallInside(events, e, x, id, name);
  }

  lemma {:induction false} ResultsAgree(events: seq<Event>)
    requires EachNamed(events) && EachOnce(events) && EachSettled(events)
    ensures ResultsMatched(Ops(events)) <==> ResultsOnce(events) && ResultsCalled(events)
  {
    hide CallAt, EachNamed, EachOnce, EachSettled, Ops;
    if ResultsMatched(Ops(events)) {
      MatchedResults(events);
    }
    if ResultsOnce(events) && ResultsCalled(events) {
      CalledResults(events);
    }
  }

  lemma {:induction false} MatchedResults(events: seq<Event>)
    requires ResultsMatched(Ops(events))
    ensures ResultsOnce(events) && ResultsCalled(events)
  {
    var ops := Ops(events);
    hide Ops, CallAt;
    forall q: nat, r: nat, id | ResultAt(events, q, id) && ResultAt(events, r, id)
      ensures q == r
    {
      ResultHasOp(events, q, id);
      ResultHasOp(events, r, id);
      var i, j := |Ops(events[..q])|, |Ops(events[..r])|;
      assert ops[i].settled == ops[j].settled;
      assert i == j;
    }
    forall r: nat, id | ResultAt(events, r, id)
      ensures exists e: nat, x: nat, name :: CallAt(events, e, x, Some(id), name)
    {
      ResultHasOp(events, r, id);
      var p :| Settles(ops, p, |Ops(events[..r])|);
      var e, x := OpHasCall(events, p);
      assert CallAt(events, e, x, Some(id), ops[p].name);
    }
  }

  lemma {:induction false} CalledResults(events: seq<Event>)
    requires EachNamed(events) && EachSettled(events) && ResultsOnce(events) && ResultsCalled(events)
    ensures ResultsMatched(Ops(events))
  {
    var ops := Ops(events);
    hide Ops, CallAt, EachNamed;
    forall p, q | 0 <= p < q < |ops| && ops[p].Settle? && ops[q].Settle?
      ensures ops[p].settled != ops[q].settled
    {
      OpHasResult(events, p);
      OpHasResult(events, q);
    }
    forall q | 0 <= q < |ops| && ops[q].Settle?
      ensures exists p :: Settles(ops, p, q)
    {
      OpHasResult(events, q);
      var id, r := ops[q].settled, ops[q].at;
      var e: nat, x: nat, name :| CallAt(events, e, x, Some(id), name);
      var s: nat :| SettledBy(events, e, Some(id), name, s);
      assert s == r;
      NamedHere(events, e, x, Some(id), name);
      CallHasOp(events, e, x, Some(id), name);
      OpsRise(events, e + 1, r);
      assert Settles(ops, PlaceOf(events, e, x), q);
    }
  }

  lemma {:induction false} InnerCounted(events: seq<Event>, e: nat, outer: string)
    requires e <= |events|
    ensures InnerBefore(Ops(events[..e]), outer) == CountInner(events, e, outer)
  {
    if e > 0 {
      InnerCounted(events, e - 1, outer);
      OpsSplit(events, e - 1);
      InnerConcat(Ops(events[..e - 1]), OpsOf(e - 1, events[e - 1]), outer);
      InnerOfEvent(e - 1, events[e - 1], outer);
      hide Ops, OpsOf;
    }
  }

  lemma {:induction false} InnerConcat(a: seq<Op>, b: seq<Op>, outer: string)
    ensures InnerBefore(a + b, outer) == InnerBefore(a, outer) + InnerBefore(b, outer)
  {
    if b == [] {
      assert a + b == a;
    } else {
      assert (a + b)[..|a + b| - 1] == a + b[..|b| - 1];
      InnerConcat(a, b[..|b| - 1], outer);
    }
  }

  lemma {:induction false} InnerOfEvent(at: nat, event: Event, outer: string)
    ensures InnerBefore(OpsOf(at, event), outer) ==
      match event.body
      case InnerCall(Some(name), _, _, _) => if name == outer then 1 else 0
      case _ => 0
  {
    match event.body {
      case AssistantMessage(_, _, entries, _, _) =>
        IssuedAt(at, entries);
        NoInner(Issued(at, entries), outer);
      case InnerCall(_, _, _, _) =>
        assert OpsOf(at, event)[..0] == [];
      case ToolResult(Some(_), _, _, _) =>
        assert OpsOf(at, event)[..0] == [];
      case _ =>
    }
  }

  lemma {:induction false} NoInner(ops: seq<Op>, outer: string)
    requires forall p :: 0 <= p < |ops| ==> ops[p].Issue?
    ensures InnerBefore(ops, outer) == 0
  {
    if ops != [] {
      NoInner(ops[..|ops| - 1], outer);
    }
  }

  /** The operation of an inner call, and the operations before it. */
  lemma {:induction false} InnerHasOp(events: seq<Event>, e: nat)
    requires e < |events| && events[e].body.InnerCall?
    ensures var p, b := |Ops(events[..e])|, events[e].body;
      && p < |Ops(events)| && Ops(events)[p] == Inner(e, b.outerId, b.callId, b.callName, b.index)
      && Ops(events)[..p] == Ops(events[..e])
  {
    OpHere(events, e, 0);
    OpsPrefix(events, e);
    hide Ops;
  }

  lemma {:induction false} InnerAgrees(events: seq<Event>, e: nat)
    requires e < |events| && events[e].body.InnerCall?
    ensures |Ops(events[..e])| < |Ops(events)| && Ops(events)[|Ops(events[..e])|].Inner?
    ensures InnerNestedAt(Ops(events), |Ops(events[..e])|) <==> InnerAt(events, e)
  {
    var ops, p, outer := Ops(events), |Ops(events[..e])|, events[e].body.outerId;
    InnerHasOp(events, e);
    hide Ops, CallAt;
    if outer.Some? {
      InnerCounted(events, e, outer.value);
      IssuedAgrees(events, e, outer);
      ResultsBefore(events, e, outer.value);
    }
  }

  ghost predicate IssuedBefore(ops: seq<Op>, p: nat, outer: Option<string>) {
    exists k :: 0 <= k < p && k < |ops| && ops[k].Issue? && ops[k].id == outer
  }

  lemma {:induction false} IssuedAgrees(events: seq<Event>, e: nat, outer: Option<string>)
    requires e < |events| && events[e].body.InnerCall? && |Ops(events[..e])| < |Ops(events)|
    ensures IssuedBefore(Ops(events), |Ops(events[..e])|, outer) <==> CalledBefore(events, e, outer)
  {
    hide *;
    if IssuedBefore(Ops(events), |Ops(events[..e])|, outer) {
      IssuedIsCalled(events, e, outer);
    }
    if CalledBefore(events, e, outer) {
      CalledIsIssued(events, e, outer);
    }
  }

  lemma {:induction false} IssuedIsCalled(events: seq<Event>, e: nat, outer: Option<string>)
    requires e < |events| && events[e].body.InnerCall? && |Ops(events[..e])| < |Ops(events)|
    requires IssuedBefore(Ops(events), |Ops(events[..e])|, outer)
    ensures CalledBefore(events, e, outer)
  {
    var ops, p := Ops(events), |Ops(events[..e])|;
    OpsTimed(events);
    InnerHasOp(events, e);
    hide Ops, CallAt;
    var k :| 0 <= k < p && k < |ops| && ops[k].Issue? && ops[k].id == outer;
    var f, x := OpHasCall(events, k);
    assert f < e && CallAt(events, f, x, outer, ops[k].name);
  }

  lemma {:induction false} CalledIsIssued(events: seq<Event>, e: nat, outer: Option<string>)
    requires e < |events| && events[e].body.InnerCall? && |Ops(events[..e])| < |Ops(events)|
    requires CalledBefore(events, e, outer)
    ensures IssuedBefore(Ops(events), |Ops(events[..e])|, outer)
  {
    var ops, p := Ops(events), |Ops(events[..e])|;
    hide Ops, CallAt;
    var f: nat, x: nat, name :| f < e && events[f].body.AssistantMessage? && CallAt(events, f, x, outer, name);
    CallHasOp(events, f, x, outer, name);
    OpsRise(events, f + 1, e);
    var k := PlaceOf(events, f, x);
    assert 0 <= k < p && ops[k].Issue? && ops[k].id == outer;
  }

  lemma {:induction false} ResultsBefore(events: seq<Event>, e: nat, id: string)
    requires e < |events| && events[e].body.InnerCall? && |Ops(events[..e])| < |Ops(events)|
    ensures (forall q :: 0 <= q < |Ops(events[..e])| && Ops(events)[q].Settle? ==> Ops(events)[q].settled != id) <==>
      forall r: nat :: r < e ==> !ResultAt(events, r, id)
  {
    var ops, p := Ops(events), |Ops(events[..e])|;
    OpsTimed(events);
    InnerHasOp(events, e);
    hide Ops;
    if forall q :: 0 <= q < p && ops[q].Settle? ==> ops[q].settled != id {
      forall r: nat | r < e
        ensures !ResultAt(events, r, id)
      {
        if ResultAt(events, r, id) {
          ResultHasOp(events, r, id);
          OpHere(events, r, 0);
          OpsRise(events, r + 1, e);
        }
      }
    }
    if forall r: nat :: r < e ==> !ResultAt(events, r, id) {
      forall q | 0 <= q < p && ops[q].Settle?
        ensures ops[q].settled != id
      {
        OpHasResult(events, q);
      }
    }
  }

  lemma {:induction false} InnersAgree(events: seq<Event>)
    ensures InnerNested(Ops(events)) <==> InnersInside(events)
  {
    var ops := Ops(events);
    hide Ops, InnerNestedAt, InnerAt;
    forall e: nat | e < |events| && events[e].body.InnerCall?
      ensures |Ops(events[..e])| < |ops| && ops[|Ops(events[..e])|].Inner?
      ensures InnerNestedAt(ops, |Ops(events[..e])|) <==> InnerAt(events, e)
    {
      InnerAgrees(events, e);
    }
    forall e: nat
      ensures InnerAt(events, e) || (e < |events| && events[e].body.InnerCall?)
    {
      NotInner(events, e);
    }
    forall p | 0 <= p < |ops| && ops[p].Inner?
      ensures exists e: nat :: e < |events| && events[e].body.InnerCall? && p == |Ops(events[..e])|
    {
      var e, x := OpHasCall(events, p);
      assert p == |Ops(events[..e])|;
    }
  }

  lemma {:induction false} NotInner(events: seq<Event>, e: nat)
    ensures InnerAt(events, e) || (e < |events| && events[e].body.InnerCall?)
  {
  }

  /** The checks on calls and results pass exactly when the log's calls and results correspond. */
  lemma {:induction false} PairingMeans(events: seq<Event>)
    ensures TwoPass(Ops(events)) <==> CallsPair(events)
  {
    hide TwoPass, Ops, CallsDistinct, CallsMatched, ResultsMatched, InnerNested;
    hide EachNamed, EachOnce, EachSettled, ResultsOnce, ResultsCalled, InnersInside;
    AcceptedRunsPair(events);
    CallsAgree(events);
    if EachNamed(events) && EachOnce(events) {
      SettledAgree(events);
      if EachSettled(events) {
        ResultsAgree(events);
      }
    }
    InnersAgree(events);
  }
}
