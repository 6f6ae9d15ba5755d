/**
 * Call and result pairing. The checker collects calls and results in one pass and compares the two
 * tables afterwards; a monitor that only holds the open calls decides the same runs on line.
 */
module Pairing {
  import opened Prelude
  import opened EpisodeLog

  /** What the pairing check reads of a log: calls a message issues, inner calls, and results that name a call. */
  datatype Op =
    | Issue(at: nat, id: Option<string>, name: Option<string>)
    | Inner(at: nat, outer: Option<string>, id: Option<string>, name: Option<string>, index: Option<int>)
    | Settle(at: nat, settled: string, result: Option<string>)

  function OpsOf(at: nat, event: Event): seq<Op> {
    match event.body
    case AssistantMessage(_, _, calls, _, _) => Issued(at, calls)
    case InnerCall(outer, id, name, index) => [Inner(at, outer, id, name, index)]
    case ToolResult(Some(id), name, _, _) => [Settle(at, id, name)]
    case _ => []
  }

  function Issued(at: nat, calls: seq<Entry>): seq<Op> {
    if |calls| == 0 then [] else
      Issued(at, calls[..|calls| - 1]) +
      match calls[|calls| - 1]
      case Call(id, name, _) => [Issue(at, id, name)]
      case NotAnObject => []
  }

  function Ops(events: seq<Event>): seq<Op> {
    if |events| == 0 then [] else
      Ops(events[..|events| - 1]) + OpsOf(|events| - 1, events[|events| - 1])
  }

  /** The checker's tables after a run, and whether every check made on the way passed. */
  datatype Tables = Tables(
    ok: bool,
    calls: map<string, (nat, string)>,
    issued: set<string>,
    inner: map<string, seq<int>>,
    results: map<string, seq<(nat, Option<string>)>>)

  const NoTables := Tables(true, map[], {}, map[], map[])

  function Indices(inner: map<string, seq<int>>, outer: string): seq<int> {
    if outer in inner then inner[outer] else []
  }

  /** The checks one operation meets, given the tables before it. */
  predicate OpOk(t: Tables, op: Op) {
    match op
    case Issue(_, id, name) => id.Some? && id.value !in t.calls && name.Some?
    case Inner(_, outer, id, name, index) =>
      && outer.Some? && outer.value in t.issued && outer.value !in t.results
      && id.Some? && id.value !in t.calls && name.Some?
      && index == Some(|Indices(t.inner, outer.value)|)
    case Settle(_, _, _) => true
  }

  function Record(t: Tables, op: Op): Tables {
    var t' := t.(ok := t.ok && OpOk(t, op));
    match op
    case Issue(at, id, name) =>
      if id.Some? && name.Some? then
        t'.(calls := t.calls[id.value := (at, name.value)], issued := t.issued + {id.value})
      else t'
    case Inner(at, outer, id, name, index) =>
      var indices := if outer.Some? then Indices(t.inner, outer.value) else [];
      var more := if index.Some? then indices + [index.value] else indices;
      t'.(inner := if outer.Some? then t.inner[outer.value := more] else t.inner,
          calls := if id.Some? && id.value !in t.calls && name.Some?
                   then t.calls[id.value := (at, name.value)] else t.calls)
    case Settle(at, id, result) =>
      t'.(results := t.results[id := (if id in t.results then t.results[id] else []) + [(at, result)]])
  }

  function Collect(ops: seq<Op>): Tables {
    if |ops| == 0 then NoTables else Record(Collect(ops[..|ops| - 1]), ops[|ops| - 1])
  }

  predicate SettledOnce(t: Tables, id: string)
    requires id in t.calls
  {
    id in t.results && |t.results[id]| == 1 &&
    t.results[id][0].0 > t.calls[id].0 && t.results[id][0].1 == Some(t.calls[id].1)
  }

  predicate Accepts(t: Tables) {
    && t.ok
    && (forall id :: id in t.calls ==> SettledOnce(t, id))
    && (forall id :: id in t.results ==> id in t.calls && |t.results[id]| == 1)
  }

  /** The checker's verdict on the calls and results of a log. */
  predicate TwoPass(ops: seq<Op>) {
    Accepts(Collect(ops))
  }

  /** The one-pass monitor: which calls are open under what name, and which ids were ever used. */
  datatype Monitor = Monitor(open: map<string, string>, used: set<string>, issued: set<string>, inner: map<string, nat>)

  function Opened(inner: map<string, nat>, outer: string): nat {
    if outer in inner then inner[outer] else 0
  }

  function Observe(m: Monitor, op: Op): Option<Monitor> {
    match op
    case Issue(_, Some(id), Some(name)) =>
      if id in m.used then None else
        Some(m.(open := m.open[id := name], used := m.used + {id}, issued := m.issued + {id}))
    case Inner(_, Some(outer), Some(id), Some(name), Some(index)) =>
      if outer !in m.open || outer !in m.issued || id in m.used || index != Opened(m.inner, outer) then None else
        Some(m.(open := m.open[id := name], used := m.used + {id}, inner := m.inner[outer := index + 1]))
    case Settle(_, id, Some(name)) =>
      if id in m.open && m.open[id] == name then Some(m.(open := m.open - {id})) else None
    case _ => None
  }

  function Watch(ops: seq<Op>): Option<Monitor> {
    if |ops| == 0 then Some(Monitor(map[], {}, {}, map[])) else
      match Watch(ops[..|ops| - 1])
      case None => None
      case Some(m) => Observe(m, ops[|ops| - 1])
  }

  predicate OnePass(ops: seq<Op>) {
    var m := Watch(ops);
    m.Some? && m.value.open == map[]
  }

  /** Operations come in log order, and only the calls of one message share an event. */
  ghost predicate Timed(ops: seq<Op>) {
    forall i, j :: 0 <= i < j < |ops| ==>
      ops[i].at <= ops[j].at && (ops[i].at == ops[j].at ==> ops[i].Issue? && ops[j].Issue?)
  }

  lemma {:induction false} IssuedAt(at: nat, calls: seq<Entry>)
    ensures forall i :: 0 <= i < |Issued(at, calls)| ==> Issued(at, calls)[i].Issue? && Issued(at, calls)[i].at == at
  {
    if |calls| > 0 {
      IssuedAt(at, calls[..|calls| - 1]);
    }
  }

  lemma {:induction false} OpsTimed(events: seq<Event>)
    ensures Timed(Ops(events))
    ensures forall i :: 0 <= i < |Ops(events)| ==> Ops(events)[i].at < |events|
  {
    if |events| > 0 {
      var last := events[|events| - 1];
      OpsTimed(events[..|events| - 1]);
      if last.body.AssistantMessage? {
        IssuedAt(|events| - 1, last.body.toolCalls);
      }
    }
  }

  /** The tables and the monitor describe the same state. */
  ghost predicate Agree(t: Tables, m: Monitor, now: nat) {
    && t.ok
    && t.calls.Keys == m.used
    && t.issued == m.issued
    && m.issued <= m.used
    && m.open.Keys <= m.used
    && t.results.Keys == m.used - m.open.Keys
    && (forall id :: id in m.open ==> t.calls[id].1 == m.open[id])
    && (forall id :: id in t.results ==> SettledOnce(t, id))
    && (forall id :: id in t.calls ==> t.calls[id].0 <= now)
    && (forall outer :: |Indices(t.inner, outer)| == Opened(m.inner, outer))
  }

  lemma {:induction false} OpeningAgrees(t: Tables, m: Monitor, now: nat, op: Op)
    requires Agree(t, m, now) && Observe(m, op).Some? && now <= op.at && !op.Settle?
    ensures Agree(Record(t, op), Observe(m, op).value, op.at)
  {
    var t', m' := Record(t, op), Observe(m, op).value;
    assert op.id.value !in t.results;
    forall o ensures |Indices(t'.inner, o)| == Opened(m'.inner, o) {
      assert |Indices(t.inner, o)| == Opened(m.inner, o);
    }
  }

  lemma {:induction false} SettlingAgrees(t: Tables, m: Monitor, now: nat, op: Op)
    requires Agree(t, m, now) && Observe(m, op).Some? && now < op.at && op.Settle?
    ensures Agree(Record(t, op), Observe(m, op).value, op.at)
  {
    var t', m' := Record(t, op), Observe(m, op).value;
    assert op.settled !in t.results;
    forall o ensures |Indices(t'.inner, o)| == Opened(m'.inner, o) {
      assert |Indices(t.inner, o)| == Opened(m.inner, o);
    }
  }

  ghost function Clock(ops: seq<Op>): nat {
    if |ops| == 0 then 0 else ops[|ops| - 1].at
  }

  lemma {:induction false} MonitorAgrees(ops: seq<Op>)
    requires Timed(ops) && Watch(ops).Some?
    ensures Agree(Collect(ops), Watch(ops).value, Clock(ops))
  {
    if |ops| > 0 {
      var before, op := ops[..|ops| - 1], ops[|ops| - 1];
      MonitorAgrees(before);
      if op.Settle? {
        SettlingAgrees(Collect(before), Watch(before).value, Clock(before), op);
      } else {
        OpeningAgrees(Collect(before), Watch(before).value, Clock(before), op);
      }
    }
  }

  /** What the tables `t` hold is still in `later`; a call only `later` holds was made at `at` or after. */
  ghost predicate Extends(t: Tables, later: Tables, at: nat) {
    && t.ok
    && (forall id :: id in t.calls ==> id in later.calls && later.calls[id] == t.calls[id])
    && (forall id :: id in later.calls && id !in t.calls ==> later.calls[id].0 >= at)
    && (forall id :: id in t.results ==> id in later.results && t.results[id] <= later.results[id])
  }

  lemma {:induction false} RecordExtends(t: Tables, op: Op)
    requires Record(t, op).ok
    ensures Extends(t, Record(t, op), op.at)
  {
  }

  /** What the tables hold after a prefix survives to the end of an accepted run. */
  lemma {:induction false} TablesPersist(ops: seq<Op>, k: nat)
    requires k <= |ops| && Timed(ops) && Collect(ops).ok
    ensures Extends(Collect(ops[..k]), Collect(ops), if k < |ops| then ops[k].at else 0)
    decreases |ops| - k
  {
    if k == |ops| {
      assert ops[..k] == ops;
    } else {
      TablesPersist(ops, k + 1);
      assert ops[..k + 1][..k] == ops[..k];
      RecordExtends(Collect(ops[..k]), ops[k]);
    }
  }

  lemma {:induction false} AcceptedResult(t: Tables, m: Monitor, now: nat, op: Op, last: Tables)
    requires op.Settle? && Agree(t, m, now) && Accepts(last)
    requires Extends(t, last, op.at) && Extends(Record(t, op), last, 0)
    ensures Observe(m, op).Some?
  {
    var id := op.settled;
    assert id !in t.results by {
      assert Record(t, op).results[id] <= last.results[id];
    }
    assert Record(t, op).results[id] == [(op.at, op.result)];
    assert SettledOnce(last, id);
    assert id in t.calls;
  }

  lemma {:induction false} AcceptedOpening(t: Tables, m: Monitor, now: nat, op: Op)
    requires !op.Settle? && Agree(t, m, now) && Record(t, op).ok
    ensures Observe(m, op).Some?
  {
    if op.Inner? {
      assert |Indices(t.inner, op.outer.value)| == Opened(m.inner, op.outer.value);
    }
  }

  /** In an accepted run the monitor never gets stuck: every result finds its call open. */
  lemma {:induction false} AcceptedIsWatched(ops: seq<Op>, k: nat)
    requires k <= |ops| && Timed(ops) && TwoPass(ops)
    ensures Watch(ops[..k]).Some?
  {
    if k > 0 {
      AcceptedIsWatched(ops, k - 1);
      assert ops[..k][..k - 1] == ops[..k - 1];
      MonitorAgrees(ops[..k - 1]);
      TablesPersist(ops, k - 1);
      TablesPersist(ops, k);
      var t, m, op := Collect(ops[..k - 1]), Watch(ops[..k - 1]).value, ops[k - 1];
      if op.Settle? {
        AcceptedResult(t, m, Clock(ops[..k - 1]), op, Collect(ops));
      } else {
        AcceptedOpening(t, m, Clock(ops[..k - 1]), op);
      }
    }
  }

  /** The two-pass check accepts exactly the runs the one-pass monitor accepts. */
  lemma {:induction false} TwoPassIsOnePass(events: seq<Event>)
    ensures TwoPass(Ops(events)) <==> OnePass(Ops(events))
  {
    var ops := Ops(events);
    OpsTimed(events);
    assert ops[..|ops|] == ops;
    if TwoPass(ops) {
      AcceptedIsWatched(ops, |ops|);
      MonitorAgrees(ops);
      var t, m := Collect(ops), Watch(ops).value;
      assert forall id :: id in t.calls ==> SettledOnce(t, id);
      assert m.open.Keys == {};
    } else if OnePass(ops) {
      MonitorAgrees(ops);
      assert false;
    }
  }
}
