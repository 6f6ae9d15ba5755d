/** Acceptance of calls and results in terms of positions: a correspondence that keeps order and names. */
module PairedRuns {
  import opened Prelude
  import opened EpisodeLog
  import opened Pairing

  predicate Opening(op: Op) {
    !op.Settle?
  }

  predicate WellNamed(op: Op) {
    Opening(op) && op.id.Some? && op.name.Some?
  }

  /** The names of the calls a run opens, the ids a message issued, and the ids a result settles. */
  function Names(ops: seq<Op>): map<string, string> {
    if |ops| == 0 then map[] else
      var names, op := Names(ops[..|ops| - 1]), ops[|ops| - 1];
      if WellNamed(op) then names[op.id.value := op.name.value] else names
  }

  function IssuedIds(ops: seq<Op>): set<string> {
    if |ops| == 0 then {} else
      var ids, op := IssuedIds(ops[..|ops| - 1]), ops[|ops| - 1];
      if op.Issue? && op.id.Some? then ids + {op.id.value} else ids
  }

  function SettledIds(ops: seq<Op>): set<string> {
    if |ops| == 0 then {} else
      var ids, op := SettledIds(ops[..|ops| - 1]), ops[|ops| - 1];
      if op.Settle? then ids + {op.settled} else ids
  }

  function InnerBefore(ops: seq<Op>, outer: string): nat {
    if |ops| == 0 then 0 else
      InnerBefore(ops[..|ops| - 1], outer)
        + (var op := ops[|ops| - 1]; if op.Inner? && op.outer == Some(outer) then 1 else 0)
  }

  lemma {:induction false} NameAt(ops: seq<Op>, p: nat)
    requires p < |ops| && WellNamed(ops[p])
    ensures ops[p].id.value in Names(ops)
  {
    if p < |ops| - 1 {
      NameAt(ops[..|ops| - 1], p);
    }
  }

  lemma {:induction false} NameFrom(ops: seq<Op>, id: string) returns (p: nat)
    requires id in Names(ops)
    ensures p < |ops| && WellNamed(ops[p]) && ops[p].id == Some(id) && ops[p].name == Some(Names(ops)[id])
  {
    var n := |ops| - 1;
    if WellNamed(ops[n]) && ops[n].id == Some(id) {
      p := n;
    } else {
      p := NameFrom(ops[..n], id);
    }
  }

  lemma {:induction false} IssuedIdAt(ops: seq<Op>, p: nat)
    requires p < |ops| && ops[p].Issue? && ops[p].id.Some?
    ensures ops[p].id.value in IssuedIds(ops)
  {
    if p < |ops| - 1 {
      IssuedIdAt(ops[..|ops| - 1], p);
    }
  }

  lemma {:induction false} IssuedIdFrom(ops: seq<Op>, id: string) returns (p: nat)
    requires id in IssuedIds(ops)
    ensures p < |ops| && ops[p].Issue? && ops[p].id == Some(id)
  {
    var n := |ops| - 1;
    if ops[n].Issue? && ops[n].id == Some(id) {
      p := n;
    } else {
      p := IssuedIdFrom(ops[..n], id);
    }
  }

  lemma {:induction false} SettledIdAt(ops: seq<Op>, p: nat)
    requires p < |ops| && ops[p].Settle?
    ensures ops[p].settled in SettledIds(ops)
  {
    if p < |ops| - 1 {
      SettledIdAt(ops[..|ops| - 1], p);
    }
  }

  lemma {:induction false} SettledIdFrom(ops: seq<Op>, id: string) returns (p: nat)
    requires id in SettledIds(ops)
    ensures p < |ops| && ops[p].Settle? && ops[p].settled == id
  {
    var n := |ops| - 1;
    if ops[n].Settle? && ops[n].settled == id {
      p := n;
    } else {
      p := SettledIdFrom(ops[..n], id);
    }
  }

  /** The monitor's state is a function of what the run opened, issued and settled. */
  ghost predicate Knows(m: Monitor, ops: seq<Op>) {
    && m.used == Names(ops).Keys
    && m.issued == IssuedIds(ops)
    && SettledIds(ops) <= m.used
    && IssuedIds(ops) <= m.used
    && m.open == Names(ops) - SettledIds(ops)
    && (forall outer :: Opened(m.inner, outer) == InnerBefore(ops, outer))
  }

  lemma {:induction false} MonitorKnows(ops: seq<Op>)
    requires Watch(ops).Some?
    ensures Knows(Watch(ops).value, ops)
  {
    if |ops| > 0 {
      var before, op := ops[..|ops| - 1], ops[|ops| - 1];
      MonitorKnows(before);
      var m, next := Watch(before).value, Watch(ops).value;
      match op {
        case Issue(_, _, _) =>
          assert op.id.value !in SettledIds(before);
        case Inner(_, outer, _, _, _) =>
          assert op.id.value !in SettledIds(before);
          forall o
            ensures Opened(next.inner, o) == InnerBefore(ops, o)
          {
            assert Opened(m.inner, o) == InnerBefore(before, o);
          }
        case Settle(_, id, _) =>
          assert Names(ops) - SettledIds(ops) == (Names(before) - SettledIds(before)) - {id};
      }
    }
  }

  lemma {:induction false} WatchedPrefix(ops: seq<Op>, k: nat)
    requires k <= |ops| && Watch(ops).Some?
    ensures Watch(ops[..k]).Some?
    decreases |ops| - k
  {
    if k == |ops| {
      assert ops[..k] == ops;
    } else {
      WatchedPrefix(ops, k + 1);
      assert ops[..k + 1][..k] == ops[..k];
    }
  }

  /** The operation at `k` of a watched run, seen against what came before it. */
  lemma {:induction false} WatchedAt(ops: seq<Op>, k: nat) returns (m: Monitor)
    requires k < |ops| && Watch(ops).Some?
    ensures Knows(m, ops[..k]) && Observe(m, ops[k]).Some?
  {
    WatchedPrefix(ops, k);
    WatchedPrefix(ops, k + 1);
    assert ops[..k + 1][..k] == ops[..k];
    m := Watch(ops[..k]).value;
    MonitorKnows(ops[..k]);
  }

  /** The result at `q` settles the call opened at `p`. */
  ghost predicate Settles(ops: seq<Op>, p: int, q: int) {
    0 <= p < q < |ops| && WellNamed(ops[p]) && ops[q].Settle? && ops[p].id == Some(ops[q].settled) &&
      ops[p].name == ops[q].result
  }

  ghost predicate CallsDistinct(ops: seq<Op>) {
    && (forall p :: 0 <= p < |ops| && Opening(ops[p]) ==> WellNamed(ops[p]))
    && (forall p, q :: 0 <= p < q < |ops| && Opening(ops[p]) && Opening(ops[q]) ==> ops[p].id != ops[q].id)
  }

  ghost predicate ResultsMatched(ops: seq<Op>) {
    && (forall p, q :: 0 <= p < q < |ops| && ops[p].Settle? && ops[q].Settle? ==> ops[p].settled != ops[q].settled)
    && (forall q :: 0 <= q < |ops| && ops[q].Settle? ==> exists p :: Settles(ops, p, q))
  }

  ghost predicate CallsMatched(ops: seq<Op>) {
    forall p :: 0 <= p < |ops| && Opening(ops[p]) ==> exists q :: Settles(ops, p, q)
  }

  /** An inner call opens while the call a message issued is unsettled, and counts from zero within it. */
  ghost predicate InnerNested(ops: seq<Op>) {
    forall p :: 0 <= p < |ops| && ops[p].Inner? ==> InnerNestedAt(ops, p)
  }

  ghost predicate InnerNestedAt(ops: seq<Op>, p: nat)
    requires p < |ops| && ops[p].Inner?
  {
    && ops[p].outer.Some?
    && ops[p].index == Some(InnerBefore(ops[..p], ops[p].outer.value))
    && (exists k :: 0 <= k < p && ops[k].Issue? && ops[k].id == ops[p].outer)
    && (forall q :: 0 <= q < p && ops[q].Settle? ==> Some(ops[q].settled) != ops[p].outer)
  }

  /** Calls and results correspond one to one, in order and by name, and inner calls nest. */
  ghost predicate Paired(ops: seq<Op>) {
    CallsDistinct(ops) && ResultsMatched(ops) && CallsMatched(ops) && InnerNested(ops)
  }

  lemma {:induction false} WatchedCallsDistinct(ops: seq<Op>)
    requires Watch(ops).Some?
    ensures CallsDistinct(ops)
  {
    forall p | 0 <= p < |ops| && Opening(ops[p]) ensures WellNamed(ops[p]) {
      var _ := WatchedAt(ops, p);
    }
    forall p, q | 0 <= p < q < |ops| && Opening(ops[p]) && Opening(ops[q]) ensures ops[p].id != ops[q].id {
      var _ := WatchedAt(ops, q);
      NameAt(ops[..q], p);
    }
  }

  lemma {:induction false} WatchedResultAt(ops: seq<Op>, q: nat) returns (p: nat)
    requires q < |ops| && Watch(ops).Some? && ops[q].Settle?
    ensures Settles(ops, p, q)
    ensures ops[q].settled !in SettledIds(ops[..q])
  {
    var m := WatchedAt(ops, q);
    p := NameFrom(ops[..q], ops[q].settled);
  }

  lemma {:induction false} WatchedResultsMatched(ops: seq<Op>)
    requires Watch(ops).Some?
    ensures ResultsMatched(ops)
  {
    forall q | 0 <= q < |ops| && ops[q].Settle? ensures exists p :: Settles(ops, p, q) {
      var p := WatchedResultAt(ops, q);
    }
    forall p, q | 0 <= p < q < |ops| && ops[p].Settle? && ops[q].Settle? ensures ops[p].settled != ops[q].settled {
      var _ := WatchedResultAt(ops, q);
      SettledIdAt(ops[..q], p);
    }
  }

  lemma {:induction false} WatchedCallsMatched(ops: seq<Op>)
    requires OnePass(ops)
    ensures CallsMatched(ops)
  {
    MonitorKnows(ops);
    WatchedCallsDistinct(ops);
    forall p | 0 <= p < |ops| && Opening(ops[p]) ensures exists q :: Settles(ops, p, q) {
      NameAt(ops, p);
      var id := ops[p].id.value;
      assert id !in Names(ops) - SettledIds(ops);
      var q := SettledIdFrom(ops, id);
      var p' := WatchedResultAt(ops, q);
      assert p' == p;
    }
  }

  lemma {:induction false} WatchedInnerNested(ops: seq<Op>)
    requires Watch(ops).Some?
    ensures InnerNested(ops)
  {
    forall p | 0 <= p < |ops| && ops[p].Inner? ensures InnerNestedAt(ops, p) {
      var m := WatchedAt(ops, p);
      var outer := ops[p].outer.value;
      assert Opened(m.inner, outer) == InnerBefore(ops[..p], outer);
      var k := IssuedIdFrom(ops[..p], outer);
      assert ops[k].Issue? && ops[k].id == ops[p].outer;
      forall q | 0 <= q < p && ops[q].Settle? ensures ops[q].settled != outer {
        SettledIdAt(ops[..p], q);
      }
    }
  }

  lemma {:induction false} PairedResult(ops: seq<Op>, k: nat, m: Monitor)
    requires k < |ops| && ops[k].Settle? && Knows(m, ops[..k])
    requires CallsDistinct(ops) && ResultsMatched(ops)
    ensures Observe(m, ops[k]).Some?
  {
    var before, op := ops[..k], ops[k];
    var p :| Settles(ops, p, k);
    NameAt(before, p);
    var named := NameFrom(before, op.settled);
    assert named == p;
    if op.settled in SettledIds(before) {
      var q := SettledIdFrom(before, op.settled);
      assert false;
    }
  }

  lemma {:induction false} PairedOpening(ops: seq<Op>, k: nat, m: Monitor)
    requires k < |ops| && Opening(ops[k]) && Knows(m, ops[..k]) && CallsDistinct(ops)
    ensures WellNamed(ops[k]) && ops[k].id.value !in m.used
  {
    if ops[k].id.value in m.used {
      var p := NameFrom(ops[..k], ops[k].id.value);
      assert false;
    }
  }

  lemma {:induction false} PairedInner(ops: seq<Op>, k: nat, m: Monitor)
    requires k < |ops| && ops[k].Inner? && Knows(m, ops[..k])
    requires InnerNestedAt(ops, k)
    ensures ops[k].outer.value in m.open && ops[k].outer.value in m.issued
    ensures ops[k].index == Some(Opened(m.inner, ops[k].outer.value))
  {
    var before, outer := ops[..k], ops[k].outer.value;
    assert Opened(m.inner, outer) == InnerBefore(before, outer);
    var j :| 0 <= j < k && ops[j].Issue? && ops[j].id == ops[k].outer;
    IssuedIdAt(before, j);
    if outer in SettledIds(before) {
      var q := SettledIdFrom(before, outer);
      assert false;
    }
  }

  lemma {:induction false} PairedOp(ops: seq<Op>, k: nat, m: Monitor)
    requires k < |ops| && Paired(ops) && Knows(m, ops[..k])
    ensures Observe(m, ops[k]).Some?
  {
    if ops[k].Settle? {
      PairedResult(ops, k, m);
    } else {
      PairedOpening(ops, k, m);
      hide Knows;
      if ops[k].Inner? {
        PairedInner(ops, k, m);
      }
    }
  }

  lemma {:induction false} PairedIsWatched(ops: seq<Op>, k: nat)
    requires k <= |ops| && Paired(ops)
    ensures Watch(ops[..k]).Some?
  {
    hide Paired, Knows, Observe;
    if k > 0 {
      PairedIsWatched(ops, k - 1);
      assert ops[..k][..k - 1] == ops[..k - 1];
      MonitorKnows(ops[..k - 1]);
      PairedOp(ops, k - 1, Watch(ops[..k - 1]).value);
    }
  }

  /** The checker's verdict in terms of positions alone. */
  lemma {:induction false} AcceptedRunsPair(events: seq<Event>)
    ensures TwoPass(Ops(events)) <==> Paired(Ops(events))
  {
    var ops := Ops(events);
    TwoPassIsOnePass(events);
    assert ops[..|ops|] == ops;
    if OnePass(ops) {
      WatchedCallsDistinct(ops);
      WatchedResultsMatched(ops);
      WatchedCallsMatched(ops);
      WatchedInnerNested(ops);
    }
    if Paired(ops) {
      PairedIsWatched(ops, |ops|);
      MonitorKnows(ops);
      var open := Watch(ops).value.open;
      if id :| id in open {
        var p := NameFrom(ops, id);
        var q :| Settles(ops, p, q);
        SettledIdAt(ops, q);
        assert false;
      }
    }
  }
}
