/** How often the trace checker's walk over parent links comes to each log, and when it ends. */
module Walks {
  import opened Prelude
  import opened EpisodeLog
  import opened BudgetCheck

  // When a walk ends.

  ghost predicate IsChild(logs: seq<Log>, c: nat, k: nat)
    requires k < |logs|
  {
    c < |logs| && logs[c].ParentId() == Some(logs[k].EpisodeId())
  }

  /** A chain of `n` child links leads down from log `k`. */
  ghost predicate Deep(logs: seq<Log>, k: nat, n: nat)
    requires k < |logs|
    decreases n
  {
    n == 0 || exists c: nat :: IsChild(logs, c, k) && Deep(logs, c, n - 1)
  }

  lemma {:induction false} LessDeep(logs: seq<Log>, k: nat, n: nat)
    requires k < |logs| && n > 0 && Deep(logs, k, n)
    ensures Deep(logs, k, n - 1)
    decreases n
  {
    if n > 1 {
      var c: nat :| IsChild(logs, c, k) && Deep(logs, c, n - 1);
      LessDeep(logs, c, n - 1);
    }
  }

  /** The longest chain down from log `k`, if it is shorter than `n`. */
  ghost function HeightUpTo(logs: seq<Log>, k: nat, n: nat): nat
    requires k < |logs|
  {
    if n == 0 || Deep(logs, k, n) then 0
    else if Deep(logs, k, n - 1) then n
    else HeightUpTo(logs, k, n - 1)
  }

  lemma {:induction false} HeightIs(logs: seq<Log>, k: nat, n: nat)
    requires k < |logs| && !Deep(logs, k, n)
    ensures var h := HeightUpTo(logs, k, n); 0 < h <= n && !Deep(logs, k, h) && Deep(logs, k, h - 1)
  {
    if !Deep(logs, k, n - 1) {
      HeightIs(logs, k, n - 1);
    }
  }

  lemma {:induction false} DeepBelow(logs: seq<Log>, k: nat, m: nat, n: nat)
    requires k < |logs| && m <= n && Deep(logs, k, n)
    ensures Deep(logs, k, m)
  {
    if m < n {
      LessDeep(logs, k, n);
      DeepBelow(logs, k, m, n - 1);
    }
  }

  /** Logs of lesser height; each link of a chain leads to another of them. */
  ghost function Lower(logs: seq<Log>, height: seq<nat>, k: nat): set<nat>
    requires k < |logs| == |height|
  {
    set i: nat | i < |logs| && height[i] < height[k]
  }

  lemma {:induction false} ChainsAreShort(logs: seq<Log>, height: seq<nat>, k: nat, n: nat)
    requires Walkable(logs, k, height) && Deep(logs, k, n)
    ensures n <= |Lower(logs, height, k)|
    decreases n
  {
    if n > 0 {
      var c: nat :| IsChild(logs, c, k) && Deep(logs, c, n - 1);
      ChainsAreShort(logs, height, c, n - 1);
      var below, here := Lower(logs, height, c), Lower(logs, height, k);
      assert c in here && c !in below && below <= here - {c};
      SubsetSize(below, here - {c});
    }
  }

  function Positions(n: nat): (r: set<nat>)
    ensures |r| == n && forall i: nat :: i in r <==> i < n
  {
    if n == 0 then {} else Positions(n - 1) + {n - 1}
  }

  lemma {:induction false} WalkableIsShallow(logs: seq<Log>, height: seq<nat>, k: nat)
    requires Walkable(logs, k, height)
    ensures !Deep(logs, k, |logs|)
  {
    if Deep(logs, k, |logs|) {
      ChainsAreShort(logs, height, k, |logs|);
      var all := Positions(|logs|);
      assert Lower(logs, height, k) <= all - {k};
      SubsetSize(Lower(logs, height, k), all - {k});
      assert false;
    }
  }

  /** Every set of logs has heights, positive for just those logs below which no chain is as long as there are logs. */
  lemma {:induction false} HeightsExist(logs: seq<Log>) returns (height: seq<nat>)
    ensures Founded(logs, height)
    ensures forall k :: 0 <= k < |logs| ==> (height[k] > 0 <==> !Deep(logs, k, |logs|))
  {
    height := seq(|logs|, i requires 0 <= i < |logs| => HeightUpTo(logs, i, |logs|));
    forall k | 0 <= k < |logs|
      ensures height[k] > 0 <==> !Deep(logs, k, |logs|)
    {
      if !Deep(logs, k, |logs|) {
        HeightIs(logs, k, |logs|);
      }
    }
    forall k, c | 0 <= k < |logs| && 0 <= c < |logs| && logs[c].ParentId() == Some(logs[k].EpisodeId())
      ensures height[k] > 0 ==> 0 < height[c] < height[k]
    {
      if height[k] > 0 {
        ChildIsLower(logs, k, c);
      }
    }
  }

  lemma {:induction false} ChildIsLower(logs: seq<Log>, k: nat, c: nat)
    requires k < |logs| && IsChild(logs, c, k) && !Deep(logs, k, |logs|)
    ensures 0 < HeightUpTo(logs, c, |logs|) < HeightUpTo(logs, k, |logs|)
  {
    var n := |logs|;
    HeightIs(logs, k, n);
    var h := HeightUpTo(logs, k, n);
    if Deep(logs, c, h - 1) {
      assert Deep(logs, k, h);
      assert false;
    }
    if Deep(logs, c, n) {
      DeepBelow(logs, c, h - 1, n);
    }
    HeightIs(logs, c, n);
    var g := HeightUpTo(logs, c, n);
    if g >= h {
      DeepBelow(logs, c, h - 1, g - 1);
    }
  }

  /** The walk below a log ends exactly when no chain of child links below it is as long as there are logs. */
  lemma {:induction false} WalkEndsWhen(logs: seq<Log>, k: nat)
    requires k < |logs|
    ensures (exists height :: Walkable(logs, k, height)) <==> !Deep(logs, k, |logs|)
  {
    if height :| Walkable(logs, k, height) {
      WalkableIsShallow(logs, height, k);
    }
    if !Deep(logs, k, |logs|) {
      var height := HeightsExist(logs);
      assert Walkable(logs, k, height);
    }
  }

  // Walks over few logs.

  lemma {:induction false} LeafSpend(logs: seq<Log>, k: nat, height: seq<nat>)
    requires Walkable(logs, k, height) && Children(logs, logs[k].EpisodeId()) == []
    ensures Subtree(logs, k, height) == Own(logs[k].events) && Size(logs, k, height) == 1
  {
    hide Founded, Own;
    var own := Own(logs[k].events);
    assert SubtreeOver(logs, [], 0, k, height) == NoSpend && SizeOver(logs, [], 0, k, height) == 0;
    assert own.Plus(NoSpend) == own;
  }

  lemma {:induction false} FirstSpend(logs: seq<Log>, children: seq<nat>, k: nat, height: seq<nat>)
    requires Walkable(logs, k, height) && AreChildren(logs, children, k) && |children| > 0
    ensures Walkable(logs, children[0], height)
    ensures SubtreeOver(logs, children, 1, k, height).calls == Subtree(logs, children[0], height).calls
    ensures SizeOver(logs, children, 1, k, height) == Size(logs, children[0], height)
  {
    hide Subtree, Size;
    var none := SubtreeOver(logs, children, 0, k, height);
    assert none.calls == 0 && SizeOver(logs, children, 0, k, height) == 0;
  }

  lemma {:induction false} OneChildSpend(logs: seq<Log>, k: nat, height: seq<nat>, c: nat)
    requires Walkable(logs, k, height) && Children(logs, logs[k].EpisodeId()) == [c]
    ensures Walkable(logs, c, height)
    ensures Subtree(logs, k, height).calls == Own(logs[k].events).calls + Subtree(logs, c, height).calls
    ensures Size(logs, k, height) == 1 + Size(logs, c, height)
  {
    var children := Children(logs, logs[k].EpisodeId());
    hide Own, Children;
    assert children[0] == c;
    FirstSpend(logs, children, k, height);
  }

  lemma {:induction false} TwoChildrenSpend(logs: seq<Log>, k: nat, height: seq<nat>, b: nat, c: nat)
    requires Walkable(logs, k, height) && Children(logs, logs[k].EpisodeId()) == [b, c]
    ensures Walkable(logs, b, height) && Walkable(logs, c, height)
    ensures Subtree(logs, k, height).calls
        == Own(logs[k].events).calls + Subtree(logs, b, height).calls + Subtree(logs, c, height).calls
    ensures Size(logs, k, height) == 1 + Size(logs, b, height) + Size(logs, c, height)
  {
    var children := Children(logs, logs[k].EpisodeId());
    hide Own, Children;
    assert children[0] == b && children[1] == c;
    FirstSpend(logs, children, k, height);
  }

  // What a walk sums.

  /** The sum the walk below log `k` makes of one value for each log. */
  ghost function WalkSum(logs: seq<Log>, k: nat, height: seq<nat>, values: seq<int>): int
    requires Walkable(logs, k, height) && |values| == |logs|
    decreases height[k], 1, 0
  {
    var children := Children(logs, logs[k].EpisodeId());
    values[k] + WalkSumOver(logs, children, |children|, k, height, values)
  }

  ghost function WalkSumOver(
    logs: seq<Log>, children: seq<nat>, n: nat, k: nat, height: seq<nat>, values: seq<int>): int
    requires Walkable(logs, k, height) && |values| == |logs|
    requires n <= |children| && AreChildren(logs, children, k)
    decreases height[k], 0, n
  {
    if n == 0 then 0 else
      WalkSumOver(logs, children, n - 1, k, height, values) + WalkSum(logs, children[n - 1], height, values)
  }

  function OwnValues(logs: seq<Log>, dim: Dim): (r: seq<int>)
    ensures |r| == |logs|
  {
    seq(|logs|, i requires 0 <= i < |logs| => Own(logs[i].events).Get(dim))
  }

  lemma {:induction false} SpendWalks(logs: seq<Log>, k: nat, height: seq<nat>, dim: Dim)
    requires Walkable(logs, k, height)
    ensures Subtree(logs, k, height).Get(dim) == WalkSum(logs, k, height, OwnValues(logs, dim))
    decreases height[k], 1, 0
  {
    hide Founded, Own;
    var children := Children(logs, logs[k].EpisodeId());
    SpendWalksOver(logs, children, |children|, k, height, dim);
  }

  lemma {:induction false} SpendWalksOver(
    logs: seq<Log>, children: seq<nat>, n: nat, k: nat, height: seq<nat>, dim: Dim)
    requires Walkable(logs, k, height) && n <= |children| && AreChildren(logs, children, k)
    ensures SubtreeOver(logs, children, n, k, height).Get(dim)
        == WalkSumOver(logs, children, n, k, height, OwnValues(logs, dim))
    decreases height[k], 0, n
  {
    hide OwnValues, Subtree, WalkSum;
    if n > 0 {
      SpendWalksOver(logs, children, n - 1, k, height, dim);
      SpendWalks(logs, children[n - 1], height, dim);
    }
  }

  lemma {:induction false} Scale(m: int, a: int, b: int)
    ensures m * (a + b) == m * a + m * b
  {
  }

  /** A walk sums `a` and `m` times `b` apart. */
  lemma {:induction false} WalkLinear(
    logs: seq<Log>, k: nat, height: seq<nat>, total: seq<int>, a: seq<int>, m: int, b: seq<int>)
    requires Walkable(logs, k, height) && |total| == |a| == |b| == |logs|
    requires forall i :: 0 <= i < |logs| ==> total[i] == a[i] + m * b[i]
    ensures WalkSum(logs, k, height, total) == WalkSum(logs, k, height, a) + m * WalkSum(logs, k, height, b)
    decreases height[k], 1, 0
  {
    hide Founded;
    var children := Children(logs, logs[k].EpisodeId());
    WalkLinearOver(logs, children, |children|, k, height, total, a, m, b);
    Scale(m, b[k], WalkSumOver(logs, children, |children|, k, height, b));
  }

  lemma {:induction false} WalkLinearOver(
    logs: seq<Log>, children: seq<nat>, n: nat, k: nat, height: seq<nat>, total: seq<int>, a: seq<int>, m: int,
    b: seq<int>)
    requires Walkable(logs, k, height) && |total| == |a| == |b| == |logs|
    requires forall i :: 0 <= i < |logs| ==> total[i] == a[i] + m * b[i]
    requires n <= |children| && AreChildren(logs, children, k)
    ensures WalkSumOver(logs, children, n, k, height, total)
        == WalkSumOver(logs, children, n, k, height, a) + m * WalkSumOver(logs, children, n, k, height, b)
    decreases height[k], 0, n
  {
    hide WalkSum;
    if n > 0 {
      WalkLinearOver(logs, children, n - 1, k, height, total, a, m, b);
      WalkLinear(logs, children[n - 1], height, total, a, m, b);
      Scale(m, WalkSumOver(logs, children, n - 1, k, height, b), WalkSum(logs, children[n - 1], height, b));
    }
  }

  /** A walk over values that are not negative sums at least its own and each child's. */
  lemma {:induction false} WalkAtLeast(logs: seq<Log>, k: nat, height: seq<nat>, values: seq<int>)
    requires Walkable(logs, k, height) && |values| == |logs|
    requires forall i :: 0 <= i < |values| ==> values[i] >= 0
    ensures WalkSum(logs, k, height, values) >= values[k] >= 0
    ensures forall c :: c in Children(logs, logs[k].EpisodeId()) ==>
      Walkable(logs, c, height) && WalkSum(logs, k, height, values) >= WalkSum(logs, c, height, values)
    decreases height[k], 1, 0
  {
    var children := Children(logs, logs[k].EpisodeId());
    WalkAtLeastOver(logs, children, |children|, k, height, values);
    hide WalkSumOver;
    forall c | c in children
      ensures Walkable(logs, c, height) && WalkSum(logs, k, height, values) >= WalkSum(logs, c, height, values)
    {
      var i :| 0 <= i < |children| && children[i] == c;
    }
  }

  lemma {:induction false} WalkAtLeastOver(
    logs: seq<Log>, children: seq<nat>, n: nat, k: nat, height: seq<nat>, values: seq<int>)
    requires Walkable(logs, k, height) && |values| == |logs|
    requires forall i :: 0 <= i < |values| ==> values[i] >= 0
    requires n <= |children| && AreChildren(logs, children, k)
    ensures WalkSumOver(logs, children, n, k, height, values) >= 0
    ensures forall i :: 0 <= i < n ==>
      Walkable(logs, children[i], height) &&
      WalkSumOver(logs, children, n, k, height, values) >= WalkSum(logs, children[i], height, values)
    decreases height[k], 0, n
  {
    hide WalkSum;
    if n > 0 {
      WalkAtLeastOver(logs, children, n - 1, k, height, values);
      WalkAtLeast(logs, children[n - 1], height, values);
    }
  }

  // How often a walk comes to a log.

  function Unit(n: nat, i: nat): (r: seq<int>)
    ensures |r| == n
  {
    seq(n, j requires 0 <= j < n => if j == i then 1 else 0)
  }

  /** How often the walk below log `k` comes to log `i`: what it sums when log `i` alone counts one. */
  ghost function Visits(logs: seq<Log>, k: nat, height: seq<nat>, i: nat): int
    requires Walkable(logs, k, height)
  {
    WalkSum(logs, k, height, Unit(|logs|, i))
  }

  lemma {:induction false} VisitsNotNegative(logs: seq<Log>, k: nat, height: seq<nat>, i: nat)
    requires Walkable(logs, k, height)
    ensures Visits(logs, k, height, i) >= 0
    ensures i == k ==> Visits(logs, k, height, i) >= 1
  {
    WalkAtLeast(logs, k, height, Unit(|logs|, i));
  }

  /** The first `n` logs' values, each as often as the walk comes to the log. */
  ghost function VisitSum(logs: seq<Log>, k: nat, height: seq<nat>, values: seq<int>, n: nat): int
    requires Walkable(logs, k, height) && n <= |values| == |logs|
  {
    if n == 0 then 0 else
      VisitSum(logs, k, height, values, n - 1) + values[n - 1] * Visits(logs, k, height, n - 1)
  }

  function Truncated(values: seq<int>, n: nat): (r: seq<int>)
    ensures |r| == |values|
  {
    seq(|values|, j requires 0 <= j < |values| => if j < n then values[j] else 0)
  }

  lemma {:induction false} WalkIsVisitsUpTo(logs: seq<Log>, k: nat, height: seq<nat>, values: seq<int>, n: nat)
    requires Walkable(logs, k, height) && n <= |values| == |logs|
    ensures WalkSum(logs, k, height, Truncated(values, n)) == VisitSum(logs, k, height, values, n)
  {
    hide WalkSum, Founded;
    if n == 0 {
      var none := Truncated(values, 0);
      WalkLinear(logs, k, height, none, none, 1, none);
    } else {
      WalkIsVisitsUpTo(logs, k, height, values, n - 1);
      WalkLinear(logs, k, height, Truncated(values, n), Truncated(values, n - 1), values[n - 1], Unit(|logs|, n - 1));
    }
  }

  /** A walk sums every log's value as often as it comes to the log. */
  lemma {:induction false} WalkIsVisits(logs: seq<Log>, k: nat, height: seq<nat>, values: seq<int>)
    requires Walkable(logs, k, height) && |values| == |logs|
    ensures WalkSum(logs, k, height, values) == VisitSum(logs, k, height, values, |logs|)
  {
    assert Truncated(values, |logs|) == values;
    WalkIsVisitsUpTo(logs, k, height, values, |logs|);
  }

  /** The subtree spend counts every log's own spend as often as the walk comes to it, whatever ids the logs have. */
  lemma {:induction false} SubtreeVisits(logs: seq<Log>, k: nat, height: seq<nat>, dim: Dim)
    requires Walkable(logs, k, height)
    ensures Subtree(logs, k, height).Get(dim) == VisitSum(logs, k, height, OwnValues(logs, dim), |logs|)
  {
    hide WalkSum, Subtree, VisitSum, OwnValues;
    SpendWalks(logs, k, height, dim);
    WalkIsVisits(logs, k, height, OwnValues(logs, dim));
  }

  function Ones(n: nat): (r: seq<int>)
    ensures |r| == n
  {
    seq(n, j requires 0 <= j < n => 1)
  }

  lemma {:induction false} SizeWalks(logs: seq<Log>, k: nat, height: seq<nat>)
    requires Walkable(logs, k, height)
    ensures Size(logs, k, height) == WalkSum(logs, k, height, Ones(|logs|))
    decreases height[k], 1, 0
  {
    hide Founded;
    var children := Children(logs, logs[k].EpisodeId());
    SizeWalksOver(logs, children, |children|, k, height);
  }

  lemma {:induction false} SizeWalksOver(logs: seq<Log>, children: seq<nat>, n: nat, k: nat, height: seq<nat>)
    requires Walkable(logs, k, height) && n <= |children| && AreChildren(logs, children, k)
    ensures SizeOver(logs, children, n, k, height) == WalkSumOver(logs, children, n, k, height, Ones(|logs|))
    decreases height[k], 0, n
  {
    hide Ones, Size, WalkSum;
    if n > 0 {
      SizeWalksOver(logs, children, n - 1, k, height);
      SizeWalks(logs, children[n - 1], height);
    }
  }

  /** The episodes of a subtree are counted as often as the walk comes to their logs. */
  lemma {:induction false} SizeVisits(logs: seq<Log>, k: nat, height: seq<nat>)
    requires Walkable(logs, k, height)
    ensures Size(logs, k, height) == VisitSum(logs, k, height, Ones(|logs|), |logs|)
  {
    hide WalkSum, Size, VisitSum, Ones;
    SizeWalks(logs, k, height);
    WalkIsVisits(logs, k, height, Ones(|logs|));
  }

  // A log is come to from each log whose id it names.

  /** Which logs carry the id that log `i` names as its parent. */
  function NamedBy(logs: seq<Log>, i: nat): (r: seq<int>)
    requires i < |logs|
    ensures |r| == |logs|
  {
    seq(|logs|, p requires 0 <= p < |logs| => if logs[i].ParentId() == Some(logs[p].EpisodeId()) then 1 else 0)
  }

  ghost function UnitOver(children: seq<nat>, n: nat, i: nat): int
    requires n <= |children|
  {
    if n == 0 then 0 else UnitOver(children, n - 1, i) + if children[n - 1] == i then 1 else 0
  }

  lemma {:induction false} UnitOverPrefix(children: seq<nat>, more: seq<nat>, n: nat, i: nat)
    requires n <= |children|
    ensures UnitOver(children + more, n, i) == UnitOver(children, n, i)
  {
    if n > 0 {
      UnitOverPrefix(children, more, n - 1, i);
    }
  }

  lemma {:induction false} ChildOnce(logs: seq<Log>, n: nat, id: string, i: nat)
    requires n <= |logs|
    ensures var children := ChildrenIn(logs, n, id);
      UnitOver(children, |children|, i) == if i < n && logs[i].ParentId() == Some(id) then 1 else 0
  {
    if n > 0 {
      ChildOnce(logs, n - 1, id, i);
      var before := ChildrenIn(logs, n - 1, id);
      UnitOverPrefix(before, [n - 1], |before|, i);
      assert logs[n - 1].ParentId() != Some(id) ==> ChildrenIn(logs, n, id) == before;
    }
  }

  /** The walk comes to a log once for every visit to a log it names, and once more when it starts there. */
  lemma {:induction false} VisitsFromParents(logs: seq<Log>, k: nat, height: seq<nat>, i: nat)
    requires Walkable(logs, k, height) && i < |logs|
    ensures Visits(logs, k, height, i) == (if i == k then 1 else 0) + WalkSum(logs, k, height, NamedBy(logs, i))
    decreases height[k], 1, 0
  {
    hide Founded;
    var children := Children(logs, logs[k].EpisodeId());
    ChildOnce(logs, |logs|, logs[k].EpisodeId(), i);
    VisitsFromParentsOver(logs, children, |children|, k, height, i);
  }

  lemma {:induction false} VisitsFromParentsOver(
    logs: seq<Log>, children: seq<nat>, n: nat, k: nat, height: seq<nat>, i: nat)
    requires Walkable(logs, k, height) && i < |logs|
    requires n <= |children| && AreChildren(logs, children, k)
    ensures WalkSumOver(logs, children, n, k, height, Unit(|logs|, i))
        == UnitOver(children, n, i) + WalkSumOver(logs, children, n, k, height, NamedBy(logs, i))
    decreases height[k], 0, n
  {
    hide WalkSum, Unit, NamedBy;
    if n > 0 {
      VisitsFromParentsOver(logs, children, n - 1, k, height, i);
      VisitsFromParents(logs, children[n - 1], height, i);
    }
  }
}
