/** Which sessions belong to a run: the root thread and its descendants, parents first, with cycles refused. */
module SessionTree {
  import opened Prelude

  datatype Head = Head(path: string, id: string, parent: Option<string>)

  /** When the session recorded at a path started. */
  type Clock = string -> int

  datatype Result =
    | Sessions(ordered: seq<Head>)
    | Duplicate(first: Head, second: Head)
    | Missing(root: string)
    | Cycle(at: Head)

  ghost predicate DistinctIds(heads: seq<Head>) {
    forall i, j :: 0 <= i < j < |heads| ==> heads[i].id != heads[j].id
  }

  /** The head recorded under an id. */
  function HeadOf(heads: seq<Head>, id: string): (h: Option<Head>)
    ensures h.Some? ==> h.value in heads && h.value.id == id
  {
    if |heads| == 0 then None
    else if heads[|heads| - 1].id == id then Some(heads[|heads| - 1])
    else HeadOf(heads[..|heads| - 1], id)
  }

  lemma {:induction false} HeadOfUnique(heads: seq<Head>, h: Head)
    requires DistinctIds(heads) && h in heads
    ensures HeadOf(heads, h.id) == Some(h)
  {
    var n := |heads| - 1;
    if heads[n].id != h.id {
      assert heads == heads[..n] + [heads[n]];
      HeadOfUnique(heads[..n], h);
    } else {
      var i :| 0 <= i < |heads| && heads[i] == h;
    }
  }

  lemma {:induction false} HeadOfFinds(heads: seq<Head>, id: string)
    ensures HeadOf(heads, id).None? ==> forall h :: h in heads ==> h.id != id
  {
    if |heads| > 0 {
      HeadOfFinds(heads[..|heads| - 1], id);
    }
  }

  /** The thread `k` links above `id`. */
  function Climb(heads: seq<Head>, id: string, k: nat): Option<string>
    decreases k
  {
    if k == 0 then Some(id) else
      match HeadOf(heads, id)
      case None => None
      case Some(h) => if h.parent.None? then None else Climb(heads, h.parent.value, k - 1)
  }

  ghost predicate Descends(heads: seq<Head>, id: string, root: string) {
    exists k: nat :: Climb(heads, id, k) == Some(root)
  }

  /** The thread reaches itself through its parents. */
  ghost predicate OwnDescendant(heads: seq<Head>, id: string) {
    exists k: nat :: k > 0 && Climb(heads, id, k) == Some(id)
  }

  function Children(heads: seq<Head>, id: string): seq<Head> {
    if |heads| == 0 then [] else
      Children(heads[..|heads| - 1], id) + (if heads[|heads| - 1].parent == Some(id) then [heads[|heads| - 1]] else [])
  }

  function Place(sorted: seq<Head>, h: Head, started: Clock): seq<Head> {
    if |sorted| == 0 || started(sorted[|sorted| - 1].path) <= started(h.path) then sorted + [h]
    else Place(sorted[..|sorted| - 1], h, started) + [sorted[|sorted| - 1]]
  }

  /** The heads by start time; those that started together keep their order. */
  function ByStart(heads: seq<Head>, started: Clock): seq<Head> {
    if |heads| == 0 then [] else Place(ByStart(heads[..|heads| - 1], started), heads[|heads| - 1], started)
  }

  ghost predicate InStartOrder(heads: seq<Head>, started: Clock) {
    forall i, j :: 0 <= i < j < |heads| ==> started(heads[i].path) <= started(heads[j].path)
  }

  lemma {:induction false} PlaceKeeps(sorted: seq<Head>, h: Head, started: Clock)
    ensures multiset(Place(sorted, h, started)) == multiset(sorted) + multiset{h}
  {
    if |sorted| > 0 && started(sorted[|sorted| - 1].path) > started(h.path) {
      var front, last := sorted[..|sorted| - 1], sorted[|sorted| - 1];
      PlaceKeeps(front, h, started);
      assert sorted == front + [last];
    }
  }

  ghost predicate StartedBy(heads: seq<Head>, started: Clock, t: int) {
    forall i :: 0 <= i < |heads| ==> started(heads[i].path) <= t
  }

  lemma {:induction false} PlaceSorts(sorted: seq<Head>, h: Head, started: Clock)
    requires InStartOrder(sorted, started)
    ensures InStartOrder(Place(sorted, h, started), started)
    ensures forall t :: StartedBy(sorted, started, t) && started(h.path) <= t ==>
      StartedBy(Place(sorted, h, started), started, t)
  {
    if |sorted| > 0 && started(sorted[|sorted| - 1].path) > started(h.path) {
      var front, last := sorted[..|sorted| - 1], sorted[|sorted| - 1];
      PlaceSorts(front, h, started);
      assert StartedBy(front, started, started(last.path));
      assert forall t :: StartedBy(sorted, started, t) ==> StartedBy(front, started, t) && started(last.path) <= t;
    }
  }

  /** The heads that started at one time, in their order. */
  function StartedAt(heads: seq<Head>, started: Clock, t: int): seq<Head> {
    if |heads| == 0 then [] else
      var before, last := StartedAt(heads[..|heads| - 1], started, t), heads[|heads| - 1];
      if started(last.path) == t then before + [last] else before
  }

  lemma {:induction false} PlaceStable(sorted: seq<Head>, h: Head, started: Clock, t: int)
    ensures StartedAt(Place(sorted, h, started), started, t)
        == StartedAt(sorted, started, t) + (if started(h.path) == t then [h] else [])
  {
    if |sorted| > 0 && started(sorted[|sorted| - 1].path) > started(h.path) {
      var front, last := sorted[..|sorted| - 1], sorted[|sorted| - 1];
      PlaceStable(front, h, started, t);
      assert (Place(front, h, started) + [last])[..|Place(front, h, started)|] == Place(front, h, started);
    } else {
      assert (sorted + [h])[..|sorted|] == sorted;
    }
  }

  /** No head is lost or repeated, later ones come later, and those that started together keep their order. */
  lemma {:induction false} ByStartSorts(heads: seq<Head>, started: Clock)
    ensures InStartOrder(ByStart(heads, started), started)
    ensures multiset(ByStart(heads, started)) == multiset(heads)
    ensures forall t :: StartedAt(ByStart(heads, started), started, t) == StartedAt(heads, started, t)
  {
    if |heads| > 0 {
      var front, last := heads[..|heads| - 1], heads[|heads| - 1];
      ByStartSorts(front, started);
      PlaceKeeps(ByStart(front, started), last, started);
      PlaceSorts(ByStart(front, started), last, started);
      assert heads == front + [last];
      forall t
        ensures StartedAt(ByStart(heads, started), started, t) == StartedAt(heads, started, t)
      {
        PlaceStable(ByStart(front, started), last, started, t);
      }
    }
  }

  /** `g` stands before `h` among the heads. */
  ghost predicate Before(heads: seq<Head>, g: Head, h: Head) {
    exists p, q :: 0 <= p < q < |heads| && heads[p] == g && heads[q] == h
  }

  /** The one started earlier, or they started together and it stands before the other. */
  ghost predicate Comes(heads: seq<Head>, started: Clock, g: Head, h: Head) {
    started(g.path) < started(h.path) || (started(g.path) == started(h.path) && Before(heads, g, h))
  }

  ghost predicate Lined(heads: seq<Head>, started: Clock, xs: seq<Head>) {
    forall i, j :: 0 <= i < j < |xs| ==> Comes(heads, started, xs[i], xs[j])
  }

  lemma {:induction false} PlaceLines(heads: seq<Head>, sorted: seq<Head>, h: Head, started: Clock)
    requires Lined(heads, started, sorted) && InStartOrder(sorted, started)
    requires forall i :: 0 <= i < |sorted| ==> Before(heads, sorted[i], h)
    ensures Lined(heads, started, Place(sorted, h, started))
  {
    hide Before;
    if |sorted| > 0 && started(sorted[|sorted| - 1].path) > started(h.path) {
      var front, last := sorted[..|sorted| - 1], sorted[|sorted| - 1];
      PlaceLines(heads, front, h, started);
      PlaceKeeps(front, h, started);
      var placed := Place(front, h, started);
      forall i | 0 <= i < |placed|
        ensures Comes(heads, started, placed[i], last)
      {
        assert placed[i] in multiset(placed);
        assert placed[i] in front || placed[i] == h;
      }
    }
  }

  lemma {:induction false} BeforeMore(heads: seq<Head>, more: seq<Head>, g: Head, h: Head)
    requires Before(heads, g, h)
    ensures Before(heads + more, g, h)
  {
    var p, q :| 0 <= p < q < |heads| && heads[p] == g && heads[q] == h;
    assert (heads + more)[p] == g && (heads + more)[q] == h;
  }

  lemma {:induction false} BeforeLast(heads: seq<Head>, g: Head, h: Head)
    requires g in heads
    ensures Before(heads + [h], g, h)
  {
    var p :| 0 <= p < |heads| && heads[p] == g;
    assert (heads + [h])[p] == g && (heads + [h])[|heads|] == h;
  }

  lemma {:induction false} LinedMore(heads: seq<Head>, h: Head, started: Clock, xs: seq<Head>)
    requires Lined(heads, started, xs)
    ensures Lined(heads + [h], started, xs)
  {
    hide Before;
    forall i, j | 0 <= i < j < |xs|
      ensures Comes(heads + [h], started, xs[i], xs[j])
    {
      if Before(heads, xs[i], xs[j]) {
        BeforeMore(heads, [h], xs[i], xs[j]);
      }
    }
  }

  lemma {:induction false} SortedLined(heads: seq<Head>, id: string, started: Clock)
    ensures Lined(heads, started, ByStart(Children(heads, id), started))
  {
    if |heads| > 0 {
      var front, last := heads[..|heads| - 1], heads[|heads| - 1];
      var kids := Children(front, id);
      SortedLined(front, id, started);
      assert heads == front + [last];
      LinedMore(front, last, started, ByStart(kids, started));
      if last.parent == Some(id) {
        assert (kids + [last])[..|kids|] == kids;
        KidsBefore(front, id, started, last);
        hide Lined, InStartOrder, Before;
        ByStartSorts(kids, started);
        PlaceLines(heads, ByStart(kids, started), last, started);
      } else {
        assert kids + [] == kids;
      }
    }
  }

  lemma {:induction false} KidsBefore(front: seq<Head>, id: string, started: Clock, last: Head)
    ensures var kids := ByStart(Children(front, id), started);
      forall i :: 0 <= i < |kids| ==> Before(front + [last], kids[i], last)
  {
    var kids := ByStart(Children(front, id), started);
    hide ByStart, Children, Before;
    ChildrenAre(front, id);
    ByStartSorts(Children(front, id), started);
    forall i | 0 <= i < |kids|
      ensures Before(front + [last], kids[i], last)
    {
      assert kids[i] in multiset(kids);
      BeforeLast(front, kids[i], last);
    }
  }

  lemma {:induction false} ChildrenAre(heads: seq<Head>, id: string)
    ensures forall h :: h in Children(heads, id) <==> h in heads && h.parent == Some(id)
    ensures DistinctIds(heads) ==> DistinctIds(Children(heads, id))
  {
    if |heads| > 0 {
      ChildrenAre(heads[..|heads| - 1], id);
      assert heads == heads[..|heads| - 1] + [heads[|heads| - 1]];
    }
  }

  /** Distinct ids survive reordering. */
  lemma {:induction false} SameHeads(heads: seq<Head>, others: seq<Head>)
    requires multiset(heads) == multiset(others) && DistinctIds(heads)
    ensures DistinctIds(others) && forall h :: h in others <==> h in heads
  {
    assert forall h :: h in others <==> h in multiset(others);
    assert forall h :: h in heads <==> h in multiset(heads);
    forall i, j | 0 <= i < j < |others|
      ensures others[i].id != others[j].id
    {
      if others[i].id == others[j].id {
        var h := others[i];
        assert others[j] in heads && h in heads && others[j] == h;
        TwiceCounted(others, i, j);
        OnceCounted(heads, h);
      }
    }
  }

  lemma {:induction false} TwiceCounted(heads: seq<Head>, i: nat, j: nat)
    requires i < j < |heads| && heads[i] == heads[j]
    ensures multiset(heads)[heads[i]] >= 2
  {
    assert heads == heads[..j] + [heads[j]] + heads[j + 1..];
    assert heads[..j][i] == heads[i];
  }

  lemma {:induction false} OnceCounted(heads: seq<Head>, h: Head)
    requires DistinctIds(heads)
    ensures multiset(heads)[h] <= 1
  {
    if |heads| > 0 {
      var front, last := heads[..|heads| - 1], heads[|heads| - 1];
      assert heads == front + [last];
      OnceCounted(front, h);
      if last == h {
        forall i | 0 <= i < |front|
          ensures front[i] != h
        {
          assert heads[i].id != heads[|heads| - 1].id;
        }
      }
    }
  }

  function SortedChildren(heads: seq<Head>, id: string, started: Clock): seq<Head> {
    ByStart(Children(heads, id), started)
  }

  lemma {:induction false} SortedChildrenAre(heads: seq<Head>, id: string, started: Clock)
    requires DistinctIds(heads)
    ensures var kids := SortedChildren(heads, id, started);
      DistinctIds(kids) && Lined(heads, started, kids) && forall h :: h in kids <==> h in heads && h.parent == Some(id)
  {
    SortedLined(heads, id, started);
    ChildrenAre(heads, id);
    ByStartSorts(Children(heads, id), started);
    SameHeads(Children(heads, id), SortedChildren(heads, id, started));
  }

  // The walk: `all` is what has been handed out so far, of which the first `n` have been visited.

  function Ids(all: seq<Head>, n: nat): set<string>
    requires n <= |all|
  {
    set i | 0 <= i < n :: all[i].id
  }

  /** Every head after the first was handed out by its parent, which had been visited. */
  ghost predicate Linked(heads: seq<Head>, all: seq<Head>, n: nat)
    requires n <= |all|
  {
    forall j :: 1 <= j < |all| ==> LinkedAt(heads, all, n, j)
  }

  ghost predicate LinkedAt(heads: seq<Head>, all: seq<Head>, n: nat, j: nat)
    requires n <= |all| && j < |all|
  {
    all[j] in heads && all[j].parent.Some? && exists i :: 0 <= i < j && i < n && all[i].id == all[j].parent.value
  }

  ghost predicate TailDistinct(all: seq<Head>) {
    forall i, j :: 1 <= i < j < |all| ==> all[i].id != all[j].id
  }

  /** Visited heads have handed out all their children. */
  ghost predicate HandedOut(heads: seq<Head>, all: seq<Head>, n: nat)
    requires n <= |all|
  {
    forall i :: 0 <= i < n ==> HandedOutAt(heads, all, all[i].id)
  }

  ghost predicate HandedOutAt(heads: seq<Head>, all: seq<Head>, id: string) {
    forall h :: h in heads && h.parent == Some(id) ==> h in Rest(all)
  }

  function Rest(all: seq<Head>): seq<Head> {
    if |all| == 0 then [] else all[1..]
  }

  ghost predicate SiblingsInOrder(heads: seq<Head>, all: seq<Head>, started: Clock) {
    forall i, j :: 1 <= i < j < |all| && all[i].parent == all[j].parent ==> Comes(heads, started, all[i], all[j])
  }

  predicate ParentAt(all: seq<Head>, j: nat, a: nat) {
    j < |all| && a < |all| && all[j].parent == Some(all[a].id)
  }

  /** The children of an earlier visited head come before those of a later one. */
  ghost predicate BreadthFirst(all: seq<Head>, n: nat) {
    forall i: nat, j: nat, a: nat, b: nat ::
      1 <= i < j && a < n && b < n && ParentAt(all, i, a) && ParentAt(all, j, b) ==> a <= b
  }

  ghost predicate Walked(heads: seq<Head>, root: Head, all: seq<Head>, n: nat, started: Clock) {
    && 0 < |all| && n <= |all| && all[0] == root
    && Linked(heads, all, n)
    && TailDistinct(all)
    && HandedOut(heads, all, n)
    && SiblingsInOrder(heads, all, started)
    && BreadthFirst(all, n)
    && (forall i, j :: 0 <= i < j < n ==> all[i].id != all[j].id)
  }

  lemma {:induction false} StepLinks(heads: seq<Head>, all: seq<Head>, n: nat, kids: seq<Head>)
    requires n < |all| && Linked(heads, all, n)
    requires forall h :: h in kids ==> h in heads && h.parent == Some(all[n].id)
    ensures Linked(heads, all + kids, n + 1)
  {
    var more, m := all + kids, n + 1;
    forall j | 1 <= j < |more|
      ensures LinkedAt(heads, more, m, j)
    {
      if j < |all| {
        assert LinkedAt(heads, all, n, j);
        var i :| 0 <= i < j && i < n && all[i].id == all[j].parent.value;
        assert more[i].id == more[j].parent.value;
      } else {
        assert more[j] in kids && more[n].id == more[j].parent.value;
      }
    }
  }

  /** A head not yet visited has handed out none of its children. */
  lemma {:induction false} NotYetParent(heads: seq<Head>, all: seq<Head>, n: nat, i: nat)
    requires n < |all| && 1 <= i < |all| && Linked(heads, all, n) && all[n].id !in Ids(all, n)
    ensures all[i] in heads && all[i].parent.Some? && all[i].parent != Some(all[n].id)
  {
    assert LinkedAt(heads, all, n, i);
    var p :| 0 <= p < i && p < n && all[p].id == all[i].parent.value;
    assert all[p].id in Ids(all, n);
  }

  lemma {:induction false} OtherParent(heads: seq<Head>, g: Head, h: Head)
    requires DistinctIds(heads) && g in heads && h in heads && g.parent != h.parent
    ensures g.id != h.id
  {
    HeadOfUnique(heads, g);
    HeadOfUnique(heads, h);
  }

  lemma {:induction false} StepDistinct(heads: seq<Head>, all: seq<Head>, n: nat, kids: seq<Head>)
    requires n < |all| && Linked(heads, all, n) && TailDistinct(all) && DistinctIds(kids) && DistinctIds(heads)
    requires all[n].id !in Ids(all, n)
    requires forall h :: h in kids ==> h in heads && h.parent == Some(all[n].id)
    ensures TailDistinct(all + kids)
  {
    hide Linked;
    var more := all + kids;
    forall i, j | 1 <= i < j < |more|
      ensures more[i].id != more[j].id
    {
      if i < |all| <= j {
        assert more[j] in kids;
        NotYetParent(heads, all, n, i);
        OtherParent(heads, more[i], more[j]);
      }
    }
  }

  lemma {:induction false} SameId(heads: seq<Head>, g: Head, h: Head)
    requires DistinctIds(heads) && g in heads && h in heads && g.id == h.id
    ensures g == h
  {
    HeadOfUnique(heads, g);
    HeadOfUnique(heads, h);
  }

  lemma {:induction false} StepHandsOut(heads: seq<Head>, all: seq<Head>, n: nat, kids: seq<Head>)
    requires n < |all| && HandedOut(heads, all, n)
    requires forall h :: h in kids <==> h in heads && h.parent == Some(all[n].id)
    ensures HandedOut(heads, all + kids, n + 1)
  {
    var more := all + kids;
    assert Rest(more) == Rest(all) + kids;
    forall i | 0 <= i < n + 1
      ensures HandedOutAt(heads, more, more[i].id)
    {
      if i < n {
        assert HandedOutAt(heads, all, all[i].id);
      }
    }
  }

  lemma {:induction false} StepOrders(heads: seq<Head>, all: seq<Head>, n: nat, kids: seq<Head>, started: Clock)
    requires n < |all| && Linked(heads, all, n) && SiblingsInOrder(heads, all, started) && Lined(heads, started, kids)
    requires all[n].id !in Ids(all, n)
    requires forall h :: h in kids ==> h.parent == Some(all[n].id)
    ensures SiblingsInOrder(heads, all + kids, started)
  {
    hide Linked, Comes;
    forall i | 1 <= i < |all|
      ensures all[i].parent != Some(all[n].id)
    {
      NotYetParent(heads, all, n, i);
    }
    assert forall j :: |all| <= j < |all + kids| ==> (all + kids)[j] in kids;
  }

  lemma {:induction false} StepBreadth(heads: seq<Head>, all: seq<Head>, n: nat, kids: seq<Head>)
    requires n < |all| && Linked(heads, all, n) && BreadthFirst(all, n) && all[n].id !in Ids(all, n)
    requires forall h :: h in kids ==> h.parent == Some(all[n].id)
    ensures BreadthFirst(all + kids, n + 1)
  {
    hide Linked;
    var more := all + kids;
    assert forall b :: 0 <= b < n ==> all[b].id in Ids(all, n);
    forall i: nat, j: nat, a: nat, b: nat |
      1 <= i < j && a < n + 1 && b < n + 1 && ParentAt(more, i, a) && ParentAt(more, j, b)
      ensures a <= b
    {
      if j < |all| {
        NotYetParent(heads, all, n, i);
        NotYetParent(heads, all, n, j);
        assert ParentAt(all, i, a) && ParentAt(all, j, b);
      } else {
        assert more[j] in kids;
      }
    }
  }

  lemma {:induction false} WalkStep(heads: seq<Head>, root: Head, all: seq<Head>, n: nat, started: Clock)
    requires DistinctIds(heads) && Walked(heads, root, all, n, started) && n < |all| && all[n].id !in Ids(all, n)
    ensures Walked(heads, root, all + SortedChildren(heads, all[n].id, started), n + 1, started)
  {
    var kids := SortedChildren(heads, all[n].id, started);
    SortedChildrenAre(heads, all[n].id, started);
    StepLinks(heads, all, n, kids);
    StepDistinct(heads, all, n, kids);
    StepHandsOut(heads, all, n, kids);
    StepOrders(heads, all, n, kids, started);
    StepBreadth(heads, all, n, kids);
    hide BreadthFirst, Lined, Linked, HandedOut, SiblingsInOrder, TailDistinct, DistinctIds;
    forall i, j | 0 <= i < j < n + 1
      ensures (all + kids)[i].id != (all + kids)[j].id
    {
      if j == n {
        assert all[i].id in Ids(all, n);
      }
    }
  }

  lemma {:induction false} HandedOutDescend(
    heads: seq<Head>, root: Head, all: seq<Head>, n: nat, started: Clock, j: nat) returns (k: nat)
    requires DistinctIds(heads) && Walked(heads, root, all, n, started) && j < |all|
    ensures Climb(heads, all[j].id, k) == Some(root.id)
    ensures j > 0 ==> k > 0
  {
    hide HandedOut, SiblingsInOrder, TailDistinct, BreadthFirst;
    if j == 0 {
      k := 0;
    } else {
      assert LinkedAt(heads, all, n, j);
      var i :| 0 <= i < j && i < n && all[i].id == all[j].parent.value;
      k := HandedOutDescend(heads, root, all, n, started, i);
      HeadOfUnique(heads, all[j]);
      k := k + 1;
    }
  }

  /** A head met a second time is the root, and it is its own descendant. */
  lemma {:induction false} RepeatIsCycle(heads: seq<Head>, root: Head, all: seq<Head>, n: nat, started: Clock)
    requires DistinctIds(heads) && Walked(heads, root, all, n, started) && n < |all| && all[n].id in Ids(all, n)
    ensures all[n].id == root.id && OwnDescendant(heads, root.id)
  {
    var i :| 0 <= i < n && all[i].id == all[n].id;
    if i > 0 {
      assert false;
    }
    var k := HandedOutDescend(heads, root, all, n, started, n);
  }

  /** Once every head handed out has been visited, every descendant has been, and the root is not one of them. */
  lemma {:induction false} WalkComplete(
    heads: seq<Head>, root: Head, all: seq<Head>, started: Clock, id: string, k: nat)
    requires DistinctIds(heads) && root in heads && Walked(heads, root, all, |all|, started)
    requires Climb(heads, id, k) == Some(root.id)
    decreases k
    ensures id in Ids(all, |all|) && (k > 0 ==> exists j :: 1 <= j < |all| && all[j].id == id)
  {
    if k == 0 {
      assert all[0].id == id;
    } else {
      var h := HeadOf(heads, id).value;
      WalkComplete(heads, root, all, started, h.parent.value, k - 1);
      var i :| 0 <= i < |all| && all[i].id == h.parent.value;
      assert HandedOutAt(heads, all, all[i].id);
      var j :| 0 <= j < |Rest(all)| && Rest(all)[j] == h;
      assert all[j + 1].id == id;
    }
  }

  lemma {:induction false} WalkAcyclic(heads: seq<Head>, root: Head, all: seq<Head>, started: Clock)
    requires DistinctIds(heads) && root in heads && Walked(heads, root, all, |all|, started)
    ensures !OwnDescendant(heads, root.id)
  {
    if k: nat :| k > 0 && Climb(heads, root.id, k) == Some(root.id) {
      WalkComplete(heads, root, all, started, root.id, k);
      assert false;
    }
  }

  /** No thread lies fewer links below the root than one listed before it. */
  ghost predicate DepthRises(heads: seq<Head>, root: string, ordered: seq<Head>) {
    forall i, j, k: nat, m: nat ::
      0 <= i < j < |ordered| && ClimbsTo(heads, ordered[i].id, k, root) && ClimbsTo(heads, ordered[j].id, m, root) ==>
        k <= m
  }

  predicate ClimbsTo(heads: seq<Head>, id: string, k: nat, root: string) {
    Climb(heads, id, k) == Some(root)
  }

  /**
   * The root first, every descendant once, each after its parent and no deeper one before a less deep. The children of
   * an earlier thread come before those of a later one, and those of one thread by start, then as the heads stand.
   */
  ghost predicate RunOrder(heads: seq<Head>, root: string, ordered: seq<Head>, started: Clock) {
    && |ordered| > 0 && ordered[0].id == root
    && DistinctIds(ordered)
    && (forall h :: h in ordered <==> h in heads && Descends(heads, h.id, root))
    && (forall j :: 1 <= j < |ordered| ==>
      ordered[j].parent.Some? && exists i :: 0 <= i < j && ordered[i].id == ordered[j].parent.value)
    && DepthRises(heads, root, ordered)
    && BreadthFirst(ordered, |ordered|)
    && SiblingsInOrder(heads, ordered, started)
  }

  lemma {:induction false} DepthInOrder(
    heads: seq<Head>, root: Head, all: seq<Head>, started: Clock, i: nat, j: nat, k: nat, m: nat)
    requires DistinctIds(heads) && root in heads && Walked(heads, root, all, |all|, started)
    requires i <= j < |all| && ClimbsTo(heads, all[i].id, k, root.id) && ClimbsTo(heads, all[j].id, m, root.id)
    ensures k <= m
    decreases j
  {
    hide HandedOut, SiblingsInOrder, TailDistinct;
    if i == 0 {
      WalkAcyclic(heads, root, all, started);
    } else {
      assert LinkedAt(heads, all, |all|, i) && LinkedAt(heads, all, |all|, j);
      var a :| 0 <= a < i && all[a].id == all[i].parent.value;
      var b :| 0 <= b < j && all[b].id == all[j].parent.value;
      assert ParentAt(all, i, a) && ParentAt(all, j, b);
      HeadOfUnique(heads, all[i]);
      HeadOfUnique(heads, all[j]);
      if k > 0 {
        DepthInOrder(heads, root, all, started, a, b, k - 1, m - 1);
      }
    }
  }

  lemma {:induction false} ComesOneWay(heads: seq<Head>, started: Clock, g: Head, h: Head)
    requires DistinctIds(heads) && Comes(heads, started, g, h)
    ensures !Comes(heads, started, h, g)
  {
  }

  lemma {:induction false} PlaceAfter(xs: seq<Head>, ys: seq<Head>, n: nat) returns (j: nat)
    requires n < |xs| && n <= |ys| && xs[..n] == ys[..n] && DistinctIds(xs) && xs[n] in ys
    ensures n <= j < |ys| && ys[j] == xs[n]
  {
    assert forall k :: 0 <= k < n ==> xs[..n][k] == ys[..n][k];
    j :| 0 <= j < |ys| && ys[j] == xs[n];
  }

  lemma {:induction false} ParentPlace(heads: seq<Head>, root: string, xs: seq<Head>, started: Clock, n: nat)
    returns (a: nat)
    requires RunOrder(heads, root, xs, started) && 0 < n < |xs|
    ensures a < n && ParentAt(xs, n, a)
  {
    a :| 0 <= a < n && xs[a].id == xs[n].parent.value;
  }

  /** Of two threads the one whose parent comes later, or of two siblings the one that comes later, is listed later. */
  lemma {:induction false} ListedLater(
    heads: seq<Head>, root: string, xs: seq<Head>, started: Clock, i: nat, j: nat, a: nat, b: nat)
    requires RunOrder(heads, root, xs, started) && 0 < i < j && ParentAt(xs, i, a) && ParentAt(xs, j, b)
    ensures a <= b && (a == b ==> Comes(heads, started, xs[i], xs[j]))
  {
    hide Comes;
  }

  /** After a shared beginning both lists go on with the same head: its parent is in what they share. */
  lemma {:induction false} NextSame(
    heads: seq<Head>, root: string, xs: seq<Head>, ys: seq<Head>, started: Clock, n: nat)
    requires DistinctIds(heads) && RunOrder(heads, root, xs, started) && RunOrder(heads, root, ys, started)
    requires 0 < n < |xs| && n < |ys| && xs[..n] == ys[..n]
    ensures xs[n] == ys[n]
  {
    hide RunOrder, Comes, DistinctIds;
    OrderHas(heads, root, xs, ys, started, n);
    OrderHas(heads, root, ys, xs, started, n);
    var a := ParentPlace(heads, root, xs, started, n);
    var b := ParentPlace(heads, root, ys, started, n);
    assert xs[..n][a] == ys[..n][a] && xs[..n][b] == ys[..n][b];
    var j := PlaceAfter(xs, ys, n);
    var i := PlaceAfter(ys, xs, n);
    if i > n && j > n {
      ListedLater(heads, root, xs, started, n, i, a, b);
      ListedLater(heads, root, ys, started, n, j, b, a);
      ComesOneWay(heads, started, xs[n], ys[n]);
    }
  }

  lemma {:induction false} OrderHas(
    heads: seq<Head>, root: string, xs: seq<Head>, ys: seq<Head>, started: Clock, n: nat)
    requires DistinctIds(heads) && RunOrder(heads, root, xs, started) && RunOrder(heads, root, ys, started)
    requires n < |xs|
    ensures DistinctIds(xs) && xs[n] in ys
    ensures n == 0 ==> xs[0] == ys[0]
  {
    assert xs[n] in xs && ys[0] in ys;
    if n == 0 {
      SameId(heads, xs[0], ys[0]);
    }
  }

  /** Only one list is in run order. */
  lemma {:induction false} RunOrderUnique(
    heads: seq<Head>, root: string, xs: seq<Head>, ys: seq<Head>, started: Clock, n: nat)
    requires DistinctIds(heads) && RunOrder(heads, root, xs, started) && RunOrder(heads, root, ys, started)
    requires n <= |xs|
    ensures n <= |ys| && xs[..n] == ys[..n]
  {
    hide RunOrder;
    if n > 0 {
      RunOrderUnique(heads, root, xs, ys, started, n - 1);
      OrderHas(heads, root, xs, ys, started, n - 1);
      var j := PlaceAfter(xs, ys, n - 1);
      if n > 1 {
        NextSame(heads, root, xs, ys, started, n - 1);
      }
      assert xs[..n] == xs[..n - 1] + [xs[n - 1]] && ys[..n] == ys[..n - 1] + [ys[n - 1]];
    }
  }

  lemma {:induction false} WalkedOrder(heads: seq<Head>, root: Head, all: seq<Head>, started: Clock)
    requires DistinctIds(heads) && root in heads && Walked(heads, root, all, |all|, started)
    ensures RunOrder(heads, root.id, all, started)
  {
    forall i, j, k: nat, m: nat | 0 <= i < j < |all| && ClimbsTo(heads, all[i].id, k, root.id)
      && ClimbsTo(heads, all[j].id, m, root.id)
      ensures k <= m
    {
      DepthInOrder(heads, root, all, started, i, j, k, m);
    }
    hide ClimbsTo, SiblingsInOrder, BreadthFirst;
    forall h | h in all
      ensures h in heads && Descends(heads, h.id, root.id)
    {
      var j :| 0 <= j < |all| && all[j] == h;
      var k := HandedOutDescend(heads, root, all, |all|, started, j);
      assert j > 0 ==> LinkedAt(heads, all, |all|, j);
    }
    forall h | h in heads && Descends(heads, h.id, root.id)
      ensures h in all
    {
      var k: nat :| Climb(heads, h.id, k) == Some(root.id);
      WalkComplete(heads, root, all, started, h.id, k);
      var j :| 0 <= j < |all| && all[j].id == h.id;
      assert all[j] in heads by {
        assert j > 0 ==> LinkedAt(heads, all, |all|, j);
      }
      SameId(heads, all[j], h);
    }
    forall j | 1 <= j < |all|
      ensures all[j].parent.Some? && exists i :: 0 <= i < j && all[i].id == all[j].parent.value
    {
      assert LinkedAt(heads, all, |all|, j);
    }
  }

  /** The table of the heads read so far holds one head for each id. */
  ghost predicate Tabled(byId: map<string, Head>, heads: seq<Head>) {
    && DistinctIds(heads)
    && (forall id :: id in byId <==> HeadOf(heads, id).Some?)
    && (forall id :: id in byId ==> HeadOf(heads, id) == Some(byId[id]))
  }

  lemma {:induction false} TabledStep(byId: map<string, Head>, heads: seq<Head>, h: Head)
    requires Tabled(byId, heads)
    ensures h.id in byId ==>
      byId[h.id] in heads && byId[h.id].id == h.id && DistinctIds(heads) && !DistinctIds(heads + [h])
    ensures h.id !in byId ==> Tabled(byId[h.id := h], heads + [h])
  {
    var more := heads + [h];
    assert more[..|heads|] == heads;
    if h.id in byId {
      assert HeadOf(heads, h.id) == Some(byId[h.id]);
      var i :| 0 <= i < |heads| && heads[i] == byId[h.id];
      assert more[i].id == more[|heads|].id;
    } else {
      HeadOfFinds(heads, h.id);
      NewHeadDistinct(heads, h);
      hide DistinctIds;
      assert forall id :: HeadOf(more, id) == if id == h.id then Some(h) else HeadOf(heads, id);
    }
  }

  lemma {:induction false} NewHeadDistinct(heads: seq<Head>, h: Head)
    requires DistinctIds(heads) && forall g :: g in heads ==> g.id != h.id
    ensures DistinctIds(heads + [h])
  {
    assert forall i :: 0 <= i < |heads| ==> heads[i] in heads;
  }

  lemma {:induction false} PrefixRepeats(heads: seq<Head>, n: nat)
    requires n <= |heads| && !DistinctIds(heads[..n])
    ensures !DistinctIds(heads)
  {
  }

  /** The second is the earliest head whose id one before it has, and the first is that one. */
  ghost predicate FirstRepeat(heads: seq<Head>, first: Head, second: Head) {
    exists i, j :: 0 <= i < j < |heads| && heads[i] == first && heads[j] == second && first.id == second.id
      && DistinctIds(heads[..j])
  }

  lemma {:induction false} RepeatFound(heads: seq<Head>, j: nat, first: Head)
    requires j < |heads| && DistinctIds(heads[..j]) && first in heads[..j] && first.id == heads[j].id
    ensures FirstRepeat(heads, first, heads[j])
  {
    var i :| 0 <= i < j && heads[..j][i] == first;
    assert heads[i] == first;
  }

  method CheckDistinct(heads: seq<Head>) returns (byId: map<string, Head>, second: Option<Head>)
    ensures second.None? <==> DistinctIds(heads)
    ensures second.Some? ==> second.value.id in byId && FirstRepeat(heads, byId[second.value.id], second.value)
    ensures second.None? ==> forall id :: id in byId <==> HeadOf(heads, id).Some?
    ensures second.None? ==> forall id :: id in byId ==> HeadOf(heads, id) == Some(byId[id])
  {
    byId, second := map[], None;
    assert Tabled(byId, heads[..0]);
    for i := 0 to |heads|
      invariant Tabled(byId, heads[..i])
    {
      hide Tabled, DistinctIds, HeadOf;
      var head := heads[i];
      assert heads[..i + 1] == heads[..i] + [head];
      TabledStep(byId, heads[..i], head);
      if head.id in byId {
        second := Some(head);
        RepeatFound(heads, i, byId[head.id]);
        PrefixRepeats(heads, i + 1);
        return;
      }
      byId := byId[head.id := head];
    }
    assert heads[..|heads|] == heads;
  }

  /**
   * The run of a root thread. It is refused when two files record one thread, when no file records the
   * root, and when the root is its own descendant; cycles among other threads do not matter.
   */
  method RunSessions(heads: seq<Head>, root: string, started: Clock) returns (r: Result)
    ensures r.Duplicate? <==> !DistinctIds(heads)
    ensures r.Duplicate? ==> FirstRepeat(heads, r.first, r.second)
    ensures r.Missing? <==> DistinctIds(heads) && HeadOf(heads, root).None?
    ensures r.Cycle? <==> DistinctIds(heads) && HeadOf(heads, root).Some? && OwnDescendant(heads, root)
    ensures r.Cycle? ==> r.at.id == root
    ensures r.Sessions? ==> RunOrder(heads, root, r.ordered, started)
  {
    hide Walked, RunOrder, OwnDescendant, Ids, Recorded, FirstRepeat;
    var byId, second := CheckDistinct(heads);
    if second.Some? {
      return Duplicate(byId[second.value.id], second.value);
    }
    if root !in byId {
      return Missing(root);
    }
    var ordered: seq<Head>, seen: set<string>, queue := [], {}, [byId[root]];
    ghost var first := byId[root];
    assert ordered + queue == [first];
    WalkStart(heads, first, started);
    while queue != []
      invariant Walked(heads, first, ordered + queue, |ordered|, started)
      invariant seen == Ids(ordered + queue, |ordered|) && seen <= Recorded(heads)
      decreases Recorded(heads) - seen
    {
      var head := queue[0];
      ghost var all, n := ordered + queue, |ordered|;
      assert all[n] == head;
      if head.id in seen {
        RepeatIsCycle(heads, first, all, n, started);
        return Cycle(head);
      }
      WalkStep(heads, first, all, n, started);
      var descendants := SortedChildren(heads, head.id, started);
      queue := queue[1..] + descendants;
      ordered := ordered + [head];
      seen := seen + {head.id};
      assert ordered + queue == all + descendants;
      RecordedHas(heads, first, all, n, started);
      SeenStep(all, descendants, n);
    }
    assert ordered + queue == ordered;
    WalkedOrder(heads, first, ordered, started);
    WalkAcyclic(heads, first, ordered, started);
    r := Sessions(ordered);
  }

  function Recorded(heads: seq<Head>): set<string> {
    Ids(heads, |heads|)
  }

  lemma {:induction false} WalkStart(heads: seq<Head>, first: Head, started: Clock)
    ensures Walked(heads, first, [first], 0, started) && Ids([first], 0) == {}
  {
  }

  lemma {:induction false} RecordedHas(heads: seq<Head>, root: Head, all: seq<Head>, n: nat, started: Clock)
    requires root in heads && Walked(heads, root, all, n, started) && n < |all|
    ensures all[n].id in Recorded(heads)
  {
    assert n > 0 ==> LinkedAt(heads, all, n, n);
    var i :| 0 <= i < |heads| && heads[i] == all[n];
  }

  lemma {:induction false} SeenStep(all: seq<Head>, kids: seq<Head>, n: nat)
    requires n < |all|
    ensures Ids(all + kids, n + 1) == Ids(all, n) + {all[n].id}
  {
    assert forall i :: 0 <= i < n + 1 ==> (all + kids)[i] == all[i];
    assert (all + kids)[n].id in Ids(all + kids, n + 1);
  }
}
