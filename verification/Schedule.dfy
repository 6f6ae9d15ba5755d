/** The launch order of a run: every (attempt, task, arm) triple, with the arms rotated by attempt and task. */
module Schedule {
  import opened Prelude

  /** `x` counted round `n` places. */
  function Round(x: int, n: nat): nat
    requires n > 0
  {
    x % n
  }

  /** The arms in the order attempt `attempt` of the task at `index` runs them. */
  function Rotated<Arm>(arms: seq<Arm>, attempt: int, index: nat): seq<Arm>
    requires |arms| > 0
  {
    var offset := (attempt - 1 + index) % |arms|;
    arms[offset..] + arms[..offset]
  }

  function Launch<Task, Arm>(attempt: int, task: Task, arms: seq<Arm>): seq<(int, Task, Arm)> {
    seq(|arms|, p requires 0 <= p < |arms| => (attempt, task, arms[p]))
  }

  /** The launches of the first `count` tasks at one attempt. */
  function AttemptRows<Task, Arm>(tasks: seq<Task>, arms: seq<Arm>, attempt: int, count: nat): seq<(int, Task, Arm)>
    requires |arms| > 0 && count <= |tasks|
  {
    if count == 0 then [] else
      AttemptRows(tasks, arms, attempt, count - 1)
      + Launch(attempt, tasks[count - 1], Rotated(arms, attempt, count - 1))
  }

  function Rows<Task, Arm>(tasks: seq<Task>, arms: seq<Arm>, attempts: nat): seq<(int, Task, Arm)>
    requires |arms| > 0
  {
    if attempts == 0 then [] else
      Rows(tasks, arms, attempts - 1) + AttemptRows(tasks, arms, attempts, |tasks|)
  }

  /** None is the division by zero that rotating no arms raises. */
  function Planned<Task, Arm>(tasks: seq<Task>, arms: seq<Arm>, attempts: int): Option<seq<(int, Task, Arm)>> {
    if attempts <= 0 || |tasks| == 0 then Some([])
    else if |arms| == 0 then None
    else Some(Rows(tasks, arms, attempts))
  }

  // Counting round.

  lemma {:induction false} SmallMultiple(n: nat, e: int)
    requires 0 - n < n * e < n
    ensures e == 0
  {
  }

  lemma {:induction false} Remainder(x: int, n: nat, q: int, r: nat)
    requires n > 0 && x == n * q + r && r < n
    ensures x % n == r && x / n == q
  {
    var e := x / n - q;
    assert n * e == r - x % n;
    SmallMultiple(n, e);
  }

  lemma {:induction false} RoundsTo(x: int, n: nat, q: int, r: nat)
    requires n > 0 && x == n * q + r && r < n
    ensures Round(x, n) == r
  {
    Remainder(x, n, q, r);
  }

  lemma {:induction false} Rounded(x: int, n: nat) returns (q: int)
    requires n > 0
    ensures x == n * q + Round(x, n) && Round(x, n) < n && q == x / n
  {
    q := x / n;
  }

  lemma {:induction false} Distribute(n: int, a: int, b: int)
    ensures n * (a + b) == n * a + n * b
    ensures n * (a - b) == n * a - n * b
  {
  }

  lemma {:induction false} RoundShift(c: int, i: int, n: nat, k: nat)
    requires n > 0 && k < n
    ensures Round(c + i, n) == k <==> Round(i, n) == Round(k - c, n)
  {
    hide Round;
    var q := Rounded(k - c, n);
    var t := Rounded(i, n);
    var s := Rounded(c + i, n);
    Distribute(n, t, q);
    Distribute(n, s, q);
    if Round(i, n) == Round(k - c, n) {
      RoundsTo(c + i, n, t - q, k);
    }
    if Round(c + i, n) == k {
      RoundsTo(i, n, s + q, Round(k - c, n));
    }
  }

  lemma {:induction false} RoundIs(x: int, n: nat)
    requires n > 0
    ensures Round(x, n) == x % n
  {
  }

  lemma {:induction false} RoundSmall(j: nat, n: nat)
    requires j < n
    ensures Round(j, n) == j
  {
  }

  // The order within one task.

  /** Position `p` holds the arm `attempt - 1 + index` places later, counting round. */
  lemma {:induction false} RotatedAt<Arm>(arms: seq<Arm>, attempt: int, index: nat, p: nat)
    requires p < |arms|
    ensures |Rotated(arms, attempt, index)| == |arms|
    ensures Rotated(arms, attempt, index)[p] == arms[Round(attempt - 1 + index + p, |arms|)]
  {
    var n, s := |arms|, attempt - 1 + index;
    var q := Rounded(s, n);
    var offset := s % n;
    Distribute(n, q, 1);
    hide Round;
    if offset + p < n {
      RoundsTo(s + p, n, q, offset + p);
    } else {
      RoundsTo(s + p, n, q + 1, offset + p - n);
    }
  }

  lemma {:induction false} RotatedKeeps<Arm>(arms: seq<Arm>, attempt: int, index: nat)
    requires |arms| > 0
    ensures multiset(Rotated(arms, attempt, index)) == multiset(arms)
  {
    var offset := (attempt - 1 + index) % |arms|;
    assert arms == arms[..offset] + arms[offset..];
  }

  // Every triple once.

  ghost predicate OnceEach<T(!new)>(xs: seq<T>) {
    forall j, k :: 0 <= j < k < |xs| ==> xs[j] != xs[k]
  }

  lemma {:induction false} OnceCounts<T(!new)>(xs: seq<T>, x: T)
    requires OnceEach(xs)
    ensures multiset(xs)[x] == if x in xs then 1 else 0
  {
    if |xs| > 0 {
      var before, last := xs[..|xs| - 1], xs[|xs| - 1];
      OnceCounts(before, x);
      assert xs == before + [last];
    }
  }

  lemma {:induction false} LaunchCounts<Task, Arm>(attempt: int, task: Task, arms: seq<Arm>, a: int, t: Task, arm: Arm)
    ensures multiset(Launch(attempt, task, arms))[(a, t, arm)]
        == if a == attempt && t == task then multiset(arms)[arm] else 0
  {
    if |arms| > 0 {
      var before, last := arms[..|arms| - 1], arms[|arms| - 1];
      LaunchCounts(attempt, task, before, a, t, arm);
      assert arms == before + [last];
      assert Launch(attempt, task, arms) == Launch(attempt, task, before) + [(attempt, task, last)];
    }
  }

  lemma {:induction false} ConcatCounts<T>(xs: seq<T>, ys: seq<T>, z: T)
    ensures multiset(xs + ys)[z] == multiset(xs)[z] + multiset(ys)[z]
  {
  }

  lemma {:induction false} OneMore<T(!new)>(xs: seq<T>, count: nat, x: T)
    requires 0 < count <= |xs| && OnceEach(xs)
    ensures x in xs[..count] <==> x in xs[..count - 1] || x == xs[count - 1]
    ensures !(x in xs[..count - 1] && x == xs[count - 1])
  {
    assert xs[..count] == xs[..count - 1] + [xs[count - 1]];
  }

  lemma {:induction false} AttemptCounts<Task(!new), Arm(!new)>(
    tasks: seq<Task>, arms: seq<Arm>, attempt: int, count: nat, a: int, t: Task, arm: Arm)
    requires |arms| > 0 && count <= |tasks| && OnceEach(tasks) && OnceEach(arms)
    ensures multiset(AttemptRows(tasks, arms, attempt, count))[(a, t, arm)]
        == if a == attempt && t in tasks[..count] && arm in arms then 1 else 0
  {
    hide Launch, Rotated, OnceEach;
    if count > 0 {
      var order := Rotated(arms, attempt, count - 1);
      AttemptCounts(tasks, arms, attempt, count - 1, a, t, arm);
      LaunchCounts(attempt, tasks[count - 1], order, a, t, arm);
      RotatedKeeps(arms, attempt, count - 1);
      OnceCounts(arms, arm);
      OneMore(tasks, count, t);
      ConcatCounts(
        AttemptRows(tasks, arms, attempt, count - 1), Launch(attempt, tasks[count - 1], order), (a, t, arm));
    }
  }

  lemma {:induction false} RowsCount<Task(!new), Arm(!new)>(
    tasks: seq<Task>, arms: seq<Arm>, attempts: nat, a: int, t: Task, arm: Arm)
    requires |arms| > 0 && OnceEach(tasks) && OnceEach(arms)
    ensures multiset(Rows(tasks, arms, attempts))[(a, t, arm)]
        == if 1 <= a <= attempts && t in tasks && arm in arms then 1 else 0
  {
    hide AttemptRows, OnceEach;
    if attempts > 0 {
      RowsCount(tasks, arms, attempts - 1, a, t, arm);
      AttemptCounts(tasks, arms, attempts, |tasks|, a, t, arm);
      assert tasks[..|tasks|] == tasks;
      ConcatCounts(Rows(tasks, arms, attempts - 1), AttemptRows(tasks, arms, attempts, |tasks|), (a, t, arm));
    }
  }

  /** With distinct tasks and arms, every triple is launched exactly once and nothing else is. */
  lemma {:induction false} EveryTripleOnce<Task(!new), Arm(!new)>(
    tasks: seq<Task>, arms: seq<Arm>, attempts: int, a: int, t: Task, arm: Arm)
    requires OnceEach(tasks) && OnceEach(arms)
    ensures Planned(tasks, arms, attempts).None? <==> attempts > 0 && |tasks| > 0 && |arms| == 0
    ensures Planned(tasks, arms, attempts).Some? ==>
      multiset(Planned(tasks, arms, attempts).value)[(a, t, arm)]
        == if 1 <= a <= attempts && t in tasks && arm in arms then 1 else 0
  {
    hide Rows, OnceEach;
    if attempts > 0 && |tasks| > 0 && |arms| > 0 {
      RowsCount(tasks, arms, attempts, a, t, arm);
    }
  }

  // The launch order.

  /** How many launches `count` blocks of `size` hold. */
  function Blocks(count: nat, size: nat): nat {
    if count == 0 then 0 else Blocks(count - 1, size) + size
  }

  lemma {:induction false} BlocksAre(count: nat, size: nat)
    ensures Blocks(count, size) == count * size
  {
    if count > 0 {
      BlocksAre(count - 1, size);
      Distribute(size, count, 1);
    }
  }

  lemma {:induction false} AttemptLength<Task, Arm>(tasks: seq<Task>, arms: seq<Arm>, attempt: int, count: nat)
    requires |arms| > 0 && count <= |tasks|
    ensures |AttemptRows(tasks, arms, attempt, count)| == Blocks(count, |arms|)
  {
    hide Rotated, Round;
    if count > 0 {
      AttemptLength(tasks, arms, attempt, count - 1);
      RotatedAt(arms, attempt, count - 1, 0);
    }
  }

  lemma {:induction false} AttemptAt<Task, Arm>(
    tasks: seq<Task>, arms: seq<Arm>, attempt: int, count: nat, i: nat, p: nat)
    requires p < |arms| && i < count <= |tasks|
    ensures var rows := AttemptRows(tasks, arms, attempt, count); var at := Blocks(i, |arms|) + p;
      && at < |rows|
      && rows[at] == (attempt, tasks[i], arms[Round(attempt - 1 + i + p, |arms|)])
  {
    hide Round, Rotated;
    AttemptLength(tasks, arms, attempt, count - 1);
    RotatedAt(arms, attempt, count - 1, p);
    if i < count - 1 {
      AttemptAt(tasks, arms, attempt, count - 1, i, p);
    }
  }

  lemma {:induction false} RowsLength<Task, Arm>(tasks: seq<Task>, arms: seq<Arm>, attempts: nat)
    requires |arms| > 0
    ensures |Rows(tasks, arms, attempts)| == Blocks(attempts, Blocks(|tasks|, |arms|))
  {
    hide AttemptRows;
    if attempts > 0 {
      RowsLength(tasks, arms, attempts - 1);
      AttemptLength(tasks, arms, attempts, |tasks|);
    }
  }

  lemma {:induction false} RowAt<Task, Arm>(
    tasks: seq<Task>, arms: seq<Arm>, attempts: nat, a: nat, i: nat, p: nat)
    requires 1 <= a <= attempts && i < |tasks| && p < |arms|
    ensures var rows := Rows(tasks, arms, attempts);
      var at := Blocks(a - 1, Blocks(|tasks|, |arms|)) + Blocks(i, |arms|) + p;
      && at < |rows|
      && rows[at] == (a, tasks[i], arms[Round(a - 1 + i + p, |arms|)])
  {
    hide AttemptRows, Round;
    RowsLength(tasks, arms, attempts - 1);
    AttemptAt(tasks, arms, attempts, |tasks|, i, p);
    if a < attempts {
      RowAt(tasks, arms, attempts - 1, a, i, p);
    }
  }

  /** Attempts follow one another, tasks within an attempt, and arms within a task, each starting one arm later. */
  lemma {:induction false} LaunchedAt<Task, Arm>(
    tasks: seq<Task>, arms: seq<Arm>, attempts: int, a: nat, i: nat, p: nat)
    requires 1 <= a <= attempts && i < |tasks| && p < |arms|
    ensures Planned(tasks, arms, attempts).Some?
    ensures var rows := Planned(tasks, arms, attempts).value;
      var at := (a - 1) * (|tasks| * |arms|) + i * |arms| + p;
      && 0 <= at < |rows| == attempts * (|tasks| * |arms|)
      && rows[at] == (a, tasks[i], arms[(a - 1 + i + p) % |arms|])
  {
    RoundIs(a - 1 + i + p, |arms|);
    hide Rows, Round, Blocks;
    RowAt(tasks, arms, attempts, a, i, p);
    RowsLength(tasks, arms, attempts);
    BlocksAre(|tasks|, |arms|);
    BlocksAre(i, |arms|);
    BlocksAre(a - 1, |tasks| * |arms|);
    BlocksAre(attempts, |tasks| * |arms|);
  }

  // Balance.

  function At<Arm>(arms: seq<Arm>, attempt: int, index: nat, p: nat): Arm
    requires p < |arms|
  {
    RotatedAt(arms, attempt, index, p);
    Rotated(arms, attempt, index)[p]
  }

  /** An arm is in a position exactly when attempt and task together have shifted it there. */
  lemma {:induction false} PlacedWhen<Arm(!new)>(arms: seq<Arm>, attempt: int, index: nat, p: nat, k: nat)
    requires p < |arms| && k < |arms| && OnceEach(arms)
    ensures At(arms, attempt, index, p) == arms[k] <==> Round(index, |arms|) == Round(k - (attempt - 1 + p), |arms|)
  {
    hide Round, Rotated;
    RotatedAt(arms, attempt, index, p);
    var n, s := |arms|, attempt - 1 + index + p;
    assert s == (attempt - 1 + p) + index;
    var q := Rounded(s, n);
    RoundShift(attempt - 1 + p, index, n, k);
  }

  /** The arms in position `p` of `|arms|` consecutive tasks at one attempt. */
  function AcrossTasks<Arm>(arms: seq<Arm>, attempt: int, first: nat, p: nat): seq<Arm>
    requires p < |arms|
  {
    seq(|arms|, j requires 0 <= j < |arms| => At(arms, attempt, first + j, p))
  }

  /** The arms in position `p` of `|arms|` consecutive attempts of one task. */
  function AcrossAttempts<Arm>(arms: seq<Arm>, first: int, index: nat, p: nat): seq<Arm>
    requires p < |arms|
  {
    seq(|arms|, j requires 0 <= j < |arms| => At(arms, first + j, index, p))
  }

  lemma {:induction false} SameShift<Arm>(arms: seq<Arm>, attempt: int, index: nat, p: nat, j: nat)
    requires p < |arms| && j < |arms|
    ensures At(arms, attempt, index + j, p) == At(arms, attempt, index + p, j) == At(arms, attempt + j, index, p)
  {
    hide Round, Rotated;
    RotatedAt(arms, attempt, index + j, p);
    RotatedAt(arms, attempt, index + p, j);
    RotatedAt(arms, attempt + j, index, p);
    var s := attempt - 1 + index + p + j;
    assert attempt - 1 + (index + j) + p == attempt - 1 + (index + p) + j == attempt + j - 1 + index + p == s;
  }

  /** Over as many consecutive tasks, or attempts of one task, as there are arms, each arm takes each position once. */
  lemma {:induction false} TakesTurns<Arm>(arms: seq<Arm>, attempt: int, index: nat, p: nat)
    requires p < |arms|
    ensures multiset(AcrossTasks(arms, attempt, index, p)) == multiset(arms)
    ensures multiset(AcrossAttempts(arms, attempt, index, p)) == multiset(arms)
  {
    RotatedKeeps(arms, attempt, index + p);
    RotatedAt(arms, attempt, index + p, p);
    var order := Rotated(arms, attempt, index + p);
    forall j | 0 <= j < |order|
      ensures order[j] == AcrossTasks(arms, attempt, index, p)[j] == AcrossAttempts(arms, attempt, index, p)[j]
    {
      SameShift(arms, attempt, index, p, j);
    }
    hide Rotated, At;
    assert AcrossTasks(arms, attempt, index, p) == order == AcrossAttempts(arms, attempt, index, p);
  }

  /** How many of the first `tasks` tasks have `arm` in position `p` at this attempt. */
  function TimesPlaced<Arm(==)>(arms: seq<Arm>, attempt: int, tasks: nat, p: nat, arm: Arm): nat
    requires p < |arms|
  {
    if tasks == 0 then 0 else
      TimesPlaced(arms, attempt, tasks - 1, p, arm) + (if At(arms, attempt, tasks - 1, p) == arm then 1 else 0)
  }

  function Whole(x: nat, n: nat): nat
    requires n > 0
  {
    x / n
  }

  lemma {:induction false} Next(x: nat, n: nat)
    requires n > 0
    ensures Round(x + 1, n) == if Round(x, n) == n - 1 then 0 else Round(x, n) + 1
    ensures Whole(x + 1, n) == if Round(x, n) == n - 1 then Whole(x, n) + 1 else Whole(x, n)
    ensures Round(x, n) < n
  {
    var q := x / n;
    Distribute(n, q, 1);
    if x % n == n - 1 {
      Remainder(x + 1, n, q + 1, 0);
    } else {
      Remainder(x + 1, n, q, x % n + 1);
    }
  }

  /** An arm takes a position on one task in `n`, beginning with the first that gives it. */
  lemma {:induction false} PlacedIs<Arm(!new)>(arms: seq<Arm>, attempt: int, tasks: nat, p: nat, k: nat)
    requires p < |arms| && k < |arms| && OnceEach(arms)
    ensures var n := |arms|; var first := Round(k - (attempt - 1 + p), n);
      TimesPlaced(arms, attempt, tasks, p, arms[k]) == Whole(tasks, n) + (if first < Round(tasks, n) then 1 else 0)
  {
    var n := |arms|;
    hide OnceEach, At;
    if tasks == 0 {
      RoundSmall(0, n);
      Remainder(0, n, 0, 0);
    } else {
      hide Round, Whole;
      PlacedIs(arms, attempt, tasks - 1, p, k);
      PlacedWhen(arms, attempt, tasks - 1, p, k);
      var q := Rounded(k - (attempt - 1 + p), n);
      Next(tasks - 1, n);
    }
  }

  /** Over the tasks of one attempt an arm takes a position the rounded-down or the rounded-up share of times. */
  lemma {:induction false} PlacedEvenly<Arm(!new)>(arms: seq<Arm>, attempt: int, tasks: nat, p: nat, k: nat)
    requires p < |arms| && k < |arms| && OnceEach(arms)
    ensures var n, placed := |arms|, TimesPlaced(arms, attempt, tasks, p, arms[k]);
      && tasks / n <= placed <= (tasks + n - 1) / n
  {
    hide TimesPlaced, OnceEach;
    PlacedIs(arms, attempt, tasks, p, k);
    RoundedUp(tasks, |arms|);
  }

  lemma {:induction false} RoundedUp(x: nat, n: nat)
    requires n > 0
    ensures Whole(x, n) == x / n
    ensures (x + n - 1) / n == if Round(x, n) == 0 then Whole(x, n) else Whole(x, n) + 1
  {
    var q, r := x / n, x % n;
    Distribute(n, q, 1);
    if r > 0 {
      Remainder(x + n - 1, n, q + 1, r - 1);
    } else {
      Remainder(x + n - 1, n, q, n - 1);
    }
  }
}
