/** The exact two-sided probability of an uneven split, and the bit strings it counts. */
module Binomial {
  import opened Prelude

  function Pow2(n: nat): (p: nat)
    ensures p > 0
  {
    if n == 0 then 1 else 2 * Pow2(n - 1)
  }

  function Choose(n: nat, k: nat): nat {
    if k == 0 then 1 else if n == 0 then 0 else Choose(n - 1, k - 1) + Choose(n - 1, k)
  }

  /** The sum of `Choose(n, k)` for `lo <= k < hi`. */
  function RowSum(n: nat, lo: nat, hi: nat): nat {
    if hi <= lo then 0 else RowSum(n, lo, hi - 1) + Choose(n, hi - 1)
  }

  function Tail(n: nat, smaller: nat): nat {
    RowSum(n, 0, smaller + 1)
  }

  /**
   * The probability of a split at least as uneven as `first` against `second`;
   * None is the error for a negative count.
   */
  function TwoSided(first: int, second: int): Option<real> {
    if first < 0 || second < 0 then None else
      var total := first + second;
      if total == 0 then Some(1.0) else
        var doubled := 2.0 * Share(Tail(total, Min(first, second)), Pow2(total));
        Some(if doubled < 1.0 then doubled else 1.0)
  }

  // The strings a split counts.

  function Strings(n: nat): set<seq<bool>> {
    if n == 0 then {[]} else Ended(Strings(n - 1), false) + Ended(Strings(n - 1), true)
  }

  function Ended(strings: set<seq<bool>>, bit: bool): set<seq<bool>> {
    set s | s in strings :: s + [bit]
  }

  function Ones(s: seq<bool>): nat {
    if |s| == 0 then 0 else Ones(s[..|s| - 1]) + (if s[|s| - 1] then 1 else 0)
  }

  lemma {:induction false} AppendInjective(s: seq<bool>, t: seq<bool>, bit: bool)
    ensures s + [bit] == t + [bit] <==> s == t
  {
    assert (s + [bit])[..|s + [bit]| - 1] == s && (t + [bit])[..|t + [bit]| - 1] == t;
  }

  lemma {:induction false} EndedWithout(strings: set<seq<bool>>, s: seq<bool>, bit: bool)
    requires s in strings
    ensures s + [bit] !in Ended(strings - {s}, bit)
    ensures Ended(strings, bit) == Ended(strings - {s}, bit) + {s + [bit]}
  {
    forall t | t in strings - {s}
      ensures t + [bit] != s + [bit]
    {
      AppendInjective(s, t, bit);
    }
    assert strings == (strings - {s}) + {s};
  }

  lemma {:induction false} EndedSize(strings: set<seq<bool>>, bit: bool)
    ensures |Ended(strings, bit)| == |strings|
    decreases |strings|
  {
    if strings != {} {
      var s :| s in strings;
      EndedSize(strings - {s}, bit);
      EndedWithout(strings, s, bit);
      hide Ended;
    }
  }

  lemma {:induction false} StringsAre(n: nat, s: seq<bool>)
    ensures s in Strings(n) <==> |s| == n
    ensures |s| == n ==> Ones(s) <= n
  {
    if n == 0 {
      assert |s| == 0 ==> s == [];
    } else {
      if |s| > 0 {
        var front, last := s[..|s| - 1], s[|s| - 1];
        StringsAre(n - 1, front);
        assert s == front + [last];
        assert front in Strings(n - 1) ==> s in Ended(Strings(n - 1), last);
      }
      forall t, bit: bool | t in Strings(n - 1) && s == t + [bit]
        ensures |s| == n
      {
        assert t == s[..|s| - 1];
      }
    }
  }

  /** The strings of length `n` with at least `lo` and fewer than `hi` ones. */
  function Between(n: nat, lo: int, hi: int): set<seq<bool>> {
    set s | s in Strings(n) && lo <= Ones(s) < hi
  }

  lemma {:induction false} OnesEnded(s: seq<bool>, bit: bool)
    ensures Ones(s + [bit]) == Ones(s) + (if bit then 1 else 0)
  {
    assert (s + [bit])[..|s|] == s;
  }

  lemma {:induction false} BetweenSplits(n: nat, lo: int, hi: int)
    requires n > 0
    ensures Between(n, lo, hi) == Ended(Between(n - 1, lo, hi), false) + Ended(Between(n - 1, lo - 1, hi - 1), true)
    ensures Ended(Between(n - 1, lo, hi), false) !! Ended(Between(n - 1, lo - 1, hi - 1), true)
  {
    forall s | s in Strings(n - 1)
      ensures Ones(s + [false]) == Ones(s) && Ones(s + [true]) == Ones(s) + 1
    {
      OnesEnded(s, false);
      OnesEnded(s, true);
    }
    forall s, t | s in Between(n - 1, lo, hi) && t in Between(n - 1, lo - 1, hi - 1)
      ensures s + [false] != t + [true]
    {
      assert (s + [false])[|s|] == false;
      assert |s| == |t| == n - 1 by {
        StringsAre(n - 1, s);
        StringsAre(n - 1, t);
      }
      assert (t + [true])[|t|] == true;
    }
  }

  lemma {:induction false} BetweenEmpty(k: nat)
    ensures |Between(0, k, k + 1)| == Choose(0, k)
  {
    assert Strings(0) == {[]} && Ones([]) == 0;
    assert Between(0, k, k + 1) == if k == 0 then {[]} else {};
  }

  lemma {:induction false} BetweenStep(n: nat, lo: int, hi: int)
    requires n > 0
    ensures |Between(n, lo, hi)| == |Between(n - 1, lo, hi)| + |Between(n - 1, lo - 1, hi - 1)|
  {
    BetweenSplits(n, lo, hi);
    hide *;
    EndedSize(Between(n - 1, lo, hi), false);
    EndedSize(Between(n - 1, lo - 1, hi - 1), true);
  }

  /** `Choose(n, k)` is the number of strings of length `n` with `k` ones. */
  lemma {:induction false} ChooseCounts(n: nat, k: nat)
    ensures |Between(n, k, k + 1)| == Choose(n, k)
  {
    hide Between;
    if n == 0 {
      BetweenEmpty(k);
    } else {
      BetweenStep(n, k, k + 1);
      ChooseCounts(n - 1, k);
      if k > 0 {
        ChooseCounts(n - 1, k - 1);
      } else {
        BetweenBelow(n - 1);
        OneWithout(n - 1);
      }
    }
  }

  lemma {:induction false} BetweenBelow(n: nat)
    ensures |Between(n, -1, 0)| == 0
  {
    hide Strings, Ones;
    assert Between(n, -1, 0) == {};
  }

  lemma {:induction false} OneWithout(n: nat)
    ensures Choose(n, 0) == 1
  {
  }

  lemma {:induction false} RowCounts(n: nat, lo: nat, hi: nat)
    ensures |Between(n, lo, hi)| == RowSum(n, lo, hi)
  {
    hide Strings, Ones;
    if lo < hi {
      RowCounts(n, lo, hi - 1);
      ChooseCounts(n, hi - 1);
      assert Between(n, lo, hi) == Between(n, lo, hi - 1) + Between(n, hi - 1, hi);
      assert Between(n, lo, hi - 1) !! Between(n, hi - 1, hi);
    } else {
      assert Between(n, lo, hi) == {};
    }
  }

  lemma {:induction false} ChooseBeyond(n: nat, k: nat)
    requires k > n
    ensures Choose(n, k) == 0
  {
    if n > 0 {
      ChooseBeyond(n - 1, k - 1);
      ChooseBeyond(n - 1, k);
    }
  }

  lemma {:induction false} ChooseSymmetric(n: nat, k: nat)
    requires k <= n
    ensures Choose(n, k) == Choose(n, n - k)
  {
    if n > 0 {
      if k == n {
        if k > 0 {
          ChooseSymmetric(n - 1, k - 1);
          ChooseBeyond(n - 1, k);
        }
      } else if k > 0 {
        ChooseSymmetric(n - 1, k - 1);
        ChooseSymmetric(n - 1, k);
      } else {
        ChooseSymmetric(n - 1, 0);
        ChooseBeyond(n - 1, n);
      }
    }
  }

  lemma {:induction false} RowSplit(n: nat, lo: nat, mid: nat, hi: nat)
    requires lo <= mid <= hi
    ensures RowSum(n, lo, hi) == RowSum(n, lo, mid) + RowSum(n, mid, hi)
  {
    if mid < hi {
      RowSplit(n, lo, mid, hi - 1);
    }
  }

  lemma {:induction false} RowFirst(n: nat, lo: nat, hi: nat)
    requires lo < hi
    ensures RowSum(n, lo, hi) == Choose(n, lo) + RowSum(n, lo + 1, hi)
  {
    RowSplit(n, lo, lo + 1, hi);
    assert RowSum(n, lo, lo + 1) == RowSum(n, lo, lo) + Choose(n, lo);
  }

  /** The upper tail is the lower tail. */
  lemma {:induction false} RowMirrors(n: nat, m: nat)
    requires m <= n + 1
    ensures RowSum(n, n + 1 - m, n + 1) == RowSum(n, 0, m)
  {
    if m > 0 {
      RowMirrors(n, m - 1);
      RowFirst(n, n + 1 - m, n + 1);
      ChooseSymmetric(n, m - 1);
    }
  }

  lemma {:induction false} RowPascal(n: nat, hi: nat)
    ensures RowSum(n + 1, 0, hi + 1) == RowSum(n, 0, hi + 1) + RowSum(n, 0, hi)
  {
    if hi > 0 {
      RowPascal(n, hi - 1);
    } else {
      assert RowSum(n + 1, 0, 1) == RowSum(n + 1, 0, 0) + Choose(n + 1, 0);
      assert RowSum(n, 0, 1) == RowSum(n, 0, 0) + Choose(n, 0);
    }
  }

  /** A row adds up to the number of strings. */
  lemma {:induction false} WholeRow(n: nat)
    ensures RowSum(n, 0, n + 1) == Pow2(n)
  {
    if n == 0 {
      assert RowSum(0, 0, 1) == RowSum(0, 0, 0) + Choose(0, 0);
    } else {
      WholeRow(n - 1);
      RowPascal(n - 1, n);
      ChooseBeyond(n - 1, n);
    }
  }

  /** The strings whose smaller side has at most `m` bits. */
  function Uneven(n: nat, m: nat): set<seq<bool>> {
    set s | s in Strings(n) && Min(Ones(s), n - Ones(s)) <= m
  }

  lemma {:induction false} UnevenIs(n: nat, m: nat)
    requires 2 * m <= n
    ensures 2 * m < n ==> Uneven(n, m) == Between(n, 0, m + 1) + Between(n, n - m, n + 1)
    ensures 2 * m < n ==> Between(n, 0, m + 1) !! Between(n, n - m, n + 1)
    ensures 2 * m == n ==> Uneven(n, m) == Between(n, 0, n + 1)
  {
    forall s | s in Strings(n)
      ensures Ones(s) <= n
    {
      StringsAre(n, s);
    }
    hide Strings, Ones;
  }

  lemma {:induction false} UnevenCounts(n: nat, m: nat)
    requires 2 * m <= n
    ensures |Uneven(n, m)| == if 2 * m < n then 2 * Tail(n, m) else Pow2(n)
  {
    hide Uneven, Between, Strings, RowSum, Choose;
    UnevenIs(n, m);
    if 2 * m < n {
      RowCounts(n, 0, m + 1);
      RowCounts(n, n - m, n + 1);
      RowMirrors(n, m + 1);
    } else {
      RowCounts(n, 0, n + 1);
      WholeRow(n);
    }
  }

  lemma {:induction false} ChoosePositive(n: nat, k: nat)
    requires k <= n
    ensures Choose(n, k) > 0
  {
    if n > 0 && k > 0 {
      ChoosePositive(n - 1, k - 1);
    }
  }

  /** Twice the tail exceeds the number of strings exactly when the split is even. */
  lemma {:induction false} DoubledTail(n: nat, m: nat)
    requires 2 * m <= n
    ensures 2 * Tail(n, m) > Pow2(n) <==> 2 * m == n
  {
    WholeRow(n);
    RowMirrors(n, m + 1);
    if 2 * m < n {
      RowSplit(n, 0, m + 1, n + 1);
      RowSplit(n, m + 1, n - m, n + 1);
    } else {
      RowSplit(n, 0, m, n + 1);
      ChoosePositive(n, m);
    }
  }

  /** `part` as a share of `whole`. */
  function Share(part: nat, whole: nat): real
    requires whole > 0
  {
    part as real / whole as real
  }

  /** Comparing twice a share with one. */
  lemma {:induction false} ShareOfTwice(part: nat, whole: nat)
    requires whole > 0
    ensures 2.0 * Share(part, whole) == Share(2 * part, whole)
    ensures Share(2 * part, whole) < 1.0 <==> 2 * part < whole
    ensures Share(whole, whole) == 1.0
  {
    Doubled(part as real, (2 * part) as real, whole as real);
  }

  lemma {:induction false} Doubled(x: real, y: real, d: real)
    requires d > 0.0 && y == 2.0 * x
    ensures 2.0 * (x / d) == y / d
    ensures y / d < 1.0 <==> y < d
    ensures d / d == 1.0
  {
    var q := x / d;
    assert q * d == x;
    assert (2.0 * q) * d == y;
  }

  /** The probability is twice the smaller tail's share, or one where twice the tail is every string or more. */
  lemma {:induction false} TwoSidedIs(first: nat, second: nat)
    ensures var n := first + second; var twice := 2 * Tail(n, Min(first, second));
      TwoSided(first, second) == Some(Share(if twice < Pow2(n) then twice else Pow2(n), Pow2(n)))
  {
    var n := first + second;
    hide Share, Tail;
    ShareOfTwice(Tail(n, Min(first, second)), Pow2(n));
    if n == 0 {
      assert Tail(0, 0) > 0 by {
        WholeRow(0);
        TailIs(0, 0);
      }
    }
  }

  lemma {:induction false} TailIs(n: nat, smaller: nat)
    ensures Tail(n, smaller) == RowSum(n, 0, smaller + 1)
  {
  }

  /**
   * The two-sided probability of a split of `first` against `second` is the share of strings at least as
   * uneven; the cap at one is met only by an even split.
   */
  lemma {:induction false} TwoSidedCounts(first: nat, second: nat)
    ensures var n := first + second;
      && TwoSided(first, second) == Some(Share(|Uneven(n, Min(first, second))|, Pow2(n)))
      && (2 * Tail(n, Min(first, second)) > Pow2(n) <==> first == second)
  {
    hide Tail, TwoSided, Share, Uneven, Pow2;
    var n, m := first + second, Min(first, second);
    UnevenCounts(n, m);
    DoubledTail(n, m);
    TwoSidedIs(first, second);
    assert 2 * m < n ==> 2 * Tail(n, m) <= Pow2(n);
  }
}
