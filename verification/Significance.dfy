/** The sign test, the fewest units whose split can be significant, and what a comparison can detect at all. */
module Significance {
  import opened Prelude
  import opened Binomial
  import opened SortedNames

  const SIGNIFICANCE_LEVEL := 0.05
  const MAX_DISCORDANT_SEARCH := 64

  datatype Result<+T> = Ok(value: T) | Error

  /** The probability of a split of `first` against `second`. */
  function P(first: nat, second: nat): real {
    TwoSided(first, second).value
  }

  // The probability of a split is least when every unit falls one way, and then halves with each unit.

  lemma {:induction false} ShareMonotone(a: nat, b: nat, whole: nat)
    requires a <= b && whole > 0
    ensures Share(a, whole) <= Share(b, whole)
    ensures a < b ==> Share(a, whole) < Share(b, whole)
  {
    Divided(a as real, b as real, whole as real);
  }

  lemma {:induction false} Divided(a: real, b: real, d: real)
    requires d > 0.0 && a <= b
    ensures a / d <= b / d
    ensures a < b ==> a / d < b / d
  {
    var p, q := a / d, b / d;
    assert p * d == a && q * d == b;
    assert (q - p) * d == b - a;
  }

  lemma {:induction false} RowGrows(n: nat, lo: nat, mid: nat, hi: nat)
    requires mid <= hi
    ensures RowSum(n, lo, mid) <= RowSum(n, lo, hi)
  {
    if mid < hi {
      RowGrows(n, lo, mid, hi - 1);
    }
  }

  /** No split of `n` units is less probable than the one that puts them all on one side. */
  lemma {:induction false} MostUneven(first: nat, second: nat)
    ensures P(first, second) >= P(first + second, 0)
    ensures P(first, second) == P(second, first)
    ensures P(first, second) > 0.0
  {
    var n, m := first + second, Min(first, second);
    TwoSidedIs(first, second);
    TwoSidedIs(n, 0);
    TwoSidedIs(second, first);
    TailIs(n, m);
    TailIs(n, 0);
    hide Share, TwoSided, Tail;
    RowGrows(n, 0, 1, m + 1);
    OneTail(n);
    var whole, least := Pow2(n), Twice(Tail(n, 0), n);
    ShareMonotone(least, Twice(Tail(n, m), n), whole);
    ShareMonotone(0, least, whole);
    ShareOfNone(whole);
  }

  function Twice(tail: nat, n: nat): nat {
    if 2 * tail < Pow2(n) then 2 * tail else Pow2(n)
  }

  lemma {:induction false} ShareOfNone(whole: nat)
    requires whole > 0
    ensures Share(0, whole) == 0.0
  {
  }

  lemma {:induction false} OneTail(n: nat)
    ensures Tail(n, 0) == 1
  {
    assert RowSum(n, 0, 1) == RowSum(n, 0, 0) + Choose(n, 0);
    OneWithout(n);
  }

  /** The split of `k` units all one way has probability two over two to the `k`. */
  lemma {:induction false} OneSided(k: nat)
    requires k > 0
    ensures P(k, 0) == Share(2, Pow2(k))
  {
    TwoSidedIs(k, 0);
    OneTail(k);
  }

  lemma {:induction false} Halves(k: nat)
    requires k > 0
    ensures 2.0 * P(k + 1, 0) == P(k, 0)
    ensures P(k + 1, 0) < P(k, 0)
  {
    OneSided(k);
    OneSided(k + 1);
    Halved(2.0, Pow2(k) as real, Pow2(k + 1) as real);
    MostUneven(k + 1, 0);
  }

  lemma {:induction false} Halved(x: real, d: real, e: real)
    requires d > 0.0 && e == 2.0 * d
    ensures 2.0 * (x / e) == x / d
  {
    var q := x / e;
    assert (2.0 * q) * d == q * e == x;
  }

  lemma {:induction false} FewerIsMoreProbable(j: nat, k: nat)
    requires j <= k
    ensures P(j, 0) >= P(k, 0)
    decreases k - j
  {
    hide P;
    if j < k {
      if j == 0 {
        NoneAndOne();
      } else {
        Halves(j);
      }
      FewerIsMoreProbable(j + 1, k);
    }
  }

  lemma {:induction false} NoneAndOne()
    ensures P(0, 0) == 1.0 == P(1, 0)
  {
    OneSided(1);
  }

  // The fewest units that can be significant.

  /** Some split of `k` units reaches the level. */
  ghost predicate Significant(k: nat, level: real) {
    exists first: nat, second: nat :: first + second == k && P(first, second) <= level
  }

  lemma {:induction false} SignificantWhenOneSided(k: nat, level: real)
    ensures Significant(k, level) <==> P(k, 0) <= level
  {
    hide P;
    forall first: nat, second: nat | first + second == k
      ensures P(first, second) >= P(k, 0)
    {
      MostUneven(first, second);
    }
    assert k + 0 == k;
  }

  /** A split of more units can only reach the level more easily. */
  lemma {:induction false} SignificantGrows(j: nat, k: nat, level: real)
    requires j <= k && Significant(j, level)
    ensures Significant(k, level)
  {
    hide Significant;
    SignificantWhenOneSided(j, level);
    SignificantWhenOneSided(k, level);
    FewerIsMoreProbable(j, k);
  }

  /** `k` is the least number of units of which some split reaches the level. */
  ghost predicate Fewest(k: nat, level: real) {
    && Significant(k, level)
    && forall j: nat :: j < k ==> !Significant(j, level)
  }

  /**
   * Searches for the fewest units whose most uneven split reaches the level. The level must lie strictly between
   * 0 and 1, and the search gives up after `MAX_DISCORDANT_SEARCH` units.
   */
  method SmallestSignificant(level: real) returns (fewest: Result<nat>)
    ensures fewest.Ok? ==> 1 <= fewest.value <= 64 && Fewest(fewest.value, level)
    ensures fewest.Error? <==> !(0.0 < level < 1.0) || !Significant(64, level)
  {
    hide P, TwoSided, Significant;
    if !(0.0 < level < 1.0) {
      return Error;
    }
    NoneAndOne();
    SignificantWhenOneSided(0, level);
    var count := 1;
    while count <= MAX_DISCORDANT_SEARCH
      invariant 1 <= count <= MAX_DISCORDANT_SEARCH + 1
      invariant forall j: nat :: j < count ==> !Significant(j, level)
    {
      SignificantWhenOneSided(count, level);
      var p := TwoSided(count, 0);
      PIs(count);
      if p.Some? && p.value <= level {
        forall k: nat | count <= k
          ensures Significant(k, level)
        {
          SignificantGrows(count, k, level);
        }
        return Ok(count);
      }
      count := count + 1;
    }
    return Error;
  }

  lemma {:induction false} PIs(k: nat)
    ensures TwoSided(k, 0) == Some(P(k, 0))
  {
  }

  /** At the level the report uses, six units are the fewest. */
  lemma {:induction false} FewestAtReportedLevel()
    ensures SIGNIFICANCE_LEVEL == 0.05 && Fewest(6, SIGNIFICANCE_LEVEL)
  {
    SixOneSided();
    hide P, Significant;
    SignificantWhenOneSided(6, SIGNIFICANCE_LEVEL);
    forall j: nat | j < 6
      ensures !Significant(j, SIGNIFICANCE_LEVEL)
    {
      FewerIsMoreProbable(j, 5);
      SignificantWhenOneSided(j, SIGNIFICANCE_LEVEL);
    }
  }

  lemma {:induction false} SixOneSided()
    ensures P(6, 0) <= 0.05 < P(5, 0)
  {
    OneSided(5);
    OneSided(6);
    assert Pow2(5) == 32 && Pow2(6) == 64;
  }

  // The sign test.

  datatype SignTest = SignTest(
    p: Option<real>, positive: nat, negative: nat, ties: nat, discordant: seq<string>, tested: bool)

  function Positive(differences: map<string, real>): set<string> {
    set name | name in differences && differences[name] > 0.0
  }

  function Negative(differences: map<string, real>): set<string> {
    set name | name in differences && differences[name] < 0.0
  }

  function Ties(differences: map<string, real>): set<string> {
    set name | name in differences && differences[name] == 0.0
  }

  function Signed(differences: map<string, real>): SignTest {
    var positive, negative := Positive(differences), Negative(differences);
    SignTest(
      if |differences| > 0 then TwoSided(|positive|, |negative|) else None,
      |positive|, |negative|, |Ties(differences)|, SortedKeys(positive + negative), |positive| > 0 || |negative| > 0)
  }

  /**
   * Every construction is counted once, those that differ are listed,
   * and the probability is that of the split of the discordant ones.
   */
  lemma {:induction false} SignedCounts(differences: map<string, real>)
    ensures var t := Signed(differences);
      && t.positive + t.negative + t.ties == |differences|
      && t.positive + t.negative == |t.discordant|
      && (t.tested <==> t.discordant != [])
      && (forall name :: name in t.discordant <==> name in differences && differences[name] != 0.0)
      && (t.p == if differences == map[] then None else Some(P(t.positive, t.negative)))
  {
    var positive, negative, ties := Positive(differences), Negative(differences), Ties(differences);
    assert positive !! negative && (positive + negative) !! ties;
    assert positive + negative + ties == differences.Keys;
  }

  /** One more construction adds to the side of its sign alone, and is listed exactly when it differs. */
  lemma {:induction false} SignedAdds(differences: map<string, real>, name: string, x: real)
    requires name !in differences
    ensures var t, more := Signed(differences), Signed(differences[name := x]);
      && more.positive == t.positive + (if x > 0.0 then 1 else 0)
      && more.negative == t.negative + (if x < 0.0 then 1 else 0)
      && more.ties == t.ties + (if x == 0.0 then 1 else 0)
      && Ascending(more.discordant)
      && forall n :: n in more.discordant <==> n in t.discordant || (n == name && x != 0.0)
  {
    var more := differences[name := x];
    SignedAre(differences);
    SignedAre(more);
    SignedCounts(differences);
    SignedCounts(more);
    hide *;
    PositiveAdds(differences, name, x);
    NegativeAdds(differences, name, x);
    TiesAdd(differences, name, x);
  }

  lemma {:induction false} PositiveAdds(differences: map<string, real>, name: string, x: real)
    requires name !in differences
    ensures |Positive(differences[name := x])| == |Positive(differences)| + if x > 0.0 then 1 else 0
  {
    assert Positive(differences[name := x]) == Positive(differences) + if x > 0.0 then {name} else {};
  }

  lemma {:induction false} NegativeAdds(differences: map<string, real>, name: string, x: real)
    requires name !in differences
    ensures |Negative(differences[name := x])| == |Negative(differences)| + if x < 0.0 then 1 else 0
  {
    assert Negative(differences[name := x]) == Negative(differences) + if x < 0.0 then {name} else {};
  }

  lemma {:induction false} TiesAdd(differences: map<string, real>, name: string, x: real)
    requires name !in differences
    ensures |Ties(differences[name := x])| == |Ties(differences)| + if x == 0.0 then 1 else 0
  {
    assert Ties(differences[name := x]) == Ties(differences) + if x == 0.0 then {name} else {};
  }

  lemma {:induction false} SignedAre(differences: map<string, real>)
    ensures var t := Signed(differences);
      && t.positive == |Positive(differences)| && t.negative == |Negative(differences)|
      && t.ties == |Ties(differences)| && Ascending(t.discordant)
  {
    hide Ascending;
  }

  lemma {:induction false} SignedNone()
    ensures Signed(map[]) == SignTest(None, 0, 0, 0, [], false)
  {
    assert SortedKeys({}) == [];
  }

  function Reversed(differences: map<string, real>): map<string, real> {
    map name | name in differences :: 0.0 - differences[name]
  }

  lemma {:induction false} ReversedSides(differences: map<string, real>)
    ensures var reversed := Reversed(differences);
      && Positive(reversed) == Negative(differences) && Negative(reversed) == Positive(differences)
      && Ties(reversed) == Ties(differences) && |reversed| == |differences|
  {
    var reversed := Reversed(differences);
    assert reversed.Keys == differences.Keys;
    assert |reversed| == |reversed.Keys| == |differences.Keys| == |differences|;
  }

  lemma {:induction false} TwoSidedSwaps(first: nat, second: nat)
    ensures TwoSided(first, second) == TwoSided(second, first)
  {
    TwoSidedIs(first, second);
    TwoSidedIs(second, first);
    hide TwoSided, Share, Tail, Pow2;
    assert first + second == second + first;
  }

  /** Taking the arms the other way round exchanges the sides and keeps the probability. */
  lemma {:induction false} SignedReverses(differences: map<string, real>)
    ensures var t, u := Signed(differences), Signed(Reversed(differences));
      u == t.(positive := t.negative, negative := t.positive)
  {
    hide Positive, Negative, Ties, Reversed, SortedKeys, TwoSided;
    ReversedSides(differences);
    TwoSidedSwaps(|Positive(differences)|, |Negative(differences)|);
    assert Positive(differences) + Negative(differences) == Negative(differences) + Positive(differences);
  }

  /** A sign test that reaches the level has at least the fewest units that can. */
  lemma {:induction false} SignificantNeeds(differences: map<string, real>, needed: nat, level: real)
    requires Fewest(needed, level)
    requires Signed(differences).p.Some? && Signed(differences).p.value <= level
    ensures |Signed(differences).discordant| >= needed
  {
    hide P, Signed;
    var t := Signed(differences);
    SignedCounts(differences);
    assert Significant(|t.discordant|, level);
  }

  // What a comparison of so many constructions can detect.

  datatype Detectable = Detectable(
    level: real, needed: nat, constructions: nat, difference: Option<real>, reachable: bool)

  /** Some sign test over `constructions` constructions, `discordant` of which differ, reaches the level. */
  ghost predicate Reaches(constructions: nat, discordant: nat, level: real) {
    exists differences: map<string, real> :: ReachedBy(differences, constructions, discordant, level)
  }

  ghost predicate ReachedBy(differences: map<string, real>, constructions: nat, discordant: nat, level: real) {
    && |differences| == constructions
    && |Signed(differences).discordant| == discordant
    && Signed(differences).p.Some? && Signed(differences).p.value <= level
  }

  /** Names of one letter repeated, told apart by their length. */
  function Letters(n: nat): (name: string)
    ensures |name| == n
  {
    seq(n, _ => 'c')
  }

  /** `constructions` constructions, the first `discordant` of which differ by one. */
  function OneWay(constructions: nat, discordant: nat): map<string, real> {
    if constructions == 0 then map[] else
      OneWay(constructions - 1, discordant)[Letters(constructions) := if constructions <= discordant then 1.0 else 0.0]
  }

  lemma {:induction false} OneWayIs(constructions: nat, discordant: nat)
    ensures |OneWay(constructions, discordant)| == constructions
    ensures |Positive(OneWay(constructions, discordant))| == Min(constructions, discordant)
    ensures Negative(OneWay(constructions, discordant)) == {}
    ensures forall name :: name in OneWay(constructions, discordant) ==> |name| <= constructions
  {
    if constructions > 0 {
      OneWayIs(constructions - 1, discordant);
      var before, name := OneWay(constructions - 1, discordant), Letters(constructions);
      hide Letters;
      assert Positive(OneWay(constructions, discordant))
          == Positive(before) + if constructions <= discordant then {name} else {};
    }
  }

  lemma {:induction false} OneWayReaches(constructions: nat, discordant: nat, level: real)
    requires 0 < discordant <= constructions && P(discordant, 0) <= level
    ensures Reaches(constructions, discordant, level)
  {
    var differences := OneWay(constructions, discordant);
    OneWayIs(constructions, discordant);
    hide OneWay, P, Signed, TwoSided;
    SignedCounts(differences);
    OneWaySigned(differences);
    assert ReachedBy(differences, constructions, discordant, level);
  }

  lemma {:induction false} OneWaySigned(differences: map<string, real>)
    requires Negative(differences) == {}
    ensures Signed(differences).negative == 0 && Signed(differences).positive == |Positive(differences)|
  {
  }

  /**
   * Whether a comparison of so many constructions can be significant, and the least share of them that must differ.
   * It is reachable exactly when some sign test over that many constructions reaches the level, and the difference
   * is then the least share of discordant constructions of any such test.
   */
  method DetectableDifference(constructions: int, level: real) returns (r: Result<Detectable>)
    ensures r.Error? <==> constructions < 0 || !(0.0 < level < 1.0) || !Significant(64, level)
    ensures r.Ok? ==>
      && r.value.level == level && r.value.constructions == constructions && Fewest(r.value.needed, level)
      && (r.value.reachable <==> exists d: nat :: Reaches(constructions, d, level))
      && (r.value.difference.Some? <==> r.value.reachable)
    ensures r.Ok? && r.value.reachable ==>
      && r.value.difference == Some(Share(r.value.needed, constructions))
      && Reaches(constructions, r.value.needed, level)
      && forall d: nat :: Reaches(constructions, d, level) ==> r.value.difference.value <= Share(d, constructions)
  {
    hide P, TwoSided, Significant, Reaches;
    if constructions < 0 {
      return Error;
    }
    var fewest := SmallestSignificant(level);
    if fewest.Error? {
      return Error;
    }
    var needed := fewest.value;
    var reachable := constructions >= needed;
    ReachesNeeds(constructions, needed, level);
    r := Ok(Detectable(
      level, needed, constructions,
      if reachable then Some(needed as real / constructions as real) else None, reachable));
  }

  lemma {:induction false} ReachesNeeds(constructions: nat, needed: nat, level: real)
    requires Fewest(needed, level) && needed > 0
    ensures constructions >= needed <==> exists d: nat :: Reaches(constructions, d, level)
    ensures constructions >= needed ==> Reaches(constructions, needed, level)
    ensures constructions >= needed ==>
      forall d: nat :: Reaches(constructions, d, level) ==> Share(needed, constructions) <= Share(d, constructions)
  {
    hide P, Signed, Share;
    forall d: nat | Reaches(constructions, d, level)
      ensures needed <= d <= constructions
    {
      var differences :| ReachedBy(differences, constructions, d, level);
      SignificantNeeds(differences, needed, level);
      SignedCounts(differences);
    }
    if constructions >= needed {
      SignificantWhenOneSided(needed, level);
      OneWayReaches(constructions, needed, level);
      forall d: nat | Reaches(constructions, d, level)
        ensures Share(needed, constructions) <= Share(d, constructions)
      {
        ShareMonotone(needed, d, constructions);
      }
    }
  }
}
