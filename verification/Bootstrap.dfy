/** The percentile interval of the cluster bootstrap, for every choice its generator can make. */
module Bootstrap {
  import opened Prelude
  import opened SortedNames

  /** Each construction with the values of its paired attempts. */
  type Clusters = map<string, seq<(real, real)>>

  /** Draw `i` of resample `r` takes the name at this position, counted modulo the number of names. */
  type Generator = (nat, nat) -> nat

  datatype Reason = NothingToResample | OneCluster(name: string) | OneDifference(value: real)

  datatype Bounds = Bounds(observed: real, lower: real, upper: real)

  datatype Interval = Interval(
    bounds: Option<Bounds>, clusters: nat, pairs: nat, resamples: int, degenerate: bool, reason: Option<Reason>)

  datatype Result = Ok(value: Interval) | FewResamples | EmptyCluster

  // Means.

  function SumReals(xs: seq<real>): real {
    if |xs| == 0 then 0.0 else xs[0] + SumReals(xs[1..])
  }

  function Mean(xs: seq<real>): real
    requires |xs| > 0
  {
    SumReals(xs) / |xs| as real
  }

  ghost predicate Within(xs: seq<real>, lo: real, hi: real) {
    forall i :: 0 <= i < |xs| ==> lo <= xs[i] <= hi
  }

  function Times(x: real, n: nat): real {
    x * n as real
  }

  lemma {:induction false} TimesStep(x: real, n: nat)
    ensures Times(x, n + 1) == x + Times(x, n)
    ensures Times(x, 0) == 0.0
  {
    Distributed(x, n as real);
  }

  lemma {:induction false} Distributed(x: real, d: real)
    ensures x * (d + 1.0) == x + x * d
  {
  }

  /** A sum of values between two bounds; it meets the lower one only when every value does. */
  lemma {:induction false} SumWithin(xs: seq<real>, lo: real, hi: real)
    requires Within(xs, lo, hi)
    ensures Times(lo, |xs|) <= SumReals(xs) <= Times(hi, |xs|)
    ensures SumReals(xs) == Times(lo, |xs|) ==> Within(xs, lo, lo)
  {
    hide Times;
    TimesStep(lo, 0);
    TimesStep(hi, 0);
    if |xs| > 0 {
      SumWithin(xs[1..], lo, hi);
      TimesStep(lo, |xs| - 1);
      TimesStep(hi, |xs| - 1);
      assert xs == [xs[0]] + xs[1..];
    }
  }

  lemma {:induction false} QuotientWithin(x: real, d: real, lo: real, hi: real)
    requires d > 0.0 && lo * d <= x <= hi * d
    ensures lo <= x / d <= hi
    ensures x / d == lo ==> x == lo * d
  {
    var q := x / d;
    assert q * d == x;
    assert (q - lo) * d >= 0.0 && (hi - q) * d >= 0.0;
  }

  lemma {:induction false} MeanWithin(xs: seq<real>, lo: real, hi: real)
    requires |xs| > 0 && Within(xs, lo, hi)
    ensures lo <= Mean(xs) <= hi
    ensures Mean(xs) == lo ==> Within(xs, lo, lo)
  {
    SumWithin(xs, lo, hi);
    QuotientWithin(SumReals(xs), |xs| as real, lo, hi);
  }

  // Sorting.

  ghost predicate Sorted(xs: seq<real>) {
    forall i, j :: 0 <= i < j < |xs| ==> xs[i] <= xs[j]
  }

  function InsertReal(xs: seq<real>, x: real): (r: seq<real>)
    ensures |r| == |xs| + 1
  {
    if |xs| == 0 then [x]
    else if x <= xs[0] then [x] + xs
    else [xs[0]] + InsertReal(xs[1..], x)
  }

  function SortReals(xs: seq<real>): (r: seq<real>)
    ensures |r| == |xs|
  {
    if |xs| == 0 then [] else InsertReal(SortReals(xs[1..]), xs[0])
  }

  lemma {:induction false} InsertWithin(xs: seq<real>, x: real, lo: real, hi: real)
    requires Within(xs, lo, hi) && lo <= x <= hi
    ensures Within(InsertReal(xs, x), lo, hi)
  {
    if |xs| > 0 {
      InsertWithin(xs[1..], x, lo, hi);
    }
  }

  lemma {:induction false} SortWithin(xs: seq<real>, lo: real, hi: real)
    requires Within(xs, lo, hi)
    ensures Within(SortReals(xs), lo, hi)
  {
    if |xs| > 0 {
      SortWithin(xs[1..], lo, hi);
      InsertWithin(SortReals(xs[1..]), xs[0], lo, hi);
    }
  }

  ghost predicate From(xs: seq<real>, lo: real) {
    forall i :: 0 <= i < |xs| ==> lo <= xs[i]
  }

  lemma {:induction false} InsertSorts(xs: seq<real>, x: real, lo: real)
    requires Sorted(xs) && From(xs, lo) && lo <= x
    ensures Sorted(InsertReal(xs, x)) && From(InsertReal(xs, x), lo)
  {
    if |xs| > 0 && x > xs[0] {
      InsertSorts(xs[1..], x, xs[0]);
    }
  }

  lemma {:induction false} SortSorts(xs: seq<real>)
    ensures Sorted(SortReals(xs))
  {
    if |xs| > 0 {
      SortSorts(xs[1..]);
      var rest := SortReals(xs[1..]);
      var lo := if |rest| == 0 || xs[0] < rest[0] then xs[0] else rest[0];
      InsertSorts(rest, xs[0], lo);
    }
  }

  /** How many of the values are below `v`, or at most `v` when `inclusive`. */
  ghost function Count(xs: seq<real>, v: real, inclusive: bool): nat {
    if |xs| == 0 then 0 else
      (if xs[0] < v || (inclusive && xs[0] == v) then 1 else 0) + Count(xs[1..], v, inclusive)
  }

  lemma {:induction false} InsertCounts(xs: seq<real>, x: real, v: real, inclusive: bool)
    ensures Count(InsertReal(xs, x), v, inclusive) == Count([x], v, inclusive) + Count(xs, v, inclusive)
  {
    assert [x][1..] == [];
    if |xs| > 0 {
      if x <= xs[0] {
        assert ([x] + xs)[1..] == xs;
      } else {
        InsertCounts(xs[1..], x, v, inclusive);
        assert ([xs[0]] + InsertReal(xs[1..], x))[1..] == InsertReal(xs[1..], x);
      }
    }
  }

  /** Sorting keeps how many values are on each side of any value. */
  lemma {:induction false} SortCounts(xs: seq<real>, v: real, inclusive: bool)
    ensures Count(SortReals(xs), v, inclusive) == Count(xs, v, inclusive)
  {
    if |xs| > 0 {
      SortCounts(xs[1..], v, inclusive);
      InsertCounts(SortReals(xs[1..]), xs[0], v, inclusive);
      assert [xs[0]][1..] == [];
    }
  }

  lemma {:induction false} CountBelow(xs: seq<real>, v: real, k: nat)
    requires k <= |xs| && forall i :: k <= i < |xs| ==> v <= xs[i]
    ensures Count(xs, v, false) <= k
  {
    if |xs| > 0 {
      CountBelow(xs[1..], v, if k == 0 then 0 else k - 1);
    }
  }

  lemma {:induction false} CountAtMost(xs: seq<real>, v: real, k: nat)
    requires k <= |xs| && forall i :: 0 <= i < k ==> xs[i] <= v
    ensures Count(xs, v, true) >= k
  {
    if |xs| > 0 && k > 0 {
      CountAtMost(xs[1..], v, k - 1);
    }
  }

  /** `v` is the value with `k` values before it in order: at most `k` are below it and more than `k` are at most it. */
  ghost predicate AtPosition(xs: seq<real>, k: nat, v: real) {
    Count(xs, v, false) <= k < Count(xs, v, true)
  }

  lemma {:induction false} SortedAt(xs: seq<real>, k: nat)
    requires k < |xs|
    ensures AtPosition(xs, k, SortReals(xs)[k])
  {
    var v := SortReals(xs)[k];
    SortSorts(xs);
    SortCounts(xs, v, false);
    SortCounts(xs, v, true);
    CountBelow(SortReals(xs), v, k);
    CountAtMost(SortReals(xs), v, k + 1);
  }

  lemma {:induction false} CountGrows(xs: seq<real>, v: real, w: real)
    requires v < w
    ensures Count(xs, v, true) <= Count(xs, w, false)
  {
    if |xs| > 0 {
      CountGrows(xs[1..], v, w);
    }
  }

  /** A position holds one value. */
  lemma {:induction false} PositionUnique(xs: seq<real>, k: nat, v: real, w: real)
    requires AtPosition(xs, k, v) && AtPosition(xs, k, w)
    ensures v == w
  {
    if v < w {
      CountGrows(xs, v, w);
    } else if w < v {
      CountGrows(xs, w, v);
    }
  }

  // Positions in the sorted draws.

  /**
   * `numerator / denominator` rounded to the nearest whole number,
   * and to the even one of two that are equally near.
   */
  function RoundHalfEven(numerator: nat, denominator: nat): nat
    requires denominator > 0
  {
    var whole, rest := numerator / denominator, numerator % denominator;
    if 2 * rest < denominator || (2 * rest == denominator && whole % 2 == 0) then whole else whole + 1
  }

  /** 0.025 of the way from the first draw to the last. */
  function LowerPosition(resamples: nat): nat
    requires resamples > 0
  {
    RoundHalfEven(25 * (resamples - 1), 1000)
  }

  /** 0.975 of the way. */
  function UpperPosition(resamples: nat): nat
    requires resamples > 0
  {
    RoundHalfEven(975 * (resamples - 1), 1000)
  }

  /** Both positions are in range and in order, and leave as many draws outside at either end. */
  lemma {:induction false} Positions(resamples: nat)
    requires resamples > 0
    ensures 0 <= LowerPosition(resamples) <= UpperPosition(resamples) < resamples
    ensures LowerPosition(resamples) + UpperPosition(resamples) == resamples - 1
  {
    var n := resamples - 1;
    var q, r := n / 40, n % 40;
    hide LowerPosition, UpperPosition;
    LowerIs(q, r);
    UpperIs(q, r);
    assert n == 40 * q + r;
  }

  /** The lower position goes up at 20 of every 40 resamples after the first. */
  lemma {:induction false} LowerIs(q: nat, r: nat)
    requires r < 40
    ensures LowerPosition(40 * q + r + 1) == if r < 20 || (r == 20 && q % 2 == 0) then q else q + 1
  {
    hide RoundHalfEven;
    assert 25 * (40 * q + r) == 1000 * q + 25 * r;
    RoundsTo(25 * (40 * q + r), q, 25 * r);
  }

  lemma {:induction false} UpperIs(q: nat, r: nat)
    requires r < 40
    ensures UpperPosition(40 * q + r + 1) == 40 * q + r - if r < 20 || (r == 20 && q % 2 == 0) then q else q + 1
  {
    var n := 40 * q + r;
    assert UpperPosition(n + 1) == RoundHalfEven(975 * n, 1000);
    var whole := if r == 0 then 39 * q else 39 * q + r - 1;
    var rest := if r == 0 then 0 else 1000 - 25 * r;
    assert 975 * n == 1000 * whole + rest;
    hide RoundHalfEven, UpperPosition;
    RoundsTo(975 * n, whole, rest);
    UpperHalf(q, r, whole, rest);
  }

  /** The upper position goes up where the lower one does not. */
  lemma {:induction false} UpperHalf(q: nat, r: nat, whole: nat, rest: nat)
    requires r < 40
    requires if r == 0 then whole == 39 * q && rest == 0 else whole == 39 * q + r - 1 && rest == 1000 - 25 * r
    ensures (if 2 * rest < 1000 || (2 * rest == 1000 && whole % 2 == 0) then whole else whole + 1)
        == 40 * q + r - if r < 20 || (r == 20 && q % 2 == 0) then q else q + 1
  {
    if r == 20 {
      assert whole == 2 * (19 * q + 9) + q + 1;
    }
  }

  lemma {:induction false} RoundsTo(numerator: nat, whole: nat, rest: nat)
    requires numerator == 1000 * whole + rest && rest < 1000
    ensures RoundHalfEven(numerator, 1000)
        == if 2 * rest < 1000 || (2 * rest == 1000 && whole % 2 == 0) then whole else whole + 1
  {
  }

  // The interval.

  function Pairwise(pairs: seq<(real, real)>): seq<real> {
    seq(|pairs|, i requires 0 <= i < |pairs| => pairs[i].0 - pairs[i].1)
  }

  predicate Filled(clusters: Clusters) {
    forall name :: name in clusters ==> |clusters[name]| > 0
  }

  function ClusterMean(clusters: Clusters, name: string): real
    requires Filled(clusters) && name in clusters
  {
    Mean(Pairwise(clusters[name]))
  }

  function Means(clusters: Clusters, chosen: seq<string>): seq<real>
    requires Filled(clusters) && forall name :: name in chosen ==> name in clusters
  {
    seq(|chosen|, i requires 0 <= i < |chosen| => ClusterMean(clusters, chosen[i]))
  }

  function Difference(clusters: Clusters, chosen: seq<string>): real
    requires Filled(clusters) && |chosen| > 0 && forall name :: name in chosen ==> name in clusters
  {
    Mean(Means(clusters, chosen))
  }

  /** Resample `r`: as many names as there are, each any of them. */
  function Chosen(names: seq<string>, generator: Generator, r: nat): seq<string> {
    seq(|names|, i requires 0 <= i < |names| => names[generator(r, i) % |names|])
  }

  function Draws(clusters: Clusters, names: seq<string>, resamples: nat, generator: Generator): seq<real>
    requires Filled(clusters) && |names| > 0 && forall name :: name in names ==> name in clusters
  {
    seq(resamples, r requires 0 <= r < resamples => Difference(clusters, Chosen(names, generator, r)))
  }

  /** Every difference some pair shows. */
  function Spread(clusters: Clusters): set<real> {
    set name, i | name in clusters && 0 <= i < |clusters[name]| :: clusters[name][i].0 - clusters[name][i].1
  }

  function PairCount(clusters: Clusters, names: seq<string>): nat
    requires forall name :: name in names ==> name in clusters
  {
    if |names| == 0 then 0 else PairCount(clusters, names[..|names| - 1]) + |clusters[names[|names| - 1]]|
  }

  /** The pairs, each named by its cluster and its place there. */
  function Pairs(clusters: Clusters): set<(string, nat)> {
    set name, i: nat | name in clusters && i < |clusters[name]| :: (name, i)
  }

  lemma {:induction false} PairsCounted(clusters: Clusters, names: seq<string>)
    requires Ascending(names) && forall name :: name in names <==> name in clusters
    ensures PairCount(clusters, names) == |Pairs(clusters)|
  {
    if |names| > 0 {
      var before, last := names[..|names| - 1], names[|names| - 1];
      assert last !in before by {
        LessTotal(last, last);
      }
      assert names == before + [last];
      var fewer := clusters - {last};
      PairsCounted(fewer, before);
      SamePairCount(fewer, clusters, before);
      PairsRemove(clusters, last);
    }
  }

  lemma {:induction false} PairsRemove(clusters: Clusters, name: string)
    requires name in clusters
    ensures |Pairs(clusters)| == |Pairs(clusters - {name})| + |clusters[name]|
  {
    var fewer, own := Pairs(clusters - {name}), set i: nat | i < |clusters[name]| :: (name, i);
    PlacesCounted(name, |clusters[name]|);
    assert Pairs(clusters) == fewer + own;
    assert fewer !! own;
  }

  lemma {:induction false} SamePairCount(fewer: Clusters, clusters: Clusters, names: seq<string>)
    requires forall name :: name in names ==> name in fewer && name in clusters && fewer[name] == clusters[name]
    ensures PairCount(fewer, names) == PairCount(clusters, names)
  {
    if |names| > 0 {
      SamePairCount(fewer, clusters, names[..|names| - 1]);
    }
  }

  lemma {:induction false} PlacesCounted(name: string, n: nat)
    ensures |set i: nat | i < n :: (name, i)| == n
  {
    if n > 0 {
      PlacesCounted(name, n - 1);
      assert (set i: nat | i < n :: (name, i)) == (set i: nat | i < n - 1 :: (name, i)) + {(name, n - 1)};
    }
  }

  lemma {:induction false} NoClusters(clusters: Clusters)
    requires clusters.Keys == {}
    ensures clusters == map[] && Pairs(clusters) == {} && Explains(clusters, Some(NothingToResample))
  {
  }

  /** One cluster is named, and otherwise the one difference that all pairs show; without either there is no reason. */
  ghost predicate Explains(clusters: Clusters, reason: Option<Reason>) {
    match reason
    case Some(NothingToResample) => clusters == map[]
    case Some(OneCluster(name)) => clusters.Keys == {name}
    case Some(OneDifference(value)) => |clusters| > 1 && Spread(clusters) == {value}
    case None => |clusters| > 1 && forall value :: Spread(clusters) != {value}
  }

  lemma {:induction false} ReasonExplains(clusters: Clusters, names: seq<string>)
    requires |names| == |clusters| > 0 && forall name :: name in names <==> name in clusters
    ensures Explains(clusters, ReasonOf(clusters, names))
  {
    if |names| == 1 {
      assert names == [names[0]] && forall name :: name in clusters.Keys <==> name == names[0];
    } else if |Spread(clusters)| == 1 {
      var value := ReasonOf(clusters, names).value.value;
      assert |Spread(clusters) - {value}| == 0;
    }
  }

  ghost function ReasonOf(clusters: Clusters, names: seq<string>): Option<Reason>
    requires |names| > 0
  {
    if |names| == 1 then Some(OneCluster(names[0]))
    else if |Spread(clusters)| == 1 then
      var value :| value in Spread(clusters);
      Some(OneDifference(value))
    else None
  }

  /** The observed difference and the two draws that bound the interval. */
  ghost function BoundsOf(clusters: Clusters, names: seq<string>, resamples: nat, generator: Generator): Bounds
    requires resamples > 0 && Filled(clusters) && |names| > 0 && forall name :: name in names ==> name in clusters
  {
    var draws := SortReals(Draws(clusters, names, resamples, generator));
    Positions(resamples);
    Bounds(Difference(clusters, names), draws[LowerPosition(resamples)], draws[UpperPosition(resamples)])
  }

  ghost function ClusterBootstrap(clusters: Clusters, resamples: int, generator: Generator): (r: Result)
    ensures r.FewResamples? <==> resamples < 1
    ensures r.EmptyCluster? <==> resamples >= 1 && exists name :: name in clusters && |clusters[name]| == 0
    ensures r.Ok? ==>
      r.value.clusters == |clusters| && r.value.pairs == |Pairs(clusters)| && r.value.resamples == resamples
    ensures r.Ok? ==> (r.value.degenerate <==> r.value.reason.Some?) && Explains(clusters, r.value.reason)
    ensures r.Ok? ==>
      r.value.bounds == (
        if clusters == map[] then None
        else Some(BoundsOf(clusters, SortedKeys(clusters.Keys), resamples, generator)))
  {
    hide BoundsOf, Explains, Pairs, PairCount, ReasonOf;
    var names := SortedKeys(clusters.Keys);
    assert |names| == |clusters|;
    if resamples < 1 then FewResamples
    else if |names| == 0 then
      NoClusters(clusters);
      Ok(Interval(None, 0, 0, resamples, true, Some(NothingToResample)))
    else if !Filled(clusters) then EmptyCluster
    else
      PairsCounted(clusters, names);
      ReasonExplains(clusters, names);
      var reason := ReasonOf(clusters, names);
      Ok(Interval(
        Some(BoundsOf(clusters, names, resamples, generator)), |names|, PairCount(clusters, names), resamples,
        reason.Some?, reason))
  }

  // What holds for every generator.

  /** Every cluster mean lies between `lo` and `hi`. */
  ghost predicate MeansWithin(clusters: Clusters, lo: real, hi: real)
    requires Filled(clusters)
  {
    forall name :: name in clusters ==> lo <= ClusterMean(clusters, name) <= hi
  }

  lemma {:induction false} DifferenceWithin(clusters: Clusters, chosen: seq<string>, lo: real, hi: real)
    requires Filled(clusters) && |chosen| > 0 && forall name :: name in chosen ==> name in clusters
    requires MeansWithin(clusters, lo, hi)
    ensures lo <= Difference(clusters, chosen) <= hi
    ensures Difference(clusters, chosen) == lo ==> forall name :: name in chosen ==> ClusterMean(clusters, name) == lo
  {
    hide Mean, ClusterMean;
    MeanWithin(Means(clusters, chosen), lo, hi);
    if Difference(clusters, chosen) == lo {
      forall i | 0 <= i < |chosen|
        ensures ClusterMean(clusters, chosen[i]) == lo
      {
        assert Means(clusters, chosen)[i] == lo;
      }
    }
  }

  lemma {:induction false} DrawsWithin(
    clusters: Clusters, names: seq<string>, resamples: nat, generator: Generator, lo: real, hi: real)
    requires Filled(clusters) && |names| > 0 && forall name :: name in names ==> name in clusters
    requires MeansWithin(clusters, lo, hi)
    ensures Within(Draws(clusters, names, resamples, generator), lo, hi)
  {
    hide Difference, MeansWithin;
    forall r: nat
      ensures lo <= Difference(clusters, Chosen(names, generator, r)) <= hi
    {
      DifferenceWithin(clusters, Chosen(names, generator, r), lo, hi);
    }
  }

  lemma {:induction false} PositionsOrdered(draws: seq<real>, lo: real, hi: real)
    requires |draws| > 0 && Within(draws, lo, hi)
    ensures var l, u := LowerPosition(|draws|), UpperPosition(|draws|);
      && l + u == |draws| - 1
      && lo <= SortReals(draws)[l] <= SortReals(draws)[u] <= hi
      && AtPosition(draws, l, SortReals(draws)[l]) && AtPosition(draws, u, SortReals(draws)[u])
  {
    hide LowerPosition, UpperPosition, AtPosition;
    Positions(|draws|);
    SortSorts(draws);
    SortWithin(draws, lo, hi);
    SortedAt(draws, LowerPosition(|draws|));
    SortedAt(draws, UpperPosition(|draws|));
  }

  /**
   * For every generator the interval is in order and lies, as the observed difference does, between any bounds of the
   * cluster means. Its ends are the draws at two positions, with as many draws before the one as after the other.
   */
  lemma {:induction false} IntervalHolds(
    clusters: Clusters, names: seq<string>, resamples: nat, generator: Generator, lo: real, hi: real)
    requires resamples > 0 && Filled(clusters) && |names| > 0 && forall name :: name in names ==> name in clusters
    requires MeansWithin(clusters, lo, hi)
    ensures var b := BoundsOf(clusters, names, resamples, generator);
      && lo <= b.lower <= b.upper <= hi
      && lo <= b.observed <= hi
      && var draws := Draws(clusters, names, resamples, generator);
      && AtPosition(draws, LowerPosition(resamples), b.lower)
      && AtPosition(draws, resamples - 1 - LowerPosition(resamples), b.upper)
  {
    hide Difference, LowerPosition, UpperPosition, MeansWithin, AtPosition;
    DifferenceWithin(clusters, names, lo, hi);
    DrawsWithin(clusters, names, resamples, generator, lo, hi);
    PositionsOrdered(Draws(clusters, names, resamples, generator), lo, hi);
  }

  // When the interval is a single value.

  ghost predicate Collapsed(bounds: Bounds) {
    bounds.lower == bounds.observed == bounds.upper
  }

  /** A cluster all of whose pairs differ by `value` has that mean. */
  lemma {:induction false} OneSpread(clusters: Clusters, value: real)
    requires Filled(clusters) && Spread(clusters) == {value}
    ensures MeansWithin(clusters, value, value)
  {
    forall name | name in clusters
      ensures ClusterMean(clusters, name) == value
    {
      var pairs := clusters[name];
      forall i | 0 <= i < |pairs|
        ensures pairs[i].0 - pairs[i].1 == value
      {
        assert clusters[name][i].0 - clusters[name][i].1 in Spread(clusters);
      }
      MeanWithin(Pairwise(pairs), value, value);
    }
  }

  /** An interval marked degenerate is a single value for every generator. */
  lemma {:induction false} DegenerateCollapses(clusters: Clusters, resamples: nat, generator: Generator)
    requires resamples > 0 && Filled(clusters) && clusters != map[]
    requires ReasonOf(clusters, SortedKeys(clusters.Keys)).Some?
    ensures Collapsed(BoundsOf(clusters, SortedKeys(clusters.Keys), resamples, generator))
  {
    var names := SortedKeys(clusters.Keys);
    hide SortedKeys, ClusterMean;
    var value: real;
    if |names| == 1 {
      value := ClusterMean(clusters, names[0]);
      assert forall name :: name in clusters ==> name == names[0];
    } else {
      value :| value in Spread(clusters);
      assert |Spread(clusters) - {value}| == 0;
      assert Spread(clusters) == {value};
      OneSpread(clusters, value);
    }
    IntervalHolds(clusters, names, resamples, generator, value, value);
  }

  lemma {:induction false} LeastMean(clusters: Clusters, names: seq<string>) returns (least: string, hi: real)
    requires Filled(clusters) && |names| > 0 && forall name :: name in names ==> name in clusters
    ensures least in names
    ensures forall name :: name in names ==> ClusterMean(clusters, least) <= ClusterMean(clusters, name) <= hi
  {
    hide ClusterMean;
    var first := names[0];
    var mean := ClusterMean(clusters, first);
    if |names| == 1 {
      least, hi := first, mean;
    } else {
      least, hi := LeastMean(clusters, names[1..]);
      assert forall name :: name in names ==> name == first || name in names[1..];
      if mean < ClusterMean(clusters, least) {
        least := first;
      }
      if hi < mean {
        hi := mean;
      }
    }
  }

  lemma {:induction false} OneNameDrawn(
    clusters: Clusters, names: seq<string>, resamples: nat, generator: Generator, k: nat)
    requires resamples > 0 && Filled(clusters) && k < |names| && forall name :: name in names ==> name in clusters
    requires forall r, i :: generator(r, i) == k
    ensures BoundsOf(clusters, names, resamples, generator).lower == ClusterMean(clusters, names[k])
  {
    var mean := ClusterMean(clusters, names[k]);
    hide ClusterMean, Mean, LowerPosition, UpperPosition;
    var draws := Draws(clusters, names, resamples, generator);
    forall r | 0 <= r < resamples
      ensures draws[r] == mean
    {
      var chosen := Chosen(names, generator, r);
      assert k % |names| == k;
      MeanWithin(Means(clusters, chosen), mean, mean);
    }
    hide Draws;
    PositionsOrdered(draws, mean, mean);
  }

  /** Every generator gives a single value exactly when the cluster means are all one value. */
  lemma {:induction false} CollapsesWhen(clusters: Clusters, names: seq<string>, resamples: nat)
    requires resamples > 0 && Filled(clusters) && |names| > 0 && forall name :: name in names <==> name in clusters
    ensures (forall generator: Generator :: Collapsed(BoundsOf(clusters, names, resamples, generator)))
        <==> exists mean :: MeansWithin(clusters, mean, mean)
  {
    hide ClusterMean, BoundsOf;
    if mean :| MeansWithin(clusters, mean, mean) {
      forall generator: Generator
        ensures Collapsed(BoundsOf(clusters, names, resamples, generator))
      {
        IntervalHolds(clusters, names, resamples, generator, mean, mean);
      }
    }
    if forall generator: Generator :: Collapsed(BoundsOf(clusters, names, resamples, generator)) {
      var least, hi := LeastMean(clusters, names);
      var k :| 0 <= k < |names| && names[k] == least;
      var generator: Generator := (r: nat, i: nat) => k;
      var mean := ClusterMean(clusters, least);
      OneNameDrawn(clusters, names, resamples, generator, k);
      assert BoundsOf(clusters, names, resamples, generator).observed == mean;
      BoundsObserve(clusters, names, resamples, generator);
      DifferenceWithin(clusters, names, mean, hi);
      assert MeansWithin(clusters, mean, mean);
    }
  }

  lemma {:induction false} BoundsObserve(
    clusters: Clusters, names: seq<string>, resamples: nat, generator: Generator)
    requires resamples > 0 && Filled(clusters) && |names| > 0 && forall name :: name in names ==> name in clusters
    ensures BoundsOf(clusters, names, resamples, generator).observed == Difference(clusters, names)
  {
  }

  const BALANCED: Clusters := map["a" := [(1.0, 0.0), (0.0, 1.0)], "b" := [(1.0, 0.0), (0.0, 1.0)]]

  lemma {:induction false} BalancedMeans(clusters: Clusters)
    requires clusters == BALANCED
    ensures Filled(clusters) && MeansWithin(clusters, 0.0, 0.0)
  {
    var d := Pairwise(clusters["a"]);
    assert d == Pairwise(clusters["b"]) == [1.0, -1.0] && d[1..] == [-1.0] && d[1..][1..] == [];
    assert SumReals(d) == 1.0 + (-1.0 + SumReals([]));
  }

  lemma {:induction false} BalancedReason(clusters: Clusters, names: seq<string>)
    requires clusters == BALANCED && |names| == 2
    ensures ReasonOf(clusters, names) == None
  {
    assert 1.0 in Spread(clusters) by {
      assert clusters["a"][0].0 - clusters["a"][0].1 == 1.0;
    }
    assert -1.0 in Spread(clusters) by {
      assert clusters["a"][1].0 - clusters["a"][1].1 == -1.0;
    }
    assert -1.0 in Spread(clusters) - {1.0};
    assert |Spread(clusters) - {1.0}| == |Spread(clusters)| - 1;
  }

  lemma {:induction false} BootstrapIs(clusters: Clusters, resamples: nat, generator: Generator)
    requires resamples > 0 && clusters != map[] && Filled(clusters)
    ensures var r, names := ClusterBootstrap(clusters, resamples, generator), SortedKeys(clusters.Keys);
      && r.Ok? && r.value.bounds == Some(BoundsOf(clusters, names, resamples, generator))
      && r.value.reason == ReasonOf(clusters, names) && (r.value.degenerate <==> r.value.reason.Some?)
  {
    hide BoundsOf, ReasonOf, PairCount;
  }

  lemma {:induction false} BalancedNames(clusters: Clusters)
    requires clusters == BALANCED
    ensures |SortedKeys(clusters.Keys)| == 2
  {
    assert |clusters.Keys - {"a"}| == |clusters.Keys| - 1 && clusters.Keys - {"a"} == {"b"};
    hide SortedKeys;
  }

  /** An interval can be a single value for every generator without being marked degenerate. */
  lemma {:induction false} CollapsedUnmarked(resamples: nat, generator: Generator)
    requires resamples > 0
    ensures var r := ClusterBootstrap(BALANCED, resamples, generator);
      && r.Ok? && r.value.bounds.Some? && Collapsed(r.value.bounds.value)
      && r.value.reason == None && !r.value.degenerate
  {
    var clusters: Clusters := BALANCED;
    var names := SortedKeys(clusters.Keys);
    BalancedMeans(clusters);
    BalancedNames(clusters);
    BalancedReason(clusters, names);
    assert clusters != map[];
    hide BoundsOf, ReasonOf, MeansWithin, SortedKeys, Filled, ClusterBootstrap;
    BootstrapIs(clusters, resamples, generator);
    IntervalHolds(clusters, names, resamples, generator, 0.0, 0.0);
  }
}
