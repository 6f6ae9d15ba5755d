/** The interval of a bootstrap told by sums over its pairs and by counts of its draws. */
module BootstrapLaws {
  import opened Prelude
  import opened SortedNames
  import opened Bootstrap

  // Draws.

  /** The first values of the first `n` pairs together, and the second ones. */
  function FirstSum(pairs: seq<(real, real)>, n: nat): real
    requires n <= |pairs|
  {
    if n == 0 then 0.0 else FirstSum(pairs, n - 1) + pairs[n - 1].0
  }

  function SecondSum(pairs: seq<(real, real)>, n: nat): real
    requires n <= |pairs|
  {
    if n == 0 then 0.0 else SecondSum(pairs, n - 1) + pairs[n - 1].1
  }

  /** The mean of the first values less that of the second. */
  function MeanGap(pairs: seq<(real, real)>): real
    requires |pairs| > 0
  {
    (FirstSum(pairs, |pairs|) - SecondSum(pairs, |pairs|)) / |pairs| as real
  }

  predicate AllIn(names: seq<string>, clusters: Clusters) {
    forall i :: 0 <= i < |names| ==> names[i] in clusters
  }

  /** The clusters the generator's first `n` numbers of resample `r` choose, a cluster once for each choice. */
  function DrawnSum(clusters: Clusters, names: seq<string>, generator: Generator, r: nat, n: nat): real
    requires Filled(clusters) && |names| > 0 && AllIn(names, clusters)
  {
    if n == 0 then 0.0 else
      DrawnSum(clusters, names, generator, r, n - 1) + MeanGap(clusters[names[generator(r, n - 1) % |names|]])
  }

  function GapSum(clusters: Clusters, names: seq<string>, n: nat): real
    requires n <= |names| && Filled(clusters) && AllIn(names, clusters)
  {
    if n == 0 then 0.0 else GapSum(clusters, names, n - 1) + MeanGap(clusters[names[n - 1]])
  }

  /** The value of resample `r`: the mean of as many choices as there are clusters. */
  function DrawOf(clusters: Clusters, names: seq<string>, generator: Generator, r: nat): real
    requires Filled(clusters) && |names| > 0 && AllIn(names, clusters)
  {
    DrawnSum(clusters, names, generator, r, |names|) / |names| as real
  }

  lemma {:induction false} SumSnoc(xs: seq<real>)
    requires |xs| > 0
    ensures SumReals(xs) == SumReals(xs[..|xs| - 1]) + xs[|xs| - 1]
  {
    if |xs| == 1 {
      assert xs[1..] == [] == xs[..0];
    } else {
      SumSnoc(xs[1..]);
      assert xs[1..][..|xs| - 2] == xs[..|xs| - 1][1..];
    }
  }

  lemma {:induction false} PairwiseSums(pairs: seq<(real, real)>, n: nat)
    requires n <= |pairs|
    ensures SumReals(Pairwise(pairs)[..n]) == FirstSum(pairs, n) - SecondSum(pairs, n)
  {
    if n > 0 {
      PairwiseSums(pairs, n - 1);
      SumSnoc(Pairwise(pairs)[..n]);
      assert Pairwise(pairs)[..n][..n - 1] == Pairwise(pairs)[..n - 1];
      hide SumReals;
    }
  }

  lemma {:induction false} ClusterMeanIs(clusters: Clusters, name: string)
    requires Filled(clusters) && name in clusters
    ensures ClusterMean(clusters, name) == MeanGap(clusters[name])
  {
    var pairs := clusters[name];
    PairwiseSums(pairs, |pairs|);
    assert Pairwise(pairs)[..|pairs|] == Pairwise(pairs);
    hide SumReals;
  }

  lemma {:induction false} ChosenSums(clusters: Clusters, names: seq<string>, generator: Generator, r: nat, n: nat)
    requires Filled(clusters) && |names| > 0 && AllIn(names, clusters) && n <= |names|
    ensures forall name :: name in Chosen(names, generator, r) ==> name in clusters
    ensures SumReals(Means(clusters, Chosen(names, generator, r))[..n]) == DrawnSum(clusters, names, generator, r, n)
  {
    hide MeanGap, ClusterMean;
    var means := Means(clusters, Chosen(names, generator, r));
    if n > 0 {
      ChosenSums(clusters, names, generator, r, n - 1);
      SumSnoc(means[..n]);
      assert means[..n][..n - 1] == means[..n - 1];
      ClusterMeanIs(clusters, names[generator(r, n - 1) % |names|]);
      hide SumReals;
    }
  }

  lemma {:induction false} NameSums(clusters: Clusters, names: seq<string>, n: nat)
    requires Filled(clusters) && AllIn(names, clusters) && n <= |names|
    ensures forall name :: name in names ==> name in clusters
    ensures SumReals(Means(clusters, names)[..n]) == GapSum(clusters, names, n)
  {
    hide MeanGap, ClusterMean;
    var means := Means(clusters, names);
    if n > 0 {
      NameSums(clusters, names, n - 1);
      SumSnoc(means[..n]);
      assert means[..n][..n - 1] == means[..n - 1];
      ClusterMeanIs(clusters, names[n - 1]);
      hide SumReals;
    }
  }

  lemma {:induction false} DrawIs(clusters: Clusters, names: seq<string>, generator: Generator, r: nat)
    requires Filled(clusters) && |names| > 0 && AllIn(names, clusters)
    ensures forall name :: name in Chosen(names, generator, r) ==> name in clusters
    ensures Difference(clusters, Chosen(names, generator, r)) == DrawOf(clusters, names, generator, r)
  {
    ChosenSums(clusters, names, generator, r, |names|);
    var means := Means(clusters, Chosen(names, generator, r));
    assert means[..|names|] == means;
    hide SumReals, DrawnSum;
  }

  lemma {:induction false} ObservedIs(clusters: Clusters, names: seq<string>)
    requires Filled(clusters) && |names| > 0 && AllIn(names, clusters)
    ensures forall name :: name in names ==> name in clusters
    ensures Difference(clusters, names) == GapSum(clusters, names, |names|) / |names| as real
  {
    NameSums(clusters, names, |names|);
    var means := Means(clusters, names);
    assert means[..|names|] == means;
    hide SumReals, GapSum;
  }

  // Positions.

  function DrawnValues(clusters: Clusters, names: seq<string>, generator: Generator, n: nat): seq<real>
    requires Filled(clusters) && |names| > 0 && AllIn(names, clusters)
  {
    seq(n, r requires 0 <= r < n => DrawOf(clusters, names, generator, r))
  }

  lemma {:induction false} DrawsAre(clusters: Clusters, names: seq<string>, generator: Generator, n: nat)
    requires Filled(clusters) && |names| > 0 && AllIn(names, clusters)
    ensures Draws(clusters, names, n, generator) == DrawnValues(clusters, names, generator, n)
  {
    hide Difference, DrawOf;
    forall r: nat | r < n
      ensures Draws(clusters, names, n, generator)[r] == DrawOf(clusters, names, generator, r)
    {
      DrawIs(clusters, names, generator, r);
    }
  }

  ghost function Below(xs: seq<real>, v: real): set<nat> {
    set i: nat | i < |xs| && xs[i] < v
  }

  ghost function AtMost(xs: seq<real>, v: real): set<nat> {
    set i: nat | i < |xs| && xs[i] <= v
  }

  lemma {:induction false} CountSnoc(xs: seq<real>, v: real, inclusive: bool)
    requires |xs| > 0
    ensures var last := xs[|xs| - 1];
      Count(xs, v, inclusive)
        == Count(xs[..|xs| - 1], v, inclusive) + if last < v || (inclusive && last == v) then 1 else 0
  {
    if |xs| > 1 {
      CountSnoc(xs[1..], v, inclusive);
      assert xs[1..][..|xs| - 2] == xs[..|xs| - 1][1..];
    }
  }

  lemma {:induction false} BelowCounts(xs: seq<real>, v: real)
    ensures |Below(xs, v)| == Count(xs, v, false)
  {
    if |xs| > 0 {
      var before, last := xs[..|xs| - 1], |xs| - 1;
      BelowCounts(before, v);
      CountSnoc(xs, v, false);
      assert Below(xs, v) == Below(before, v) + if xs[last] < v then {last} else {};
    }
  }

  lemma {:induction false} AtMostCounts(xs: seq<real>, v: real)
    ensures |AtMost(xs, v)| == Count(xs, v, true)
  {
    if |xs| > 0 {
      var before, last := xs[..|xs| - 1], |xs| - 1;
      AtMostCounts(before, v);
      CountSnoc(xs, v, true);
      assert AtMost(xs, v) == AtMost(before, v) + if xs[last] <= v then {last} else {};
    }
  }

  /** The whole number nearest to a fortieth of `n`, the even one when two are. */
  predicate NearestFortieth(n: nat, k: nat) {
    -20 <= 40 * k - n <= 20 && (40 * k - n == 20 || 40 * k - n == -20 ==> k % 2 == 0)
  }

  lemma {:induction false} LowerNearest(resamples: nat)
    requires resamples > 0
    ensures NearestFortieth(resamples - 1, LowerPosition(resamples))
  {
    var n := resamples - 1;
    LowerIs(n / 40, n % 40);
  }

  /** `v` is the value with `k` others before it in order. */
  ghost predicate InPlace(xs: seq<real>, k: nat, v: real) {
    |Below(xs, v)| <= k < |AtMost(xs, v)|
  }

  lemma {:induction false} BoundsPlaced(
    clusters: Clusters, names: seq<string>, resamples: nat, generator: Generator, k: nat)
    requires resamples > 0 && Filled(clusters) && |names| > 0 && AllIn(names, clusters)
    requires k == LowerPosition(resamples) && k < resamples
    ensures forall name :: name in names ==> name in clusters
    ensures
      var b := BoundsOf(clusters, names, resamples, generator);
      var draws := Draws(clusters, names, resamples, generator);
      && InPlace(draws, k, b.lower)
      && InPlace(draws, resamples - 1 - k, b.upper)
      && b.observed == GapSum(clusters, names, |names|) / |names| as real
  {
    var b := BoundsOf(clusters, names, resamples, generator);
    var draws := Draws(clusters, names, resamples, generator);
    ObservedIs(clusters, names);
    hide Draws, LowerPosition, UpperPosition, Difference, SortReals, Below, AtMost, GapSum;
    Positions(resamples);
    SortedAt(draws, k);
    SortedAt(draws, resamples - 1 - k);
    BelowCounts(draws, b.lower);
    BelowCounts(draws, b.upper);
    AtMostCounts(draws, b.lower);
    AtMostCounts(draws, b.upper);
  }

  /** The interval of a bootstrap, its clusters in the order of their names. */
  ghost predicate BoundedBy(
    bounds: Option<Bounds>, clusters: Clusters, names: seq<string>, resamples: nat, generator: Generator, k: nat)
    requires Filled(clusters) && |names| > 0 && AllIn(names, clusters) && k < resamples
  {
    && bounds.Some?
    && bounds.value.observed == GapSum(clusters, names, |names|) / |names| as real
    && InPlace(DrawnValues(clusters, names, generator, resamples), k, bounds.value.lower)
    && InPlace(DrawnValues(clusters, names, generator, resamples), resamples - 1 - k, bounds.value.upper)
  }

  /**
   * The observed difference is the mean over the clusters of their mean gaps. A bound is the draw with a fortieth of
   * the other draws before it, or after it, each draw the mean of the clusters the generator chose.
   */
  lemma {:induction false} BoundsMean(
    clusters: Clusters, names: seq<string>, resamples: nat, generator: Generator, k: nat)
    requires resamples > 0 && clusters != map[] && Filled(clusters)
    requires Ascending(names) && (forall name :: name in names <==> name in clusters)
    requires NearestFortieth(resamples - 1, k)
    ensures |names| > 0 && AllIn(names, clusters) && k < resamples
    ensures ClusterBootstrap(clusters, resamples, generator).Ok?
    ensures BoundedBy(
      ClusterBootstrap(clusters, resamples, generator).value.bounds, clusters, names, resamples, generator, k)
  {
    hide ClusterBootstrap, Filled, Draws, ReasonOf, BoundsOf, GapSum, InPlace;
    NamesAre(clusters, names);
    PlaceIs(resamples, k);
    BootstrapIs(clusters, resamples, generator);
    hide *;
    BoundsPlaced(clusters, names, resamples, generator, k);
    DrawsAre(clusters, names, generator, resamples);
    Bounded(BoundsOf(clusters, names, resamples, generator), clusters, names, resamples, generator, k);
  }

  lemma {:induction false} Bounded(
    b: Bounds, clusters: Clusters, names: seq<string>, resamples: nat, generator: Generator, k: nat)
    requires Filled(clusters) && |names| > 0 && AllIn(names, clusters) && k < resamples
    requires b.observed == GapSum(clusters, names, |names|) / |names| as real
    requires InPlace(DrawnValues(clusters, names, generator, resamples), k, b.lower)
    requires InPlace(DrawnValues(clusters, names, generator, resamples), resamples - 1 - k, b.upper)
    ensures BoundedBy(Some(b), clusters, names, resamples, generator, k)
  {
    hide GapSum, InPlace, DrawnValues;
  }

  lemma {:induction false} PlaceIs(resamples: nat, k: nat)
    requires resamples > 0 && NearestFortieth(resamples - 1, k)
    ensures k == LowerPosition(resamples) && k < resamples
  {
    LowerNearest(resamples);
    Positions(resamples);
    hide LowerPosition;
  }

  lemma {:induction false} NamesAre(clusters: Clusters, names: seq<string>)
    requires clusters != map[] && Ascending(names) && (forall name :: name in names <==> name in clusters)
    ensures SortedKeys(clusters.Keys) == names && |names| > 0 && AllIn(names, clusters)
  {
    hide Ascending;
    AscendingUnique(SortedKeys(clusters.Keys), names);
    assert clusters.Keys != {};
  }
}
