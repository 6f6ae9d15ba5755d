/** Small definitions shared by every module: options and finite sums. */
module Prelude {

  datatype Option<+T> = None | Some(value: T) {
    function GetOr(default: T): T {
      if Some? then value else default
    }
  }

  function Max(a: int, b: int): int {
    if a < b then b else a
  }

  function Min(a: int, b: int): int {
    if a < b then a else b
  }

  lemma {:induction false} SubsetSize<T(!new)>(a: set<T>, b: set<T>)
    requires a <= b
    ensures |a| <= |b|
  {
    assert b == a + (b - a);
  }

  /** The sum of a map's values. */
  ghost function SumMap<K(!new)>(m: map<K, int>): int
    decreases |m|
  {
    if m == map[] then 0 else
      var k :| k in m;
      m[k] + SumMap(m - {k})
  }

  /** Any key may be taken out first. */
  lemma {:induction false} SumMapRemove<K(!new)>(m: map<K, int>, k: K)
    requires k in m
    ensures SumMap(m) == m[k] + SumMap(m - {k})
    decreases |m|
  {
    var c :| c in m && SumMap(m) == m[c] + SumMap(m - {c});
    if c != k {
      SumMapRemove(m - {c}, k);
      SumMapRemove(m - {k}, c);
      assert m - {c} - {k} == m - {k} - {c};
    }
  }

  lemma {:induction false} SumMapInsert<K(!new)>(m: map<K, int>, k: K, v: int)
    requires k !in m
    ensures SumMap(m[k := v]) == SumMap(m) + v
  {
    SumMapRemove(m[k := v], k);
    assert m[k := v] - {k} == m;
  }

  lemma {:induction false} SumMapUpdate<K(!new)>(m: map<K, int>, k: K, v: int)
    requires k in m
    ensures SumMap(m[k := v]) == SumMap(m) - m[k] + v
  {
    SumMapRemove(m, k);
    SumMapRemove(m[k := v], k);
    assert m[k := v] - {k} == m - {k};
  }

  lemma {:induction false} UnionStep<K(!new)>(a: map<K, int>, b: map<K, int>, k: K)
    requires k in b && k !in a
    ensures a + b == (a + (b - {k}))[k := b[k]] && b == (b - {k})[k := b[k]]
  {
  }

  lemma {:induction false} SumMapUnion<K(!new)>(a: map<K, int>, b: map<K, int>)
    requires forall k :: k in b ==> k !in a
    ensures SumMap(a + b) == SumMap(a) + SumMap(b)
    decreases |b|
  {
    hide SumMap;
    if |b| == 0 {
      assert a + b == a;
      SumMapEmpty(b);
    } else {
      var k :| k in b;
      UnionStep(a, b, k);
      SumMapUnion(a, b - {k});
      SumMapInsert(b - {k}, k, b[k]);
      SumMapInsert(a + (b - {k}), k, b[k]);
    }
  }

  lemma {:induction false} SumMapEmpty<K(!new)>(m: map<K, int>)
    requires m == map[]
    ensures SumMap(m) == 0
  {
  }

  /** A sum whose terms are sums. */
  lemma {:induction false} SumMapAdds<K(!new)>(total: map<K, int>, part: map<K, int>, rest: map<K, int>)
    requires total.Keys == part.Keys == rest.Keys
    requires forall k :: k in total ==> total[k] == part[k] + rest[k]
    ensures SumMap(total) == SumMap(part) + SumMap(rest)
    decreases |total|
  {
    hide SumMap;
    if total.Keys == {} {
      SumMapEmpty(total);
      SumMapEmpty(part);
      SumMapEmpty(rest);
    } else {
      var k :| k in total;
      SumMapRemove(total, k);
      SumMapRemove(part, k);
      SumMapRemove(rest, k);
      SumMapAdds(total - {k}, part - {k}, rest - {k});
    }
  }

  lemma {:induction false} SumMapZero<K(!new)>(m: map<K, int>)
    requires forall k :: k in m ==> m[k] == 0
    ensures SumMap(m) == 0
    decreases |m|
  {
    hide SumMap;
    if m.Keys == {} {
      SumMapEmpty(m);
    } else {
      var k :| k in m;
      SumMapRemove(m, k);
      SumMapZero(m - {k});
    }
  }
}
