/** The sorted list of a set of names, and how a list that begins sorted is sorted again. */
module SortedNames {
  /** The order of strings by their characters. */
  predicate Less(a: string, b: string) {
    if |b| == 0 then false
    else if |a| == 0 then true
    else a[0] < b[0] || (a[0] == b[0] && Less(a[1..], b[1..]))
  }

  /** A name comes before those it begins, and those with a greater character where the two first differ. */
  lemma {:induction false} LessMeans(a: string, b: string)
    ensures Less(a, b) <==> (a <= b && a != b) || exists k :: DiffersAt(a, b, k) && a[k] < b[k]
  {
    if |a| > 0 && |b| > 0 && a[0] == b[0] {
      LessMeans(a[1..], b[1..]);
      assert a <= b <==> a[1..] <= b[1..];
      assert a == b <==> a[1..] == b[1..];
      if k :| DiffersAt(a, b, k) && a[k] < b[k] {
        assert DiffersAt(a[1..], b[1..], k - 1);
      }
      if k :| DiffersAt(a[1..], b[1..], k) && a[1..][k] < b[1..][k] {
        assert DiffersAt(a, b, k + 1);
      }
    } else if |a| > 0 && |b| > 0 {
      assert a[0] < b[0] ==> DiffersAt(a, b, 0);
    }
  }

  predicate DiffersAt(a: string, b: string, k: int) {
    0 <= k < |a| && k < |b| && a[k] != b[k] && forall i :: 0 <= i < k ==> a[i] == b[i]
  }

  lemma {:induction false} LessTransitive(a: string, b: string, c: string)
    requires Less(a, b) && Less(b, c)
    ensures Less(a, c)
  {
    if |a| > 0 && a[0] == b[0] && b[0] == c[0] {
      LessTransitive(a[1..], b[1..], c[1..]);
    }
  }

  lemma {:induction false} LessTotal(a: string, b: string)
    ensures a == b || Less(a, b) || Less(b, a)
    ensures !(Less(a, b) && Less(b, a)) && !Less(a, a)
  {
    if |a| > 0 && |b| > 0 {
      LessTotal(a[1..], b[1..]);
      assert a == [a[0]] + a[1..] && b == [b[0]] + b[1..];
    }
    if |a| > 0 {
      LessTotal(a[1..], a[1..]);
    }
  }

  ghost predicate Ascending(xs: seq<string>) {
    forall i, j :: 0 <= i < j < |xs| ==> Less(xs[i], xs[j])
  }

  function Insert(xs: seq<string>, p: string): seq<string> {
    if |xs| == 0 then [p]
    else if xs[0] == p then xs
    else if Less(p, xs[0]) then [p] + xs
    else [xs[0]] + Insert(xs[1..], p)
  }

  function Elements(xs: seq<string>): set<string> {
    set x | x in xs
  }

  /** The names in order, each once. */
  function SortedSet(names: seq<string>): seq<string> {
    if |names| == 0 then [] else Insert(SortedSet(names[..|names| - 1]), names[|names| - 1])
  }

  lemma {:induction false} ElementsConcat(xs: seq<string>, ys: seq<string>)
    ensures Elements(xs + ys) == Elements(xs) + Elements(ys)
  {
  }

  lemma {:induction false} InsertElements(xs: seq<string>, p: string)
    ensures Elements(Insert(xs, p)) == Elements(xs) + {p}
  {
    if |xs| == 0 {
      assert Elements([p]) == {p};
    } else {
      assert xs == [xs[0]] + xs[1..];
      ElementsConcat([xs[0]], xs[1..]);
      InsertElements(xs[1..], p);
      ElementsConcat([xs[0]], Insert(xs[1..], p));
      ElementsConcat([p], xs);
    }
  }

  lemma {:induction false} InsertSorts(xs: seq<string>, p: string)
    requires Ascending(xs)
    ensures Ascending(Insert(xs, p))
  {
    if |xs| > 0 && xs[0] != p {
      LessTotal(p, xs[0]);
      if Less(p, xs[0]) {
        forall j | 0 < j < |xs|
          ensures Less(p, xs[j])
        {
          LessTransitive(p, xs[0], xs[j]);
        }
      } else {
        InsertSorts(xs[1..], p);
        InsertElements(xs[1..], p);
        var rest := Insert(xs[1..], p);
        forall j | 0 <= j < |rest|
          ensures Less(xs[0], rest[j])
        {
          assert rest[j] in Elements(rest);
        }
      }
    }
  }

  lemma {:induction false} SortedSetSorts(names: seq<string>)
    ensures Ascending(SortedSet(names)) && Elements(SortedSet(names)) == Elements(names)
  {
    if |names| > 0 {
      var before, last := names[..|names| - 1], names[|names| - 1];
      SortedSetSorts(before);
      InsertSorts(SortedSet(before), last);
      InsertElements(SortedSet(before), last);
      assert names == before + [last];
    }
  }

  /** A set has one ascending list. */
  lemma {:induction false} AscendingUnique(xs: seq<string>, ys: seq<string>)
    requires Ascending(xs) && Ascending(ys) && Elements(xs) == Elements(ys)
    ensures xs == ys
  {
    assert |ys| == 0 || ys[0] in Elements(ys);
    if |xs| > 0 {
      assert xs[0] in Elements(xs) && xs[0] in ys;
      assert ys[0] in Elements(ys) && ys[0] in xs;
      var i :| 0 <= i < |ys| && ys[i] == xs[0];
      var j :| 0 <= j < |xs| && xs[j] == ys[0];
      LessTotal(xs[0], ys[0]);
      assert xs[0] == ys[0];
      TailElements(xs);
      TailElements(ys);
      AscendingUnique(xs[1..], ys[1..]);
      assert xs == [xs[0]] + xs[1..] && ys == [ys[0]] + ys[1..];
    }
  }

  lemma {:induction false} TailElements(xs: seq<string>)
    requires Ascending(xs) && |xs| > 0
    ensures Elements(xs[1..]) == Elements(xs) - {xs[0]}
  {
    forall x | x in xs[1..]
      ensures x != xs[0]
    {
      LessTotal(x, x);
    }
  }

  /** Sorting a list that begins with a sorted list is sorting the whole. */
  lemma {:induction false} SortedSetCarries(carried: seq<string>, more: seq<string>)
    ensures SortedSet(SortedSet(carried) + more) == SortedSet(carried + more)
  {
    SortedSetSorts(carried);
    SortedSetSorts(SortedSet(carried) + more);
    SortedSetSorts(carried + more);
    ElementsConcat(SortedSet(carried), more);
    ElementsConcat(carried, more);
    AscendingUnique(SortedSet(SortedSet(carried) + more), SortedSet(carried + more));
  }

  predicate Least(keys: set<string>, k: string) {
    k in keys && forall j | j in keys :: !Less(j, k)
  }

  lemma {:induction false} LeastUnique(keys: set<string>)
    ensures forall j, k :: Least(keys, j) && Least(keys, k) ==> j == k
  {
    forall j, k | Least(keys, j) && Least(keys, k)
      ensures j == k
    {
      LessTotal(j, k);
    }
  }

  lemma {:induction false} LeastExists(keys: set<string>)
    requires keys != {}
    ensures exists k :: Least(keys, k)
    decreases |keys|
  {
    var x :| x in keys;
    var rest := keys - {x};
    LessTotal(x, x);
    if rest == {} {
      assert keys == {x};
      assert Least(keys, x);
    } else {
      LeastExists(rest);
      var k :| Least(rest, k);
      LessTotal(x, k);
      if Less(x, k) {
        forall j | j in rest
          ensures !Less(j, x)
        {
          if Less(j, x) {
            LessTransitive(j, x, k);
          }
        }
        assert Least(keys, x);
      } else {
        assert Least(keys, k);
      }
    }
  }

  /** The names of a set in order. */
  function SortedKeys(keys: set<string>): (names: seq<string>)
    ensures |names| == |keys|
    ensures forall name :: name in names <==> name in keys
    ensures Ascending(names)
    decreases |keys|
  {
    if keys == {} then [] else
      LeastExists(keys);
      LeastUnique(keys);
      var k :| k in keys && Least(keys, k);
      var rest := SortedKeys(keys - {k});
      LeastFirst(keys, k, rest);
      [k] + rest
  }

  lemma {:induction false} LeastFirst(keys: set<string>, k: string, rest: seq<string>)
    requires Least(keys, k) && Ascending(rest) && forall name :: name in rest <==> name in keys - {k}
    ensures Ascending([k] + rest)
  {
    forall j | 0 <= j < |rest|
      ensures Less(k, rest[j])
    {
      assert rest[j] in rest;
      LessTotal(k, rest[j]);
    }
  }
}
