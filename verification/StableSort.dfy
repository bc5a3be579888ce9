/** sort.SliceStable, by a strict order, and how it commutes with dropping elements. */
module StableSort {
  function Filter<T(!new)>(xs: seq<T>, keep: T -> bool): (r: seq<T>)
    ensures forall x :: x in r <==> x in xs && keep(x)
    ensures |r| <= |xs|
  {
    if xs == [] then [] else (if keep(xs[0]) then [xs[0]] else []) + Filter(xs[1..], keep)
  }

  function Insert<T>(x: T, xs: seq<T>, before: (T, T) -> bool): seq<T> {
    if xs == [] || !before(xs[0], x) then [x] + xs else [xs[0]] + Insert(x, xs[1..], before)
  }

  function Sort<T>(xs: seq<T>, before: (T, T) -> bool): seq<T> {
    if xs == [] then [] else Insert(xs[0], Sort(xs[1..], before), before)
  }

  /** A strict weak order: what sort asks of its less function. */
  ghost predicate Orders<T(!new)>(before: (T, T) -> bool) {
    && (forall a, b :: before(a, b) ==> !before(b, a))
    && (forall a, b, c :: before(a, c) ==> before(a, b) || before(b, c))
  }

  ghost predicate Sorted<T>(xs: seq<T>, before: (T, T) -> bool) {
    forall i, j :: 0 <= i < j < |xs| ==> !before(xs[j], xs[i])
  }

  ghost predicate Distinct<T(!new)>(xs: seq<T>) {
    forall x :: multiset(xs)[x] <= 1
  }

  lemma {:induction false} InsertCounts<T(!new)>(x: T, xs: seq<T>, before: (T, T) -> bool)
    ensures multiset(Insert(x, xs, before)) == multiset{x} + multiset(xs)
  {
    if xs != [] && before(xs[0], x) {
      InsertCounts(x, xs[1..], before);
      assert xs == [xs[0]] + xs[1..];
    }
  }

  lemma {:induction false} SortedCons<T(!new)>(x: T, xs: seq<T>, before: (T, T) -> bool)
    requires Sorted(xs, before) && forall y :: y in xs ==> !before(y, x)
    ensures Sorted([x] + xs, before)
  {
    var r := [x] + xs;
    forall i, j | 0 <= i < j < |r| ensures !before(r[j], r[i]) {
      assert r[j] == xs[j - 1] && xs[j - 1] in xs;
      if i > 0 { assert r[i] == xs[i - 1]; }
    }
  }

  lemma {:induction false} SortedHead<T(!new)>(xs: seq<T>, before: (T, T) -> bool)
    requires Sorted(xs, before) && xs != []
    ensures Sorted(xs[1..], before) && forall y :: y in xs[1..] ==> !before(y, xs[0])
  {
    forall y | y in xs[1..] ensures !before(y, xs[0]) {
      var k :| 0 <= k < |xs[1..]| && xs[1..][k] == y;
      assert xs[k + 1] == y;
    }
  }

  lemma {:induction false} InsertSorts<T(!new)>(x: T, xs: seq<T>, before: (T, T) -> bool)
    requires Orders(before) && Sorted(xs, before)
    ensures Sorted(Insert(x, xs, before), before)
    ensures multiset(Insert(x, xs, before)) == multiset{x} + multiset(xs)
  {
    InsertCounts(x, xs, before);
    if xs == [] {
    } else if !before(xs[0], x) {
      SortedHead(xs, before);
      assert xs == [xs[0]] + xs[1..];
      forall y | y in xs ensures !before(y, x) { assert y == xs[0] || y in xs[1..]; }
      SortedCons(x, xs, before);
    } else {
      var tail := xs[1..];
      SortedHead(xs, before);
      InsertSorts(x, tail, before);
      var rest := Insert(x, tail, before);
      forall y | y in rest ensures !before(y, xs[0]) {
        assert y in multiset(rest);
        assert y == x || y in tail;
      }
      SortedCons(xs[0], rest, before);
    }
  }

  /** The result is a sorted permutation. */
  lemma {:induction false} SortSorts<T(!new)>(xs: seq<T>, before: (T, T) -> bool)
    requires Orders(before)
    ensures Sorted(Sort(xs, before), before) && multiset(Sort(xs, before)) == multiset(xs)
  {
    if xs != [] {
      SortSorts(xs[1..], before);
      InsertSorts(xs[0], Sort(xs[1..], before), before);
      assert xs == [xs[0]] + xs[1..];
    }
  }

  lemma {:induction false} SortMembers<T(!new)>(xs: seq<T>, before: (T, T) -> bool)
    requires Orders(before)
    ensures forall x :: x in Sort(xs, before) <==> x in xs
    ensures |Sort(xs, before)| == |xs|
  {
    SortSorts(xs, before);
    forall x ensures x in Sort(xs, before) <==> x in xs {
      assert x in Sort(xs, before) <==> x in multiset(Sort(xs, before));
      assert x in xs <==> x in multiset(xs);
    }
    assert |multiset(xs)| == |xs| && |multiset(Sort(xs, before))| == |Sort(xs, before)|;
  }

  lemma {:induction false} FilterCons<T(!new)>(x: T, xs: seq<T>, keep: T -> bool)
    ensures Filter([x] + xs, keep) == if keep(x) then [x] + Filter(xs, keep) else Filter(xs, keep)
  {
    assert ([x] + xs)[1..] == xs;
  }

  lemma {:induction false} InsertFirst<T(!new)>(x: T, xs: seq<T>, before: (T, T) -> bool)
    requires forall y :: y in xs ==> !before(y, x)
    ensures Insert(x, xs, before) == [x] + xs
  {}

  lemma {:induction false} InsertFilter<T(!new)>(x: T, xs: seq<T>, before: (T, T) -> bool, keep: T -> bool)
    requires Orders(before) && Sorted(xs, before)
    ensures Filter(Insert(x, xs, before), keep) == if keep(x) then Insert(x, Filter(xs, keep), before)
      else Filter(xs, keep)
  {
    if xs == [] || !before(xs[0], x) {
      FilterCons(x, xs, keep);
      forall y | y in xs ensures !before(y, x) {
        var j :| 0 <= j < |xs| && xs[j] == y;
        assert j == 0 || !before(xs[j], xs[0]);
      }
      InsertFirst(x, Filter(xs, keep), before);
    } else {
      var h, tail := xs[0], xs[1..];
      InsertFilter(x, tail, before, keep);
      assert xs == [h] + tail;
      FilterCons(h, tail, keep);
      FilterCons(h, Insert(x, tail, before), keep);
      if keep(h) {
        assert ([h] + Filter(tail, keep))[1..] == Filter(tail, keep);
      }
    }
  }

  /** Stability: dropping elements before or after sorting is the same. */
  lemma {:induction false} SortFilter<T(!new)>(xs: seq<T>, before: (T, T) -> bool, keep: T -> bool)
    requires Orders(before)
    ensures Sort(Filter(xs, keep), before) == Filter(Sort(xs, before), keep)
  {
    if xs != [] {
      var h, tail := xs[0], xs[1..];
      SortFilter(tail, before, keep);
      SortSorts(tail, before);
      InsertFilter(h, Sort(tail, before), before, keep);
      assert xs == [h] + tail;
      FilterCons(h, tail, keep);
      if keep(h) { SortCons(h, Filter(tail, keep), before); }
    }
  }

  /** What is sorted goes in order, whatever the place it is cut at. */
  lemma {:induction false} SortedParts<T(!new)>(xs: seq<T>, before: (T, T) -> bool, k: nat, x: T, y: T)
    requires Sorted(xs, before) && k <= |xs| && x in xs && x !in xs[k..] && y in xs[k..]
    ensures !before(y, x)
  {
    assert xs == xs[..k] + xs[k..];
    var i :| 0 <= i < k && xs[..k][i] == x;
    var j :| 0 <= j < |xs[k..]| && xs[k..][j] == y;
    assert xs[i] == x && xs[k + j] == y;
  }

  lemma {:induction false} SortOfSame<T(!new)>(xs: seq<T>, before: (T, T) -> bool)
    requires forall x, y :: x in xs && y in xs ==> !before(x, y)
    ensures Sort(xs, before) == xs
  {
    if xs != [] { SortOfSame(xs[1..], before); }
  }

  /** Items that neither goes before keep their order. */
  lemma {:induction false} SortIsStable<T(!new)>(xs: seq<T>, before: (T, T) -> bool, same: T -> bool)
    requires Orders(before) && forall x, y :: x in xs && y in xs && same(x) && same(y) ==> !before(x, y)
    ensures Filter(Sort(xs, before), same) == Filter(xs, same)
  {
    SortFilter(xs, before, same);
    SortOfSame(Filter(xs, same), before);
  }

  lemma {:induction false} SortCons<T(!new)>(x: T, xs: seq<T>, before: (T, T) -> bool)
    ensures Sort([x] + xs, before) == Insert(x, Sort(xs, before), before)
  {
    assert ([x] + xs)[1..] == xs;
  }

  lemma {:induction false} FilterConcat<T(!new)>(a: seq<T>, b: seq<T>, keep: T -> bool)
    ensures Filter(a + b, keep) == Filter(a, keep) + Filter(b, keep)
  {
    if a == [] {
      assert a + b == b;
    } else {
      assert (a + b)[1..] == a[1..] + b;
      FilterConcat(a[1..], b, keep);
    }
  }

  lemma {:induction false} FilterPair<T(!new)>(x: T, y: T, rest: seq<T>, keep: T -> bool)
    requires keep(x) == keep(y)
    ensures Filter([x, y] + rest, keep) == if keep(x) then [x, y] + Filter(rest, keep) else Filter(rest, keep)
  {
    assert [x, y] + rest == [x] + ([y] + rest);
    FilterCons(x, [y] + rest, keep);
    FilterCons(y, rest, keep);
  }

  lemma {:induction false} FilterAll<T(!new)>(xs: seq<T>, keep: T -> bool)
    requires forall x :: x in xs ==> keep(x)
    ensures Filter(xs, keep) == xs
  {
    if xs != [] {
      FilterAll(xs[1..], keep);
    }
  }

  lemma {:induction false} FilterSame<T(!new)>(xs: seq<T>, p: T -> bool, q: T -> bool)
    requires forall x :: x in xs ==> (p(x) <==> q(x))
    ensures Filter(xs, p) == Filter(xs, q)
  {
    if xs != [] { FilterSame(xs[1..], p, q); }
  }

  lemma {:induction false} FilterTwice<T(!new)>(xs: seq<T>, p: T -> bool, q: T -> bool, both: T -> bool)
    requires forall x :: x in xs ==> (both(x) <==> p(x) && q(x))
    ensures Filter(Filter(xs, p), q) == Filter(xs, both)
  {
    if xs != [] {
      FilterTwice(xs[1..], p, q, both);
      var f := Filter(xs, p);
      if p(xs[0]) { assert f[0] == xs[0] && f[1..] == Filter(xs[1..], p); } else { assert f == Filter(xs[1..], p); }
    }
  }

  lemma {:induction false} FilterCounts<T(!new)>(xs: seq<T>, keep: T -> bool)
    ensures multiset(Filter(xs, keep)) <= multiset(xs)
  {
    if xs != [] {
      FilterCounts(xs[1..], keep);
      assert xs == [xs[0]] + xs[1..];
    }
  }

  lemma {:induction false} PartsShareNothing<T(!new)>(a: seq<T>, b: seq<T>, x: T)
    requires Distinct(a + b) && x in a
    ensures x !in b
  {
    assert multiset(a + b)[x] == multiset(a)[x] + multiset(b)[x];
  }

  lemma {:induction false} DistinctTail<T(!new)>(xs: seq<T>)
    requires Distinct(xs) && xs != []
    ensures Distinct(xs[1..]) && xs[0] !in xs[1..]
  {
    assert xs == [xs[0]] + xs[1..];
    PartsShareNothing([xs[0]], xs[1..], xs[0]);
    forall x ensures multiset(xs[1..])[x] <= 1 {
      assert multiset(xs)[x] == multiset([xs[0]])[x] + multiset(xs[1..])[x];
    }
  }

  lemma {:induction false} FilterNone<T(!new)>(xs: seq<T>, keep: T -> bool)
    requires forall x :: x in xs ==> !keep(x)
    ensures Filter(xs, keep) == []
  {
    if xs != [] { FilterNone(xs[1..], keep); }
  }

  lemma {:induction false} SortKeepsDistinct<T(!new)>(xs: seq<T>, before: (T, T) -> bool)
    requires Orders(before) && Distinct(xs)
    ensures Distinct(Sort(xs, before))
  {
    SortSorts(xs, before);
  }

  lemma {:induction false} FilterKeepsDistinct<T(!new)>(xs: seq<T>, keep: T -> bool)
    requires Distinct(xs)
    ensures Distinct(Filter(xs, keep))
  {
    FilterCounts(xs, keep);
    forall x ensures multiset(Filter(xs, keep))[x] <= 1 { assert multiset(Filter(xs, keep))[x] <= multiset(xs)[x]; }
  }

  /** Without repeats there is one place at most for each allowed value. */
  lemma {:induction false} DistinctWithin<T(!new)>(xs: seq<T>, allowed: set<T>)
    requires Distinct(xs) && forall x :: x in xs ==> x in allowed
    ensures |xs| <= |allowed|
  {
    if xs != [] {
      DistinctTail(xs);
      DistinctWithin(xs[1..], allowed - {xs[0]});
    }
  }

  lemma {:induction false} FilterPartition<T(!new)>(xs: seq<T>, p: T -> bool, q: T -> bool, either: T -> bool)
    requires forall x :: x in xs ==> (either(x) ==> p(x) || q(x))
    ensures |Filter(xs, either)| <= |Filter(xs, p)| + |Filter(xs, q)|
  {
    if xs != [] { FilterPartition(xs[1..], p, q, either); }
  }
}
