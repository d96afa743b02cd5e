/** Sorting by an order: the sorted listing of a set is unique, and removal keeps the rest in place. */
module Sorting {
  import opened Common

  ghost predicate TotalOrder<K(!new)>(le: (K, K) -> bool, s: set<K>) {
    && (forall a, b :: a in s && b in s ==> le(a, b) || le(b, a))
    && (forall a, b, c :: a in s && b in s && c in s && le(a, b) && le(b, c) ==> le(a, c))
  }

  ghost predicate Antisymmetric<K(!new)>(le: (K, K) -> bool, s: set<K>) {
    forall a, b :: a in s && b in s && le(a, b) && le(b, a) ==> a == b
  }

  ghost predicate Sorted<K>(le: (K, K) -> bool, xs: seq<K>) {
    forall i, j :: 0 <= i < j < |xs| ==> le(xs[i], xs[j])
  }

  /** Insert before the first element it precedes. */
  function Insert<K>(le: (K, K) -> bool, xs: seq<K>, x: K): seq<K> {
    if xs == [] then [x]
    else if le(x, xs[0]) then [x] + xs
    else [xs[0]] + Insert(le, xs[1..], x)
  }

  lemma {:induction false} InsertMembers<K(!new)>(le: (K, K) -> bool, xs: seq<K>, x: K)
    ensures forall y :: y in Insert(le, xs, x) <==> y == x || y in xs
    ensures x !in xs && Distinct(xs) ==> Distinct(Insert(le, xs, x))
  {
    if xs != [] && !le(x, xs[0]) {
      InsertMembers(le, xs[1..], x);
      assert xs == [xs[0]] + xs[1..];
      var rest := Insert(le, xs[1..], x);
      if x !in xs && Distinct(xs) {
        forall j | 0 <= j < |rest| ensures xs[0] != rest[j] {
          assert rest[j] in rest;
        }
      }
    }
  }

  lemma InsertSorted<K(!new)>(le: (K, K) -> bool, xs: seq<K>, x: K, s: set<K>)
    requires TotalOrder(le, s) && x in s && forall y :: y in xs ==> y in s
    requires Sorted(le, xs)
    ensures Sorted(le, Insert(le, xs, x))
    ensures forall y :: y in Insert(le, xs, x) <==> y == x || y in xs
    ensures x !in xs && Distinct(xs) ==> Distinct(Insert(le, xs, x))
  {
    InsertMembers(le, xs, x);
    forall i | 0 <= i < |xs| ensures le(x, xs[i]) || le(xs[i], x) {
      assert xs[i] in xs;
    }
    forall i, j | 0 <= i < j < |xs| && le(x, xs[i]) ensures le(x, xs[j]) {
      assert xs[i] in xs && xs[j] in xs && le(xs[i], xs[j]);
    }
    InsertInPlace(le, xs, x);
  }

  lemma {:induction false} InsertInPlace<K(!new)>(le: (K, K) -> bool, xs: seq<K>, x: K)
    requires Sorted(le, xs) && forall i :: 0 <= i < |xs| ==> le(x, xs[i]) || le(xs[i], x)
    requires forall i, j :: 0 <= i < j < |xs| && le(x, xs[i]) ==> le(x, xs[j])
    ensures Sorted(le, Insert(le, xs, x))
  {
    if xs != [] && !le(x, xs[0]) {
      InsertInPlace(le, xs[1..], x);
      InsertMembers(le, xs[1..], x);
      HeadLeads(le, xs, x, Insert(le, xs[1..], x));
    }
  }

  /** The head of a sorted list precedes whatever joins its tail after it. */
  lemma HeadLeads<K(!new)>(le: (K, K) -> bool, xs: seq<K>, x: K, rest: seq<K>)
    requires xs != [] && Sorted(le, xs) && le(xs[0], x) && Sorted(le, rest)
    requires forall y :: y in rest ==> y == x || y in xs[1..]
    ensures Sorted(le, [xs[0]] + rest)
  {
    forall j | 0 <= j < |rest| ensures le(xs[0], rest[j]) {
      assert rest[j] in rest;
      if rest[j] != x {
        var i :| 0 <= i < |xs[1..]| && xs[1..][i] == rest[j];
        assert le(xs[0], xs[i + 1]);
      }
    }
  }

  method SortBy<K(==, !new)>(xs: seq<K>, le: (K, K) -> bool) returns (sorted: seq<K>)
    requires Distinct(xs) && TotalOrder(le, Elements(xs))
    ensures Sorted(le, sorted)
    ensures Lists(sorted, Elements(xs))
  {
    sorted := [];
    for n := 0 to |xs|
      invariant Sorted(le, sorted) && Distinct(sorted)
      invariant forall y :: y in sorted <==> y in xs[..n]
    {
      assert xs[n] !in xs[..n];
      assert forall y :: y in xs[..n] ==> y in xs;
      InsertSorted(le, sorted, xs[n], Elements(xs));
      sorted := Insert(le, sorted, xs[n]);
    }
    assert xs[..|xs|] == xs;
  }

  /** Two sorted listings of one set are the same. */
  lemma {:induction false} SortedUnique<K(!new)>(le: (K, K) -> bool, xs: seq<K>, ys: seq<K>, s: set<K>)
    requires TotalOrder(le, s) && Antisymmetric(le, s)
    requires Sorted(le, xs) && Lists(xs, s)
    requires Sorted(le, ys) && Lists(ys, s)
    ensures xs == ys
    decreases |xs|
  {
    if xs == [] {
      ListingSize(xs, s);
      ListingSize(ys, s);
    } else {
      assert xs[0] in ys && ys != [] && ys[0] in xs;
      assert xs[0] == ys[0];
      DropFirst(le, xs, s);
      DropFirst(le, ys, s);
      assert forall a :: a in s - {xs[0]} ==> a in s;
      SortedUnique(le, xs[1..], ys[1..], s - {xs[0]});
      assert xs == [xs[0]] + xs[1..] && ys == [ys[0]] + ys[1..];
    }
  }

  lemma DropFirst<K(!new)>(le: (K, K) -> bool, xs: seq<K>, s: set<K>)
    requires xs != [] && Sorted(le, xs) && Lists(xs, s)
    ensures Sorted(le, xs[1..]) && Lists(xs[1..], s - {xs[0]})
  {
    forall x ensures x in xs[1..] <==> x in s - {xs[0]} {
      if x in s - {xs[0]} {
        var i :| 0 <= i < |xs| && xs[i] == x;
        assert xs[1..][i - 1] == x;
      }
      if x in xs[1..] {
        var i :| 0 <= i < |xs[1..]| && xs[1..][i] == x;
        assert xs[i + 1] == x;
      }
    }
  }

  /** The sorted listing of a set. */
  ghost function SortedListing<K(!new)>(le: (K, K) -> bool, s: set<K>): (xs: seq<K>)
    requires TotalOrder(le, s)
    ensures Sorted(le, xs) && Lists(xs, s)
    decreases |s|
  {
    if s == {} then []
    else
      var x :| x in s;
      var rest := SortedListing(le, s - {x});
      InsertSorted(le, rest, x, s);
      Insert(le, rest, x)
  }

  ghost function Filter<K>(xs: seq<K>, p: K -> bool): seq<K> {
    if xs == [] then []
    else if p(xs[0]) then [xs[0]] + Filter(xs[1..], p)
    else Filter(xs[1..], p)
  }

  lemma FilterLists<K(!new)>(xs: seq<K>, p: K -> bool, s: set<K>)
    requires Lists(xs, s)
    ensures Lists(Filter(xs, p), set x | x in s && p(x))
  {
    FilterMembers(xs, p);
  }

  lemma {:induction false} FilterMembers<K(!new)>(xs: seq<K>, p: K -> bool)
    ensures forall x :: x in Filter(xs, p) <==> x in xs && p(x)
    ensures Distinct(xs) ==> Distinct(Filter(xs, p))
  {
    if xs != [] {
      FilterMembers(xs[1..], p);
      assert xs == [xs[0]] + xs[1..];
      var rest := Filter(xs[1..], p);
      if Distinct(xs) {
        forall j | 0 <= j < |rest| ensures rest[j] != xs[0] {
          assert rest[j] in rest;
        }
      }
    }
  }

  lemma {:induction false} FilterSorted<K(!new)>(le: (K, K) -> bool, xs: seq<K>, p: K -> bool)
    requires Sorted(le, xs)
    ensures Sorted(le, Filter(xs, p))
    ensures forall x :: x in Filter(xs, p) <==> x in xs && p(x)
  {
    if xs != [] {
      FilterSorted(le, xs[1..], p);
      assert forall x :: x in xs <==> x == xs[0] || x in xs[1..];
      var rest := Filter(xs[1..], p);
      forall j | 0 <= j < |rest| ensures le(xs[0], rest[j]) {
        assert rest[j] in rest;
        var i :| 0 <= i < |xs[1..]| && xs[1..][i] == rest[j];
        assert le(xs[0], xs[i + 1]);
      }
    }
  }

  lemma {:induction false} FilterSnoc<K>(xs: seq<K>, x: K, p: K -> bool)
    ensures Filter(xs + [x], p) == Filter(xs, p) + (if p(x) then [x] else [])
  {
    if xs == [] {
      assert xs + [x] == [x];
    } else {
      assert (xs + [x])[1..] == xs[1..] + [x];
      FilterSnoc(xs[1..], x, p);
    }
  }

  lemma {:induction false} FilterConcat<K>(xs: seq<K>, ys: seq<K>, p: K -> bool)
    ensures Filter(xs + ys, p) == Filter(xs, p) + Filter(ys, p)
  {
    if xs == [] {
      assert xs + ys == ys;
    } else {
      assert (xs + ys)[1..] == xs[1..] + ys;
      FilterConcat(xs[1..], ys, p);
    }
  }

  lemma {:induction false} FilterAll<K>(xs: seq<K>, p: K -> bool)
    requires forall x :: x in xs ==> p(x)
    ensures Filter(xs, p) == xs
  {
    if xs != [] {
      FilterAll(xs[1..], p);
    }
  }

  lemma {:induction false} FilterTwice<K>(xs: seq<K>, p: K -> bool, q: K -> bool)
    ensures Filter(Filter(xs, p), q) == Filter(xs, x => p(x) && q(x))
  {
    if xs != [] {
      FilterTwice(xs[1..], p, q);
      if p(xs[0]) {
        assert Filter(xs, p)[1..] == Filter(xs[1..], p);
      }
    }
  }

  lemma {:induction false} FilterNarrowed<K>(xs: seq<K>, p: K -> bool, q: K -> bool, r: K -> bool)
    requires forall x :: x in xs ==> (q(x) <==> p(x) && r(x))
    ensures Filter(xs, q) == Filter(Filter(xs, p), r)
  {
    if xs != [] {
      FilterNarrowed(xs[1..], p, q, r);
      if p(xs[0]) {
        assert Filter(xs, p)[1..] == Filter(xs[1..], p);
      }
    }
  }

  ghost predicate SamePlace<A(!new), B(!new)>(xs: seq<A>, ys: seq<B>, x: A, y: B) {
    exists i :: 0 <= i < |xs| && i < |ys| && xs[i] == x && ys[i] == y
  }

  /** Filtering two aligned sequences by agreeing tests keeps them aligned. */
  lemma {:induction false} FilterAligned<A(!new), B(!new)>(xs: seq<A>, ys: seq<B>, p: A -> bool, q: B -> bool)
    requires |xs| == |ys| && forall i :: 0 <= i < |xs| ==> p(xs[i]) == q(ys[i])
    ensures |Filter(xs, p)| == |Filter(ys, q)|
    ensures forall j :: 0 <= j < |Filter(xs, p)| ==> SamePlace(xs, ys, Filter(xs, p)[j], Filter(ys, q)[j])
  {
    if xs != [] {
      FilterAligned(xs[1..], ys[1..], p, q);
      forall x: A, y: B | SamePlace(xs[1..], ys[1..], x, y) ensures SamePlace(xs, ys, x, y) {
        var i :| 0 <= i < |xs[1..]| && i < |ys[1..]| && xs[1..][i] == x && ys[1..][i] == y;
        assert xs[i + 1] == x && ys[i + 1] == y;
      }
      assert SamePlace(xs, ys, xs[0], ys[0]);
    }
  }

  /** A sorted listing minus some elements is the sorted listing of the rest. */
  lemma SortedFilter<K(!new)>(le: (K, K) -> bool, xs: seq<K>, ys: seq<K>, s: set<K>, p: K -> bool)
    requires TotalOrder(le, s) && Antisymmetric(le, s)
    requires Sorted(le, xs) && Lists(xs, s)
    requires Sorted(le, ys) && Lists(ys, set x | x in s && p(x))
    ensures ys == Filter(xs, p)
  {
    FilterLists(xs, p, s);
    FilterSorted(le, xs, p);
    SortedUnique(le, ys, Filter(xs, p), set x | x in s && p(x));
  }
}
