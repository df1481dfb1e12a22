/**
 Stable sorting, which `Array.prototype.sort` guarantees for a consistent comparator.
 Comparators of the program are shown elsewhere to order by a rank; here are the laws of
 sorting by rank.
 */
module StableSort {
  import opened Sequences

  /** Four numbers compared one after the other. */
  datatype Rank = Rank(a: real, b: real, c: real, d: real)

  predicate Leq(x: Rank, y: Rank) {
    x.a < y.a || (x.a == y.a && (x.b < y.b || (x.b == y.b && (x.c < y.c || (x.c == y.c && x.d <= y.d)))))
  }

  function Insert<T>(rank: T -> Rank, x: T, s: seq<T>): seq<T> {
    if s == [] then [x]
    else if Leq(rank(x), rank(s[0])) then [x] + s
    else [s[0]] + Insert(rank, x, s[1..])
  }

  function Sort<T>(rank: T -> Rank, s: seq<T>): seq<T> {
    if s == [] then [] else Insert(rank, s[0], Sort(rank, s[1..]))
  }

  ghost predicate Ordered<T>(rank: T -> Rank, s: seq<T>) {
    forall i, j | 0 <= i < j < |s| :: Leq(rank(s[i]), rank(s[j]))
  }

  lemma {:induction false} InsertMembers<T>(rank: T -> Rank, x: T, s: seq<T>)
    ensures multiset(Insert(rank, x, s)) == multiset([x] + s)
  {
    if s != [] {
      assert s == [s[0]] + s[1..];
      InsertMembers(rank, x, s[1..]);
    }
  }

  /** Sorting rearranges. */
  lemma {:induction false} SortMembers<T>(rank: T -> Rank, s: seq<T>)
    ensures multiset(Sort(rank, s)) == multiset(s)
  {
    if s != [] {
      assert s == [s[0]] + s[1..];
      SortMembers(rank, s[1..]);
      InsertMembers(rank, s[0], Sort(rank, s[1..]));
    }
  }

  lemma SameMembers<T>(a: seq<T>, b: seq<T>)
    requires multiset(a) == multiset(b)
    ensures |a| == |b|
    ensures forall x | x in a :: x in b
    ensures forall x | x in b :: x in a
  {
    assert |multiset(a)| == |a|;
    assert forall x | x in a :: x in multiset(a) && x in multiset(b);
    assert forall x | x in b :: x in multiset(b) && x in multiset(a);
  }

  lemma {:induction false} InsertOrdered<T>(rank: T -> Rank, x: T, s: seq<T>)
    requires Ordered(rank, s)
    ensures Ordered(rank, Insert(rank, x, s))
  {
    if s != [] && !Leq(rank(x), rank(s[0])) {
      var rest := Insert(rank, x, s[1..]);
      InsertOrdered(rank, x, s[1..]);
      InsertMembers(rank, x, s[1..]);
      SameMembers(rest, [x] + s[1..]);
      forall y | y in rest ensures Leq(rank(s[0]), rank(y)) {
        assert y in [x] + s[1..];
        if y != x {
          var k :| 0 < k < |s| && s[k] == y;
        }
      }
    }
  }

  lemma {:induction false} SortOrdered<T>(rank: T -> Rank, s: seq<T>)
    ensures Ordered(rank, Sort(rank, s))
  {
    if s != [] {
      SortOrdered(rank, s[1..]);
      InsertOrdered(rank, s[0], Sort(rank, s[1..]));
    }
  }

  lemma {:induction false} SortOfOrdered<T>(rank: T -> Rank, s: seq<T>)
    requires Ordered(rank, s)
    ensures Sort(rank, s) == s
  {
    if s != [] {
      SortOfOrdered(rank, s[1..]);
      assert s == [s[0]] + s[1..];
    }
  }

  lemma {:induction false} FilterInsert<T>(rank: T -> Rank, keep: T -> bool, x: T, s: seq<T>)
    requires Ordered(rank, s)
    ensures Filter(keep, Insert(rank, x, s)) ==
            if keep(x) then Insert(rank, x, Filter(keep, s)) else Filter(keep, s)
  {
    if s == [] {
    } else if Leq(rank(x), rank(s[0])) {
      var f := Filter(keep, s);
      assert ([x] + s)[1..] == s;
      if f != [] {
        FilterMember(keep, s, f[0]);
      }
    } else {
      var rest := Insert(rank, x, s[1..]);
      assert ([s[0]] + rest)[1..] == rest;
      FilterInsert(rank, keep, x, s[1..]);
      if keep(s[0]) {
        var f := Filter(keep, s[1..]);
        assert ([s[0]] + f)[1..] == f;
      }
    }
  }

  /** A stable sort commutes with leaving elements out. */
  lemma {:induction false} FilterSort<T>(rank: T -> Rank, keep: T -> bool, s: seq<T>)
    ensures Filter(keep, Sort(rank, s)) == Sort(rank, Filter(keep, s))
  {
    if s != [] {
      FilterSort(rank, keep, s[1..]);
      SortOrdered(rank, s[1..]);
      FilterInsert(rank, keep, s[0], Sort(rank, s[1..]));
      if keep(s[0]) {
        var f := Filter(keep, s[1..]);
        assert ([s[0]] + f)[1..] == f;
      }
    }
  }

  ghost predicate AgreeOn<T>(r1: T -> Rank, r2: T -> Rank, s: seq<T>) {
    forall x, y | x in s && y in s :: Leq(r1(x), r1(y)) == Leq(r2(x), r2(y))
  }

  lemma {:induction false} InsertAgree<T>(r1: T -> Rank, r2: T -> Rank, x: T, s: seq<T>)
    requires AgreeOn(r1, r2, [x] + s)
    ensures Insert(r1, x, s) == Insert(r2, x, s)
  {
    if s != [] {
      assert x in [x] + s && s[0] in [x] + s;
      InsertAgree(r1, r2, x, s[1..]);
    }
  }

  /** Only the comparisons matter, not the ranks behind them. */
  lemma {:induction false} SortAgree<T>(r1: T -> Rank, r2: T -> Rank, s: seq<T>)
    requires AgreeOn(r1, r2, s)
    ensures Sort(r1, s) == Sort(r2, s)
  {
    if s != [] {
      assert s == [s[0]] + s[1..];
      SortAgree(r1, r2, s[1..]);
      SortMembers(r1, s[1..]);
      SameMembers(Sort(r1, s[1..]), s[1..]);
      assert forall y | y in [s[0]] + Sort(r1, s[1..]) :: y in s;
      InsertAgree(r1, r2, s[0], Sort(r1, s[1..]));
    }
  }

  /** Ordered sequences with the same elements agree wherever ranks tell elements apart. */
  lemma {:induction false} OrderedUnique<T>(rank: T -> Rank, a: seq<T>, b: seq<T>)
    requires Ordered(rank, a) && Ordered(rank, b) && multiset(a) == multiset(b)
    requires forall x, y | x in a && y in a && rank(x) == rank(y) :: x == y
    ensures a == b
  {
    SameMembers(a, b);
    if a != [] {
      assert a[0] in b && b[0] in a;
      assert rank(a[0]) == rank(b[0]);
      SplitMultiset(a);
      SplitMultiset(b);
      hide Leq;
      OrderedUnique(rank, a[1..], b[1..]);
    }
  }

  // ---- what a comparator-driven stable sort may return ----

  function Ties<T>(cmp: (T, T) -> real, x: T): T -> bool {
    (y: T) => cmp(x, y) == 0.0
  }

  /** `r` is a stable sort of `s`: a permutation with no pair out of order, in which elements
      that compare equal form the same subsequence as before. */
  ghost predicate IsStableSort<T>(cmp: (T, T) -> real, s: seq<T>, r: seq<T>) {
    && multiset(r) == multiset(s)
    && (forall i, j | 0 <= i < j < |r| :: cmp(r[i], r[j]) <= 0.0)
    && (forall x | x in s :: Filter(Ties(cmp, x), r) == Filter(Ties(cmp, x), s))
  }

  /** The comparator orders the elements of `s` as the rank does. */
  ghost predicate Follows<T>(cmp: (T, T) -> real, rank: T -> Rank, s: seq<T>) {
    forall x, y | x in s && y in s ::
      && (cmp(x, y) <= 0.0 <==> Leq(rank(x), rank(y)))
      && (cmp(x, y) == 0.0 <==> rank(x) == rank(y))
  }

  lemma {:induction false} SortTies<T>(cmp: (T, T) -> real, rank: T -> Rank, s: seq<T>, x: T)
    requires Follows(cmp, rank, s) && x in s
    ensures Filter(Ties(cmp, x), Sort(rank, s)) == Filter(Ties(cmp, x), s)
  {
    var tied := Filter(Ties(cmp, x), s);
    FilterSort(rank, Ties(cmp, x), s);
    forall i, j | 0 <= i < j < |tied| ensures Leq(rank(tied[i]), rank(tied[j])) {
      FilterMember(Ties(cmp, x), s, tied[i]);
      FilterMember(Ties(cmp, x), s, tied[j]);
    }
    SortOfOrdered(rank, tied);
  }

  /** Existence: sorting by the rank is a stable sort by the comparator. */
  lemma SortIsStable<T>(cmp: (T, T) -> real, rank: T -> Rank, s: seq<T>)
    requires Follows(cmp, rank, s)
    ensures IsStableSort(cmp, s, Sort(rank, s))
  {
    hide Leq, Sort, Ties, Filter;
    var r := Sort(rank, s);
    SortOrdered(rank, s);
    SortMembers(rank, s);
    SameMembers(r, s);
    forall i, j | 0 <= i < j < |r| ensures cmp(r[i], r[j]) <= 0.0 {
      assert r[i] in s && r[j] in s;
    }
    forall x | x in s ensures Filter(Ties(cmp, x), r) == Filter(Ties(cmp, x), s) {
      SortTies(cmp, rank, s, x);
    }
  }

  lemma SplitMultiset<T>(a: seq<T>)
    requires a != []
    ensures multiset(a[1..]) == multiset(a) - multiset{a[0]} && a == [a[0]] + a[1..]
  {
    assert a == [a[0]] + a[1..];
  }

  /** The first elements of two sequences with the same ties. */
  lemma SameFirst<T>(cmp: (T, T) -> real, rank: T -> Rank, a: seq<T>, b: seq<T>)
    requires Follows(cmp, rank, a) && Ordered(rank, a) && Ordered(rank, b) && multiset(a) == multiset(b)
    requires a != [] && b != [] && Filter(Ties(cmp, a[0]), a) == Filter(Ties(cmp, a[0]), b)
    ensures a[0] == b[0]
  {
    var x, y := a[0], b[0];
    SameMembers(a, b);
    assert x in b && y in a;
    assert rank(x) == rank(y);
    assert Ties(cmp, x)(x) && Ties(cmp, x)(y);
    assert Filter(Ties(cmp, x), a)[0] == x && Filter(Ties(cmp, x), b)[0] == y;
  }

  lemma SameTiesInRest<T>(keep: T -> bool, a: seq<T>, b: seq<T>)
    requires a != [] && b != [] && a[0] == b[0] && Filter(keep, a) == Filter(keep, b)
    ensures Filter(keep, a[1..]) == Filter(keep, b[1..])
  {
    if keep(a[0]) {
      assert Filter(keep, a)[1..] == Filter(keep, a[1..]);
      assert Filter(keep, b)[1..] == Filter(keep, b[1..]);
    }
  }

  lemma {:induction false} SameTiesSame<T>(cmp: (T, T) -> real, rank: T -> Rank, a: seq<T>, b: seq<T>)
    requires Follows(cmp, rank, a) && Ordered(rank, a) && Ordered(rank, b) && multiset(a) == multiset(b)
    requires forall x | x in a :: Filter(Ties(cmp, x), a) == Filter(Ties(cmp, x), b)
    ensures a == b
  {
    SameMembers(a, b);
    if a != [] {
      hide Filter, Ties, Leq;
      assert a[0] in b;
      SameFirst(cmp, rank, a, b);
      SplitMultiset(a);
      SplitMultiset(b);
      forall z | z in a[1..] ensures Filter(Ties(cmp, z), a[1..]) == Filter(Ties(cmp, z), b[1..]) {
        assert z in a;
        SameTiesInRest(Ties(cmp, z), a, b);
      }
      SameTiesSame(cmp, rank, a[1..], b[1..]);
    }
  }

  /** Uniqueness: no other result is a stable sort, so the program's `sort` is this one. */
  lemma StableSortIsSort<T>(cmp: (T, T) -> real, rank: T -> Rank, s: seq<T>, r: seq<T>)
    requires Follows(cmp, rank, s) && IsStableSort(cmp, s, r)
    ensures r == Sort(rank, s)
  {
    SortIsStable(cmp, rank, s);
    SortOrdered(rank, s);
    SameMembers(r, s);
    SameTiesSame(cmp, rank, r, Sort(rank, s));
  }
}
