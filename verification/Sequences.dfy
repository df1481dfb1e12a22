/**
 Sequence notions shared by the components: suffixes, flattening, filtering and
 distinctness, each defined once.
 */
module Sequences {

  /** `s` is the tail end of `t`. */
  predicate EndsWith<T(==)>(t: seq<T>, s: seq<T>) {
    |s| <= |t| && t[|t| - |s|..] == s
  }

  lemma EndsWithAppend<T>(t: seq<T>, s: seq<T>, more: seq<T>)
    requires EndsWith(t, s)
    ensures EndsWith(t + more, s + more)
  {
    assert (t + more)[|t| - |s|..] == t[|t| - |s|..] + more;
  }

  lemma EndsWithTransitive<T>(a: seq<T>, b: seq<T>, c: seq<T>)
    requires EndsWith(a, b) && EndsWith(b, c)
    ensures EndsWith(a, c)
  {
    assert a[|a| - |c|..] == a[|a| - |b|..][|b| - |c|..];
  }

  /** The images of the elements, one after the other. */
  function FlatMap<A, B>(f: A -> seq<B>, s: seq<A>): seq<B> {
    if s == [] then [] else f(s[0]) + FlatMap(f, s[1..])
  }

  lemma {:induction false} FlatMapAppend<A, B>(f: A -> seq<B>, a: seq<A>, b: seq<A>)
    ensures FlatMap(f, a + b) == FlatMap(f, a) + FlatMap(f, b)
  {
    if a == [] {
      assert a + b == b;
    } else {
      FlatMapAppend(f, a[1..], b);
      assert (a + b)[0] == a[0] && (a + b)[1..] == a[1..] + b;
      var head, rest, more := f(a[0]), FlatMap(f, a[1..]), FlatMap(f, b);
      assert (head + rest) + more == head + (rest + more);
    }
  }

  lemma FlatMapSnoc<A, B>(f: A -> seq<B>, a: seq<A>, last: A)
    ensures FlatMap(f, a + [last]) == FlatMap(f, a) + f(last)
  {
    FlatMapAppend(f, a, [last]);
    FlatMapOne(f, last);
  }

  lemma FlatMapOne<A, B>(f: A -> seq<B>, x: A)
    ensures FlatMap(f, [x]) == f(x)
  {
    assert [x][1..] == [] && f(x) + FlatMap(f, []) == f(x);
  }

  function Same<T>(x: T): T { x }

  /** Concatenation of all parts, JavaScript's `parts.join('')`. */
  function Flatten<T>(parts: seq<seq<T>>): seq<T> {
    FlatMap<seq<T>, T>(Same, parts)
  }

  /** The elements satisfying `keep`, in order. */
  function Filter<T>(keep: T -> bool, s: seq<T>): (r: seq<T>)
    ensures |r| <= |s|
  {
    if s == [] then []
    else if keep(s[0]) then [s[0]] + Filter(keep, s[1..])
    else Filter(keep, s[1..])
  }

  /** What filtering keeps of one element. */
  function KeptOf<T>(keep: T -> bool, x: T): seq<T> {
    if keep(x) then [x] else []
  }

  lemma FilterFirst<T>(keep: T -> bool, s: seq<T>)
    requires s != []
    ensures Filter(keep, s) == KeptOf(keep, s[0]) + Filter(keep, s[1..])
  {
  }

  lemma {:induction false} FilterAppend<T>(keep: T -> bool, a: seq<T>, b: seq<T>)
    ensures Filter(keep, a + b) == Filter(keep, a) + Filter(keep, b)
  {
    if a == [] {
      assert a + b == b;
    } else {
      var c := a + b;
      assert c[0] == a[0] && c[1..] == a[1..] + b;
      FilterAppend(keep, a[1..], b);
      FilterFirst(keep, a);
      FilterFirst(keep, c);
      Associative(KeptOf(keep, a[0]), Filter(keep, a[1..]), Filter(keep, b));
      hide *;
    }
  }

  lemma Associative<T>(x: seq<T>, y: seq<T>, z: seq<T>)
    ensures x + (y + z) == (x + y) + z
  {
  }

  lemma {:induction false} FilterMember<T>(keep: T -> bool, s: seq<T>, x: T)
    ensures x in Filter(keep, s) <==> x in s && keep(x)
  {
    if s != [] {
      FilterMember(keep, s[1..], x);
      assert s == [s[0]] + s[1..];
    }
  }

  lemma SliceOfTail<T>(s: seq<T>, a: nat, b: nat)
    requires 1 <= |s| && a <= b < |s|
    ensures s[1..][a..b] == s[a + 1..b + 1]
  {
  }

  predicate Distinct<T(==)>(s: seq<T>) {
    forall i, j | 0 <= i < j < |s| :: s[i] != s[j]
  }
}
