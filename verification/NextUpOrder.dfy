/**
 `syncNextUpOrder`: merging the order a user chose with the keys that exist now.
 */
module NextUpOrder {
  import opened Sequences
  import opened StableSort

  // ---- strings ----

  /** White space and line terminators as JavaScript's `trim` knows them. */
  predicate IsSpace(c: char) {
    c in {'\t', '\n', '\U{000B}', '\U{000C}', '\r', ' ', '\U{00A0}', '\U{1680}', '\U{2028}', '\U{2029}', '\U{202F}',
          '\U{205F}', '\U{3000}', '\U{FEFF}'}
    || '\U{2000}' <= c <= '\U{200A}'
  }

  function TrimStart(s: string): string {
    if s != "" && IsSpace(s[0]) then TrimStart(s[1..]) else s
  }

  function TrimEnd(s: string): string {
    if s != "" && IsSpace(s[|s| - 1]) then TrimEnd(s[..|s| - 1]) else s
  }

  function Trim(s: string): string {
    TrimEnd(TrimStart(s))
  }

  /** A key that `uniqueStrings` leaves as it is. */
  predicate Trimmed(s: string) {
    s != "" && !IsSpace(s[0]) && !IsSpace(s[|s| - 1])
  }

  const SLACK_PREFIX := "slack:"

  predicate IsSlackKey(key: string) {
    SLACK_PREFIX <= key
  }

  predicate NotSlackKey(key: string) {
    !IsSlackKey(key)
  }

  function In(keys: seq<string>): string -> bool {
    (key: string) => key in keys
  }

  function IsNot(key: string): string -> bool {
    (other: string) => other != key
  }

  /** The values of a list once each, where they first occur: what `[...new Set(list)]` keeps. */
  function FirstOccurrences(s: seq<string>): seq<string> {
    if s == [] then [] else [s[0]] + Filter(IsNot(s[0]), FirstOccurrences(s[1..]))
  }

  function TrimOut(s: string): seq<string> {
    if Trim(s) == "" then [] else [Trim(s)]
  }

  function TrimAll(s: seq<string>): seq<string> {
    FlatMap(TrimOut, s)
  }

  function UniqueStrings(values: seq<string>): seq<string> {
    FirstOccurrences(TrimAll(values))
  }

  // ---- the merge ----

  const MAX_SAFE_INTEGER: int := 0x1F_FFFF_FFFF_FFFF

  /** Last index of `key`, as a `Map` built from pairs has it; the fallback when it is missing. */
  function IndexIn(keys: seq<string>, key: string): int {
    if keys == [] then MAX_SAFE_INTEGER
    else if keys[|keys| - 1] == key then |keys| - 1
    else IndexIn(keys[..|keys| - 1], key)
  }

  function KeyRank(keys: seq<string>): string -> Rank {
    (key: string) => Rank(IndexIn(keys, key) as real, 0.0, 0.0, 0.0)
  }

  /** `findIndex` for the first key that comes later by default; the end when there is none. */
  function InsertionPoint(order: seq<string>, available: seq<string>, index: int): (i: nat)
    ensures i <= |order|
  {
    if order == [] then 0
    else if IndexIn(available, order[0]) > index then 0
    else 1 + InsertionPoint(order[1..], available, index)
  }

  function InsertKey(order: seq<string>, available: seq<string>, key: string): seq<string> {
    if key in order then order
    else
      var i := InsertionPoint(order, available, IndexIn(available, key));
      order[..i] + [key] + order[i..]
  }

  function InsertAll(order: seq<string>, available: seq<string>, keys: seq<string>): seq<string>
    decreases |keys|
  {
    if keys == [] then order else InsertAll(InsertKey(order, available, keys[0]), available, keys[1..])
  }

  /** Put `fill`, in order, into the Slack places of `order`. */
  function FillSlack(order: seq<string>, fill: seq<string>): seq<string>
    decreases |order|
  {
    if order == [] then []
    else if !IsSlackKey(order[0]) then [order[0]] + FillSlack(order[1..], fill)
    else if fill == [] then [order[0]] + FillSlack(order[1..], [])
    else [fill[0]] + FillSlack(order[1..], fill[1..])
  }

  function NormalizeSlack(order: seq<string>, available: seq<string>): seq<string> {
    var sorted := Sort(KeyRank(available), Filter(IsSlackKey, order));
    if |sorted| < 2 then order else FillSlack(order, sorted)
  }

  function Kept(order: seq<string>, available: seq<string>): seq<string> {
    Filter(In(available), UniqueStrings(order))
  }

  function SyncOrder(order: seq<string>, available: seq<string>): seq<string> {
    NormalizeSlack(InsertAll(Kept(order, available), available, available), available)
  }

  // ---- the program's loops ----

  /** One step of filling: a Slack key takes the next of the sorted keys, if one is left. */
  lemma FillStep(order: seq<string>, fill: seq<string>, i: nat, k: nat)
    requires i < |order| && k <= |fill|
    ensures var takes := IsSlackKey(order[i]) && k < |fill|;
            FillSlack(order[i..], fill[k..])
            == [if takes then fill[k] else order[i]] + FillSlack(order[i + 1..], fill[if takes then k + 1 else k..])
  {
    var rest, left := order[i..], fill[k..];
    assert rest[0] == order[i] && rest[1..] == order[i + 1..];
    assert k < |fill| ==> left[0] == fill[k] && left[1..] == fill[k + 1..];
    hide IsSlackKey;
  }

  method NormalizeSlackNextUpOrder(order: seq<string>, available: seq<string>) returns (r: seq<string>)
    ensures r == NormalizeSlack(order, available)
  {
    hide Sort, Filter, IsSlackKey, FillSlack;
    var sortedSlackKeys := Sort(KeyRank(available), Filter(IsSlackKey, order));
    if |sortedSlackKeys| < 2 { return order; }
    var slackIndex := 0;
    r := [];
    ghost var goal := FillSlack(order, sortedSlackKeys);
    assert order[0..] == order && sortedSlackKeys[0..] == sortedSlackKeys && [] + goal == goal;
    for i := 0 to |order|
      invariant 0 <= slackIndex <= |sortedSlackKeys|
      invariant goal == r + FillSlack(order[i..], sortedSlackKeys[slackIndex..])
    {
      var key := order[i];
      var next := key;
      FillStep(order, sortedSlackKeys, i, slackIndex);
      if IsSlackKey(key) && slackIndex < |sortedSlackKeys| {
        next := sortedSlackKeys[slackIndex];
        slackIndex := slackIndex + 1;
      }
      Associative(r, [next], FillSlack(order[i + 1..], sortedSlackKeys[slackIndex..]));
      r := r + [next];
    }
    assert order[|order|..] == [];
    FillNothing(sortedSlackKeys[slackIndex..]);
    assert r + [] == r;
  }

  lemma FillNothing(fill: seq<string>)
    ensures FillSlack([], fill) == []
  {
  }

  /** The scan, the `splice` and the set of present keys, against the specification. */
  method SyncNextUpOrder(order: seq<string>, available: seq<string>) returns (r: seq<string>)
    ensures r == SyncOrder(order, available)
  {
    var nextOrder := Kept(order, available);
    var present := set k | k in nextOrder;
    ghost var goal := InsertAll(nextOrder, available, available);
    for i := 0 to |available|
      invariant present == set k | k in nextOrder
      invariant goal == InsertAll(nextOrder, available, available[i..])
    {
      var key := available[i];
      assert available[i..][0] == key && available[i..][1..] == available[i + 1..];
      if key !in present {
        var insertAt := FindLater(nextOrder, available, IndexIn(available, key));
        ghost var before := nextOrder;
        nextOrder := nextOrder[..insertAt] + [key] + nextOrder[insertAt..];
        present := present + {key};
        SplicedMembers(before, insertAt, key);
      }
    }
    assert available[|available|..] == [];
    r := NormalizeSlackNextUpOrder(nextOrder, available);
  }

  method FindLater(order: seq<string>, available: seq<string>, index: int) returns (i: nat)
    ensures i == InsertionPoint(order, available, index)
  {
    i := 0;
    while i < |order| && IndexIn(available, order[i]) <= index
      invariant i <= |order|
      invariant InsertionPoint(order, available, index) == i + InsertionPoint(order[i..], available, index)
    {
      assert order[i..][1..] == order[i + 1..];
      i := i + 1;
    }
  }

  lemma SplicedMembers(order: seq<string>, i: nat, key: string)
    requires i <= |order|
    ensures (set k | k in order[..i] + [key] + order[i..]) == (set k | k in order) + {key}
  {
    assert order == order[..i] + order[i..];
  }

  // ---- what the merge promises ----

  lemma {:induction false} FirstOccurrencesDistinct(s: seq<string>)
    ensures Distinct(FirstOccurrences(s))
    ensures forall x :: x in FirstOccurrences(s) <==> x in s
  {
    if s != [] {
      var rest := FirstOccurrences(s[1..]);
      FirstOccurrencesDistinct(s[1..]);
      FilterDistinct(IsNot(s[0]), rest);
      forall x ensures x in FirstOccurrences(s) <==> x in s {
        FilterMember(IsNot(s[0]), rest, x);
        assert s == [s[0]] + s[1..];
      }
      FilterMember(IsNot(s[0]), rest, s[0]);
    }
  }

  lemma {:induction false} FilterDistinct<T>(keep: T -> bool, s: seq<T>)
    requires Distinct(s)
    ensures Distinct(Filter(keep, s))
  {
    if s != [] {
      FilterDistinct(keep, s[1..]);
      FilterMember(keep, s[1..], s[0]);
    }
  }

  lemma {:induction false} FilterAll<T>(keep: T -> bool, s: seq<T>)
    requires forall x | x in s :: keep(x)
    ensures Filter(keep, s) == s
  {
    if s != [] {
      assert s[0] in s;
      FilterAll(keep, s[1..]);
      assert s == [s[0]] + s[1..];
    }
  }

  lemma {:induction false} FilterNone<T>(keep: T -> bool, s: seq<T>)
    requires forall x | x in s :: !keep(x)
    ensures Filter(keep, s) == []
  {
    if s != [] {
      assert s[0] in s;
      FilterNone(keep, s[1..]);
    }
  }

  /** Two lists without repetition and with the same elements are permutations of each other. */
  lemma {:induction false} DistinctMultiset<T>(s: seq<T>)
    requires Distinct(s)
    ensures forall x | x in s :: multiset(s)[x] == 1
  {
    if s != [] {
      DistinctMultiset(s[1..]);
      assert s == [s[0]] + s[1..];
      forall x | x in s ensures multiset(s)[x] == 1 {
        if x == s[0] {
          assert x !in s[1..];
          assert x !in multiset(s[1..]);
        }
      }
    }
  }

  lemma DistinctPermutation(a: seq<string>, b: seq<string>)
    requires Distinct(a) && Distinct(b) && forall x :: x in a <==> x in b
    ensures multiset(a) == multiset(b)
  {
    DistinctMultiset(a);
    DistinctMultiset(b);
    forall x ensures multiset(a)[x] == multiset(b)[x] {
      if x in a {
        assert x in b;
      } else {
        assert x !in multiset(a) && x !in multiset(b);
      }
    }
  }

  lemma InsertKeyMembers(order: seq<string>, available: seq<string>, key: string)
    requires Distinct(order)
    ensures Distinct(InsertKey(order, available, key))
    ensures forall x :: x in InsertKey(order, available, key) <==> x in order || x == key
  {
    if key !in order {
      var i := InsertionPoint(order, available, IndexIn(available, key));
      assert order == order[..i] + order[i..];
    }
  }

  lemma {:induction false} InsertAllMembers(order: seq<string>, available: seq<string>, keys: seq<string>)
    requires Distinct(order)
    ensures Distinct(InsertAll(order, available, keys))
    ensures forall x :: x in InsertAll(order, available, keys) <==> x in order || x in keys
    decreases |keys|
  {
    if keys != [] {
      InsertKeyMembers(order, available, keys[0]);
      InsertAllMembers(InsertKey(order, available, keys[0]), available, keys[1..]);
      assert keys == [keys[0]] + keys[1..];
    }
  }

  /** Inserting keys that a filter rejects leaves what it keeps in place. */
  lemma InsertKeyFilter(keep: string -> bool, order: seq<string>, available: seq<string>, key: string)
    requires key in order || !keep(key)
    ensures Filter(keep, InsertKey(order, available, key)) == Filter(keep, order)
  {
    if key !in order {
      var i := InsertionPoint(order, available, IndexIn(available, key));
      assert order == order[..i] + order[i..];
      FilterAppend(keep, order[..i] + [key], order[i..]);
      FilterAppend(keep, order[..i], [key]);
      FilterAppend(keep, order[..i], order[i..]);
      FilterNone(keep, [key]);
      assert Filter(keep, order[..i]) + [] == Filter(keep, order[..i]);
    }
  }

  lemma {:induction false} InsertAllFilter(keep: string -> bool, order: seq<string>, available: seq<string>, keys: seq<string>)
    requires forall k | k in keys :: k in order || !keep(k)
    ensures Filter(keep, InsertAll(order, available, keys)) == Filter(keep, order)
    decreases |keys|
  {
    if keys != [] {
      var next := InsertKey(order, available, keys[0]);
      assert keys[0] in keys;
      InsertKeyFilter(keep, order, available, keys[0]);
      forall k | k in keys[1..] ensures k in next || !keep(k) {
        assert k in keys;
        if k in order && keys[0] !in order {
          var i := InsertionPoint(order, available, IndexIn(available, keys[0]));
          assert order == order[..i] + order[i..];
        }
      }
      InsertAllFilter(keep, next, available, keys[1..]);
    }
  }

  // ---- Slack places ----

  lemma {:induction false} FillSlackFilter(order: seq<string>, fill: seq<string>)
    requires |fill| == |Filter(IsSlackKey, order)| && forall k | k in fill :: IsSlackKey(k)
    ensures Filter(NotSlackKey, FillSlack(order, fill)) == Filter(NotSlackKey, order)
    ensures Filter(IsSlackKey, FillSlack(order, fill)) == fill
    decreases |order|
  {
    if order != [] {
      if IsSlackKey(order[0]) {
        assert fill == [fill[0]] + fill[1..] && fill[0] in fill;
        FillSlackFilter(order[1..], fill[1..]);
      } else {
        FillSlackFilter(order[1..], fill);
      }
    }
  }

  lemma {:induction false} FillSlackSame(order: seq<string>)
    ensures FillSlack(order, Filter(IsSlackKey, order)) == order
    decreases |order|
  {
    if order != [] {
      FillSlackSame(order[1..]);
      assert order == [order[0]] + order[1..];
      if IsSlackKey(order[0]) {
        assert Filter(IsSlackKey, order)[1..] == Filter(IsSlackKey, order[1..]);
      }
    }
  }

  lemma {:induction false} SplitBySlack(s: seq<string>)
    ensures multiset(s) == multiset(Filter(IsSlackKey, s)) + multiset(Filter(NotSlackKey, s))
  {
    if s != [] {
      SplitBySlack(s[1..]);
      assert s == [s[0]] + s[1..];
    }
  }

  lemma {:induction false} IndexOfMember(keys: seq<string>, i: nat)
    requires Distinct(keys) && i < |keys|
    ensures IndexIn(keys, keys[i]) == i
    decreases |keys|
  {
    if i < |keys| - 1 {
      assert keys[..|keys| - 1][i] == keys[i];
      IndexOfMember(keys[..|keys| - 1], i);
    }
  }

  /** What a filter keeps of the default order is ordered by default index. */
  lemma {:induction false} FilterOrdered(keep: string -> bool, available: seq<string>, n: nat)
    requires Distinct(available) && n <= |available|
    ensures Ordered(KeyRank(available), Filter(keep, available[n..]))
    ensures forall k | k in Filter(keep, available[n..]) :: n <= IndexIn(available, k) < |available|
    decreases |available| - n
  {
    if n < |available| {
      IndexOfMember(available, n);
      assert available[n..][1..] == available[n + 1..];
      FilterOrdered(keep, available, n + 1);
      var rest := Filter(keep, available[n + 1..]);
      if keep(available[n]) {
        assert Filter(keep, available[n..]) == [available[n]] + rest;
      }
    }
  }

  lemma RanksTellApart(available: seq<string>, a: string, b: string)
    requires Distinct(available) && a in available && b in available
    requires KeyRank(available)(a) == KeyRank(available)(b)
    ensures a == b
  {
    var i :| 0 <= i < |available| && available[i] == a;
    var j :| 0 <= j < |available| && available[j] == b;
    IndexOfMember(available, i);
    IndexOfMember(available, j);
  }

  /** Sorting any rearrangement of the available Slack keys gives them in default order. */
  lemma SortedSlackIsDefault(order: seq<string>, available: seq<string>)
    requires Distinct(available) && multiset(order) == multiset(available)
    ensures Sort(KeyRank(available), Filter(IsSlackKey, order)) == Filter(IsSlackKey, available)
  {
    var rank := KeyRank(available);
    var mine, theirs := Filter(IsSlackKey, order), Filter(IsSlackKey, available);
    FilterOrdered(IsSlackKey, available, 0);
    assert available[0..] == available;
    SortOrdered(rank, mine);
    SortMembers(rank, mine);
    SameFiltered(IsSlackKey, order, available);
    SameMembers(Sort(rank, mine), theirs);
    hide Sort, Filter, Ordered, IsSlackKey, KeyRank;
    forall x, y | x in Sort(rank, mine) && y in Sort(rank, mine) && rank(x) == rank(y) ensures x == y {
      FilterMember(IsSlackKey, available, x);
      FilterMember(IsSlackKey, available, y);
      RanksTellApart(available, x, y);
    }
    OrderedUnique(rank, Sort(rank, mine), theirs);
  }

  lemma {:induction false} FilterMultiset<T>(keep: T -> bool, s: seq<T>)
    ensures forall x :: multiset(Filter(keep, s))[x] == if keep(x) then multiset(s)[x] else 0
  {
    if s != [] {
      FilterMultiset(keep, s[1..]);
      assert s == [s[0]] + s[1..];
    }
  }

  lemma SameFiltered(keep: string -> bool, a: seq<string>, b: seq<string>)
    requires multiset(a) == multiset(b)
    ensures multiset(Filter(keep, a)) == multiset(Filter(keep, b))
  {
    FilterMultiset(keep, a);
    FilterMultiset(keep, b);
    hide Filter;
    assert forall x :: multiset(Filter(keep, a))[x] == multiset(Filter(keep, b))[x];
    assert multiset(Filter(keep, a)) == multiset(Filter(keep, b));
  }

  lemma NormalizeIsFill(order: seq<string>, available: seq<string>)
    ensures NormalizeSlack(order, available) == FillSlack(order, Sort(KeyRank(available), Filter(IsSlackKey, order)))
  {
    var slack := Filter(IsSlackKey, order);
    SortMembers(KeyRank(available), slack);
    SameMembers(Sort(KeyRank(available), slack), slack);
    if |slack| < 2 {
      FillSlackSame(order);
      if |slack| == 1 {
        assert slack == [slack[0]] && slack[1..] == [];
      }
    }
  }

  /** The merged order, before Slack is normalised, is a rearrangement of the available keys. */
  lemma MergedPermutation(order: seq<string>, available: seq<string>)
    requires Distinct(available)
    ensures multiset(InsertAll(Kept(order, available), available, available)) == multiset(available)
    ensures Distinct(InsertAll(Kept(order, available), available, available))
  {
    var unique := UniqueStrings(order);
    FirstOccurrencesDistinct(TrimAll(order));
    FilterDistinct(In(available), unique);
    var kept := Kept(order, available);
    InsertAllMembers(kept, available, available);
    forall x ensures x in kept ==> x in available {
      FilterMember(In(available), unique, x);
    }
    DistinctPermutation(InsertAll(kept, available, available), available);
  }

  lemma SyncIsFill(order: seq<string>, available: seq<string>)
    requires Distinct(available)
    ensures var merged, fill := InsertAll(Kept(order, available), available, available), Filter(IsSlackKey, available);
            && SyncOrder(order, available) == FillSlack(merged, fill)
            && multiset(Filter(IsSlackKey, merged)) == multiset(fill)
            && Filter(IsSlackKey, SyncOrder(order, available)) == fill
            && Filter(NotSlackKey, SyncOrder(order, available)) == Filter(NotSlackKey, merged)
  {
    var merged, fill := InsertAll(Kept(order, available), available, available), Filter(IsSlackKey, available);
    MergedPermutation(order, available);
    NormalizeIsFill(merged, available);
    SortedSlackIsDefault(merged, available);
    assert SyncOrder(order, available) == NormalizeSlack(merged, available);
    hide Kept, InsertAll, Sort, Filter, IsSlackKey, FillSlack, NormalizeSlack, SyncOrder;
    SameFiltered(IsSlackKey, merged, available);
    SameMembers(Filter(IsSlackKey, merged), fill);
    forall k | k in fill ensures IsSlackKey(k) { FilterMember(IsSlackKey, available, k); }
    FillSlackFilter(merged, fill);
  }

  /** The full specification of the merge, for distinct available keys: a permutation of
      them; the keys the user ordered keep the user's relative order, Slack apart; the Slack
      keys stand in default order. */
  lemma SyncOrderSpec(order: seq<string>, available: seq<string>)
    requires Distinct(available)
    ensures multiset(SyncOrder(order, available)) == multiset(available)
    ensures Filter(IsSlackKey, SyncOrder(order, available)) == Filter(IsSlackKey, available)
    ensures Filter(In(Kept(order, available)), Filter(NotSlackKey, SyncOrder(order, available)))
         == Filter(NotSlackKey, Kept(order, available))
  {
    hide Kept, InsertAll, NormalizeSlack, FillSlack, Filter;
    var kept := Kept(order, available);
    var merged := InsertAll(kept, available, available);
    MergedPermutation(order, available);
    SyncIsFill(order, available);
    SplitBySlack(SyncOrder(order, available));
    SplitBySlack(merged);
    FilterTwice(In(kept), NotSlackKey, merged);
    InsertAllFilter(In(kept), kept, available, available);
    FilterAll(In(kept), kept);
  }

  lemma {:induction false} FilterTwice<T>(p: T -> bool, q: T -> bool, s: seq<T>)
    ensures Filter(p, Filter(q, s)) == Filter(q, Filter(p, s))
  {
    if s != [] {
      FilterTwice(p, q, s[1..]);
      if p(s[0]) {
        assert ([s[0]] + Filter(p, s[1..]))[1..] == Filter(p, s[1..]);
      }
      if q(s[0]) {
        assert ([s[0]] + Filter(q, s[1..]))[1..] == Filter(q, s[1..]);
      }
    }
  }

  lemma {:induction false} TrimTrimmed(s: seq<string>)
    requires forall k | k in s :: Trimmed(k)
    ensures TrimAll(s) == s
  {
    if s != [] {
      assert s[0] in s;
      TrimTrimmed(s[1..]);
      assert s == [s[0]] + s[1..];
    }
  }

  lemma {:induction false} TrimStartShape(s: string)
    ensures TrimStart(s) == "" || !IsSpace(TrimStart(s)[0])
  {
    if s != "" && IsSpace(s[0]) {
      TrimStartShape(s[1..]);
    }
  }

  lemma {:induction false} TrimEndShape(s: string)
    ensures TrimEnd(s) <= s
    ensures TrimEnd(s) == "" || !IsSpace(TrimEnd(s)[|TrimEnd(s)| - 1])
  {
    if s != "" && IsSpace(s[|s| - 1]) {
      TrimEndShape(s[..|s| - 1]);
    }
  }

  lemma TrimShape(s: string)
    ensures Trim(s) == "" || Trimmed(Trim(s))
  {
    TrimStartShape(s);
    TrimEndShape(TrimStart(s));
  }

  lemma {:induction false} TrimAllTrimmed(s: seq<string>)
    ensures forall k | k in TrimAll(s) :: Trimmed(k)
  {
    if s != [] {
      TrimShape(s[0]);
      TrimAllTrimmed(s[1..]);
    }
  }

  lemma {:induction false} FirstOccurrencesOfDistinct(s: seq<string>)
    requires Distinct(s)
    ensures FirstOccurrences(s) == s
  {
    if s != [] {
      FirstOccurrencesOfDistinct(s[1..]);
      FilterAll(IsNot(s[0]), s[1..]);
      assert s == [s[0]] + s[1..];
    }
  }

  lemma {:induction false} InsertAllPresent(order: seq<string>, available: seq<string>, keys: seq<string>)
    requires forall k | k in keys :: k in order
    ensures InsertAll(order, available, keys) == order
    decreases |keys|
  {
    if keys != [] {
      assert keys[0] in keys;
      InsertAllPresent(order, available, keys[1..]);
    }
  }

  /** An order that already holds every available key, with Slack in default order, is only
      cut down to the available keys: nothing is inserted and nothing moves. */
  lemma SyncComplete(order: seq<string>, available: seq<string>)
    requires Distinct(order) && forall k | k in order :: Trimmed(k)
    requires Distinct(available) && forall k | k in available :: k in order
    requires Filter(IsSlackKey, Filter(In(available), order)) == Filter(IsSlackKey, available)
    ensures SyncOrder(order, available) == Filter(In(available), order)
  {
    TrimTrimmed(order);
    FirstOccurrencesOfDistinct(order);
    var kept := Filter(In(available), order);
    forall k ensures k in kept <==> k in available {
      FilterMember(In(available), order, k);
    }
    InsertAllPresent(kept, available, available);
    FilterDistinct(In(available), order);
    DistinctPermutation(kept, available);
    NormalizeIsFill(kept, available);
    SortedSlackIsDefault(kept, available);
    FillSlackSame(kept);
  }

  /** Synchronising twice is synchronising once. */
  lemma SyncOrderIdempotent(order: seq<string>, available: seq<string>)
    requires Distinct(available) && forall k | k in available :: Trimmed(k)
    ensures SyncOrder(SyncOrder(order, available), available) == SyncOrder(order, available)
  {
    var once := SyncOrder(order, available);
    SyncOrderSpec(order, available);
    SameMembers(once, available);
    PermutationDistinct(once, available);
    FilterAll(In(available), once);
    SyncComplete(once, available);
  }

  lemma PermutationDistinct(a: seq<string>, b: seq<string>)
    requires Distinct(b) && multiset(a) == multiset(b)
    ensures Distinct(a)
  {
    DistinctMultiset(b);
    forall i, j | 0 <= i < j < |a| ensures a[i] != a[j] {
      assert a == a[..i] + [a[i]] + a[i + 1..j] + [a[j]] + a[j + 1..];
      assert a[i] in multiset(a);
    }
  }

  lemma {:induction false} InsertInDefaultOrder(available: seq<string>, n: nat)
    requires Distinct(available) && n <= |available|
    ensures InsertAll(available[..n], available, available[n..]) == available
    decreases |available| - n
  {
    if n < |available| {
      var order, key := available[..n], available[n];
      IndexOfMember(available, n);
      LateInsertion(order, available, n);
      assert order[..n] + [key] + order[n..] == available[..n + 1];
      assert available[n..][0] == key && available[n..][1..] == available[n + 1..];
      InsertInDefaultOrder(available, n + 1);
    }
  }

  lemma {:induction false} LateInsertion(order: seq<string>, available: seq<string>, index: nat)
    requires Distinct(available) && index <= |available|
    requires forall k | k in order :: IndexIn(available, k) <= index || k in available[..index]
    ensures InsertionPoint(order, available, index) == |order|
  {
    if order != [] {
      assert order[0] in order;
      if order[0] in available[..index] {
        var i :| 0 <= i < index && available[i] == order[0];
        IndexOfMember(available, i);
      }
      LateInsertion(order[1..], available, index);
    }
  }

  /** Without a user order, the default order stands. */
  lemma SyncEmptyOrder(available: seq<string>)
    requires Distinct(available)
    ensures SyncOrder([], available) == available
  {
    InsertInDefaultOrder(available, 0);
    assert available[..0] == [] && available[0..] == available;
    NormalizeIsFill(available, available);
    SortedSlackIsDefault(available, available);
    FillSlackSame(available);
  }
}
