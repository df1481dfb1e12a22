/**
 What stands where in the next-up list, told by the records it is built from: session
 statuses, task priorities, Slack ranks and event times, and no priority number of the program.
 */
module NextUpPlaces {
  import opened Sequences
  import opened StableSort
  import opened NextUpOrder
  import opened NextUp

  /** One record of the input. */
  datatype Record =
    | OfSession(session: SessionInput)
    | OfTask(task: TaskInput)
    | OfEvent(event: EventInput)
    | OfSlack(notification: SlackInput)

  /** The record is in the input, and for an event, on today's calendar and not over. */
  predicate Shown(o: Record, input: Input, clock: Clock) {
    match o
    case OfSession(s) => s in input.sessions
    case OfTask(t) => t in input.tasks
    case OfEvent(e) => e in input.events && e.endMs >= clock.now && e.startMs < clock.nextDayStart && e.endMs > clock.dayStart
    case OfSlack(n) => n in input.slack
  }

  function RecordKey(o: Record): string {
    match o
    case OfSession(s) => "session:" + s.id
    case OfTask(t) => "manual:" + t.id
    case OfEvent(e) => "calendar:" + e.id
    case OfSlack(n) => "slack:" + n.id
  }

  /** The ten places, from the top. */
  function Place(o: Record, now: int): nat {
    match o
    case OfEvent(e) => if !e.allDay && e.startMs - 300000 <= now <= e.endMs then 0 else 7
    case OfSlack(_) => 3
    case OfTask(_) => 4
    case OfSession(s) =>
      match s.status
      case NeedsAttention => 1
      case Error => 2
      case Waiting | Starting => 5
      case Stopped | Detached => 6
      case Running => 8
      case Paused => 9
  }

  /** The order among the tasks and among the notifications: the user's priority number, and the
      rank from 0 to 4, with 0 and 4 for what is not a number. */
  function Inner(o: Record): real {
    match o
    case OfTask(t) => if t.priority.Finite? then t.priority.value else 0.0
    case OfSlack(n) =>
      if n.priorityRank.NotFinite? || n.priorityRank.value >= 4.0 then 4.0
      else if n.priorityRank.value < 0.0 then 0.0
      else n.priorityRank.value.Floor as real
    case _ => 0.0
  }

  function When(o: Record): int {
    match o
    case OfSession(s) => s.lastActivity
    case OfTask(t) => t.createdAt
    case OfEvent(e) => e.startMs
    case OfSlack(n) => n.receivedAt
  }

  // ---- records and items ----

  function ItemOf(o: Record, now: int): Item {
    match o
    case OfSession(s) => FromSession(s)
    case OfTask(t) => FromTask(t)
    case OfEvent(e) => FromEvent(e, now)
    case OfSlack(n) => FromSlack(n)
  }

  lemma MapBack<A, B>(f: A -> B, s: seq<A>, y: B)
    ensures y in Map(f, s) <==> exists x :: x in s && f(x) == y
  {
    if y in Map(f, s) {
      var k :| 0 <= k < |s| && Map(f, s)[k] == y;
      assert s[k] in s;
    }
    if x :| x in s && f(x) == y {
      MapMember(f, s, x);
    }
  }

  lemma ShownIsItem(o: Record, input: Input, clock: Clock)
    requires Shown(o, input, clock)
    ensures ItemOf(o, clock.now) in Items(input, clock) && ItemOf(o, clock.now).key == RecordKey(o)
  {
    hide Map, Filter, UrgentEvent, SessionPriority, SlackPriority;
    match o
    case OfSession(s) => MapMember(FromSession, input.sessions, s);
    case OfTask(t) => MapMember(FromTask, input.tasks, t);
    case OfEvent(e) =>
      FilterMember(VisibleAt(clock), input.events, e);
      MapMember(EventAt(clock), Filter(VisibleAt(clock), input.events), e);
    case OfSlack(n) => MapMember(FromSlack, input.slack, n);
  }

  lemma ItemIsShown(i: Item, input: Input, clock: Clock) returns (o: Record)
    requires i in Items(input, clock)
    ensures Shown(o, input, clock) && ItemOf(o, clock.now) == i
  {
    hide Map, Filter, UrgentEvent, SessionPriority, SlackPriority;
    MapBack(FromSession, input.sessions, i);
    MapBack(FromTask, input.tasks, i);
    MapBack(EventAt(clock), Filter(VisibleAt(clock), input.events), i);
    MapBack(FromSlack, input.slack, i);
    if s :| s in input.sessions && FromSession(s) == i {
      o := OfSession(s);
    } else if t :| t in input.tasks && FromTask(t) == i {
      o := OfTask(t);
    } else if n :| n in input.slack && FromSlack(n) == i {
      o := OfSlack(n);
    } else {
      var e :| e in Filter(VisibleAt(clock), input.events) && EventAt(clock)(e) == i;
      FilterMember(VisibleAt(clock), input.events, e);
      o := OfEvent(e);
    }
  }

  // ---- the list ----

  /** The list the program shows for an input. */
  function Listed(input: Input, clock: Clock, order: seq<string>, done: seq<string>): seq<Item> {
    Build(Items(input, clock), clock.now, order, done)
  }

  /** How two items stand to each other in the list: in the second sort's order, which is by the
      merged order within a band; and the first sort's order is that of its keys. */
  lemma ListedPair(items: seq<Item>, now: int, order: seq<string>, done: seq<string>, p: nat, q: nat)
    returns (byDefault: seq<Item>, merged: seq<string>)
    requires WellKeyed(items) && p < q < |Build(items, now, order, done)|
    ensures var r := Build(items, now, order, done);
            && r[p] in items && r[q] in items && r[p] in byDefault && r[q] in byDefault
            && Leq(OrderedRank(merged, now)(r[p]), OrderedRank(merged, now)(r[q]))
    ensures WellKeyed(byDefault) && Ordered(DefaultRank, byDefault) && merged == SyncOrder(order, Keys(byDefault))
  {
    var visible := Filter(NotDone(done), items);
    byDefault := Sort(DefaultRank, visible);
    merged := SyncOrder(order, Keys(byDefault));
    var r := Build(items, now, order, done);
    SortMembers(DefaultRank, visible);
    SortOrdered(DefaultRank, visible);
    SortMembers(OrderedRank(merged, now), byDefault);
    SortOrdered(OrderedRank(merged, now), byDefault);
    SameMembers(r, byDefault);
    SameMembers(visible, byDefault);
    VisibleWellKeyed(items, done);
    PermutedWellKeyed(visible, byDefault);
    FilterMember(NotDone(done), items, r[p]);
    FilterMember(NotDone(done), items, r[q]);
    hide WellKeyed, SyncOrder, Sort, Filter, DefaultRank, OrderedRank, Leq;
  }

  lemma {:induction false} FilterDistinctKeys(keep: Item -> bool, items: seq<Item>)
    requires Distinct(Keys(items))
    ensures Distinct(Keys(Filter(keep, items)))
  {
    if items != [] {
      var rest := items[1..];
      assert Keys(items) == [items[0].key] + Keys(rest);
      FilterDistinctKeys(keep, rest);
      var kept := Filter(keep, rest);
      KeysMembers(kept, items[0].key);
      KeysMembers(rest, items[0].key);
      assert items[0].key !in Keys(kept) by {
        forall i | i in kept ensures i in rest { FilterMember(keep, rest, i); }
      }
      assert Keys([items[0]] + kept) == [items[0].key] + Keys(kept);
    }
  }

  lemma VisibleWellKeyed(items: seq<Item>, done: seq<string>)
    requires WellKeyed(items)
    ensures WellKeyed(Filter(NotDone(done), items))
  {
    FilterDistinctKeys(NotDone(done), items);
    forall i | i in Filter(NotDone(done), items) ensures i in items { FilterMember(NotDone(done), items, i); }
    hide Filter, Trimmed, Keyed, Banded, NotDone;
  }

  /** Items in the order of their ranks are records in the order of their places. */
  lemma RankedPair(a: Record, b: Record, merged: seq<string>, now: int)
    ensures Leq(OrderedRank(merged, now)(ItemOf(a, now)), OrderedRank(merged, now)(ItemOf(b, now))) ==>
              && Place(a, now) <= Place(b, now)
              && (Place(a, now) == Place(b, now) ==> Inner(a) <= Inner(b))
              && (Place(a, now) == Place(b, now) && Inner(a) == Inner(b) ==>
                    if a.OfEvent? then When(a) <= When(b)
                    else IndexIn(merged, RecordKey(a)) <= IndexIn(merged, RecordKey(b)))
  {
    hide IndexIn;
  }

  lemma DefaultPairOrder(a: Record, b: Record, now: int)
    ensures Place(a, now) == Place(b, now) && Inner(a) == Inner(b)
            && Leq(DefaultRank(ItemOf(a, now)), DefaultRank(ItemOf(b, now))) ==>
              if a.OfEvent? || a.OfSlack? then When(a) <= When(b) else When(a) >= When(b)
  {
  }

  /** The first of two keys in default order is the key of the item that ranks first. */
  lemma EarlierKey(byDefault: seq<Item>, a: Item, b: Item)
    requires WellKeyed(byDefault) && Ordered(DefaultRank, byDefault) && a in byDefault && b in byDefault
    requires IndexIn(Keys(byDefault), a.key) <= IndexIn(Keys(byDefault), b.key)
    ensures Leq(DefaultRank(a), DefaultRank(b))
  {
    hide DefaultRank, WellKeyed, IndexIn;
    assert Distinct(Keys(byDefault)) by { KeysApart(byDefault); }
    var i :| 0 <= i < |byDefault| && byDefault[i] == a;
    var j :| 0 <= j < |byDefault| && byDefault[j] == b;
    IndexOfMember(Keys(byDefault), i);
    IndexOfMember(Keys(byDefault), j);
    hide Leq;
    if i == j { LeqSelf(DefaultRank(a)); }
  }

  lemma KeysApart(items: seq<Item>)
    requires WellKeyed(items)
    ensures Distinct(Keys(items))
  {
  }

  lemma LeqSelf(r: Rank)
    ensures Leq(r, r)
  {
  }

  /** The merged order has the Slack keys in default order. */
  lemma SlackEarlierKey(byDefault: seq<Item>, order: seq<string>, a: Item, b: Item)
    requires WellKeyed(byDefault) && Ordered(DefaultRank, byDefault) && a in byDefault && b in byDefault
    requires a.source == Slack && b.source == Slack
    requires IndexIn(SyncOrder(order, Keys(byDefault)), a.key) <= IndexIn(SyncOrder(order, Keys(byDefault)), b.key)
    ensures Leq(DefaultRank(a), DefaultRank(b))
  {
    var keys := Keys(byDefault);
    var merged := SyncOrder(order, keys);
    KeysApart(byDefault);
    assert IsSlackKey(a.key) && IsSlackKey(b.key) by { assert Keyed(a) && Keyed(b); }
    SyncOrderSpec(order, keys);
    PermutationDistinct(merged, keys);
    SameMembers(merged, keys);
    MapMember(KeyOf, byDefault, a);
    MapMember(KeyOf, byDefault, b);
    forall k | k == a.key || k == b.key ensures k in Filter(IsSlackKey, keys) && k in Filter(IsSlackKey, merged) {
      FilterMember(IsSlackKey, keys, k);
    }
    hide SyncOrder, WellKeyed, IndexIn, Filter, DefaultRank, IsSlackKey, Distinct, Map;
    FilteredIndexes(merged, IsSlackKey, a.key, b.key);
    FilteredIndexes(keys, IsSlackKey, a.key, b.key);
    EarlierKey(byDefault, a, b);
  }

  /** Two records of the input at two places of a list, one above the other. */
  ghost predicate Above(input: Input, clock: Clock, r: seq<Item>, p: nat, q: nat, a: Record, b: Record) {
    && p < q < |r| && Shown(a, input, clock) && Shown(b, input, clock)
    && r[p].key == RecordKey(a) && r[q].key == RecordKey(b)
  }

  /** The first record may stand above the second: by place, then by number, then by time; sessions
      and tasks go newest first as long as the user has no order. */
  predicate MayPrecede(a: Record, b: Record, now: int, unordered: bool) {
    && Place(a, now) <= Place(b, now)
    && (Place(a, now) == Place(b, now) ==> Inner(a) <= Inner(b))
    && (Place(a, now) == Place(b, now) && Inner(a) == Inner(b) ==>
          && (a.OfEvent? || a.OfSlack? ==> When(a) <= When(b))
          && (unordered && (a.OfSession? || a.OfTask?) ==> When(a) >= When(b)))
  }

  /** The list, place by place. Whatever order the user keeps and whatever is hidden: urgent events
      stand first, then sessions that need attention, sessions in error, Slack, manual tasks,
      waiting or starting sessions, stopped or detached ones, the other events, running sessions
      and paused ones. Tasks go by the user's priority number, Slack by rank and then oldest first,
      events by start. Where the user has no order yet, sessions and tasks go newest first. */
  lemma ListedInPlaces(input: Input, clock: Clock, order: seq<string>, done: seq<string>)
    requires GoodInput(input)
    ensures forall p, q, a, b | Above(input, clock, Listed(input, clock, order, done), p, q, a, b) ::
              MayPrecede(a, b, clock.now, order == [])
  {
    var items, now := Items(input, clock), clock.now;
    var r := Listed(input, clock, order, done);
    ConvertersWellKeyed(input, clock);
    hide Place, Inner, When, Leq, WellKeyed, IndexIn, OrderedRank, Listed, Items, ItemOf, GoodInput, MayPrecede;
    forall p, q, a, b | Above(input, clock, r, p, q, a, b) ensures MayPrecede(a, b, now, order == []) {
      assert r == Build(items, now, order, done) by { ListedIsBuild(input, clock, order, done); }
      var byDefault, merged := ListedPair(items, now, order, done, p, q);
      KeyedRecord(a, input, clock);
      KeyedRecord(b, input, clock);
      PairMayPrecede(a, b, now, byDefault, order);
    }
  }

  lemma ListedIsBuild(input: Input, clock: Clock, order: seq<string>, done: seq<string>)
    ensures Listed(input, clock, order, done) == Build(Items(input, clock), clock.now, order, done)
  {
  }

  lemma PairMayPrecede(a: Record, b: Record, now: int, byDefault: seq<Item>, order: seq<string>)
    requires WellKeyed(byDefault) && Ordered(DefaultRank, byDefault)
    ensures var rank := OrderedRank(SyncOrder(order, Keys(byDefault)), now);
            ItemOf(a, now) in byDefault && ItemOf(b, now) in byDefault && Leq(rank(ItemOf(a, now)), rank(ItemOf(b, now)))
            ==> MayPrecede(a, b, now, order == [])
  {
    var x, y, merged := ItemOf(a, now), ItemOf(b, now), SyncOrder(order, Keys(byDefault));
    RankedPair(a, b, merged, now);
    HidingKeyIsDoneKey(a, now);
    HidingKeyIsDoneKey(b, now);
    if order == [] { KeysApart(byDefault); SyncEmptyOrder(Keys(byDefault)); }
    SourceOf(a, now);
    SourceOf(b, now);
    SamePlace(a, b, now);
    hide Place, Inner, When, Leq, WellKeyed, IndexIn, DefaultRank, OrderedRank, SyncOrder, ItemOf;
    var rank := OrderedRank(merged, now);
    if Place(a, now) == Place(b, now) && Inner(a) == Inner(b) && x in byDefault && y in byDefault && Leq(rank(x), rank(y)) {
      if a.OfSlack? {
        SlackEarlierKey(byDefault, order, x, y);
        DefaultPairOrder(a, b, now);
      } else if order == [] && !a.OfEvent? {
        EarlierKey(byDefault, x, y);
        DefaultPairOrder(a, b, now);
      }
    }
  }

  lemma SourceOf(o: Record, now: int)
    ensures ItemOf(o, now).source == (match o case OfSession(_) => Session case OfTask(_) => ManualTask
                                              case OfEvent(_) => GoogleCalendar case OfSlack(_) => Slack)
  {
  }

  lemma SamePlace(a: Record, b: Record, now: int)
    ensures Place(a, now) == Place(b, now) ==>
            (a.OfSlack? <==> b.OfSlack?) && (a.OfEvent? <==> b.OfEvent?) && (a.OfTask? <==> b.OfTask?)
  {
  }

  /** The item of a key is the record's own: ids are unique. */
  lemma KeyedRecord(o: Record, input: Input, clock: Clock)
    requires GoodInput(input) && Shown(o, input, clock)
    ensures forall i | i in Items(input, clock) && i.key == RecordKey(o) :: i == ItemOf(o, clock.now)
  {
    ShownIsItem(o, input, clock);
    ConvertersWellKeyed(input, clock);
    KeysApart(Items(input, clock));
    hide Items, ItemOf, RecordKey, Shown, WellKeyed, GoodInput;
    forall i | i in Items(input, clock) && i.key == RecordKey(o) ensures i == ItemOf(o, clock.now) {
      UniqueByKey(Items(input, clock), i, ItemOf(o, clock.now));
    }
  }

  // ---- which records are listed ----

  /** The key that hides a record: a session comes back with another status or new activity, an
      event with another start. */
  function HidingKey(o: Record): string {
    match o
    case OfSession(s) => "session:" + s.id + ":" + StatusName(s.status) + ":" + Whole(s.lastActivity)
    case OfEvent(e) => "calendar:" + e.id + ":" + Whole(e.startMs)
    case _ => RecordKey(o)
  }

  lemma ListedMembers(items: seq<Item>, now: int, order: seq<string>, done: seq<string>, i: Item)
    ensures i in Build(items, now, order, done) <==> i in items && DoneKey(i) !in done
  {
    var visible := Filter(NotDone(done), items);
    var byDefault := Sort(DefaultRank, visible);
    var rank := OrderedRank(SyncOrder(order, Keys(byDefault)), now);
    SortMembers(DefaultRank, visible);
    SortMembers(rank, byDefault);
    SameMembers(visible, byDefault);
    SameMembers(Sort(rank, byDefault), byDefault);
    FilterMember(NotDone(done), items, i);
    hide Sort, Filter, SyncOrder, DefaultRank, OrderedRank, DoneKey;
  }

  lemma HidingKeyIsDoneKey(o: Record, now: int)
    ensures DoneKey(ItemOf(o, now)) == HidingKey(o) && ItemOf(o, now).key == RecordKey(o)
  {
    hide Whole, StatusName, SessionPriority, SlackPriority, UrgentEvent;
  }

  /** A record of the input is in the list exactly if its hiding key is not done, and then once;
      and nothing else is in the list. */
  lemma ListedExactly(input: Input, clock: Clock, order: seq<string>, done: seq<string>, o: Record)
    requires GoodInput(input) && Shown(o, input, clock)
    ensures var r := Listed(input, clock, order, done);
            && ((exists p | 0 <= p < |r| :: r[p].key == RecordKey(o)) <==> HidingKey(o) !in done)
            && (forall p, q | 0 <= p < q < |r| :: r[p].key != r[q].key)
            && (forall i | i in r :: exists x :: Shown(x, input, clock) && RecordKey(x) == i.key && HidingKey(x) !in done)
  {
    hide *;
    var items, now := Items(input, clock), clock.now;
    var r := Listed(input, clock, order, done);
    ListedIsBuild(input, clock, order, done);
    ShownIsItem(o, input, clock);
    HidingKeyIsDoneKey(o, now);
    ListedMembers(items, now, order, done, ItemOf(o, now));
    ListedApart(input, clock, order, done);
    KeyedRecord(o, input, clock);
    if HidingKey(o) !in done {
      var p :| 0 <= p < |r| && r[p] == ItemOf(o, now);
      assert r[p].key == RecordKey(o);
    }
    forall p | 0 <= p < |r| && r[p].key == RecordKey(o) ensures HidingKey(o) !in done {
      ListedMembers(items, now, order, done, r[p]);
    }
    forall i | i in r ensures exists x :: Shown(x, input, clock) && RecordKey(x) == i.key && HidingKey(x) !in done {
      ListedMembers(items, now, order, done, i);
      var x := ItemIsShown(i, input, clock);
      HidingKeyIsDoneKey(x, now);
    }
  }

  lemma ListedApart(input: Input, clock: Clock, order: seq<string>, done: seq<string>)
    requires GoodInput(input)
    ensures var r := Listed(input, clock, order, done); forall p, q | 0 <= p < q < |r| :: r[p].key != r[q].key
  {
    ConvertersWellKeyed(input, clock);
    var items := Items(input, clock);
    VisibleWellKeyed(items, done);
    BuildOrdered(items, clock.now, order, done);
    var r := Listed(input, clock, order, done);
    hide Items, Build, GoodInput, Filter, OrderedRank, WellKeyed;
    PermutedWellKeyed(Filter(NotDone(done), items), r);
    KeysApart(r);
    forall p, q | 0 <= p < q < |r| ensures r[p].key != r[q].key {
      assert Keys(r)[p] != Keys(r)[q];
    }
  }

  /** One key stands before another. */
  ghost predicate Before(order: seq<string>, x: string, y: string) {
    exists i, j | 0 <= i < j < |order| :: order[i] == x && order[j] == y
  }

  /** In one place, and with the same priority number, sessions and tasks stand as the stored
      order has their keys. */
  lemma ListedFollowsOrder(input: Input, clock: Clock, order: seq<string>, done: seq<string>)
    requires GoodInput(input)
    ensures var st := CreateState(Items(input, clock), clock.now, order, done);
            forall p, q, a, b | Above(input, clock, st.items, p, q, a, b)
                && Place(a, clock.now) == Place(b, clock.now) && Inner(a) == Inner(b) && (a.OfSession? || a.OfTask?) ::
              Before(st.order, RecordKey(a), RecordKey(b))
  {
    var items, now := Items(input, clock), clock.now;
    var st := CreateState(items, now, order, done);
    ConvertersWellKeyed(input, clock);
    hide *;
    StatePairs(items, now, order, done);
    InStoredOrder(items, now, order, done);
    forall p, q, a, b | Above(input, clock, st.items, p, q, a, b)
        && Place(a, now) == Place(b, now) && Inner(a) == Inner(b) && (a.OfSession? || a.OfTask?)
      ensures Before(st.order, RecordKey(a), RecordKey(b))
    {
      AboveItems(input, clock, st.items, p, q, a, b);
      SameBand(a, b, now);
    }
  }

  /** Items of the input, seen as their records. */
  lemma AboveItems(input: Input, clock: Clock, r: seq<Item>, p: nat, q: nat, a: Record, b: Record)
    requires GoodInput(input)
    ensures Above(input, clock, r, p, q, a, b) && (forall i | i in r :: i in Items(input, clock)) ==>
              && p < q < |r| && r[p].key == RecordKey(a) && r[q].key == RecordKey(b)
              && r[p] == ItemOf(a, clock.now) && r[q] == ItemOf(b, clock.now)
              && (a.OfSession? || a.OfTask? ==> r[p].source != GoogleCalendar)
  {
    if Above(input, clock, r, p, q, a, b) {
      KeyedRecord(a, input, clock);
      KeyedRecord(b, input, clock);
    }
    SourceOf(a, clock.now);
    hide Items, GoodInput, ItemOf, Shown, RecordKey;
  }

  lemma StatePairs(items: seq<Item>, now: int, order: seq<string>, done: seq<string>)
    requires WellKeyed(items)
    ensures var st := CreateState(items, now, order, done);
            && (forall i | i in st.items :: i in items)
            && (forall p, q | 0 <= p < q < |st.items| :: st.items[p].key != st.items[q].key)
  {
    var st := CreateState(items, now, order, done);
    assert st.items == Build(items, now, st.order, st.done);
    hide CreateState;
    VisibleWellKeyed(items, st.done);
    BuildOrdered(items, now, st.order, st.done);
    PermutedWellKeyed(Filter(NotDone(st.done), items), st.items);
    KeysApart(st.items);
    hide Build, Filter, WellKeyed, DoneKey, OrderedRank;
    forall i | i in st.items ensures i in items { ListedMembers(items, now, st.order, st.done, i); }
    forall p, q | 0 <= p < q < |st.items| ensures st.items[p].key != st.items[q].key {
      assert Keys(st.items)[p] != Keys(st.items)[q];
    }
  }

  lemma InStoredOrder(items: seq<Item>, now: int, order: seq<string>, done: seq<string>)
    requires WellKeyed(items)
    ensures var st := CreateState(items, now, order, done);
            forall p, q | 0 <= p < q < |st.items| && Band(now)(st.items[p]) == Band(now)(st.items[q])
                && st.items[p].source != GoogleCalendar :: Before(st.order, st.items[p].key, st.items[q].key)
  {
    hide CreateState, WellKeyed, CompleteOrder, Band, IndexIn, Build, Sort, SyncOrder, DefaultRank, OrderedRank, Keyed, Trimmed;
    var st := CreateState(items, now, order, done);
    StatePairs(items, now, order, done);
    StoredOrderRulesInBand(items, now, order, done);
    StateOrderComplete(items, now, order, done);
    forall p, q | 0 <= p < q < |st.items| && Band(now)(st.items[p]) == Band(now)(st.items[q])
        && st.items[p].source != GoogleCalendar
      ensures Before(st.order, st.items[p].key, st.items[q].key)
    {
      var i := PlaceInOrder(items, st.order, st.items[p]);
      var j := PlaceInOrder(items, st.order, st.items[q]);
      assert i < j;
    }
  }

  lemma SameBand(a: Record, b: Record, now: int)
    requires Place(a, now) == Place(b, now) && Inner(a) == Inner(b) && (a.OfSession? || a.OfTask?)
    ensures Band(now)(ItemOf(a, now)) == Band(now)(ItemOf(b, now))
  {
  }

  lemma PlaceInOrder(items: seq<Item>, order: seq<string>, x: Item) returns (i: nat)
    requires WellKeyed(items) && CompleteOrder(order, items) && x in items
    ensures i < |order| && order[i] == x.key && IndexIn(order, x.key) == i
  {
    KeysApart(items);
    PermutationDistinct(order, Keys(items));
    SameMembers(order, Keys(items));
    MapMember(KeyOf, items, x);
    i :| 0 <= i < |order| && order[i] == x.key;
    IndexOfMember(order, i);
  }
}
