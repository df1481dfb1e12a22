/**
 The "next up" list: items built from sessions, manual tasks, calendar events and Slack
 notifications, sorted twice, with the user's order and hidden items applied.
 */
module NextUp {
  import opened Sequences
  import opened Decimals
  import opened StableSort
  import opened NextUpOrder

  datatype Source = ManualTask | Slack | GoogleCalendar | Session

  datatype Status = Waiting | Starting | Running | NeedsAttention | Paused | Error | Stopped | Detached

  /** `status` is read for sessions only; `display` stands for name, description, colour and url. */
  datatype Item = Item(source: Source, key: string, startDate: int, priority: real, status: Status, display: string)

  /** A JavaScript number: finite, or one of the values `Number.isFinite` rejects. */
  datatype Number = NotFinite | Finite(value: real)

  datatype SessionInput = SessionInput(id: string, status: Status, lastActivity: int, display: string)
  datatype TaskInput = TaskInput(id: string, createdAt: int, priority: Number, display: string)
  datatype SlackInput = SlackInput(id: string, receivedAt: int, priorityRank: Number, display: string)
  datatype EventInput = EventInput(id: string, startMs: int, endMs: int, allDay: bool, display: string)

  datatype Input = Input(sessions: seq<SessionInput>, tasks: seq<TaskInput>, events: seq<EventInput>, slack: seq<SlackInput>)

  /** The moment of the call, and the local day around it. */
  datatype Clock = Clock(now: int, dayStart: int, nextDayStart: int)

  const CALENDAR_TOP_WINDOW_MS: int := 5 * 60 * 1000

  // ---- converters ----

  function SessionPriority(status: Status): real {
    match status
    case NeedsAttention => 0.0
    case Error => 1.0
    case Waiting => 3.0
    case Starting => 3.0
    case Stopped => 4.0
    case Detached => 4.0
    case Paused => 6.0
    case Running => 5.0
  }

  function FromSession(s: SessionInput): Item {
    Item(Session, "session:" + s.id, s.lastActivity, SessionPriority(s.status), s.status, s.display)
  }

  function FromTask(t: TaskInput): Item {
    Item(ManualTask, "manual:" + t.id, t.createdAt, if t.priority.Finite? then t.priority.value else 0.0, Waiting, t.display)
  }

  function SlackPriority(rank: Number): real {
    var r := if rank.Finite? then rank.value.Floor else 4;
    2.0 + (if r < 0 then 0 else if r > 4 then 4 else r) as real / 10.0
  }

  function FromSlack(n: SlackInput): Item {
    Item(Slack, SLACK_PREFIX + n.id, n.receivedAt, SlackPriority(n.priorityRank), Waiting, n.display)
  }

  predicate UrgentEvent(e: EventInput, now: int) {
    !e.allDay && e.endMs >= now >= e.startMs - CALENDAR_TOP_WINDOW_MS
  }

  predicate VisibleToday(e: EventInput, clock: Clock) {
    e.endMs >= clock.now && e.startMs < clock.nextDayStart && e.endMs > clock.dayStart
  }

  function FromEvent(e: EventInput, now: int): Item {
    Item(GoogleCalendar, "calendar:" + e.id, e.startMs, if UrgentEvent(e, now) then -1.0 else 4.5, Waiting, e.display)
  }

  function VisibleAt(clock: Clock): EventInput -> bool {
    (e: EventInput) => VisibleToday(e, clock)
  }

  function EventAt(clock: Clock): EventInput -> Item {
    (e: EventInput) => FromEvent(e, clock.now)
  }

  function EventItems(events: seq<EventInput>, clock: Clock): seq<Item> {
    Map(EventAt(clock), Filter(VisibleAt(clock), events))
  }

  function Map<A, B>(f: A -> B, s: seq<A>): (r: seq<B>)
    ensures |r| == |s| && forall i | 0 <= i < |s| :: r[i] == f(s[i])
  {
    if s == [] then [] else [f(s[0])] + Map(f, s[1..])
  }

  function Items(input: Input, clock: Clock): seq<Item> {
    Map(FromSession, input.sessions) + Map(FromTask, input.tasks)
    + EventItems(input.events, clock) + Map(FromSlack, input.slack)
  }

  // ---- comparators ----

  function SortPriority(i: Item): real {
    if i.source == ManualTask then 2.5 else i.priority
  }

  function TaskPriority(i: Item): real {
    if i.source == ManualTask then i.priority else 0.0
  }

  predicate UrgentItem(i: Item, now: int) {
    i.source == GoogleCalendar && i.priority < 0.0 && i.startDate <= now + CALENDAR_TOP_WINDOW_MS
  }

  function DisplayGroup(i: Item, now: int): int {
    if UrgentItem(i, now) then 0
    else if i.source == GoogleCalendar then 2
    else if i.source == Session && (i.status == Running || i.status == Paused) then 3
    else 1
  }

  function CompareDefault(a: Item, b: Item): real {
    if SortPriority(a) != SortPriority(b) then SortPriority(a) - SortPriority(b)
    else if TaskPriority(a) != TaskPriority(b) then TaskPriority(a) - TaskPriority(b)
    else if a.source == GoogleCalendar && b.source == GoogleCalendar then (a.startDate - b.startDate) as real
    else if a.source == Slack && b.source == Slack then (a.startDate - b.startDate) as real
    else (b.startDate - a.startDate) as real
  }

  function CompareOrdered(order: seq<string>, now: int): (Item, Item) -> real {
    (a: Item, b: Item) =>
      if DisplayGroup(a, now) != DisplayGroup(b, now) then (DisplayGroup(a, now) - DisplayGroup(b, now)) as real
      else if SortPriority(a) != SortPriority(b) then SortPriority(a) - SortPriority(b)
      else if TaskPriority(a) != TaskPriority(b) then TaskPriority(a) - TaskPriority(b)
      else if a.source == GoogleCalendar && b.source == GoogleCalendar then (a.startDate - b.startDate) as real
      else (IndexIn(order, a.key) - IndexIn(order, b.key)) as real
  }

  function DefaultRank(i: Item): Rank {
    Rank(SortPriority(i), TaskPriority(i),
         if i.source == GoogleCalendar || i.source == Slack then i.startDate as real else (-i.startDate) as real, 0.0)
  }

  function OrderedRank(order: seq<string>, now: int): Item -> Rank {
    (i: Item) => Rank(DisplayGroup(i, now) as real, SortPriority(i), TaskPriority(i),
                      if i.source == GoogleCalendar then i.startDate as real else IndexIn(order, i.key) as real)
  }

  /** The priority bands of the four converters; they never meet. */
  predicate Banded(i: Item) {
    match i.source
    case Session => i.priority == SessionPriority(i.status)
    case Slack => 2.0 <= i.priority <= 2.4
    case GoogleCalendar => i.priority == -1.0 || i.priority == 4.5
    case ManualTask => true
  }

  ghost predicate AllBanded(items: seq<Item>) {
    forall i | i in items :: Banded(i)
  }

  lemma ConvertersBanded(input: Input, clock: Clock)
    ensures AllBanded(Items(input, clock))
  {
  }

  lemma DefaultPair(a: Item, b: Item)
    requires Banded(a) && Banded(b)
    ensures CompareDefault(a, b) <= 0.0 <==> Leq(DefaultRank(a), DefaultRank(b))
    ensures CompareDefault(a, b) == 0.0 <==> DefaultRank(a) == DefaultRank(b)
  {
    if SortPriority(a) == SortPriority(b) {
      assert a.source == b.source;
    }
  }

  lemma OrderedPair(a: Item, b: Item, order: seq<string>, now: int)
    ensures CompareOrdered(order, now)(a, b) <= 0.0 <==> Leq(OrderedRank(order, now)(a), OrderedRank(order, now)(b))
    ensures CompareOrdered(order, now)(a, b) == 0.0 <==> OrderedRank(order, now)(a) == OrderedRank(order, now)(b)
  {
    hide IndexIn, TaskPriority, SortPriority;
    if DisplayGroup(a, now) == DisplayGroup(b, now) {
      assert a.source == GoogleCalendar <==> b.source == GoogleCalendar;
    }
  }

  /** On converted items both comparators are total preorders: they order by a rank, so there
      is exactly one stable sort by them. */
  lemma ComparatorsFollowRanks(items: seq<Item>, order: seq<string>, now: int)
    requires AllBanded(items)
    ensures Follows(CompareDefault, DefaultRank, items)
    ensures Follows(CompareOrdered(order, now), OrderedRank(order, now), items)
  {
    hide CompareDefault, CompareOrdered, DefaultRank, OrderedRank, Leq;
    forall x, y | x in items && y in items
      ensures CompareDefault(x, y) <= 0.0 <==> Leq(DefaultRank(x), DefaultRank(y))
      ensures CompareDefault(x, y) == 0.0 <==> DefaultRank(x) == DefaultRank(y)
    {
      DefaultPair(x, y);
    }
    forall x, y | x in items && y in items
      ensures CompareOrdered(order, now)(x, y) <= 0.0 <==> Leq(OrderedRank(order, now)(x), OrderedRank(order, now)(y))
      ensures CompareOrdered(order, now)(x, y) == 0.0 <==> OrderedRank(order, now)(x) == OrderedRank(order, now)(y)
    {
      OrderedPair(x, y, order, now);
    }
  }

  /** The bands are needed: on items of one priority from different sources the default
      comparator runs in a circle. */
  lemma MixedBandCycle(p: real) returns (a: Item, b: Item, c: Item)
    ensures !(Banded(a) && Banded(b) && Banded(c))
    ensures CompareDefault(a, b) < 0.0 && CompareDefault(b, c) < 0.0 && CompareDefault(c, a) < 0.0
  {
    a := Item(Slack, "slack:a", 10, p, Waiting, "");
    b := Item(Slack, "slack:b", 20, p, Waiting, "");
    c := Item(Session, "session:c", 15, p, Waiting, "");
  }

  // ---- done keys ----

  /** A whole number as a template string prints it. */
  function Whole(n: int): string {
    if n < 0 then "-" + Decimal(-n) else Decimal(n)
  }

  function StatusName(s: Status): string {
    match s
    case Waiting => "waiting"
    case Starting => "starting"
    case Running => "running"
    case NeedsAttention => "needs_attention"
    case Paused => "paused"
    case Error => "error"
    case Stopped => "stopped"
    case Detached => "detached"
  }

  function DoneKey(i: Item): string {
    match i.source
    case Session => i.key + ":" + StatusName(i.status) + ":" + Whole(i.startDate)
    case GoogleCalendar => i.key + ":" + Whole(i.startDate)
    case _ => i.key
  }

  lemma WholeShape(n: int)
    ensures Whole(n) != "" && ':' !in Whole(n) && !IsSpace(Whole(n)[|Whole(n)| - 1])
  {
    DecimalReads(if n < 0 then -n else n);
    hide Decimal;
  }

  lemma WholeInjective(m: int, n: int)
    requires Whole(m) == Whole(n)
    ensures m == n
  {
    DecimalReads(if m < 0 then -m else m);
    DecimalReads(if n < 0 then -n else n);
    hide Decimal, Value;
    assert m >= 0 ==> IsDigit(Whole(m)[0]);
    assert n >= 0 ==> IsDigit(Whole(n)[0]);
    if m < 0 {
      assert Whole(m)[1..] == Decimal(-m) && Whole(n)[1..] == Decimal(-n);
      DecimalInjective(-m, -n);
    } else {
      DecimalInjective(m, n);
    }
  }

  /** A string is split in one way at its last colon. */
  lemma LastColon(x: string, a: string, y: string, b: string)
    requires x + ":" + a == y + ":" + b && ':' !in a && ':' !in b
    ensures x == y && a == b
  {
    var s := x + ":" + a;
    assert s[|x|] == ':' && s[|y|] == ':';
    assert forall i | 0 <= i < |a| :: s[|x| + 1 + i] == a[i];
    assert forall i | 0 <= i < |b| :: s[|y| + 1 + i] == b[i];
    assert |x| == |y|;
    assert s[..|x|] == x && s[..|x|] == y;
    assert s[|x| + 1..] == a && s[|x| + 1..] == b;
  }

  /** Every item carries the key prefix of its source. */
  predicate Keyed(i: Item) {
    match i.source
    case Session => "session:" <= i.key
    case Slack => IsSlackKey(i.key)
    case GoogleCalendar => "calendar:" <= i.key
    case ManualTask => "manual:" <= i.key
  }

  lemma SourceFromDoneKey(a: Item, b: Item)
    requires Keyed(a) && Keyed(b) && DoneKey(a) == DoneKey(b)
    ensures a.source == b.source
  {
    var k := DoneKey(a);
    assert k[0] == a.key[0] && k[0] == b.key[0];
    assert k[1] == a.key[1] && k[1] == b.key[1];
    assert "session:"[0] == 's' && "session:"[1] == 'e' && SLACK_PREFIX[0] == 's' && SLACK_PREFIX[1] == 'l';
    assert "calendar:"[0] == 'c' && "manual:"[0] == 'm';
  }

  /** The done key is an injective encoding: of the key, and for sessions and events also of
      the state it was hidden in, so a changed session comes back. */
  lemma DoneKeyInjective(a: Item, b: Item)
    requires Keyed(a) && Keyed(b) && DoneKey(a) == DoneKey(b)
    ensures a.source == b.source && a.key == b.key
    ensures a.source == Session ==> a.status == b.status
    ensures a.source == Session || a.source == GoogleCalendar ==> a.startDate == b.startDate
  {
    SourceFromDoneKey(a, b);
    WholeShape(a.startDate);
    WholeShape(b.startDate);
    if a.source == Session {
      LastColon(a.key + ":" + StatusName(a.status), Whole(a.startDate), b.key + ":" + StatusName(b.status), Whole(b.startDate));
      WholeInjective(a.startDate, b.startDate);
      LastColon(a.key, StatusName(a.status), b.key, StatusName(b.status));
      StatusNameInjective(a.status, b.status);
    } else if a.source == GoogleCalendar {
      LastColon(a.key, Whole(a.startDate), b.key, Whole(b.startDate));
      WholeInjective(a.startDate, b.startDate);
    }
  }

  lemma StatusNameInjective(a: Status, b: Status)
    requires StatusName(a) == StatusName(b)
    ensures a == b
  {
    assert |StatusName(a)| == |StatusName(b)|;
    assert StatusName(a)[0] == StatusName(b)[0] && StatusName(a)[2] == StatusName(b)[2];
  }

  // ---- the list ----

  function KeyOf(i: Item): string { i.key }

  function Keys(items: seq<Item>): seq<string> {
    Map(KeyOf, items)
  }

  function NotDone(done: seq<string>): Item -> bool {
    (i: Item) => DoneKey(i) !in done
  }

  /** `buildNextUpItems`, on the converted items. */
  function Build(items: seq<Item>, now: int, order: seq<string>, done: seq<string>): seq<Item> {
    var byDefault := Sort(DefaultRank, Filter(NotDone(done), items));
    Sort(OrderedRank(SyncOrder(order, Keys(byDefault)), now), byDefault)
  }

  datatype State = State(order: seq<string>, done: seq<string>, items: seq<Item>)

  function SyncDone(done: seq<string>, available: seq<string>): seq<string> {
    Filter(In(available), UniqueStrings(done))
  }

  function CreateState(items: seq<Item>, now: int, order: seq<string>, done: seq<string>): State {
    var available := Build(items, now, [], []);
    var nextOrder := SyncOrder(order, Keys(available));
    var nextDone := SyncDone(done, Map(DoneKey, available));
    State(nextOrder, nextDone, Build(items, now, nextOrder, nextDone))
  }

  function FindKey(items: seq<Item>, key: string): (r: seq<Item>)
    ensures |r| <= 1 && (r != [] ==> r[0] in items && r[0].key == key)
    ensures r == [] ==> forall i | i in items :: i.key != key
  {
    if items == [] then [] else if items[0].key == key then [items[0]] else FindKey(items[1..], key)
  }

  function CreateStateWithDoneKey(items: seq<Item>, now: int, order: seq<string>, done: seq<string>, key: string): State {
    var found := FindKey(Build(items, now, [], []), key);
    if found == [] then CreateState(items, now, order, done)
    else CreateState(items, now, order, UniqueStrings(done + [DoneKey(found[0])]))
  }

  // ---- hiding commutes with ordering ----

  lemma {:induction false} MapFilter(keep: Item -> bool, keepKey: string -> bool, items: seq<Item>)
    requires forall i | i in items :: keep(i) == keepKey(i.key)
    ensures Keys(Filter(keep, items)) == Filter(keepKey, Keys(items))
  {
    if items != [] {
      assert items[0] in items;
      MapFilter(keep, keepKey, items[1..]);
      assert Keys(items) == [items[0].key] + Keys(items[1..]);
    }
  }

  lemma {:induction false} KeysMembers(items: seq<Item>, key: string)
    ensures key in Keys(items) <==> exists i :: i in items && i.key == key
  {
    if items != [] {
      KeysMembers(items[1..], key);
      assert items == [items[0]] + items[1..];
    }
  }

  /** Items as the converters build them, with one item per key and keys without outer blanks. */
  ghost predicate WellKeyed(items: seq<Item>) {
    && AllBanded(items)
    && Distinct(Keys(items))
    && forall i | i in items :: Keyed(i) && Trimmed(i.key)
  }

  predicate IsSlackItem(i: Item) {
    i.source == Slack
  }

  lemma KeyedSlack(i: Item)
    requires Keyed(i)
    ensures IsSlackItem(i) <==> IsSlackKey(i.key)
  {
    assert SLACK_PREFIX[0] == 's' && SLACK_PREFIX[1] == 'l' && "session:"[1] == 'e' && "calendar:"[0] == 'c' && "manual:"[0] == 'm';
  }

  lemma SlackKeys(items: seq<Item>)
    requires forall i | i in items :: Keyed(i)
    ensures Filter(IsSlackKey, Keys(items)) == Keys(Filter(IsSlackItem, items))
  {
    forall i | i in items ensures IsSlackItem(i) == IsSlackKey(i.key) { KeyedSlack(i); }
    MapFilter(IsSlackItem, IsSlackKey, items);
  }

  lemma MapDrop<A, B>(f: A -> B, s: seq<A>, k: nat)
    requires k < |s|
    ensures Map(f, s[..k] + s[k + 1..]) == Map(f, s)[..k] + Map(f, s)[k + 1..]
  {
    hide Map;
    var images, without := Map(f, s), s[..k] + s[k + 1..];
    forall i | 0 <= i < |without| ensures Map(f, without)[i] == (images[..k] + images[k + 1..])[i] {
      assert without[i] == s[if i < k then i else i + 1];
    }
  }

  lemma MapWithout<A, B>(f: A -> B, s: seq<A>, k: nat)
    requires k < |s|
    ensures multiset(Map(f, s)) == multiset(Map(f, s[..k] + s[k + 1..])) + multiset{f(s[k])}
  {
    hide Map;
    MapDrop(f, s, k);
    OutOfMultiset(Map(f, s), k);
  }

  lemma OutOfMultiset<B>(s: seq<B>, k: nat)
    requires k < |s|
    ensures multiset(s) == multiset(s[..k] + s[k + 1..]) + multiset{s[k]}
  {
    assert s == s[..k] + [s[k]] + s[k + 1..];
  }

  lemma CancelOne<A>(x: A, p: multiset<A>, q: multiset<A>)
    requires multiset{x} + p == multiset{x} + q
    ensures p == q
  {
    assert forall y | y in p || y in q :: (multiset{x} + p)[y] == (multiset{x} + q)[y];
  }

  lemma TakeOut<A>(a: seq<A>, b: seq<A>) returns (k: nat)
    requires a != [] && multiset(a) == multiset(b)
    ensures k < |b| && b[k] == a[0]
    ensures multiset(a[1..]) == multiset(b[..k] + b[k + 1..])
  {
    SameMembers(a, b);
    assert a[0] in a && a[0] in b;
    k :| 0 <= k < |b| && b[k] == a[0];
    var x, rest := a[0], b[..k] + b[k + 1..];
    assert a == [x] + a[1..] && b == b[..k] + [x] + b[k + 1..];
    assert multiset(a) == multiset{x} + multiset(a[1..]);
    assert multiset(b) == multiset{x} + multiset(rest);
    CancelOne(x, multiset(a[1..]), multiset(rest));
  }

  /** Images of a rearrangement are a rearrangement of the images. */
  lemma {:induction false} MapMultiset<A, B>(f: A -> B, a: seq<A>, b: seq<A>)
    requires multiset(a) == multiset(b)
    ensures multiset(Map(f, a)) == multiset(Map(f, b))
  {
    if a == [] {
      assert |multiset(b)| == 0;
      assert b == a;
    } else {
      hide Map;
      var k := TakeOut(a, b);
      MapMultiset(f, a[1..], b[..k] + b[k + 1..]);
      MapWithout(f, a, 0);
      assert a[..0] + a[1..] == a[1..];
      MapWithout(f, b, k);
    }
  }

  lemma PermutedWellKeyed(a: seq<Item>, b: seq<Item>)
    requires WellKeyed(a) && multiset(a) == multiset(b)
    ensures WellKeyed(b)
  {
    SameMembers(a, b);
    MapMultiset(KeyOf, a, b);
    PermutationDistinct(Keys(b), Keys(a));
  }

  /** Slack keys stand in default order in the list that is shown before any user order. */
  lemma SlackStaysInDefaultOrder(items: seq<Item>, now: int)
    requires WellKeyed(items)
    ensures var byDefault := Sort(DefaultRank, items);
            var shown := Sort(OrderedRank(Keys(byDefault), now), byDefault);
            Filter(IsSlackItem, shown) == Filter(IsSlackItem, byDefault)
  {
    var byDefault := Sort(DefaultRank, items);
    SortMembers(DefaultRank, items);
    PermutedWellKeyed(items, byDefault);
    SortOrdered(DefaultRank, items);
    var rank := OrderedRank(Keys(byDefault), now);
    FilterSort(rank, IsSlackItem, byDefault);
    SlackOrdered(byDefault, 0, now);
    assert byDefault[0..] == byDefault;
    SortOfOrdered(rank, Filter(IsSlackItem, byDefault));
  }

  lemma {:induction false} SlackOrdered(items: seq<Item>, n: nat, now: int)
    requires WellKeyed(items) && Ordered(DefaultRank, items) && n <= |items|
    ensures Ordered(OrderedRank(Keys(items), now), Filter(IsSlackItem, items[n..]))
    ensures forall i | i in Filter(IsSlackItem, items[n..]) :: exists k :: n <= k < |items| && items[k] == i
    decreases |items| - n
  {
    hide IndexIn, SortPriority;
    if n < |items| {
      var head, rest := items[n], Filter(IsSlackItem, items[n + 1..]);
      assert items[n..][1..] == items[n + 1..];
      SlackOrdered(items, n + 1, now);
      if IsSlackItem(head) {
        forall i | i in rest ensures Leq(OrderedRank(Keys(items), now)(head), OrderedRank(Keys(items), now)(i)) {
          FilterMember(IsSlackItem, items[n + 1..], i);
          var k :| n + 1 <= k < |items| && items[k] == i;
          SlackPairOrdered(items, n, k, now);
        }
        assert Filter(IsSlackItem, items[n..]) == [head] + rest;
      }
    }
  }

  lemma SlackPairOrdered(items: seq<Item>, j: nat, k: nat, now: int)
    requires WellKeyed(items) && Ordered(DefaultRank, items) && j < k < |items|
    requires IsSlackItem(items[j]) && IsSlackItem(items[k])
    ensures Leq(OrderedRank(Keys(items), now)(items[j]), OrderedRank(Keys(items), now)(items[k]))
  {
    IndexOfMember(Keys(items), j);
    IndexOfMember(Keys(items), k);
    assert Leq(DefaultRank(items[j]), DefaultRank(items[k]));
  }

  /** Everything there is, in the order shown when nothing is hidden. */
  function Full(items: seq<Item>, now: int, order: seq<string>): seq<Item> {
    Sort(OrderedRank(order, now), Sort(DefaultRank, items))
  }

  /** An order as `createNextUpState` stores it: every key once, Slack in default order. */
  ghost predicate CompleteOrder(order: seq<string>, items: seq<Item>) {
    && multiset(order) == multiset(Keys(items))
    && Filter(IsSlackKey, order) == Filter(IsSlackKey, Keys(Sort(DefaultRank, items)))
  }

  lemma BuildPlain(items: seq<Item>, now: int)
    requires WellKeyed(items)
    ensures Build(items, now, [], []) == Full(items, now, Keys(Sort(DefaultRank, items)))
  {
    FilterAll(NotDone([]), items);
    SortMembers(DefaultRank, items);
    PermutedWellKeyed(items, Sort(DefaultRank, items));
    SyncEmptyOrder(Keys(Sort(DefaultRank, items)));
  }

  lemma FullMembers(items: seq<Item>, now: int, order: seq<string>)
    ensures multiset(Full(items, now, order)) == multiset(items)
  {
    SortMembers(DefaultRank, items);
    SortMembers(OrderedRank(order, now), Sort(DefaultRank, items));
  }

  lemma StateOrderComplete(items: seq<Item>, now: int, order: seq<string>, done: seq<string>)
    requires WellKeyed(items)
    ensures CompleteOrder(CreateState(items, now, order, done).order, items)
  {
    hide SyncOrder;
    var byDefault := Sort(DefaultRank, items);
    var available := Build(items, now, [], []);
    BuildPlain(items, now);
    FullMembers(items, now, Keys(byDefault));
    SortMembers(DefaultRank, items);
    PermutedWellKeyed(items, available);
    PermutedWellKeyed(items, byDefault);
    MapMultiset(KeyOf, available, items);
    SyncOrderSpec(order, Keys(available));
    SlackStaysInDefaultOrder(items, now);
    SlackKeys(available);
    SlackKeys(byDefault);
  }

  lemma FilteredIndexes(order: seq<string>, keep: string -> bool, a: string, b: string)
    requires Distinct(order) && a in Filter(keep, order) && b in Filter(keep, order)
    ensures IndexIn(Filter(keep, order), a) <= IndexIn(Filter(keep, order), b) <==> IndexIn(order, a) <= IndexIn(order, b)
  {
    var kept := Filter(keep, order);
    FilterOrdered(keep, order, 0);
    assert order[0..] == order;
    FilterDistinct(keep, order);
    FilterMember(keep, order, a);
    FilterMember(keep, order, b);
    var i :| 0 <= i < |kept| && kept[i] == a;
    var j :| 0 <= j < |kept| && kept[j] == b;
    IndexOfMember(kept, i);
    IndexOfMember(kept, j);
    if i != j {
      if KeyRank(order)(a) == KeyRank(order)(b) { RanksTellApart(order, a, b); }
    }
  }

  lemma RanksAgree(items: seq<Item>, now: int, order: seq<string>, keep: string -> bool)
    requires Distinct(order) && forall i | i in items :: i.key in Filter(keep, order)
    ensures AgreeOn(OrderedRank(Filter(keep, order), now), OrderedRank(order, now), items)
  {
    var r1, r2 := OrderedRank(Filter(keep, order), now), OrderedRank(order, now);
    forall a, b | a in items && b in items ensures Leq(r1(a), r1(b)) == Leq(r2(a), r2(b)) {
      FilteredIndexes(order, keep, a.key, b.key);
      OneRankPair(a, b, now, Filter(keep, order), order);
    }
  }

  lemma OneRankPair(a: Item, b: Item, now: int, o1: seq<string>, o2: seq<string>)
    requires IndexIn(o1, a.key) <= IndexIn(o1, b.key) <==> IndexIn(o2, a.key) <= IndexIn(o2, b.key)
    ensures Leq(OrderedRank(o1, now)(a), OrderedRank(o1, now)(b)) == Leq(OrderedRank(o2, now)(a), OrderedRank(o2, now)(b))
  {
    hide IndexIn, SortPriority, TaskPriority, UrgentItem;
    if DisplayGroup(a, now) == DisplayGroup(b, now) {
      GroupTellsCalendar(a, b, now);
    }
  }

  lemma GroupTellsCalendar(a: Item, b: Item, now: int)
    requires DisplayGroup(a, now) == DisplayGroup(b, now)
    ensures a.source == GoogleCalendar <==> b.source == GoogleCalendar
  {
  }

  /** With a complete order, the keys of the visible items are merged without insertion. */
  lemma VisibleOrder(items: seq<Item>, order: seq<string>, done: seq<string>)
    requires WellKeyed(items) && CompleteOrder(order, items)
    ensures Distinct(order)
    ensures var visible := Filter(NotDone(done), Sort(DefaultRank, items));
            && SyncOrder(order, Keys(visible)) == Filter(In(Keys(visible)), order)
            && forall i | i in visible :: i.key in Filter(In(Keys(visible)), order)
  {
    var byDefault := Sort(DefaultRank, items);
    var visible := Filter(NotDone(done), byDefault);
    var keys := Keys(visible);
    SortMembers(DefaultRank, items);
    PermutedWellKeyed(items, byDefault);
    MapMultiset(KeyOf, items, byDefault);
    PermutationDistinct(order, Keys(items));
    SameMembers(order, Keys(byDefault));
    forall k | k in order ensures Trimmed(k) { KeysMembers(byDefault, k); }
    forall i | i in byDefault ensures NotDone(done)(i) == In(keys)(i.key) {
      FilterMember(NotDone(done), byDefault, i);
      KeysMembers(visible, i.key);
      forall j | j in visible && j.key == i.key ensures j == i {
        FilterMember(NotDone(done), byDefault, j);
        UniqueByKey(byDefault, i, j);
      }
    }
    MapFilter(NotDone(done), In(keys), byDefault);
    FilterDistinct(In(keys), Keys(byDefault));
    FilterTwice(IsSlackKey, In(keys), order);
    FilterTwice(IsSlackKey, In(keys), Keys(byDefault));
    forall k | k in keys ensures k in order { FilterMember(In(keys), Keys(byDefault), k); }
    SyncComplete(order, keys);
    forall i | i in visible ensures i.key in Filter(In(keys), order) {
      KeysMembers(visible, i.key);
      FilterMember(In(keys), order, i.key);
    }
  }

  lemma UniqueByKey(items: seq<Item>, a: Item, b: Item)
    requires Distinct(Keys(items)) && a in items && b in items && a.key == b.key
    ensures a == b
  {
    var i :| 0 <= i < |items| && items[i] == a;
    var j :| 0 <= j < |items| && items[j] == b;
    assert Keys(items)[i] == Keys(items)[j];
  }

  /** Hiding commutes with ordering: whatever is hidden, the list is the full list with the
      hidden items left out and every other item where it was. */
  lemma HidingCommutes(items: seq<Item>, now: int, order: seq<string>, done: seq<string>)
    requires WellKeyed(items) && CompleteOrder(order, items)
    ensures Build(items, now, order, done) == Filter(NotDone(done), Full(items, now, order))
  {
    var byDefault := Sort(DefaultRank, items);
    var visible := Filter(NotDone(done), byDefault);
    FilterSort(DefaultRank, NotDone(done), items);
    VisibleOrder(items, order, done);
    RanksAgree(visible, now, order, In(Keys(visible)));
    hide SyncOrder, Leq, IndexIn;
    SortAgree(OrderedRank(Filter(In(Keys(visible)), order), now), OrderedRank(order, now), visible);
    FilterSort(OrderedRank(order, now), NotDone(done), byDefault);
  }

  // ---- marking done ----

  lemma DoneKeyTrimmed(i: Item)
    requires Keyed(i) && Trimmed(i.key)
    ensures Trimmed(DoneKey(i))
  {
    WholeShape(i.startDate);
    var k := DoneKey(i);
    assert k[0] == i.key[0];
    if i.source == Session || i.source == GoogleCalendar {
      assert k[|k| - 1] == Whole(i.startDate)[|Whole(i.startDate)| - 1];
    }
  }

  lemma SyncDoneMembers(done: seq<string>, available: seq<string>, k: string)
    ensures k in SyncDone(done, available) <==> k in TrimAll(done) && k in available
  {
    FirstOccurrencesDistinct(TrimAll(done));
    FilterMember(In(available), UniqueStrings(done), k);
  }

  lemma UniqueStringsTwice(values: seq<string>)
    ensures TrimAll(UniqueStrings(values)) == UniqueStrings(values)
    ensures forall k :: k in UniqueStrings(values) <==> k in TrimAll(values)
  {
    TrimAllTrimmed(values);
    FirstOccurrencesDistinct(TrimAll(values));
    TrimTrimmed(UniqueStrings(values));
  }

  /** The done list after one more key: the same keys, and that one. */
  lemma DoneWithOneMore(done: seq<string>, available: seq<string>, extra: string, k: string)
    requires Trimmed(extra) && extra in available
    ensures k in SyncDone(UniqueStrings(done + [extra]), available) <==> k in SyncDone(done, available) || k == extra
  {
    UniqueStringsTwice(done + [extra]);
    FlatMapAppend(TrimOut, done, [extra]);
    TrimTrimmed([extra]);
    SyncDoneMembers(UniqueStrings(done + [extra]), available, k);
    SyncDoneMembers(done, available, k);
  }

  lemma MapMember<A, B>(f: A -> B, s: seq<A>, x: A)
    requires x in s
    ensures f(x) in Map(f, s)
  {
    var k :| 0 <= k < |s| && s[k] == x;
    assert Map(f, s)[k] == f(x);
  }

  lemma {:induction false} FilterPointwise(p: Item -> bool, q: Item -> bool, r: Item -> bool, items: seq<Item>)
    requires forall i | i in items :: p(i) == (q(i) && r(i))
    ensures Filter(p, items) == Filter(q, Filter(r, items))
  {
    if items != [] {
      assert items[0] in items;
      FilterPointwise(p, q, r, items[1..]);
      if r(items[0]) {
        assert ([items[0]] + Filter(r, items[1..]))[1..] == Filter(r, items[1..]);
      }
    }
  }

  function KeyIsNot(key: string): Item -> bool {
    (i: Item) => i.key != key
  }

  /** Marking a key done takes exactly that item out of the list; every other item, and the
      stored order, stay. An unknown key changes nothing. */
  lemma MarkDoneHidesOne(items: seq<Item>, now: int, order: seq<string>, done: seq<string>, key: string)
    requires WellKeyed(items)
    ensures var before := CreateState(items, now, order, done);
            var after := CreateStateWithDoneKey(items, now, order, done, key);
            && after.order == before.order
            && after.items == Filter(KeyIsNot(key), before.items)
  {
    hide SyncOrder, SyncDone, DoneKey;
    var before := CreateState(items, now, order, done);
    var after := CreateStateWithDoneKey(items, now, order, done, key);
    var available := Build(items, now, [], []);
    StateOrderComplete(items, now, order, done);
    HidingCommutes(items, now, before.order, before.done);
    HidingCommutes(items, now, before.order, after.done);
    var full := Full(items, now, before.order);
    FullMembers(items, now, before.order);
    BuildPlain(items, now);
    FullMembers(items, now, Keys(Sort(DefaultRank, items)));
    SameMembers(full, items);
    SameMembers(available, items);
    var found := FindKey(available, key);
    forall i | i in full ensures NotDone(after.done)(i) == (KeyIsNot(key)(i) && NotDone(before.done)(i)) {
      assert i in items && i in available;
      MapMember(DoneKey, available, i);
      if found != [] {
        var x := found[0];
        assert x in available && x in items;
        MapMember(DoneKey, available, x);
        DoneKeyTrimmed(x);
        DoneWithOneMore(done, Map(DoneKey, available), DoneKey(x), DoneKey(i));
        if DoneKey(i) == DoneKey(x) {
          DoneKeyInjective(i, x);
        }
        if i.key == key {
          UniqueByKey(items, i, x);
        }
      }
    }
    FilterPointwise(NotDone(after.done), KeyIsNot(key), NotDone(before.done), full);
  }

  /** The stored state is a fixed point: creating it again from itself changes nothing. */
  lemma CreateStateIsFixedPoint(items: seq<Item>, now: int, order: seq<string>, done: seq<string>)
    requires WellKeyed(items)
    ensures var st := CreateState(items, now, order, done);
            CreateState(items, now, st.order, st.done) == st
  {
    hide SyncOrder;
    var available := Build(items, now, [], []);
    BuildPlain(items, now);
    FullMembers(items, now, Keys(Sort(DefaultRank, items)));
    SameMembers(available, items);
    PermutedWellKeyed(items, available);
    forall k | k in Keys(available) ensures Trimmed(k) { KeysMembers(available, k); }
    SyncOrderIdempotent(order, Keys(available));
    SyncDoneIdempotent(done, Map(DoneKey, available));
  }

  lemma SyncDoneIdempotent(done: seq<string>, available: seq<string>)
    ensures SyncDone(SyncDone(done, available), available) == SyncDone(done, available)
  {
    var once := SyncDone(done, available);
    TrimAllTrimmed(done);
    FirstOccurrencesDistinct(TrimAll(done));
    FilterDistinct(In(available), UniqueStrings(done));
    forall k | k in once ensures Trimmed(k) && k in available {
      SyncDoneMembers(done, available, k);
    }
    TrimTrimmed(once);
    FirstOccurrencesOfDistinct(once);
    FilterAll(In(available), once);
  }

  // ---- bands, and the user's order inside them ----

  function Band(now: int): Item -> Rank {
    (i: Item) => Rank(DisplayGroup(i, now) as real, SortPriority(i), TaskPriority(i), 0.0)
  }

  lemma BuildOrdered(items: seq<Item>, now: int, order: seq<string>, done: seq<string>)
    ensures var r := Build(items, now, order, done);
            && multiset(r) == multiset(Filter(NotDone(done), items))
            && exists o :: Ordered(OrderedRank(o, now), r)
  {
    var visible := Filter(NotDone(done), items);
    var byDefault := Sort(DefaultRank, visible);
    var o := SyncOrder(order, Keys(byDefault));
    SortMembers(DefaultRank, visible);
    SortMembers(OrderedRank(o, now), byDefault);
    SortOrdered(OrderedRank(o, now), byDefault);
  }

  lemma OrderedByBand(r: seq<Item>, now: int, o: seq<string>)
    requires Ordered(OrderedRank(o, now), r)
    ensures Ordered(Same<Rank>, Map(Band(now), r))
  {
    hide IndexIn, DisplayGroup, SortPriority, TaskPriority;
    forall i, j | 0 <= i < j < |r| ensures Leq(Band(now)(r[i]), Band(now)(r[j])) {
      assert Leq(OrderedRank(o, now)(r[i]), OrderedRank(o, now)(r[j]));
    }
  }

  /** No user order moves an item across bands: whatever the order, place by place the list
      shows the same (display group, priority, task priority), in ascending order. */
  lemma BandsIgnoreUserOrder(items: seq<Item>, now: int, o1: seq<string>, o2: seq<string>, done: seq<string>)
    ensures Map(Band(now), Build(items, now, o1, done)) == Map(Band(now), Build(items, now, o2, done))
    ensures Ordered(Same<Rank>, Map(Band(now), Build(items, now, o1, done)))
  {
    hide Build, Band;
    var r1, r2 := Build(items, now, o1, done), Build(items, now, o2, done);
    BuildOrdered(items, now, o1, done);
    BuildOrdered(items, now, o2, done);
    var p1 :| Ordered(OrderedRank(p1, now), r1);
    var p2 :| Ordered(OrderedRank(p2, now), r2);
    OrderedByBand(r1, now, p1);
    OrderedByBand(r2, now, p2);
    MapMultiset(Band(now), r1, r2);
    OrderedUnique(Same<Rank>, Map(Band(now), r1), Map(Band(now), r2));
  }

  /** Inside a band the stored order decides, except that calendar events go by start time. */
  lemma StoredOrderRulesInBand(items: seq<Item>, now: int, order: seq<string>, done: seq<string>)
    requires WellKeyed(items)
    ensures var st := CreateState(items, now, order, done);
            forall i, j | 0 <= i < j < |st.items| && Band(now)(st.items[i]) == Band(now)(st.items[j]) ::
              if st.items[i].source == GoogleCalendar then st.items[i].startDate <= st.items[j].startDate
              else IndexIn(st.order, st.items[i].key) <= IndexIn(st.order, st.items[j].key)
  {
    hide IndexIn, SortPriority, TaskPriority, SyncOrder, SyncDone;
    var st := CreateState(items, now, order, done);
    StateOrderComplete(items, now, order, done);
    HidingCommutes(items, now, st.order, st.done);
    var byDefault := Sort(DefaultRank, items);
    var rank := OrderedRank(st.order, now);
    SortOrdered(rank, Filter(NotDone(st.done), byDefault));
    FilterSort(rank, NotDone(st.done), byDefault);
    hide CreateState, Sort;
    forall i, j | 0 <= i < j < |st.items| && Band(now)(st.items[i]) == Band(now)(st.items[j])
      ensures if st.items[i].source == GoogleCalendar then st.items[i].startDate <= st.items[j].startDate
              else IndexIn(st.order, st.items[i].key) <= IndexIn(st.order, st.items[j].key)
    {
      assert Leq(rank(st.items[i]), rank(st.items[j]));
      GroupTellsCalendarIf(st.items[i], st.items[j], now);
    }
  }

  lemma GroupTellsCalendarIf(a: Item, b: Item, now: int)
    ensures DisplayGroup(a, now) == DisplayGroup(b, now) ==> (a.source == GoogleCalendar <==> b.source == GoogleCalendar)
  {
  }

  /** `Build` is what the program's two `sort` calls return: any result a stable sort may give
      for the two comparators is this list. */
  lemma BuildIsTheSort(items: seq<Item>, now: int, order: seq<string>, done: seq<string>, r1: seq<Item>, r2: seq<Item>)
    requires AllBanded(items)
    requires IsStableSort(CompareDefault, Filter(NotDone(done), items), r1)
    requires IsStableSort(CompareOrdered(SyncOrder(order, Keys(r1)), now), r1, r2)
    ensures r2 == Build(items, now, order, done)
  {
    hide CompareDefault, CompareOrdered, SyncOrder, DefaultRank, OrderedRank, Leq;
    var visible := Filter(NotDone(done), items);
    forall i | i in visible ensures Banded(i) { FilterMember(NotDone(done), items, i); }
    ComparatorsFollowRanks(visible, [], now);
    StableSortIsSort(CompareDefault, DefaultRank, visible, r1);
    SortMembers(DefaultRank, visible);
    SameMembers(r1, visible);
    var o := SyncOrder(order, Keys(r1));
    ComparatorsFollowRanks(r1, o, now);
    StableSortIsSort(CompareOrdered(o, now), OrderedRank(o, now), r1, r2);
  }

  /** Urgent calendar events come first, and the converter marks exactly the events that run
      now or start within five minutes. */
  lemma UrgentFirst(items: seq<Item>, now: int, order: seq<string>, done: seq<string>)
    ensures var r := Build(items, now, order, done);
            forall i, j | 0 <= i < j < |r| && UrgentItem(r[j], now) :: UrgentItem(r[i], now)
  {
    hide Build, SortPriority, TaskPriority;
    BandsIgnoreUserOrder(items, now, order, order, done);
    var r := Build(items, now, order, done);
    forall i, j | 0 <= i < j < |r| && UrgentItem(r[j], now)
      ensures UrgentItem(r[i], now)
    {
      assert Leq(Band(now)(r[i]), Band(now)(r[j]));
    }
  }

  lemma UrgentIsUrgent(e: EventInput, now: int)
    ensures UrgentItem(FromEvent(e, now), now) <==> UrgentEvent(e, now)
  {
  }

  // ---- what the converters give ----

  /** Ids as the stores keep them: one record per id, no outer blanks at the end. */
  ghost predicate GoodIds(ids: seq<string>) {
    Distinct(ids) && forall id | id in ids :: id != "" && !IsSpace(id[|id| - 1])
  }

  function SessionId(s: SessionInput): string { s.id }
  function TaskId(t: TaskInput): string { t.id }
  function EventId(e: EventInput): string { e.id }
  function SlackId(n: SlackInput): string { n.id }

  ghost predicate GoodInput(input: Input) {
    && GoodIds(Map(SessionId, input.sessions))
    && GoodIds(Map(TaskId, input.tasks))
    && GoodIds(Map(EventId, input.events))
    && GoodIds(Map(SlackId, input.slack))
  }

  /** Keys of one source: its prefix before good ids. */
  ghost predicate Prefixed(prefix: string, items: seq<Item>, ids: seq<string>) {
    |items| == |ids| && forall k | 0 <= k < |items| :: items[k].key == prefix + ids[k]
  }

  lemma PrefixedKeys(prefix: string, items: seq<Item>, ids: seq<string>)
    requires prefix != "" && !IsSpace(prefix[0]) && Prefixed(prefix, items, ids) && GoodIds(ids)
    ensures Distinct(Keys(items))
    ensures forall i | i in items :: Trimmed(i.key) && prefix <= i.key
  {
    forall k | 0 <= k < |items| ensures Trimmed(items[k].key) && prefix <= items[k].key {
      assert ids[k] in ids;
    }
    forall j, k | 0 <= j < k < |items| ensures items[j].key != items[k].key {
      assert ids[j] != ids[k];
      assert (prefix + ids[j])[|prefix|..] == ids[j] && (prefix + ids[k])[|prefix|..] == ids[k];
    }
  }

  lemma {:induction false} VisibleIds(keep: EventInput -> bool, events: seq<EventInput>)
    requires GoodIds(Map(EventId, events))
    ensures GoodIds(Map(EventId, Filter(keep, events)))
    ensures forall id | id in Map(EventId, Filter(keep, events)) :: id in Map(EventId, events)
  {
    if events != [] {
      var all := Map(EventId, events);
      assert all[1..] == Map(EventId, events[1..]) && all == [all[0]] + all[1..];
      VisibleIds(keep, events[1..]);
      assert all[0] !in all[1..];
    }
  }

  lemma Different(a: seq<Item>, b: seq<Item>)
    requires Distinct(Keys(a)) && Distinct(Keys(b)) && forall i, j | i in a && j in b :: i.key != j.key
    ensures Distinct(Keys(a + b))
  {
    assert Keys(a + b) == Keys(a) + Keys(b);
  }

  lemma PrefixesDiffer(i: Item, j: Item)
    requires Keyed(i) && Keyed(j) && i.source != j.source
    ensures i.key != j.key
  {
    assert SLACK_PREFIX[0] == 's' && SLACK_PREFIX[1] == 'l' && "session:"[0] == 's' && "session:"[1] == 'e';
    assert "calendar:"[0] == 'c' && "manual:"[0] == 'm';
  }

  function PrefixOf(source: Source): string {
    match source
    case Session => "session:"
    case ManualTask => "manual:"
    case GoogleCalendar => "calendar:"
    case Slack => SLACK_PREFIX
  }

  lemma OneSource(source: Source, items: seq<Item>, ids: seq<string>)
    requires GoodIds(ids) && Prefixed(PrefixOf(source), items, ids)
    requires forall i | i in items :: i.source == source
    ensures Distinct(Keys(items))
    ensures forall i | i in items :: Trimmed(i.key) && Keyed(i)
  {
    PrefixedKeys(PrefixOf(source), items, ids);
  }

  lemma SessionsKeyed(sessions: seq<SessionInput>)
    requires GoodIds(Map(SessionId, sessions))
    ensures var r := Map(FromSession, sessions);
            Distinct(Keys(r)) && forall i | i in r :: i.source == Session && Trimmed(i.key) && Keyed(i)
  {
    hide SessionPriority, GoodIds, Trimmed, Keyed;
    OneSource(Session, Map(FromSession, sessions), Map(SessionId, sessions));
  }

  lemma TasksKeyed(tasks: seq<TaskInput>)
    requires GoodIds(Map(TaskId, tasks))
    ensures var r := Map(FromTask, tasks);
            Distinct(Keys(r)) && forall i | i in r :: i.source == ManualTask && Trimmed(i.key) && Keyed(i)
  {
    hide GoodIds, Trimmed, Keyed;
    OneSource(ManualTask, Map(FromTask, tasks), Map(TaskId, tasks));
  }

  lemma EventPrefixed(events: seq<EventInput>, clock: Clock)
    ensures Prefixed("calendar:", EventItems(events, clock), Map(EventId, Filter(VisibleAt(clock), events)))
    ensures forall i | i in EventItems(events, clock) :: i.source == GoogleCalendar
  {
    hide UrgentEvent, Filter;
  }

  lemma EventsKeyed(events: seq<EventInput>, clock: Clock)
    requires GoodIds(Map(EventId, events))
    ensures var r := EventItems(events, clock);
            Distinct(Keys(r)) && forall i | i in r :: i.source == GoogleCalendar && Trimmed(i.key) && Keyed(i)
  {
    VisibleIds(VisibleAt(clock), events);
    hide FromEvent, GoodIds, Trimmed, Keyed;
    EventPrefixed(events, clock);
    OneSource(GoogleCalendar, EventItems(events, clock), Map(EventId, Filter(VisibleAt(clock), events)));
  }

  lemma SlackKeyed(slack: seq<SlackInput>)
    requires GoodIds(Map(SlackId, slack))
    ensures var r := Map(FromSlack, slack);
            Distinct(Keys(r)) && forall i | i in r :: i.source == Slack && Trimmed(i.key) && Keyed(i)
  {
    hide SlackPriority, GoodIds, Trimmed, Keyed;
    OneSource(Slack, Map(FromSlack, slack), Map(SlackId, slack));
  }

  /** Converted items meet every hypothesis of the theorems above. */
  lemma ConvertersWellKeyed(input: Input, clock: Clock)
    requires GoodInput(input)
    ensures WellKeyed(Items(input, clock))
  {
    hide Map, EventItems, Trimmed, Keyed, Banded, GoodIds;
    ConvertersBanded(input, clock);
    SessionsKeyed(input.sessions);
    TasksKeyed(input.tasks);
    EventsKeyed(input.events, clock);
    SlackKeyed(input.slack);
    FourSources(Map(FromSession, input.sessions), Map(FromTask, input.tasks),
                EventItems(input.events, clock), Map(FromSlack, input.slack));
  }

  lemma FourSources(s: seq<Item>, t: seq<Item>, e: seq<Item>, n: seq<Item>)
    requires forall i | i in s :: i.source == Session && Keyed(i)
    requires forall i | i in t :: i.source == ManualTask && Keyed(i)
    requires forall i | i in e :: i.source == GoogleCalendar && Keyed(i)
    requires forall i | i in n :: i.source == Slack && Keyed(i)
    requires Distinct(Keys(s)) && Distinct(Keys(t)) && Distinct(Keys(e)) && Distinct(Keys(n))
    ensures Distinct(Keys(s + t + e + n))
  {
    forall i, j | i in s && j in t ensures i.key != j.key { PrefixesDiffer(i, j); }
    Different(s, t);
    forall i, j | i in s + t && j in e ensures i.key != j.key { PrefixesDiffer(i, j); }
    Different(s + t, e);
    forall i, j | i in s + t + e && j in n ensures i.key != j.key { PrefixesDiffer(i, j); }
    Different(s + t + e, n);
  }
}
