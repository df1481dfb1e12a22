/**
 Recurring tasks: when one is due, and how often each generates a manual task.
 */
module RecurringTasks {
  import opened Wrappers
  import opened Sequences
  import opened CivilDates
  import opened DateKeys

  const MAX_RECURRING_TASKS: nat := 100

  datatype Frequency = Daily | Weekly | Interval | Monthly

  /** `creatable` says whether the manual-task service accepts its text and priority;
      `createdOn` is the local date of its creation time. An absent date is empty. */
  datatype Task = Task(
    id: string,
    time: string,
    frequency: Option<Frequency>,
    daysOfWeek: seq<int>,
    intervalDays: Option<int>,
    dayOfMonth: Option<int>,
    anchorDate: string,
    createdOn: LocalDate,
    enabled: bool,
    creatable: bool,
    lastGeneratedDate: string)

  datatype Now = Now(date: LocalDate, minutes: int)

  function Anchor(t: Task): Option<Date> {
    ParseLocalDateKey(if t.anchorDate == "" then GetLocalDateKey(t.createdOn) else t.anchorDate)
  }

  predicate OnStep(anchor: Date, n: int, date: Date)
    requires n >= 1
  {
    var days := GetLocalDateDiffDays(anchor, date);
    days >= 0 && days % n == 0
  }

  predicate IsRecurringIntervalDue(t: Task, date: LocalDate) {
    && t.intervalDays.Some? && t.intervalDays.value >= 1
    && Anchor(t).Some? && OnStep(Anchor(t).value, t.intervalDays.value, date)
  }

  predicate IsRecurringMonthlyDue(t: Task, date: LocalDate) {
    && t.dayOfMonth.Some?
    && date.day == var days := GetDaysInMonth(date); if t.dayOfMonth.value < days then t.dayOfMonth.value else days
  }

  predicate IsRecurringTaskDue(t: Task, now: Now) {
    && t.enabled
    && var minutes := ParseRecurringTimeMinutes(t.time);
       && minutes.Some? && now.minutes >= minutes.value
       && match if t.frequency == None then Weekly else t.frequency.value
          case Daily => true
          case Interval => IsRecurringIntervalDue(t, now.date)
          case Monthly => IsRecurringMonthlyDue(t, now.date)
          case Weekly => Weekday(now.date) in t.daysOfWeek
  }

  // ---- calendars ----

  lemma Grows(d: int, n: int)
    requires n >= 1
    ensures d >= 1 ==> d * n >= n
    ensures d <= -1 ==> d * n <= -n
  {
  }

  lemma MultipleOf(k: nat, n: int)
    requires n >= 1
    ensures k * n >= 0 && (k * n) % n == 0
  {
    var q, r := (k * n) / n, (k * n) % n;
    assert (k - q) * n == r;
    Grows(k - q, n);
  }

  lemma StepIsCounted(anchor: Date, n: int, date: Date) returns (k: nat)
    requires n >= 1 && Modern(anchor) && Modern(date) && OnStep(anchor, n, date)
    ensures k * n >= 0 && date == Later(anchor, k * n)
  {
    var days := GetLocalDateDiffDays(anchor, date);
    hide GetLocalDateDiffDays, Modern, Later;
    k := days / n;
    DiffIsCounting(anchor, date, days);
  }

  lemma CountedIsStep(anchor: Date, n: int, date: Date, k: nat)
    requires n >= 1 && Modern(anchor) && Modern(date)
    ensures k * n >= 0 && (date == Later(anchor, k * n) ==> OnStep(anchor, n, date))
  {
    hide GetLocalDateDiffDays, Modern, Later;
    MultipleOf(k, n);
    DiffIsCounting(anchor, date, k * n);
  }

  /** An interval task is due exactly on the anchor and every n days after it, by counting. */
  lemma IntervalDueIff(t: Task, date: LocalDate)
    requires t.intervalDays.Some? && t.intervalDays.value >= 1 && Anchor(t).Some?
    ensures IsRecurringIntervalDue(t, date) <==> exists k: nat :: date == Later(Anchor(t).value, k * t.intervalDays.value)
  {
    hide Anchor, OnStep, Later, Modern;
    var anchor, n := Anchor(t).value, t.intervalDays.value;
    AnchorModern(t);
    assert IsRecurringIntervalDue(t, date) <==> OnStep(anchor, n, date);
    hide IsRecurringIntervalDue;
    if OnStep(anchor, n, date) {
      var k := StepIsCounted(anchor, n, date);
    }
    if k: nat :| date == Later(anchor, k * n) {
      CountedIsStep(anchor, n, date, k);
    }
  }

  lemma AnchorModern(t: Task)
    ensures Anchor(t).Some? ==> Modern(Anchor(t).value)
  {
    hide ParseLocalDateKey;
    if Anchor(t).Some? {
      ParseIff(if t.anchorDate == "" then GetLocalDateKey(t.createdOn) else t.anchorDate, Anchor(t).value);
    }
  }

  /** A monthly task is due on exactly one date of every month: on its day, or on the last day
      of a month that is too short. */
  lemma MonthlyDueOnce(t: Task, date: LocalDate)
    requires t.dayOfMonth.Some? && t.dayOfMonth.value >= 1
    ensures var last := DaysIn(date.year, date.month);
            var day := if t.dayOfMonth.value < last then t.dayOfMonth.value else last;
            && Modern(Date(date.year, date.month, day))
            && (IsRecurringMonthlyDue(t, date) <==> date == Date(date.year, date.month, day))
  {
    DaysInMonthIff(date);
    hide GetDaysInMonth, Leap;
  }

  // ---- one task ----

  predicate CanFire(t: Task, now: Now) {
    IsRecurringTaskDue(t, now) && t.creatable
  }

  predicate Fires(t: Task, now: Now) {
    CanFire(t, now) && t.lastGeneratedDate != GetLocalDateKey(now.date)
  }

  function Fire(t: Task, now: Now): Task {
    if Fires(t, now) then t.(lastGeneratedDate := GetLocalDateKey(now.date)) else t
  }

  /** The dates on which a task generates, over a series of scheduler runs. */
  function FiredOn(t: Task, ticks: seq<Now>): seq<LocalDate>
    decreases |ticks|
  {
    if ticks == [] then []
    else (if Fires(t, ticks[0]) then [ticks[0].date] else []) + FiredOn(Fire(t, ticks[0]), ticks[1..])
  }

  /** The local date never goes back; the time of day may, when clocks are set back. */
  predicate Dated(ticks: seq<Now>, from: LocalDate) {
    ticks == [] || (!Before(ticks[0].date, from) && Dated(ticks[1..], ticks[0].date))
  }

  /** It last generated on some date, or never; `from` is not earlier. */
  ghost predicate Remembers(t: Task, from: LocalDate) {
    t.lastGeneratedDate == "" || exists d: LocalDate :: t.lastGeneratedDate == GetLocalDateKey(d) && !Before(from, d)
  }

  lemma {:induction false} DatedFrom(ticks: seq<Now>, from: LocalDate)
    requires Dated(ticks, from)
    ensures forall i | 0 <= i < |ticks| :: !Before(ticks[i].date, from)
  {
    if ticks != [] {
      DatedFrom(ticks[1..], ticks[0].date);
      assert forall i | 1 <= i < |ticks| :: ticks[i] == ticks[1..][i - 1];
    }
  }

  lemma RemembersLater(t: Task, from: LocalDate, date: LocalDate)
    requires Remembers(t, from) && !Before(date, from)
    ensures Remembers(t, date)
    ensures date != from ==> t.lastGeneratedDate != GetLocalDateKey(date)
  {
    if t.lastGeneratedDate != "" {
      var d: LocalDate :| t.lastGeneratedDate == GetLocalDateKey(d) && !Before(from, d);
      KeysDiffer(d, date);
    } else {
      assert |GetLocalDateKey(date)| > 0;
    }
    hide GetLocalDateKey;
  }

  lemma FiringKeeps(t: Task, now: Now)
    ensures forall other :: CanFire(Fire(t, now), other) == CanFire(t, other)
    ensures Fire(t, now).id == t.id
  {
    hide ParseLocalDateKey, GetLocalDateDiffDays, GetDaysInMonth, ParseRecurringTimeMinutes, GetLocalDateKey, Weekday;
  }

  lemma FiringRemembers(t: Task, now: Now, from: LocalDate)
    requires Remembers(t, from) && !Before(now.date, from)
    ensures Remembers(Fire(t, now), now.date)
    ensures CanFire(t, now) ==> Fire(t, now).lastGeneratedDate == GetLocalDateKey(now.date)
  {
    RemembersLater(t, from, now.date);
    hide CanFire, GetLocalDateKey;
  }

  predicate DueDuring(t: Task, ticks: seq<Now>, date: LocalDate) {
    exists i | 0 <= i < |ticks| :: ticks[i].date == date && CanFire(t, ticks[i])
  }

  lemma DueDuringFirst(t: Task, ticks: seq<Now>, date: LocalDate)
    requires ticks != []
    ensures DueDuring(t, ticks, date) <==>
            (ticks[0].date == date && CanFire(t, ticks[0])) || DueDuring(Fire(t, ticks[0]), ticks[1..], date)
  {
    FiringKeeps(t, ticks[0]);
    hide CanFire;
    var rest := ticks[1..];
    assert forall i | 0 <= i < |rest| :: rest[i] == ticks[i + 1];
    assert forall i | 1 <= i < |ticks| :: ticks[i] == rest[i - 1];
  }

  lemma {:induction false} DueDuringLater(t: Task, ticks: seq<Now>, from: LocalDate, date: LocalDate)
    requires Dated(ticks, from) && DueDuring(t, ticks, date)
    ensures !Before(date, from)
  {
    DatedFrom(ticks, from);
  }

  /** Exactly once: over runs whose dates never go back, a task generates on precisely the
      dates on which some run finds it due, except the date it had generated on before. */
  lemma {:induction false} FiresExactlyWhenDue(t: Task, ticks: seq<Now>, from: LocalDate, date: LocalDate)
    requires Remembers(t, from) && Dated(ticks, from)
    ensures date in FiredOn(t, ticks) <==> DueDuring(t, ticks, date) && t.lastGeneratedDate != GetLocalDateKey(date)
    decreases |ticks|
  {
    if ticks != [] {
      var now, rest := ticks[0], ticks[1..];
      var next := Fire(t, now);
      FiringRemembers(t, now, from);
      DueDuringFirst(t, ticks, date);
      FiresExactlyWhenDue(next, rest, now.date, date);
      if DueDuring(next, rest, date) {
        DueDuringLater(next, rest, now.date, date);
        RemembersLater(t, from, now.date);
        RemembersLater(t, now.date, date);
        RemembersLater(next, now.date, date);
      }
      hide CanFire, DueDuring, Remembers, GetLocalDateKey, Dated;
    }
  }

  /** At most once: the dates of generation strictly increase. */
  lemma {:induction false} FiresAtMostOncePerDate(t: Task, ticks: seq<Now>, from: LocalDate)
    requires Remembers(t, from) && Dated(ticks, from)
    ensures forall i, j | 0 <= i < j < |FiredOn(t, ticks)| :: Before(FiredOn(t, ticks)[i], FiredOn(t, ticks)[j])
    decreases |ticks|
  {
    if ticks != [] {
      var now, rest := ticks[0], ticks[1..];
      var next := Fire(t, now);
      FiringRemembers(t, now, from);
      FiresAtMostOncePerDate(next, rest, now.date);
      var later := FiredOn(next, rest);
      if Fires(t, now) {
        forall j | 0 <= j < |later| ensures Before(now.date, later[j]) {
          assert later[j] in later;
          FiresExactlyWhenDue(next, rest, now.date, later[j]);
          DueDuringLater(next, rest, now.date, later[j]);
        }
      }
      hide CanFire, DueDuring, Remembers, GetLocalDateKey, Dated, FiredOn;
      assert FiredOn(t, ticks) == (if Fires(t, now) then [now.date] else []) + later;
    }
  }

  // ---- a created task ----

  function GetInitialRecurringTaskGeneratedDate(t: Task, now: Now): string {
    if IsRecurringTaskDue(t, now) then GetLocalDateKey(now.date) else ""
  }

  /** A new task generates exactly once on every due date that has a run at or after its time,
      except on the date of its creation when it was created already due. */
  lemma NewTaskFires(fields: Task, now: Now, ticks: seq<Now>, date: LocalDate)
    requires Dated(ticks, now.date)
    ensures var t := fields.(lastGeneratedDate := GetInitialRecurringTaskGeneratedDate(fields, now));
            date in FiredOn(t, ticks) <==> DueDuring(t, ticks, date) && !(date == now.date && IsRecurringTaskDue(fields, now))
  {
    var t := fields.(lastGeneratedDate := GetInitialRecurringTaskGeneratedDate(fields, now));
    assert |GetLocalDateKey(date)| > 0 && !Before(now.date, now.date);
    assert Remembers(t, now.date);
    KeysDiffer(date, now.date);
    FiresExactlyWhenDue(t, ticks, now.date, date);
    hide FiredOn, DueDuring, Dated, IsRecurringTaskDue, GetLocalDateKey, Remembers;
  }

  // ---- all tasks ----

  datatype Generation = Generation(id: string, date: LocalDate)

  function FireAll(tasks: seq<Task>, now: Now): seq<Task> {
    if tasks == [] then [] else [Fire(tasks[0], now)] + FireAll(tasks[1..], now)
  }

  function Generated(tasks: seq<Task>, now: Now): seq<Generation> {
    if tasks == [] then []
    else (if Fires(tasks[0], now) then [Generation(tasks[0].id, now.date)] else []) + Generated(tasks[1..], now)
  }

  datatype Event =
    | Tick(now: Now)
    | Add(fields: Task, now: Now)
    | Remove(id: string)

  datatype State = State(tasks: seq<Task>, log: seq<Generation>)

  function Added(tasks: seq<Task>, fields: Task, now: Now): seq<Task> {
    var t := fields.(lastGeneratedDate := GetInitialRecurringTaskGeneratedDate(fields, now));
    if |tasks| < MAX_RECURRING_TASKS then [t] + tasks else ([t] + tasks)[..MAX_RECURRING_TASKS]
  }

  /** Without the first task of that id. */
  function Removed(tasks: seq<Task>, id: string): seq<Task> {
    if tasks == [] then []
    else if tasks[0].id == id then tasks[1..]
    else [tasks[0]] + Removed(tasks[1..], id)
  }

  function Step(st: State, e: Event): State {
    match e
    case Tick(now) => State(FireAll(st.tasks, now), st.log + Generated(st.tasks, now))
    case Add(fields, now) => st.(tasks := Added(st.tasks, fields, now))
    case Remove(id) => st.(tasks := Removed(st.tasks, id))
  }

  function Run(st: State, events: seq<Event>): State
    decreases |events|
  {
    if events == [] then st else Run(Step(st, events[0]), events[1..])
  }

  function TaskId(t: Task): seq<string> { [t.id] }

  function Ids(tasks: seq<Task>): seq<string> {
    FlatMap(TaskId, tasks)
  }

  /** The identifiers handed out by a run, and no date before `from`. */
  predicate Proper(events: seq<Event>, used: set<string>, from: LocalDate)
    decreases |events|
  {
    events == [] ||
    match events[0]
    case Tick(now) => !Before(now.date, from) && Proper(events[1..], used, now.date)
    case Add(fields, now) => !Before(now.date, from) && fields.id !in used && Proper(events[1..], used + {fields.id}, now.date)
    case Remove(_) => Proper(events[1..], used, from)
  }

  /** Identifiers are unique, no generation lies in the future or is repeated, and a task that
      generated today remembers it. */
  ghost predicate Inv(st: State, used: set<string>, today: LocalDate) {
    && Distinct(Ids(st.tasks)) && Distinct(st.log)
    && (forall t | t in st.tasks :: t.id in used)
    && (forall g | g in st.log :: g.id in used && !Before(today, g.date))
    && (forall t | t in st.tasks :: Generation(t.id, today) in st.log ==> t.lastGeneratedDate == GetLocalDateKey(today))
  }

  lemma {:induction false} IdMembers(tasks: seq<Task>)
    ensures |Ids(tasks)| == |tasks|
    ensures forall i | 0 <= i < |tasks| :: Ids(tasks)[i] == tasks[i].id
  {
    if tasks != [] {
      IdMembers(tasks[1..]);
      assert Ids(tasks) == [tasks[0].id] + Ids(tasks[1..]);
    }
  }

  lemma {:induction false} GeneratedIff(tasks: seq<Task>, now: Now, g: Generation)
    ensures g in Generated(tasks, now) <==> g.date == now.date && exists t | t in tasks :: t.id == g.id && Fires(t, now)
  {
    hide Fires;
    if tasks != [] {
      GeneratedIff(tasks[1..], now, g);
      assert tasks == [tasks[0]] + tasks[1..];
    }
  }

  /** Dropping the first task of a list with distinct ids. */
  lemma RestDistinct(tasks: seq<Task>)
    requires tasks != [] && Distinct(Ids(tasks))
    ensures Distinct(Ids(tasks[1..])) && forall t | t in tasks[1..] :: t.id != tasks[0].id
  {
    var rest := tasks[1..];
    IdMembers(tasks);
    IdMembers(rest);
    hide Ids;
    assert forall i | 0 <= i < |rest| :: rest[i] == tasks[i + 1] && Ids(rest)[i] == Ids(tasks)[i + 1];
    forall t | t in rest ensures t.id != tasks[0].id {
      var i :| 0 <= i < |rest| && rest[i] == t;
      assert Ids(tasks)[0] != Ids(tasks)[i + 1];
    }
  }

  lemma {:induction false} GeneratedOnce(tasks: seq<Task>, now: Now)
    requires Distinct(Ids(tasks))
    ensures Distinct(Generated(tasks, now))
  {
    if tasks != [] {
      hide Fires, Ids;
      var head, rest := tasks[0], tasks[1..];
      RestDistinct(tasks);
      GeneratedOnce(rest, now);
      GeneratedIff(rest, now, Generation(head.id, now.date));
      var first := if Fires(head, now) then [Generation(head.id, now.date)] else [];
      assert Generated(tasks, now) == first + Generated(rest, now);
      hide Generated;
      DistinctAppend(first, Generated(rest, now));
    }
  }

  lemma DistinctAppend<T>(a: seq<T>, b: seq<T>)
    requires Distinct(a) && Distinct(b) && forall x | x in b :: x !in a
    ensures Distinct(a + b)
  {
    var c := a + b;
    forall i, j | 0 <= i < j < |c| ensures c[i] != c[j] {
      assert i >= |a| ==> c[i] == b[i - |a|];
      assert j >= |a| ==> c[j] == b[j - |a|] && b[j - |a|] in b;
    }
  }

  lemma {:induction false} FireAllFires(tasks: seq<Task>, now: Now)
    ensures Ids(FireAll(tasks, now)) == Ids(tasks)
    ensures forall t | t in FireAll(tasks, now) :: exists u | u in tasks :: t == Fire(u, now)
    ensures forall u | u in tasks :: Fire(u, now) in FireAll(tasks, now)
  {
    if tasks != [] {
      FireAllFires(tasks[1..], now);
      FiringKeeps(tasks[0], now);
      hide Fire;
      assert tasks == [tasks[0]] + tasks[1..];
      assert Ids(tasks) == [tasks[0].id] + Ids(tasks[1..]);
      var fired := FireAll(tasks, now);
      assert fired[0] == Fire(tasks[0], now) && fired[1..] == FireAll(tasks[1..], now);
      assert Ids(fired) == [fired[0].id] + Ids(fired[1..]);
    }
  }

  lemma BeforeTotal(a: Date, b: Date)
    ensures !Before(a, b) && !Before(b, a) ==> a == b
  {
  }

  lemma InvLater(st: State, used: set<string>, today: LocalDate, date: LocalDate)
    requires Inv(st, used, today) && !Before(date, today)
    ensures Inv(st, used, date)
  {
    BeforeTotal(today, date);
    hide Ids, Distinct, GetLocalDateKey;
  }

  lemma NewGenerations(st: State, used: set<string>, now: Now)
    requires Inv(st, used, now.date)
    ensures forall g | g in Generated(st.tasks, now) :: g !in st.log && g.id in used && g.date == now.date
  {
    forall g | g in Generated(st.tasks, now)
      ensures g !in st.log && g.id in used && g.date == now.date
    {
      GeneratedIff(st.tasks, now, g);
      var t :| t in st.tasks && t.id == g.id && Fires(t, now);
      assert g == Generation(t.id, now.date);
    }
  }

  lemma SameIdSameTask(tasks: seq<Task>, a: Task, b: Task)
    requires Distinct(Ids(tasks)) && a in tasks && b in tasks && a.id == b.id
    ensures a == b
  {
    IdMembers(tasks);
    hide Ids;
    var i :| 0 <= i < |tasks| && tasks[i] == a;
    var j :| 0 <= j < |tasks| && tasks[j] == b;
    assert Ids(tasks)[i] == a.id && Ids(tasks)[j] == b.id;
  }

  lemma GenerationsRemembered(st: State, used: set<string>, now: Now, u: Task)
    requires Inv(st, used, now.date) && u in st.tasks
    requires Generation(u.id, now.date) in st.log + Generated(st.tasks, now)
    ensures Fire(u, now).lastGeneratedDate == GetLocalDateKey(now.date)
  {
    var g := Generation(u.id, now.date);
    if g !in st.log {
      GeneratedIff(st.tasks, now, g);
      var t :| t in st.tasks && t.id == g.id && Fires(t, now);
      SameIdSameTask(st.tasks, t, u);
    }
    hide Ids, Distinct, CanFire, GetLocalDateKey;
  }

  lemma TickKeepsInv(st: State, used: set<string>, now: Now)
    requires Inv(st, used, now.date)
    ensures Inv(Step(st, Tick(now)), used, now.date)
  {
    var after := Step(st, Tick(now));
    FireAllFires(st.tasks, now);
    NewGenerations(st, used, now);
    GeneratedOnce(st.tasks, now);
    DistinctAppend(st.log, Generated(st.tasks, now));
    assert !Before(now.date, now.date);
    forall t | t in after.tasks
      ensures t.id in used && (Generation(t.id, now.date) in after.log ==> t.lastGeneratedDate == GetLocalDateKey(now.date))
    {
      var u :| u in st.tasks && t == Fire(u, now);
      FiringKeeps(u, now);
      if Generation(t.id, now.date) in after.log {
        GenerationsRemembered(st, used, now, u);
      }
    }
    hide Ids, Distinct, Fire, FireAll, Generated, GetLocalDateKey;
  }

  lemma AddKeepsInv(st: State, used: set<string>, fields: Task, now: Now)
    requires Inv(st, used, now.date) && fields.id !in used
    ensures Inv(Step(st, Add(fields, now)), used + {fields.id}, now.date)
  {
    AddedKnown(st.tasks, used, fields, now);
    hide Ids, Added, GetLocalDateKey;
  }

  /** Putting a task with an id of its own in front. */
  lemma ConsDistinct(head: Task, rest: seq<Task>)
    requires Distinct(Ids(rest)) && forall t | t in rest :: t.id != head.id
    ensures Distinct(Ids([head] + rest))
  {
    IdMembers(rest);
    assert ([head] + rest)[1..] == rest;
    assert Ids([head] + rest) == [head.id] + Ids(rest);
    hide Ids;
    forall x | x in Ids(rest) ensures x !in [head.id] {
      var i :| 0 <= i < |rest| && Ids(rest)[i] == x;
      assert rest[i] in rest;
    }
    DistinctAppend([head.id], Ids(rest));
  }

  lemma {:induction false} RemovedPart(tasks: seq<Task>, id: string)
    requires Distinct(Ids(tasks))
    ensures Distinct(Ids(Removed(tasks, id)))
    ensures forall t :: t in Removed(tasks, id) <==> t in tasks && t.id != id
  {
    if tasks != [] {
      hide Ids, Distinct;
      var head, rest := tasks[0], tasks[1..];
      RestDistinct(tasks);
      assert tasks == [head] + rest;
      RemovedPart(rest, id);
      if head.id != id {
        ConsDistinct(head, Removed(rest, id));
      }
    }
  }

  lemma RemoveKeepsInv(st: State, used: set<string>, id: string, today: LocalDate)
    requires Inv(st, used, today)
    ensures Inv(Step(st, Remove(id)), used, today)
  {
    RemovedPart(st.tasks, id);
    hide Ids, Distinct, Removed, GetLocalDateKey;
  }

  lemma {:induction false} RunKeepsInv(st: State, events: seq<Event>, used: set<string>, today: LocalDate)
    requires Inv(st, used, today) && Proper(events, used, today)
    ensures Distinct(Run(st, events).log)
    decreases |events|
  {
    hide Step;
    if events != [] {
      var next := Step(st, events[0]);
      match events[0] {
        case Tick(now) =>
          InvLater(st, used, today, now.date);
          TickKeepsInv(st, used, now);
          hide Inv;
          RunKeepsInv(next, events[1..], used, now.date);
        case Add(fields, now) =>
          InvLater(st, used, today, now.date);
          AddKeepsInv(st, used, fields, now);
          hide Inv;
          RunKeepsInv(next, events[1..], used + {fields.id}, now.date);
        case Remove(id) =>
          RemoveKeepsInv(st, used, id, today);
          hide Inv;
          RunKeepsInv(next, events[1..], used, today);
      }
    }
  }

  /** Whatever is added, removed and checked, and starting from any stored tasks: no task
      generates twice for the same date, as long as dates do not go back and identifiers are fresh. */
  lemma AtMostOncePerTaskAndDate(stored: seq<Task>, events: seq<Event>, today: LocalDate)
    requires Distinct(Ids(stored)) && Proper(events, set t | t in stored :: t.id, today)
    ensures Distinct(Run(State(stored, []), events).log)
  {
    var used := set t | t in stored :: t.id;
    assert Inv(State(stored, []), used, today);
    RunKeepsInv(State(stored, []), events, used, today);
  }

  // ---- many tasks that come and go ----

  /** Task ids are unique, and all have been handed out. */
  ghost predicate Known(tasks: seq<Task>, used: set<string>) {
    Distinct(Ids(tasks)) && forall t | t in tasks :: t.id in used
  }

  /** Added tasks get new ids. */
  predicate FreshIds(events: seq<Event>, used: set<string>)
    decreases |events|
  {
    events == [] ||
    if events[0].Add? then events[0].fields.id !in used && FreshIds(events[1..], used + {events[0].fields.id})
    else FreshIds(events[1..], used)
  }

  function UsedAfter(used: set<string>, e: Event): set<string> {
    if e.Add? then used + {e.fields.id} else used
  }

  /** The scheduler runs of a history that find a task of that id, up to its removal or its
      eviction from the list. */
  function LiveTicks(st: State, events: seq<Event>, id: string): seq<Now>
    decreases |events|
  {
    if events == [] || id !in Ids(st.tasks) then []
    else (if events[0].Tick? then [events[0].now] else []) + LiveTicks(Step(st, events[0]), events[1..], id)
  }

  lemma IdPresent(tasks: seq<Task>, id: string)
    ensures id in Ids(tasks) <==> exists t | t in tasks :: t.id == id
  {
    IdMembers(tasks);
    hide Ids;
    if id in Ids(tasks) {
      var i :| 0 <= i < |tasks| && Ids(tasks)[i] == id;
      assert tasks[i] in tasks;
    }
    if t :| t in tasks && t.id == id {
      var i :| 0 <= i < |tasks| && tasks[i] == t;
      assert Ids(tasks)[i] == id;
    }
  }

  lemma AddedKnown(tasks: seq<Task>, used: set<string>, fields: Task, now: Now)
    requires Known(tasks, used) && fields.id !in used
    ensures Known(Added(tasks, fields, now), used + {fields.id})
    ensures forall t | t in Added(tasks, fields, now) && t.id != fields.id :: t in tasks
  {
    var after := Added(tasks, fields, now);
    IdMembers(tasks);
    IdMembers(after);
    hide Ids, GetInitialRecurringTaskGeneratedDate;
    assert forall i | 1 <= i < |after| :: after[i] == tasks[i - 1];
    assert after[0].id == fields.id;
    forall i, j | 0 <= i < j < |after| ensures Ids(after)[i] != Ids(after)[j] {
      assert after[j] in tasks;
      assert i > 0 ==> Ids(tasks)[i - 1] != Ids(tasks)[j - 1];
    }
  }

  lemma StepKnown(st: State, e: Event, used: set<string>)
    requires Known(st.tasks, used) && (e.Add? ==> e.fields.id !in used)
    ensures Known(Step(st, e).tasks, UsedAfter(used, e))
  {
    match e {
      case Tick(now) =>
        FireAllFires(st.tasks, now);
        forall t | t in FireAll(st.tasks, now) ensures t.id in used {
          var u :| u in st.tasks && t == Fire(u, now);
          FiringKeeps(u, now);
        }
        hide Ids, Distinct, Fire, FireAll, Generated;
      case Add(fields, now) => AddedKnown(st.tasks, used, fields, now); hide Added;
      case Remove(id) => RemovedPart(st.tasks, id); hide Ids, Distinct, Removed;
    }
  }

  /** An id that is used and not in the list does not come back. */
  lemma StaysAbsent(st: State, e: Event, used: set<string>, id: string)
    requires Known(st.tasks, used) && id in used && id !in Ids(st.tasks) && (e.Add? ==> e.fields.id !in used)
    ensures id !in Ids(Step(st, e).tasks)
    ensures forall date :: Generation(id, date) in Step(st, e).log <==> Generation(id, date) in st.log
  {
    IdPresent(st.tasks, id);
    IdPresent(Step(st, e).tasks, id);
    match e {
      case Tick(now) =>
        FireAllFires(st.tasks, now);
        forall date ensures Generation(id, date) !in Generated(st.tasks, now) {
          GeneratedIff(st.tasks, now, Generation(id, date));
        }
        hide Ids, Distinct, Generated, FireAll, Fires;
      case Add(fields, now) => AddedKnown(st.tasks, used, fields, now); hide Added;
      case Remove(r) => RemovedPart(st.tasks, r); hide Removed;
    }
  }

  lemma {:induction false} AbsentRun(st: State, events: seq<Event>, used: set<string>, id: string, date: LocalDate)
    requires Known(st.tasks, used) && FreshIds(events, used) && id in used && id !in Ids(st.tasks)
    ensures Generation(id, date) in Run(st, events).log <==> Generation(id, date) in st.log
    decreases |events|
  {
    hide Step, Known, Ids;
    if events != [] {
      StepKnown(st, events[0], used);
      StaysAbsent(st, events[0], used, id);
      AbsentRun(Step(st, events[0]), events[1..], UsedAfter(used, events[0]), id, date);
    }
  }

  /** One event's effect on a task in the list: a tick may fire it, others leave it alone or
      take it out. */
  lemma TaskStep(st: State, e: Event, used: set<string>, t: Task, date: LocalDate)
    requires Known(st.tasks, used) && t in st.tasks && (e.Add? ==> e.fields.id !in used)
    ensures var next := Step(st, e);
            var after := if e.Tick? then Fire(t, e.now) else t;
            && after.id == t.id && (after in next.tasks || t.id !in Ids(next.tasks)) && (e.Tick? ==> after in next.tasks)
            && (Generation(t.id, date) in next.log <==>
                  Generation(t.id, date) in st.log || (e.Tick? && Fires(t, e.now) && date == e.now.date))
  {
    match e {
      case Tick(now) =>
        FireAllFires(st.tasks, now);
        FiringKeeps(t, now);
        GeneratedIff(st.tasks, now, Generation(t.id, date));
        if u :| u in st.tasks && u.id == t.id && Fires(u, now) {
          SameIdSameTask(st.tasks, t, u);
        }
        hide Ids, Distinct, Fire, Fires, Generated, FireAll;
      case Add(fields, now) =>
        AddedKnown(st.tasks, used, fields, now);
        OnlyCopy(st.tasks, Step(st, e).tasks, t);
        hide Added, Ids, Distinct;
      case Remove(r) =>
        RemovedPart(st.tasks, r);
        OnlyCopy(st.tasks, Step(st, e).tasks, t);
        hide Removed, Ids, Distinct;
    }
  }

  lemma OnlyCopy(tasks: seq<Task>, next: seq<Task>, t: Task)
    requires Distinct(Ids(tasks)) && t in tasks && forall u | u in next && u.id == t.id :: u in tasks
    ensures t in next || t.id !in Ids(next)
  {
    IdPresent(next, t.id);
    if u :| u in next && u.id == t.id {
      SameIdSameTask(tasks, t, u);
    }
    hide Ids, Distinct;
  }

  /** Among tasks that come and go, each generates as it would alone over the scheduler runs
      that find it in the list, and not at all once it has left. */
  lemma {:induction false} TasksIndependent(st: State, events: seq<Event>, used: set<string>, t: Task, date: LocalDate)
    requires Known(st.tasks, used) && FreshIds(events, used) && t in st.tasks
    ensures Generation(t.id, date) in Run(st, events).log
        <==> Generation(t.id, date) in st.log || date in FiredOn(t, LiveTicks(st, events, t.id))
    decreases |events|
  {
    IdPresent(st.tasks, t.id);
    if events != [] {
      var e, rest := events[0], events[1..];
      var next, after := Step(st, e), if e.Tick? then Fire(t, e.now) else t;
      StepKnown(st, e, used);
      TaskStep(st, e, used, t, date);
      var ticks := LiveTicks(next, rest, t.id);
      assert LiveTicks(st, events, t.id) == (if e.Tick? then [e.now] else []) + ticks;
      FiredFirst(t, e, ticks, date);
      hide Step, Known, Ids, Fire, Fires, FiredOn;
      if after in next.tasks {
        TasksIndependent(next, rest, UsedAfter(used, e), after, date);
      } else {
        KnownHas(st.tasks, used, t);
        AbsentRun(next, rest, UsedAfter(used, e), t.id, date);
        assert ticks == [];
        FiredNever(after, date);
      }
    }
  }

  lemma KnownHas(tasks: seq<Task>, used: set<string>, t: Task)
    requires Known(tasks, used) && t in tasks
    ensures t.id in used
  {
  }

  lemma FiredNever(t: Task, date: LocalDate)
    ensures date !in FiredOn(t, [])
  {
  }

  lemma FiredFirst(t: Task, e: Event, ticks: seq<Now>, date: LocalDate)
    ensures var after := if e.Tick? then Fire(t, e.now) else t;
            date in FiredOn(t, (if e.Tick? then [e.now] else []) + ticks)
            <==> (e.Tick? && Fires(t, e.now) && date == e.now.date) || date in FiredOn(after, ticks)
  {
    if e.Tick? {
      var all := [e.now] + ticks;
      assert all[0] == e.now && all[1..] == ticks;
      hide Fires, Fire;
    } else {
      assert [] + ticks == ticks;
    }
  }

  lemma {:induction false} LiveTicksDated(st: State, events: seq<Event>, used: set<string>, today: LocalDate, id: string)
    requires Proper(events, used, today)
    ensures Dated(LiveTicks(st, events, id), today) && FreshIds(events, used)
    decreases |events|
  {
    hide Step, Ids;
    if events != [] {
      var e, rest := events[0], events[1..];
      var next := Step(st, e);
      match e {
        case Tick(now) =>
          LiveTicksDated(next, rest, used, now.date, id);
          var ticks := LiveTicks(next, rest, id);
          assert ([now] + ticks)[0] == now && ([now] + ticks)[1..] == ticks;
        case Add(fields, now) =>
          LiveTicksDated(next, rest, used + {fields.id}, now.date, id);
          DatedEarlier(LiveTicks(next, rest, id), now.date, today);
          assert [] + LiveTicks(next, rest, id) == LiveTicks(next, rest, id);
        case Remove(_) =>
          LiveTicksDated(next, rest, used, today, id);
          assert [] + LiveTicks(next, rest, id) == LiveTicks(next, rest, id);
      }
    }
  }

  lemma DatedEarlier(ticks: seq<Now>, later: LocalDate, from: LocalDate)
    requires Dated(ticks, later) && !Before(later, from)
    ensures Dated(ticks, from)
  {
  }

  /** Exactly once, in any history: a task that is added generates on precisely the dates on
      which some scheduler run finds it in the list and due, except its creation date when it
      was created already due; whatever other tasks are added, removed or generate. */
  lemma AddedTaskGenerates(st: State, fields: Task, now: Now, events: seq<Event>, used: set<string>, date: LocalDate)
    requires Inv(st, used, now.date) && fields.id !in used && Proper(events, used + {fields.id}, now.date)
    ensures var after := Step(st, Add(fields, now));
            var t := fields.(lastGeneratedDate := GetInitialRecurringTaskGeneratedDate(fields, now));
            Generation(fields.id, date) in Run(after, events).log
            <==> DueDuring(t, LiveTicks(after, events, fields.id), date) && !(date == now.date && IsRecurringTaskDue(fields, now))
  {
    var after := Step(st, Add(fields, now));
    var t := fields.(lastGeneratedDate := GetInitialRecurringTaskGeneratedDate(fields, now));
    assert t == after.tasks[0] && t in after.tasks && after.log == st.log;
    assert Generation(fields.id, date) !in st.log;
    assert Known(st.tasks, used);
    StepKnown(st, Add(fields, now), used);
    hide Step, Inv, Known, GetInitialRecurringTaskGeneratedDate, IsRecurringTaskDue;
    LiveTicksDated(after, events, used + {fields.id}, now.date, fields.id);
    TasksIndependent(after, events, used + {fields.id}, t, date);
    NewTaskFires(fields, now, LiveTicks(after, events, fields.id), date);
  }

  lemma PassStart(tasks: seq<Task>, now: Now)
    ensures FireAll(tasks[..0], now) == [] && Generated(tasks[..0], now) == []
  {
  }

  lemma {:induction false} FireAllSnoc(tasks: seq<Task>, t: Task, now: Now)
    ensures FireAll(tasks + [t], now) == FireAll(tasks, now) + [Fire(t, now)]
    ensures |FireAll(tasks, now)| == |tasks|
    ensures Generated(tasks + [t], now) == Generated(tasks, now) + if Fires(t, now) then [Generation(t.id, now.date)] else []
  {
    hide Fires, Fire;
    if tasks == [] {
      assert [] + [t] == [t];
    } else {
      FireAllSnoc(tasks[1..], t, now);
      assert (tasks + [t])[1..] == tasks[1..] + [t];
    }
  }

  /** One task's part of a pass over the list. */
  lemma PassStep(tasks: seq<Task>, i: nat, now: Now)
    requires i < |tasks|
    ensures FireAll(tasks[..i + 1], now) == FireAll(tasks[..i], now) + [Fire(tasks[i], now)]
    ensures |FireAll(tasks[..i], now)| == i
    ensures tasks[i..] == [tasks[i]] + tasks[i + 1..]
    ensures Generated(tasks[..i + 1], now) == Generated(tasks[..i], now) + if Fires(tasks[i], now) then [Generation(tasks[i].id, now.date)] else []
  {
    FireAllSnoc(tasks[..i], tasks[i], now);
    assert tasks[..i + 1] == tasks[..i] + [tasks[i]];
  }

  lemma SetNext<T>(done: seq<T>, left: seq<T>, x: T)
    requires left != []
    ensures (done + left)[|done|] == left[0] && (done + left)[|done| := x] == (done + [x]) + left[1..]
  {
  }

  class RecurringTaskList {
    var recurringTasks: seq<Task>
    var created: seq<Generation>

    ghost function Current(): State
      reads this
    {
      State(recurringTasks, created)
    }

    ghost predicate Valid()
      reads this
    {
      |recurringTasks| <= MAX_RECURRING_TASKS
    }

    /** Loads the stored tasks, of which at most 100 are kept. */
    constructor (stored: seq<Task>)
      ensures Valid() && Current() == State(if |stored| <= MAX_RECURRING_TASKS then stored else stored[..MAX_RECURRING_TASKS], [])
    {
      recurringTasks := if |stored| <= MAX_RECURRING_TASKS then stored else stored[..MAX_RECURRING_TASKS];
      created := [];
    }

    /** One task's turn: create the manual task, and remember the date only if that worked. */
    method RunTask(i: nat, now: Now, today: string) returns (fired: bool)
      requires i < |recurringTasks| && today == GetLocalDateKey(now.date)
      modifies this
      ensures fired == Fires(old(recurringTasks)[i], now)
      ensures recurringTasks == old(recurringTasks)[i := Fire(old(recurringTasks)[i], now)]
      ensures created == old(created) + if fired then [Generation(old(recurringTasks)[i].id, now.date)] else []
    {
      hide IsRecurringTaskDue, GetLocalDateKey;
      var task := recurringTasks[i];
      if !IsRecurringTaskDue(task, now) || task.lastGeneratedDate == today || !task.creatable {
        return false;
      }
      created := created + [Generation(task.id, now.date)];
      recurringTasks := recurringTasks[i := task.(lastGeneratedDate := today)];
      return true;
    }

    /** One pass of the scheduler, setting each generating task's date in place. */
    method RunDueRecurringTasks(now: Now) returns (changed: bool)
      requires Valid()
      modifies this
      ensures Valid() && Current() == Step(old(Current()), Tick(now))
      ensures changed <==> created != old(created)
    {
      changed := false;
      var today := GetLocalDateKey(now.date);
      hide FireAll, Generated, Fires, Fire, GetLocalDateKey;
      ghost var was := recurringTasks;
      PassStart(was, now);
      var i := 0;
      ghost var done: seq<Task>, made: seq<Generation> := [], [];
      while i < |recurringTasks|
        invariant 0 <= i <= |recurringTasks| == |was| <= MAX_RECURRING_TASKS
        invariant done == FireAll(was[..i], now) && |done| == i && recurringTasks == done + was[i..]
        invariant made == Generated(was[..i], now) && created == old(created) + made && (changed <==> made != [])
      {
        PassStep(was, i, now);
        SetNext(done, was[i..], Fire(was[i], now));
        var fired := RunTask(i, now, today);
        done := done + [Fire(was[i], now)];
        made := made + if fired then [Generation(was[i].id, now.date)] else [];
        if fired {
          changed := true;
        }
        i := i + 1;
      }
      assert was[..i] == was && was[i..] == [];
    }

    /** `createRecurringTask` with a request that parsed: `unshift`, then `pop` down to the limit. */
    method CreateRecurringTask(fields: Task, now: Now)
      requires Valid()
      modifies this`recurringTasks
      ensures Valid() && Current() == Step(old(Current()), Add(fields, now))
    {
      var task := fields.(lastGeneratedDate := GetInitialRecurringTaskGeneratedDate(fields, now));
      var tasks := [task] + recurringTasks;
      while |tasks| > MAX_RECURRING_TASKS
        invariant |tasks| <= MAX_RECURRING_TASKS + 1 && tasks == ([task] + recurringTasks)[..|tasks|]
        invariant |recurringTasks| < |tasks| || |tasks| == MAX_RECURRING_TASKS
      {
        tasks := tasks[..|tasks| - 1];
      }
      recurringTasks := tasks;
    }

    method RemoveRecurringTask(id: string) returns (removed: bool)
      requires Valid()
      modifies this`recurringTasks
      ensures Valid() && Current() == Step(old(Current()), Remove(id))
      ensures removed <==> exists t | t in old(recurringTasks) :: t.id == id
    {
      var existing := 0;
      while existing < |recurringTasks| && recurringTasks[existing].id != id
        invariant 0 <= existing <= |recurringTasks|
        invariant forall j | 0 <= j < existing :: recurringTasks[j].id != id
      {
        existing := existing + 1;
      }
      RemovedAt(recurringTasks, id, existing);
      if existing == |recurringTasks| {
        return false;
      }
      recurringTasks := recurringTasks[..existing] + recurringTasks[existing + 1..];
      return true;
    }
  }

  lemma ConsSplit<T>(s: seq<T>, k: nat)
    requires 0 < k <= |s|
    ensures [s[0]] + s[1..] == s
    ensures k < |s| ==> [s[0]] + (s[1..][..k - 1] + s[1..][k..]) == s[..k] + s[k + 1..]
  {
    assert s[1..][..k - 1] == s[1..k];
    assert k < |s| ==> s[1..][k..] == s[k + 1..];
    assert [s[0]] + s[1..k] == s[..k];
  }

  lemma {:induction false} RemovedAt(tasks: seq<Task>, id: string, k: nat)
    requires k <= |tasks| && (forall j | 0 <= j < k :: tasks[j].id != id) && (k < |tasks| ==> tasks[k].id == id)
    ensures Removed(tasks, id) == if k < |tasks| then tasks[..k] + tasks[k + 1..] else tasks
  {
    if k > 0 {
      var head, rest := tasks[0], tasks[1..];
      assert forall j | 0 <= j < k - 1 :: rest[j] == tasks[j + 1];
      RemovedAt(rest, id, k - 1);
      assert Removed(tasks, id) == [head] + Removed(rest, id);
      hide Removed;
      ConsSplit(tasks, k);
    }
  }
}
