/**
 When a recurring task generates, frequency by frequency: on which dates, counted day by day
 on the calendar, and from which time of day.
 */
module RecurringDates {
  import opened Wrappers
  import opened Sequences
  import opened Decimals
  import opened CivilDates
  import opened DateKeys
  import opened RecurringTasks

  // ---- dates by counting ----

  /** The date falls on that day of the week, Sunday being 0: counted from Thursday 1 January 1970,
      forwards or backwards. */
  ghost predicate FallsOn(date: Date, day: int) {
    || (exists n: nat :: date == Later(Date(1970, 1, 1), n) && day == (4 + n) % 7)
    || (exists n: nat :: Later(date, n) == Date(1970, 1, 1) && day == (4 - n) % 7)
  }

  lemma EpochNumber()
    ensures DayNumber(Date(1970, 1, 1)) == 0
  {
    assert DaysBeforeMonth(1970, 1) == 0;
  }

  lemma Counted(a: Date, b: Date, n: nat)
    requires Civil(a) && Civil(b)
    ensures b == Later(a, n) <==> DayNumber(b) == DayNumber(a) + n
  {
    LaterNumber(a, n);
    NumberOrder(b, Later(a, n));
  }

  lemma FallsOnIff(date: Date, day: int)
    requires Civil(date)
    ensures FallsOn(date, day) <==> day == Weekday(date)
  {
    var epoch := Date(1970, 1, 1);
    var k := DayNumber(date);
    EpochNumber();
    hide DayNumber, Later;
    forall n: nat ensures (date == Later(epoch, n) <==> k == n) && (Later(date, n) == epoch <==> k + n == 0) {
      Counted(epoch, date, n);
      Counted(date, epoch, n);
    }
    if k >= 0 {
      assert date == Later(epoch, k);
    } else {
      assert Later(date, -k) == epoch;
    }
  }

  /** The date an interval is counted from: the stored one, written with four, two and two digits,
      or the date of creation. */
  ghost predicate IsAnchor(t: Task, a: Date) {
    if t.anchorDate == "" then a == t.createdOn && 1000 <= a.year <= 9999
    else Modern(a) && a.year <= 9999 && t.anchorDate == Key4(a)
  }

  lemma LongKey(d: Date)
    requires Civil(d) && d.year >= 0
    ensures KeyShaped(GetLocalDateKey(d)) ==> 1000 <= d.year <= 9999
  {
    KeyParts(d);
    MonthDayReads(d);
    DecimalLength(d.year, 4);
    Powers();
    hide Decimal, MonthDay, GetLocalDateKey, AllDigits, Power10;
  }

  lemma AnchorIff(t: Task, a: Date)
    ensures Anchor(t) == Some(a) <==> IsAnchor(t, a)
  {
    if t.anchorDate == "" {
      LongKey(t.createdOn);
      KeyRoundTripIff(t.createdOn);
      assert ParseLocalDateKey(GetLocalDateKey(t.createdOn)).Some? ==> KeyShaped(GetLocalDateKey(t.createdOn));
    } else {
      ParseIff(t.anchorDate, a);
    }
    hide ParseLocalDateKey, GetLocalDateKey, Key4, KeyShaped;
  }

  /** The anchor, and every n days after it. */
  ghost predicate EveryNth(a: Date, n: int, date: Date)
    requires n >= 1
  {
    exists k: nat :: date == Later(a, k * n)
  }

  /** The task's dates. Every day; the listed weekdays, also when it has no frequency; the anchor
      and every n days after it; one date in every month, the last one where the day is missing. */
  ghost predicate OnDate(t: Task, date: LocalDate) {
    match t.frequency
    case Some(Daily) => true
    case Some(Interval) =>
      t.intervalDays.Some? && t.intervalDays.value >= 1
      && exists a :: IsAnchor(t, a) && EveryNth(a, t.intervalDays.value, date)
    case Some(Monthly) =>
      t.dayOfMonth.Some?
      && (date.day == t.dayOfMonth.value
          || (date.day < t.dayOfMonth.value && date.day == DaysIn(date.year, date.month)))
    case _ => exists day | day in t.daysOfWeek :: FallsOn(date, day)
  }

  /** It is on, this is one of its dates, and its time of day, a readable one, has come. */
  ghost predicate Meets(t: Task, date: LocalDate, minutes: int) {
    && t.enabled && OnDate(t, date)
    && exists h: nat, m: nat :: h < 24 && m < 60 && t.time == Clock(h, m) && h * 60 + m <= minutes
  }

  lemma IntervalByAnchor(t: Task, date: LocalDate)
    requires t.intervalDays.Some? && t.intervalDays.value >= 1
    ensures IsRecurringIntervalDue(t, date) <==> Anchor(t).Some? && EveryNth(Anchor(t).value, t.intervalDays.value, date)
  {
    hide Anchor, Later, OnStep, Modern;
    if Anchor(t).Some? {
      var anchor, n := Anchor(t).value, t.intervalDays.value;
      AnchorModern(t);
      if OnStep(anchor, n, date) {
        var k := StepIsCounted(anchor, n, date);
      }
      if EveryNth(anchor, n, date) {
        var k: nat :| date == Later(anchor, k * n);
        CountedIsStep(anchor, n, date, k);
      }
    }
  }

  lemma IntervalOnDate(t: Task, date: LocalDate)
    requires t.frequency == Some(Interval)
    ensures IsRecurringIntervalDue(t, date) <==> OnDate(t, date)
  {
    forall a ensures Anchor(t) == Some(a) <==> IsAnchor(t, a) { AnchorIff(t, a); }
    if t.intervalDays.Some? && t.intervalDays.value >= 1 {
      IntervalByAnchor(t, date);
      hide Anchor, IsAnchor, EveryNth, IsRecurringIntervalDue;
      if Anchor(t).Some? {
        assert IsAnchor(t, Anchor(t).value);
      }
    }
  }

  lemma MonthlyOnDate(t: Task, date: LocalDate)
    requires t.frequency == Some(Monthly)
    ensures IsRecurringMonthlyDue(t, date) <==> OnDate(t, date)
  {
    DaysInMonthIff(date);
    hide GetDaysInMonth, Leap;
  }

  lemma WeeklyOnDate(t: Task, date: LocalDate)
    requires t.frequency == Some(Weekly) || t.frequency == None
    ensures Weekday(date) in t.daysOfWeek <==> OnDate(t, date)
  {
    forall day ensures FallsOn(date, day) <==> day == Weekday(date) { FallsOnIff(date, day); }
    hide FallsOn, Weekday;
  }

  lemma TimeReads(s: string, minutes: int)
    ensures (ParseRecurringTimeMinutes(s).Some? && minutes >= ParseRecurringTimeMinutes(s).value)
        <==> exists h: nat, m: nat :: h < 24 && m < 60 && s == Clock(h, m) && h * 60 + m <= minutes
  {
    var read := ParseRecurringTimeMinutes(s);
    hide ParseRecurringTimeMinutes, Clock;
    if read.Some? && minutes >= read.value {
      TimeIff(s, read.value);
      assert read.value / 60 * 60 + read.value % 60 == read.value;
    }
    if h: nat, m: nat :| h < 24 && m < 60 && s == Clock(h, m) && h * 60 + m <= minutes {
      MinutesSplit(h, m);
      TimeIff(s, h * 60 + m);
    }
  }

  /** A task is due exactly when it meets its dates and its time. */
  lemma DueIff(t: Task, now: Now)
    ensures IsRecurringTaskDue(t, now) <==> Meets(t, now.date, now.minutes)
  {
    TimeReads(t.time, now.minutes);
    match t.frequency {
      case Some(Daily) =>
      case Some(Interval) => IntervalOnDate(t, now.date);
      case Some(Monthly) => MonthlyOnDate(t, now.date);
      case _ => WeeklyOnDate(t, now.date);
    }
    hide Clock, ParseRecurringTimeMinutes, IsRecurringIntervalDue, IsRecurringMonthlyDue, Weekday;
    assert t.frequency == Some(Daily) ==> OnDate(t, now.date);
    hide OnDate;
  }

  /** Some scheduler run of that date comes when the task meets its dates and its time. */
  ghost predicate MetBy(t: Task, ticks: seq<Now>, date: LocalDate) {
    exists tick | tick in ticks :: tick.date == date && Meets(t, date, tick.minutes)
  }

  lemma DueDuringIff(t: Task, ticks: seq<Now>, date: LocalDate)
    ensures DueDuring(t, ticks, date) <==> t.creatable && MetBy(t, ticks, date)
  {
    forall now ensures CanFire(t, now) <==> t.creatable && Meets(t, now.date, now.minutes) { DueIff(t, now); }
    hide CanFire, Meets;
    if DueDuring(t, ticks, date) {
      var i :| 0 <= i < |ticks| && ticks[i].date == date && CanFire(t, ticks[i]);
      assert ticks[i] in ticks;
    }
    if t.creatable && MetBy(t, ticks, date) {
      var tick :| tick in ticks && tick.date == date && Meets(t, date, tick.minutes);
      var i :| 0 <= i < |ticks| && ticks[i] == tick;
      assert CanFire(t, ticks[i]);
    }
  }

  /** A stored task that the manual-task service accepts generates on precisely the dates on which
      some run meets it, except the date it had generated on before. */
  lemma StoredTaskGenerates(t: Task, ticks: seq<Now>, from: LocalDate, date: LocalDate)
    requires Remembers(t, from) && Dated(ticks, from)
    ensures date in FiredOn(t, ticks) <==> t.creatable && MetBy(t, ticks, date) && t.lastGeneratedDate != GetLocalDateKey(date)
  {
    FiresExactlyWhenDue(t, ticks, from, date);
    DueDuringIff(t, ticks, date);
    hide *;
  }

  /** A task that is added generates on a date exactly when some scheduler run of that date finds
      it in the list, on one of its dates, at or after its time; except on the date of its creation
      when it already met both then. Whatever other tasks are added, removed or generate. */
  lemma AddedTaskGeneratesOn(st: State, fields: Task, now: Now, events: seq<Event>, used: set<string>, date: LocalDate)
    requires Inv(st, used, now.date) && fields.id !in used && Proper(events, used + {fields.id}, now.date)
    ensures var after := Step(st, Add(fields, now));
            Generation(fields.id, date) in Run(after, events).log <==>
              && fields.creatable && MetBy(fields, LiveTicks(after, events, fields.id), date)
              && !(date == now.date && Meets(fields, now.date, now.minutes))
  {
    var after := Step(st, Add(fields, now));
    var t := fields.(lastGeneratedDate := GetInitialRecurringTaskGeneratedDate(fields, now));
    var ticks := LiveTicks(after, events, fields.id);
    AddedTaskGenerates(st, fields, now, events, used, date);
    DueDuringIff(t, ticks, date);
    DueIff(fields, now);
    SameMeeting(fields, t, ticks, date);
    hide *;
  }

  lemma SameMeeting(t: Task, u: Task, ticks: seq<Now>, date: LocalDate)
    requires u == t.(lastGeneratedDate := u.lastGeneratedDate)
    ensures u.creatable == t.creatable && (MetBy(u, ticks, date) <==> MetBy(t, ticks, date))
  {
    forall minutes ensures Meets(u, date, minutes) <==> Meets(t, date, minutes) {
      assert forall a :: IsAnchor(u, a) <==> IsAnchor(t, a);
      hide IsAnchor, Later, FallsOn, Clock;
    }
    hide Meets;
  }

  /** A disabled task, one that the manual-task service refuses and one without a readable time
      never generate. */
  lemma NeverGenerates(st: State, fields: Task, now: Now, events: seq<Event>, used: set<string>, date: LocalDate)
    requires Inv(st, used, now.date) && fields.id !in used && Proper(events, used + {fields.id}, now.date)
    requires !fields.enabled || !fields.creatable || forall h: nat, m: nat | h < 24 && m < 60 :: fields.time != Clock(h, m)
    ensures Generation(fields.id, date) !in Run(Step(st, Add(fields, now)), events).log
  {
    AddedTaskGeneratesOn(st, fields, now, events, used, date);
    hide Inv, Proper, Run, Step, OnDate, Clock, LiveTicks;
  }

  // ---- who is in the list ----

  function OtherId(id: string): string -> bool {
    (x: string) => x != id
  }

  /** A new task comes in front and pushes out the last of a hundred; a removal takes out that task
      alone; a scheduler run takes out none. The order of the others stays. */
  lemma ListStep(st: State, e: Event, used: set<string>)
    requires Known(st.tasks, used) && |st.tasks| <= 100
    ensures var ids := Ids(st.tasks);
            var next := Ids(Step(st, e).tasks);
            match e
            case Tick(_) => next == ids
            case Add(fields, _) => next == [fields.id] + if |ids| == 100 then ids[..99] else ids
            case Remove(id) => next == Filter(OtherId(id), ids)
  {
    IdMembers(st.tasks);
    match e {
      case Tick(now) => FireAllFires(st.tasks, now); hide Ids, FireAll, Generated;
      case Add(fields, now) =>
        var next := Step(st, e).tasks;
        IdMembers(next);
        hide Ids, GetInitialRecurringTaskGeneratedDate;
        assert forall i | 1 <= i < |next| :: next[i] == st.tasks[i - 1];
      case Remove(id) => RemovedIds(st.tasks, id);
    }
  }

  lemma {:induction false} RemovedIds(tasks: seq<Task>, id: string)
    requires Distinct(Ids(tasks))
    ensures Ids(Removed(tasks, id)) == Filter(OtherId(id), Ids(tasks))
  {
    if tasks != [] {
      var rest := tasks[1..];
      RestDistinct(tasks);
      RemovedIds(rest, id);
      var ids := Ids(tasks);
      assert ids == [tasks[0].id] + Ids(rest) && ids[1..] == Ids(rest);
      FilterFirst(OtherId(id), ids);
      if tasks[0].id == id {
        IdPresent(rest, id);
        hide Ids;
        forall k | 0 <= k < |Ids(rest)| ensures OtherId(id)(Ids(rest)[k]) { assert Ids(rest)[k] in Ids(rest); }
        AllKept(OtherId(id), Ids(rest));
      } else {
        var gone := [tasks[0]] + Removed(rest, id);
        assert gone[1..] == Removed(rest, id);
        assert Ids(gone) == [tasks[0].id] + Ids(Removed(rest, id));
      }
    }
  }

  lemma {:induction false} AllKept<T>(keep: T -> bool, s: seq<T>)
    requires forall k | 0 <= k < |s| :: keep(s[k])
    ensures Filter(keep, s) == s
  {
    if s != [] {
      AllKept(keep, s[1..]);
      assert s == [s[0]] + s[1..];
    }
  }
}
