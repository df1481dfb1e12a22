/**
 Civil dates as JavaScript's Date computes them in local time, their keys, and the distance
 between two of them.
 */
module CivilDates {
  /** Months count from 1 here; the program's `getMonth()` is `month - 1`. */
  datatype Date = Date(year: int, month: int, day: int)

  predicate Leap(y: int) {
    y % 4 == 0 && (y % 100 != 0 || y % 400 == 0)
  }

  function DaysIn(y: int, m: int): (n: int)
    ensures 28 <= n <= 31
  {
    if m == 2 then (if Leap(y) then 29 else 28)
    else if m == 4 || m == 6 || m == 9 || m == 11 then 30
    else 31
  }

  predicate Civil(d: Date) {
    1 <= d.month <= 12 && 1 <= d.day <= DaysIn(d.year, d.month)
  }

  predicate Modern(d: Date) {
    Civil(d) && d.year >= 100
  }

  /** The dates a clock shows. */
  type LocalDate = d: Date | Modern(d) witness Date(1970, 1, 1)

  function NextDay(d: Date): Date {
    if d.day < DaysIn(d.year, d.month) then Date(d.year, d.month, d.day + 1)
    else if d.month < 12 then Date(d.year, d.month + 1, 1)
    else Date(d.year + 1, 1, 1)
  }

  /** The date n days on, by counting. */
  function Later(d: Date, n: nat): Date {
    if n == 0 then d else NextDay(Later(d, n - 1))
  }

  predicate Before(a: Date, b: Date) {
    a.year < b.year || (a.year == b.year && (a.month < b.month || (a.month == b.month && a.day < b.day)))
  }

  // ---- day numbers ----

  function DaysBeforeYear(y: int): int {
    365 * (y - 1970) + (y - 1969) / 4 - (y - 1901) / 100 + (y - 1601) / 400
  }

  function DaysBeforeMonth(y: int, m: int): int
    decreases m
  {
    if m <= 1 then 0 else DaysBeforeMonth(y, m - 1) + DaysIn(y, m - 1)
  }

  /** Days since 1 January 1970, by the closed formula that UTC time values follow. */
  function DayNumber(d: Date): int {
    DaysBeforeYear(d.year) + DaysBeforeMonth(d.year, d.month) + d.day - 1
  }

  lemma Fourth(y: int)
    ensures (y + 1 - 1969) / 4 == (y - 1969) / 4 + if y % 4 == 0 then 1 else 0
  {
  }

  lemma Century(y: int)
    ensures (y + 1 - 1901) / 100 == (y - 1901) / 100 + if y % 100 == 0 then 1 else 0
  {
  }

  lemma FourCenturies(y: int)
    ensures (y + 1 - 1601) / 400 == (y - 1601) / 400 + if y % 400 == 0 then 1 else 0
  {
  }

  lemma Hundred(q: int)
    ensures (100 * q) % 100 == 0 && (100 * q) % 4 == 0
  {
    assert 100 * q == 4 * (25 * q);
  }

  lemma Divides(y: int)
    ensures y % 400 == 0 ==> y % 100 == 0
    ensures y % 100 == 0 ==> y % 4 == 0
  {
    if y % 400 == 0 {
      Hundred(4 * (y / 400));
    }
    if y % 100 == 0 {
      Hundred(y / 100);
    }
  }

  lemma LeapLength(y: int)
    ensures DaysBeforeYear(y + 1) == DaysBeforeYear(y) + 365 + if Leap(y) then 1 else 0
  {
    Fourth(y);
    Century(y);
    FourCenturies(y);
    Divides(y);
    var f, c, h := (y - 1969) / 4, (y - 1901) / 100, (y - 1601) / 400;
    assert DaysBeforeYear(y) == 365 * (y - 1970) + f - c + h;
    assert DaysBeforeYear(y + 1) == 365 * (y - 1970) + 365 + (y + 1 - 1969) / 4 - (y + 1 - 1901) / 100 + (y + 1 - 1601) / 400;
  }

  lemma MonthsLength(y: int)
    ensures DaysBeforeMonth(y, 12) == 306 + DaysIn(y, 2)
  {
    assert DaysBeforeMonth(y, 3) == 31 + DaysIn(y, 2);
    assert DaysBeforeMonth(y, 6) == DaysBeforeMonth(y, 3) + 92;
    assert DaysBeforeMonth(y, 9) == DaysBeforeMonth(y, 6) + 92;
  }

  lemma YearLength(y: int)
    ensures DaysBeforeYear(y + 1) == DaysBeforeYear(y) + DaysBeforeMonth(y, 12) + 31
  {
    LeapLength(y);
    MonthsLength(y);
    hide DaysBeforeYear, DaysBeforeMonth;
  }

  /** The formula counts: the next day has the next number. */
  lemma NextDayNumber(d: Date)
    requires Civil(d)
    ensures Civil(NextDay(d)) && DayNumber(NextDay(d)) == DayNumber(d) + 1
  {
    YearLength(d.year);
    hide DaysBeforeYear;
  }

  lemma {:induction false} LaterNumber(d: Date, n: nat)
    requires Civil(d)
    ensures Civil(Later(d, n)) && DayNumber(Later(d, n)) == DayNumber(d) + n
  {
    if n > 0 {
      LaterNumber(d, n - 1);
      NextDayNumber(Later(d, n - 1));
    }
  }

  /** `getDay()`, Sunday being 0. */
  function Weekday(d: Date): int {
    (DayNumber(d) + 4) % 7
  }

  /** Weekdays follow each other; 1 January 1970 was a Thursday. */
  lemma WeekdaysCycle(d: Date)
    requires Civil(d)
    ensures Weekday(NextDay(d)) == (Weekday(d) + 1) % 7 && Weekday(Date(1970, 1, 1)) == 4
  {
    NextDayNumber(d);
    hide DaysBeforeMonth;
    assert DayNumber(Date(1970, 1, 1)) == 0 by { assert DaysBeforeMonth(1970, 1) == 0; }
  }

  lemma {:induction false} MonthsGrow(y: int, m: int, n: int)
    requires 1 <= m <= n <= 12
    ensures m < n ==> DaysBeforeMonth(y, m) + DaysIn(y, m) <= DaysBeforeMonth(y, n)
    decreases n
  {
    if m < n - 1 {
      MonthsGrow(y, m, n - 1);
    }
  }

  lemma {:induction false} YearsGrow(y: int, z: int)
    requires y < z
    ensures DaysBeforeYear(y + 1) <= DaysBeforeYear(z)
    decreases z - y
  {
    if y + 1 < z {
      YearsGrow(y + 1, z);
      YearLength(y + 1);
      MonthsGrow(y + 1, 1, 12);
      hide DaysBeforeYear;
    }
  }

  lemma Increasing(a: Date, b: Date)
    requires Civil(a) && Civil(b) && Before(a, b)
    ensures DayNumber(a) < DayNumber(b)
  {
    if a.year < b.year {
      YearsGrow(a.year, b.year);
      YearLength(a.year);
      MonthsGrow(a.year, a.month, 12);
      MonthsGrow(b.year, 1, b.month);
      hide DaysBeforeYear;
    } else if a.month < b.month {
      MonthsGrow(a.year, a.month, b.month);
    }
  }

  /** Day numbers identify dates, in calendar order. */
  lemma NumberOrder(a: Date, b: Date)
    requires Civil(a) && Civil(b)
    ensures DayNumber(a) < DayNumber(b) <==> Before(a, b)
    ensures DayNumber(a) == DayNumber(b) <==> a == b
  {
    hide DayNumber;
    if Before(a, b) {
      Increasing(a, b);
    } else if Before(b, a) {
      Increasing(b, a);
    }
  }

  // ---- the Date constructor ----

  /** Two-digit years mean 19xx, in `new Date(...)` and in `Date.UTC(...)`. */
  function FullYear(y: int): int {
    if 0 <= y <= 99 then 1900 + y else y
  }

  /** Carries days that do not fit the month into its neighbours. */
  function Carry(y: int, m: int, d: int): (r: Date)
    requires 1 <= m <= 12
    ensures Civil(r)
    decreases if d < 1 then 40 - d else d
  {
    if d < 1 then
      if m > 1 then Carry(y, m - 1, d + DaysIn(y, m - 1)) else Carry(y - 1, 12, d + 31)
    else if d > DaysIn(y, m) then
      if m < 12 then Carry(y, m + 1, d - DaysIn(y, m)) else Carry(y + 1, 1, d - 31)
    else Date(y, m, d)
  }

  /** `new Date(year, monthIndex, day)`. */
  function NewDate(year: int, monthIndex: int, day: int): Date {
    Carry(FullYear(year) + monthIndex / 12, monthIndex % 12 + 1, day)
  }

  /** Carrying is day arithmetic. */
  lemma {:induction false} CarryNumber(y: int, m: int, d: int)
    requires 1 <= m <= 12
    ensures DayNumber(Carry(y, m, d)) == DayNumber(Date(y, m, 1)) + d - 1
    decreases if d < 1 then 40 - d else d
  {
    hide DaysBeforeYear;
    if d < 1 {
      if m > 1 {
        CarryNumber(y, m - 1, d + DaysIn(y, m - 1));
      } else {
        YearLength(y - 1);
        CarryNumber(y - 1, 12, d + 31);
      }
    } else if d > DaysIn(y, m) {
      if m < 12 {
        CarryNumber(y, m + 1, d - DaysIn(y, m));
      } else {
        YearLength(y);
        CarryNumber(y + 1, 1, d - 31);
      }
    }
  }

  function GetDaysInMonth(d: Date): int {
    NewDate(d.year, d.month, 0).day
  }

  /** Day zero of the next month is the last of this one, except that the year 0 is taken for
      1900, which had no 29 February. */
  lemma DaysInMonthIff(d: Date)
    requires Civil(d)
    ensures GetDaysInMonth(d) == DaysIn(d.year, d.month) <==> !(d.year == 0 && d.month == 2)
  {
    var y := FullYear(d.year);
    if d.month < 12 {
      assert NewDate(d.year, d.month, 0) == Carry(y, d.month, DaysIn(y, d.month));
    } else {
      assert NewDate(d.year, d.month, 0) == Carry(y + 1, 1, 0) == Carry(y, 12, 31);
    }
    assert d.year != 0 ==> Leap(y) == Leap(d.year);
  }

  function UtcDay(d: Date): int {
    DayNumber(Date(FullYear(d.year), d.month, d.day))
  }

  function GetLocalDateDiffDays(a: Date, b: Date): int {
    UtcDay(b) - UtcDay(a)
  }

  /** The difference is n exactly when counting n days from the one date reaches the other. */
  lemma DiffIsCounting(a: Date, b: Date, n: nat)
    requires Modern(a) && Modern(b)
    ensures GetLocalDateDiffDays(a, b) == n <==> b == Later(a, n)
    ensures GetLocalDateDiffDays(b, a) == -GetLocalDateDiffDays(a, b)
  {
    LaterNumber(a, n);
    NumberOrder(b, Later(a, n));
  }
}
