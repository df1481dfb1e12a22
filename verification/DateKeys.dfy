/**
 Date keys such as `2024-02-29` and clock times such as `09:30`: printing and parsing.
 */
module DateKeys {
  import opened Wrappers
  import opened Decimals
  import opened CivilDates

  /** The last w digits, with leading zeros. */
  function Fixed(n: nat, w: nat): (s: string)
    ensures |s| == w
    decreases w
  {
    if w == 0 then "" else Fixed(n / 10, w - 1) + [Digit(n % 10)]
  }

  function Power10(w: nat): (p: nat)
    ensures p > 0
  {
    if w == 0 then 1 else 10 * Power10(w - 1)
  }

  lemma {:induction false} FixedReads(n: nat, w: nat)
    ensures AllDigits(Fixed(n, w))
    ensures n < Power10(w) ==> Value(Fixed(n, w)) == n
    decreases w
  {
    if w > 0 {
      FixedReads(n / 10, w - 1);
      var s, rest := Fixed(n, w), Fixed(n / 10, w - 1);
      assert s[..|s| - 1] == rest && s[|s| - 1] == Digit(n % 10) && DigitValue(Digit(n % 10)) == n % 10;
      assert n < Power10(w) ==> n / 10 < Power10(w - 1);
      hide Fixed, Power10;
    }
  }

  lemma {:induction false} DigitsAreFixed(s: string)
    requires AllDigits(s)
    ensures Value(s) < Power10(|s|) && Fixed(Value(s), |s|) == s
  {
    if s != [] {
      var rest := s[..|s| - 1];
      DigitsAreFixed(rest);
      assert s == rest + [s[|s| - 1]];
    }
  }

  lemma {:induction false} DecimalLength(n: nat, w: nat)
    requires w > 0
    ensures |Decimal(n)| == w <==> n < Power10(w) && (w == 1 || Power10(w - 1) <= n)
    decreases n
  {
    if n >= 10 && w > 1 {
      DecimalLength(n / 10, w - 1);
    } else if n >= 10 {
      DecimalLength(n / 10, 1);
    }
  }

  /** A number is printed with w digits exactly when it needs them. */
  lemma DecimalFixed(n: nat, w: nat)
    requires w > 0
    ensures Decimal(n) == Fixed(n, w) <==> n < Power10(w) && (w == 1 || Power10(w - 1) <= n)
  {
    DecimalReads(n);
    DigitsAreFixed(Decimal(n));
    DecimalLength(n, w);
    hide Decimal, Fixed, Value, Power10;
  }

  /** `padStart(2, '0')`. */
  function Pad2(n: nat): string {
    if |Decimal(n)| < 2 then "0" + Decimal(n) else Decimal(n)
  }

  lemma Pad2Fixed(n: nat)
    requires n < 100
    ensures Pad2(n) == Fixed(n, 2)
  {
    if n < 10 {
      assert Fixed(n, 2) == Fixed(0, 1) + [Digit(n)] && Fixed(0, 1) == "0";
    } else {
      assert (n / 10) % 10 == n / 10 && Fixed(n / 10, 1) == [Digit(n / 10)];
      assert Decimal(n) == Decimal(n / 10) + [Digit(n % 10)] && Decimal(n / 10) == [Digit(n / 10)];
    }
  }

  // ---- keys ----

  function GetLocalDateKey(d: Date): string
    requires Civil(d) && d.year >= 0
  {
    Decimal(d.year) + "-" + Pad2(d.month) + "-" + Pad2(d.day)
  }

  predicate KeyShaped(s: string) {
    |s| == 10 && s[4] == '-' && s[7] == '-' && AllDigits(s[..4]) && AllDigits(s[5..7]) && AllDigits(s[8..])
  }

  function Written(s: string): Date
    requires KeyShaped(s)
  {
    Date(Value(s[..4]), Value(s[5..7]), Value(s[8..]))
  }

  function ParseLocalDateKey(s: string): Option<Date> {
    if !KeyShaped(s) then None
    else
      var w := Written(s);
      var date := NewDate(w.year, w.month - 1, w.day);
      if date == w then Some(date) else None
  }

  /** The key with a four-digit year. */
  function Key4(d: Date): string
    requires Civil(d) && d.year >= 0
  {
    Fixed(d.year, 4) + "-" + Fixed(d.month, 2) + "-" + Fixed(d.day, 2)
  }

  /** The constructor leaves exactly the real dates after the year 99 as they are. */
  lemma NewDateExact(y: int, m: int, day: int)
    requires y >= 0
    ensures NewDate(y, m - 1, day) == Date(y, m, day) <==> Modern(Date(y, m, day))
  {
    hide DaysIn;
    if 1 <= m <= 12 {
      assert (m - 1) / 12 == 0 && (m - 1) % 12 == m - 1;
    }
    if y < 100 && Civil(Date(y, m, day)) {
      CarryYear(FullYear(y), m, day);
    }
  }

  lemma CarryYear(y: int, m: int, d: int)
    requires 1 <= m <= 12 && d >= 1
    ensures Carry(y, m, d).year >= y
    decreases d
  {
    if d > DaysIn(y, m) {
      if m < 12 {
        CarryYear(y, m + 1, d - DaysIn(y, m));
      } else {
        CarryYear(y + 1, 1, d - 31);
      }
    }
  }

  lemma Powers()
    ensures Power10(1) == 10 && Power10(2) == 100 && Power10(3) == 1000 && Power10(4) == 10000
  {
    assert Power10(0) == 1;
  }

  lemma Key4Written(d: Date)
    requires Civil(d) && 0 <= d.year <= 9999
    ensures KeyShaped(Key4(d)) && Written(Key4(d)) == d
  {
    Powers();
    hide Fixed, Value, AllDigits, Power10, Leap;
    var y, m, n := Fixed(d.year, 4), Fixed(d.month, 2), Fixed(d.day, 2);
    FixedReads(d.year, 4);
    FixedReads(d.month, 2);
    FixedReads(d.day, 2);
    var s := Key4(d);
    assert s == y + "-" + m + "-" + n;
    assert s[..4] == y && s[5..7] == m && s[8..] == n;
  }

  lemma WrittenKey4(s: string)
    requires KeyShaped(s) && Civil(Written(s))
    ensures s == Key4(Written(s)) && Written(s).year <= 9999
  {
    var y, m, n := s[..4], s[5..7], s[8..];
    Powers();
    DigitsAreFixed(y);
    DigitsAreFixed(m);
    DigitsAreFixed(n);
    hide Fixed, Value, Power10, DaysIn;
    assert s == y + "-" + m + "-" + n;
  }

  lemma Key4Parses(d: Date)
    requires Modern(d) && d.year <= 9999
    ensures ParseLocalDateKey(Key4(d)) == Some(d)
  {
    hide Fixed, Value, Key4, KeyShaped, Written, NewDate, DaysIn, AllDigits;
    Key4Written(d);
    NewDateExact(d.year, d.month, d.day);
  }

  lemma ParsedIsKey4(s: string)
    requires ParseLocalDateKey(s).Some?
    ensures var d := ParseLocalDateKey(s).value;
            Modern(d) && d.year <= 9999 && s == Key4(d)
  {
    hide Fixed, Value, AllDigits, KeyShaped, Key4, NewDate, DaysIn;
    var w := Written(s);
    assert w.year >= 0;
    hide Written;
    NewDateExact(w.year, w.month, w.day);
    WrittenKey4(s);
  }

  /** Parsing accepts exactly the real dates of the years 100 to 9999, written with four, two
      and two digits, and finds the date written. */
  lemma ParseIff(s: string, d: Date)
    ensures ParseLocalDateKey(s) == Some(d) <==> Modern(d) && d.year <= 9999 && s == Key4(d)
  {
    if Modern(d) && d.year <= 9999 {
      Key4Parses(d);
    }
    if ParseLocalDateKey(s).Some? {
      ParsedIsKey4(s);
    }
    hide ParseLocalDateKey, Key4;
  }

  lemma KeyIsKey4Iff(d: Date)
    requires Civil(d) && d.year >= 0
    ensures GetLocalDateKey(d) == Key4(d) <==> 1000 <= d.year <= 9999
  {
    Powers();
    Pad2Fixed(d.month);
    Pad2Fixed(d.day);
    DecimalFixed(d.year, 4);
    hide Fixed, Decimal, Power10, DaysIn, Pad2;
    var m, n := Fixed(d.month, 2), Fixed(d.day, 2);
    var a, b := Decimal(d.year) + "-" + m + "-" + n, Fixed(d.year, 4) + "-" + m + "-" + n;
    if a == b {
      assert |Decimal(d.year)| == 4;
      assert a[..4] == Decimal(d.year) && b[..4] == Fixed(d.year, 4);
    }
  }

  /** Printing then parsing gives the date back exactly for the years 1000 to 9999: an earlier
      year is printed with too few digits. */
  lemma KeyRoundTripIff(d: Date)
    requires Civil(d) && d.year >= 0
    ensures ParseLocalDateKey(GetLocalDateKey(d)) == Some(d) <==> 1000 <= d.year <= 9999
  {
    KeyIsKey4Iff(d);
    ParseIff(GetLocalDateKey(d), d);
    hide ParseLocalDateKey, GetLocalDateKey, Key4;
  }

  /** Parsing then printing gives the key back exactly from the year 1000 on. */
  lemma ParsedKeyPrintsIff(s: string, d: Date)
    requires ParseLocalDateKey(s) == Some(d)
    ensures GetLocalDateKey(d) == s <==> d.year >= 1000
  {
    ParseIff(s, d);
    KeyIsKey4Iff(d);
    hide ParseLocalDateKey, GetLocalDateKey, Key4;
  }

  lemma SameLast(a: string, b: string, x: string, y: string)
    requires a + x == b + y && |x| == |y|
    ensures a == b && x == y
  {
    assert |a| == |b|;
    assert a == (a + x)[..|a|] && b == (b + y)[..|b|];
    assert x == (a + x)[|a|..] && y == (b + y)[|b|..];
  }

  function MonthDay(d: Date): string
    requires Civil(d)
  {
    "-" + Pad2(d.month) + "-" + Pad2(d.day)
  }

  lemma MonthDayReads(d: Date)
    requires Civil(d)
    ensures |MonthDay(d)| == 6
    ensures var m, n := MonthDay(d)[1..3], MonthDay(d)[4..];
            AllDigits(m) && AllDigits(n) && Value(m) == d.month && Value(n) == d.day
  {
    Powers();
    Pad2Fixed(d.month);
    Pad2Fixed(d.day);
    FixedReads(d.month, 2);
    FixedReads(d.day, 2);
    hide Fixed, Value, Power10, DaysIn, Pad2;
    assert MonthDay(d)[1..3] == Fixed(d.month, 2) && MonthDay(d)[4..] == Fixed(d.day, 2);
  }

  /** Different dates have different keys, whatever the year. */
  lemma KeysDiffer(a: Date, b: Date)
    requires Civil(a) && Civil(b) && a.year >= 0 && b.year >= 0
    ensures GetLocalDateKey(a) == GetLocalDateKey(b) ==> a == b
  {
    hide Decimal, Value, GetLocalDateKey, MonthDay, AllDigits, DaysIn;
    if GetLocalDateKey(a) == GetLocalDateKey(b) {
      KeyParts(a);
      KeyParts(b);
      MonthDayReads(a);
      MonthDayReads(b);
      SameLast(Decimal(a.year), Decimal(b.year), MonthDay(a), MonthDay(b));
      DecimalInjective(a.year, b.year);
    }
  }

  lemma KeyParts(d: Date)
    requires Civil(d) && d.year >= 0
    ensures GetLocalDateKey(d) == Decimal(d.year) + MonthDay(d)
  {
    hide Decimal, Pad2, DaysIn;
  }

  // ---- clock times ----

  predicate TimeShaped(s: string) {
    && |s| == 5 && s[2] == ':' && AllDigits(s[..2]) && AllDigits(s[3..])
    && (s[0] == '0' || s[0] == '1' || (s[0] == '2' && s[1] <= '3')) && s[3] <= '5'
  }

  function WrittenHours(s: string): nat
    requires TimeShaped(s)
  {
    Value(s[..2])
  }

  function WrittenMinutes(s: string): nat
    requires TimeShaped(s)
  {
    Value(s[3..])
  }

  /** `HH:MM` on a 24-hour clock, as minutes since midnight. */
  function ParseRecurringTimeMinutes(s: string): Option<nat> {
    if !TimeShaped(s) then None else Some(WrittenHours(s) * 60 + WrittenMinutes(s))
  }

  lemma TwoDigits(s: string)
    requires |s| == 2 && AllDigits(s)
    ensures Value(s) == 10 * DigitValue(s[0]) + DigitValue(s[1]) && Fixed(Value(s), 2) == s
  {
    DigitsAreFixed(s);
    assert s[..1][..0] == [] && s[..1][0] == s[0];
  }

  function Clock(h: nat, m: nat): string {
    Fixed(h, 2) + ":" + Fixed(m, 2)
  }

  lemma HourDigits(a: char, b: char)
    requires IsDigit(a) && IsDigit(b)
    ensures 10 * DigitValue(a) + DigitValue(b) < 24 <==> a == '0' || a == '1' || (a == '2' && b <= '3')
    ensures 10 * DigitValue(a) + DigitValue(b) < 60 <==> a <= '5'
  {
  }

  lemma ClockParts(h: nat, m: nat)
    ensures var s := Clock(h, m);
            |s| == 5 && s[2] == ':' && s[..2] == Fixed(h, 2) && s[3..] == Fixed(m, 2)
  {
    hide Fixed;
    var s := Clock(h, m);
    assert s[..2] == Fixed(h, 2) && s[3..] == Fixed(m, 2);
  }

  lemma ClockShaped(h: nat, m: nat)
    requires h < 24 && m < 60
    ensures var s := Clock(h, m);
            TimeShaped(s) && WrittenHours(s) == h && WrittenMinutes(s) == m
  {
    Powers();
    hide Fixed, Value, Digit, DigitValue, Clock;
    ClockParts(h, m);
    FixedReads(h, 2);
    FixedReads(m, 2);
    var hours, minutes := Fixed(h, 2), Fixed(m, 2);
    TwoDigits(hours);
    TwoDigits(minutes);
    HourDigits(hours[0], hours[1]);
    HourDigits(minutes[0], minutes[1]);
    var s := Clock(h, m);
    hide AllDigits;
    assert s[0] == hours[0] && s[1] == hours[1] && s[3] == minutes[0];
  }

  lemma ShapedClock(s: string)
    requires TimeShaped(s)
    ensures var h, m := WrittenHours(s), WrittenMinutes(s);
            h < 24 && m < 60 && s == Clock(h, m)
  {
    var hours, minutes := s[..2], s[3..];
    TwoDigits(hours);
    TwoDigits(minutes);
    HourDigits(hours[0], hours[1]);
    HourDigits(minutes[0], minutes[1]);
    hide Fixed, Value, Digit, DigitValue;
    assert s[0] == hours[0] && s[1] == hours[1] && s[3] == minutes[0];
    assert s == hours + ":" + minutes;
  }

  lemma MinutesSplit(h: nat, m: nat)
    requires m < 60
    ensures (h * 60 + m) / 60 == h && (h * 60 + m) % 60 == m
  {
  }

  /** Exactly the times of a day are accepted, in this one form. */
  lemma TimeIff(s: string, t: nat)
    ensures ParseRecurringTimeMinutes(s) == Some(t) <==> t < 24 * 60 && s == Clock(t / 60, t % 60)
  {
    hide TimeShaped, Clock, WrittenHours, WrittenMinutes;
    var h, m := t / 60, t % 60;
    assert t == h * 60 + m;
    if t < 24 * 60 {
      ClockShaped(h, m);
    }
    if TimeShaped(s) {
      ShapedClock(s);
      MinutesSplit(WrittenHours(s), WrittenMinutes(s));
    }
  }
}
