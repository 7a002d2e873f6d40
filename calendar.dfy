/** Gregorian calendar arithmetic behind the booking modal's date picker
    (components/MoodSelector.tsx): month lengths, the weekday of a date, the
    normalisation JavaScript's `Date` applies to out-of-range days and months,
    the month cursor, and the time slots offered for a date. Dates are plain
    integers; the clock, time zones and locale formatting are not modelled. */
module Calendar {

  /** A civil date as JavaScript's `Date` constructor takes it: `month` is
      0-based (0 = January) and `day` is the day of the month, from 1. */
  datatype Date = Date(year: int, month: int, day: int)

  /** Gregorian leap-year rule. */
  predicate IsLeapYear(y: int)
  {
    y % 4 == 0 && (y % 100 != 0 || y % 400 == 0)
  }

  /** Number of days of month `m` (0-based) of year `y`. */
  function DaysInMonth(y: int, m: int): (n: int)
    requires 0 <= m < 12
    ensures 28 <= n <= 31
    ensures n == 29 <==> m == 1 && IsLeapYear(y)
  {
    if m == 1 then (if IsLeapYear(y) then 29 else 28)
    else if m == 3 || m == 5 || m == 8 || m == 10 then 30
    else 31
  }

  predicate ValidDate(d: Date)
  {
    0 <= d.month < 12 && 1 <= d.day <= DaysInMonth(d.year, d.month)
  }

  /** Days from 1 January of year 1 to 1 January of year `y` in the proleptic
      Gregorian calendar (negative for earlier years). Dafny's `/` rounds down
      for a positive divisor, which is what this count needs for every `y`. */
  function DaysBeforeYear(y: int): int
  {
    var p := y - 1;
    365 * p + p / 4 - p / 100 + p / 400
  }

  /** Days in year `y` before the first of month `m`: the sum of the lengths of
      the months that precede it. */
  function DaysBeforeMonth(y: int, m: int): int
    requires 0 <= m <= 12
  {
    if m == 0 then 0 else DaysBeforeMonth(y, m - 1) + DaysInMonth(y, m - 1)
  }

  /** Ordinal day of a date: 0 is Monday 1 January of year 1. */
  function DayNumber(d: Date): int
    requires 0 <= d.month < 12
  {
    DaysBeforeYear(d.year) + DaysBeforeMonth(d.year, d.month) + d.day - 1
  }

  /** `Date.prototype.getDay`: 0 = Sunday, ..., 6 = Saturday. */
  function Weekday(d: Date): (w: int)
    requires 0 <= d.month < 12
    ensures 0 <= w < 7
  {
    (DayNumber(d) + 1) % 7
  }

  /** The calendar day after `d`. */
  function NextDay(d: Date): (r: Date)
    requires ValidDate(d)
  {
    if d.day < DaysInMonth(d.year, d.month) then Date(d.year, d.month, d.day + 1)
    else if d.month < 11 then Date(d.year, d.month + 1, 1)
    else Date(d.year + 1, 0, 1)
  }

  /** A year has 365 days, 366 when it is a leap year. */
  lemma {:induction false} DaysInYear(y: int)
    ensures DaysBeforeMonth(y, 12) == if IsLeapYear(y) then 366 else 365
  {
    var feb := DaysInMonth(y, 1);
    assert DaysBeforeMonth(y, 1) == 31;
    assert DaysBeforeMonth(y, 2) == 31 + feb;
    assert DaysBeforeMonth(y, 3) == 62 + feb;
    assert DaysBeforeMonth(y, 4) == 92 + feb;
    assert DaysBeforeMonth(y, 5) == 123 + feb;
    assert DaysBeforeMonth(y, 6) == 153 + feb;
    assert DaysBeforeMonth(y, 7) == 184 + feb;
    assert DaysBeforeMonth(y, 8) == 215 + feb;
    assert DaysBeforeMonth(y, 9) == 245 + feb;
    assert DaysBeforeMonth(y, 10) == 276 + feb;
    assert DaysBeforeMonth(y, 11) == 306 + feb;
  }

  /** The closed-form count of days before a year agrees with the leap rule:
      consecutive years start 365 or 366 days apart. */
  lemma YearStep(y: int)
    ensures DaysBeforeYear(y + 1) == DaysBeforeYear(y) + DaysBeforeMonth(y, 12)
  {
    DaysInYear(y);
    DivStep(y, 4);
    DivStep(y, 100);
    DivStep(y, 400);
  }

  /** Rounding-down division counts the multiples of `k`: it steps up by one
      exactly at a multiple. */
  lemma DivStep(y: int, k: int)
    requires k > 0
    ensures y / k - (y - 1) / k == if y % k == 0 then 1 else 0
  {
    var q, r := (y - 1) / k, (y - 1) % k;
    if r == k - 1 {
      DivUnique(y, k, q + 1, 0);
    } else {
      DivUnique(y, k, q, r + 1);
    }
  }

  /** Quotient and remainder are determined by `a == k * q + r` with `0 <= r < k`. */
  lemma DivUnique(a: int, k: int, q: int, r: int)
    requires k > 0 && a == k * q + r && 0 <= r < k
    ensures a / k == q && a % k == r
  {
    var q', r' := a / k, a % k;
    if q' < q {
      MulAtLeast(k, q - q');
    } else if q < q' {
      MulAtLeast(k, q' - q);
    }
  }

  lemma MulAtLeast(k: int, n: int)
    requires k > 0 && n >= 1
    ensures k * n >= k
  {
    var m := n - 1;
    assert k * n == k * m + k;
  }

  /** The day after the last day of a month is the first of the next month
      (and of the next year after 31 December). */
  lemma MonthBoundary(y: int, m: int)
    requires 0 <= m < 12
    ensures m < 11 ==> DayNumber(Date(y, m + 1, 1)) == DayNumber(Date(y, m, DaysInMonth(y, m))) + 1
    ensures m == 11 ==> DayNumber(Date(y + 1, 0, 1)) == DayNumber(Date(y, m, DaysInMonth(y, m))) + 1
  {
    if m == 11 {
      YearStep(y);
    }
  }

  /** Consecutive calendar days have consecutive day numbers, so their weekdays
      advance by one modulo 7. */
  lemma NextDayAdvances(d: Date)
    requires ValidDate(d)
    ensures ValidDate(NextDay(d))
    ensures DayNumber(NextDay(d)) == DayNumber(d) + 1
    ensures Weekday(NextDay(d)) == (Weekday(d) + 1) % 7
  {
    if d.day == DaysInMonth(d.year, d.month) {
      MonthBoundary(d.year, d.month);
    }
    WeekdayShift(d, NextDay(d), 1);
  }

  /** Two dates `k` days apart have weekdays `k` apart modulo 7. */
  lemma WeekdayShift(a: Date, b: Date, k: int)
    requires 0 <= a.month < 12 && 0 <= b.month < 12
    requires DayNumber(b) == DayNumber(a) + k
    ensures Weekday(b) == (Weekday(a) + k) % 7
  {
    var n := DayNumber(a) + 1;
    var q := n / 7;
    assert n == 7 * q + Weekday(a);
    assert DayNumber(b) + 1 == 7 * q + (Weekday(a) + k);
    ModShift(7 * q + (Weekday(a) + k), q, Weekday(a) + k);
  }

  lemma ModShift(x: int, q: int, r: int)
    requires x == 7 * q + r
    ensures x % 7 == r % 7
  {
    var q', r' := r / 7, r % 7;
    DivUnique(x, 7, q + q', r');
  }

  /** Weekday anchors: 1 January 1970, the origin of JavaScript time values,
      was a Thursday, and 15 June 2024 was a Saturday. */
  lemma WeekdayAnchors()
    ensures Weekday(Date(1970, 0, 1)) == 4
    ensures Weekday(Date(2024, 5, 15)) == 6
  {
    assert DaysBeforeYear(1970) == 719162;
    assert DaysBeforeYear(2024) == 738885;
    assert DaysBeforeMonth(2024, 5) == 152 by {
      assert DaysBeforeMonth(2024, 1) == 31;
      assert DaysBeforeMonth(2024, 2) == 60;
      assert DaysBeforeMonth(2024, 3) == 91;
      assert DaysBeforeMonth(2024, 4) == 121;
    }
  }

  // ---------------------------------------------------------------------------
  // JavaScript `Date` normalisation, restricted to the days the picker uses
  // ---------------------------------------------------------------------------

  /** The year `new Date(y, m, d)` uses: the constructor reads years 0..99 as
      1900..1999. `setMonth` has no such rule. */
  function ConstructorYear(y: int): int
  {
    if 0 <= y <= 99 then 1900 + y else y
  }

  /** The date JavaScript denotes by year `y`, month `m` (any integer, carried
      into the year) and day `d` in 0..31: day 0 is the last day of the previous
      month, and a day past the month's end runs into the next month. */
  function Normalize(y: int, m: int, d: int): (r: Date)
    requires 0 <= d <= 31
    ensures ValidDate(r)
  {
    var ny, nm := y + m / 12, m % 12;
    if d == 0 then
      (if nm == 0 then Date(ny - 1, 11, 31) else Date(ny, nm - 1, DaysInMonth(ny, nm - 1)))
    else if d <= DaysInMonth(ny, nm) then Date(ny, nm, d)
    else Date(ny, nm + 1, d - DaysInMonth(ny, nm))
  }

  /** `Normalize` is ECMAScript's MakeDay: the result lies `d - 1` days after
      the first of the carried month. */
  lemma NormalizeIsMakeDay(y: int, m: int, d: int)
    requires 0 <= d <= 31
    ensures DayNumber(Normalize(y, m, d)) == DayNumber(Date(y + m / 12, m % 12, 1)) + d - 1
  {
    var ny, nm := y + m / 12, m % 12;
    if d == 0 {
      if nm == 0 {
        MonthBoundary(ny - 1, 11);
      } else {
        MonthBoundary(ny, nm - 1);
      }
    } else if d > DaysInMonth(ny, nm) {
      MonthBoundary(ny, nm);
    }
  }

  /** `getDaysInMonth`: the length, under the leap rules, of the cursor's
      month. The source reads it off as the day of `new Date(year, month + 1,
      0)`; `GetDaysInMonthIsDayZero` proves the two agree. */
  function GetDaysInMonth(c: Date): (n: int)
    requires ValidDate(c)
    ensures 28 <= n <= 31
  {
    DaysInMonth(ConstructorYear(c.year), c.month)
  }

  /** `getFirstDayOfMonth`: the weekday of the 1st of the cursor's month, which
      the source builds as `new Date(year, month, 1)`
      (`GetFirstDayOfMonthIsJsDate`). */
  function GetFirstDayOfMonth(c: Date): (w: int)
    requires ValidDate(c)
    ensures 0 <= w < 7
  {
    Weekday(Date(ConstructorYear(c.year), c.month, 1))
  }

  /** The date `handleDateSelect(day)` builds from the cursor's year and month,
      `new Date(year, month, day)` (`DateForDayIsJsDate`). */
  function DateForDay(c: Date, day: int): (r: Date)
    requires ValidDate(c) && 1 <= day <= GetDaysInMonth(c)
    ensures ValidDate(r)
  {
    Date(ConstructorYear(c.year), c.month, day)
  }

  /** Day 0 of the next month is the last day of this one, so
      `new Date(year, month + 1, 0).getDate()` is the month's length, December
      included (its next month is January of the next year). */
  lemma GetDaysInMonthIsDayZero(c: Date)
    requires ValidDate(c)
    ensures Normalize(ConstructorYear(c.year), c.month + 1, 0) ==
      Date(ConstructorYear(c.year), c.month, GetDaysInMonth(c))
  {
    var m := c.month + 1;
    if m == 12 {
      assert m / 12 == 1 && m % 12 == 0;
    } else {
      assert m / 12 == 0 && m % 12 == m;
    }
  }

  /** `new Date(year, month, 1)` is the 1st of the cursor's month itself. */
  lemma GetFirstDayOfMonthIsJsDate(c: Date)
    requires ValidDate(c)
    ensures Normalize(ConstructorYear(c.year), c.month, 1) == Date(ConstructorYear(c.year), c.month, 1)
    ensures GetFirstDayOfMonth(c) == Weekday(Normalize(ConstructorYear(c.year), c.month, 1))
  {
  }

  /** `new Date(year, month, day)` for a day of the shown month is that date
      itself: no carry happens. */
  lemma DateForDayIsJsDate(c: Date, day: int)
    requires ValidDate(c) && 1 <= day <= GetDaysInMonth(c)
    ensures DateForDay(c, day) == Normalize(ConstructorYear(c.year), c.month, day)
  {
  }

  /** The month shown is complete: `GetDaysInMonth` is its last day, and the
      next day is the first of the following month. */
  lemma GetDaysInMonthIsLastDay(c: Date)
    requires ValidDate(c)
    ensures var y, n := ConstructorYear(c.year), GetDaysInMonth(c);
      && ValidDate(Date(y, c.month, n))
      && !ValidDate(Date(y, c.month, n + 1))
      && DayNumber(Date(y, c.month, n)) + 1 == DayNumber(Normalize(y, c.month + 1, 1))
  {
    var y := ConstructorYear(c.year);
    MonthBoundary(y, c.month);
    if c.month < 11 {
      assert Normalize(y, c.month + 1, 1) == Date(y, c.month + 1, 1);
    } else {
      assert Normalize(y, c.month + 1, 1) == Date(y + 1, 0, 1);
    }
  }

  /** The grid's layout: the cell of day `day` sits at index
      `GetFirstDayOfMonth(c) + day - 1`, and its column (index modulo 7) is the
      weekday of that date. */
  lemma GridColumnIsWeekday(c: Date, day: int)
    requires ValidDate(c) && 1 <= day <= GetDaysInMonth(c)
    ensures Weekday(DateForDay(c, day)) == (GetFirstDayOfMonth(c) + day - 1) % 7
  {
    var y := ConstructorYear(c.year);
    WeekdayShift(Date(y, c.month, 1), DateForDay(c, day), day - 1);
  }

  // ---------------------------------------------------------------------------
  // The month cursor
  // ---------------------------------------------------------------------------

  /** `changeMonth(offset)`: `setMonth(getMonth() + offset)` on the cursor, which
      keeps the cursor's day of the month and lets it run into the next month. */
  function ChangeMonth(c: Date, offset: int): (r: Date)
    requires ValidDate(c)
    ensures ValidDate(r)
  {
    Normalize(c.year, c.month + offset, c.day)
  }

  /** Months counted from January of year 0, so that stepping is arithmetic. */
  function MonthIndex(d: Date): int
  {
    d.year * 12 + d.month
  }

  /** The cursor moves by `offset` months, and by one more exactly when its day
      does not exist in the target month; then the day is what is left over. */
  lemma ChangeMonthMoves(c: Date, offset: int)
    requires ValidDate(c)
    ensures var ty, tm := c.year + (c.month + offset) / 12, (c.month + offset) % 12;
      var overflow := c.day > DaysInMonth(ty, tm);
      var r := ChangeMonth(c, offset);
      && MonthIndex(r) == MonthIndex(c) + offset + (if overflow then 1 else 0)
      && r.day == (if overflow then c.day - DaysInMonth(ty, tm) else c.day)
  {
    var m := c.month + offset;
    assert m == 12 * (m / 12) + m % 12;
  }

  /** Stepping forward and back restores the cursor when its day exists in
      every month. */
  lemma ChangeMonthRoundTrip(c: Date, k: int)
    requires ValidDate(c) && c.day <= 28
    ensures ChangeMonth(ChangeMonth(c, k), -k) == c
  {
    var m := c.month + k;
    var q := m / 12;
    assert m == 12 * q + m % 12;
    var back := m % 12 - k;
    assert back == c.month - 12 * q;
    DivUnique(back, 12, -q, c.month);
  }

  /** The round trip fails for a day that the target month lacks: from
      31 January 2025 one step forward shows March, and one step back from
      there shows February. */
  lemma ChangeMonthSkipsShortMonth()
    ensures ChangeMonth(Date(2025, 0, 31), 1) == Date(2025, 2, 3)
    ensures ChangeMonth(ChangeMonth(Date(2025, 0, 31), 1), -1) == Date(2025, 1, 3)
  {
  }

  // ---------------------------------------------------------------------------
  // Time slots
  // ---------------------------------------------------------------------------

  const WEEKEND_SLOTS: seq<string> := ["7:15 AM - 8:00 AM", "8:15 AM - 9:00 AM", "9:15 AM - 10:00 AM"]
  const WEEKDAY_SLOTS: seq<string> := ["7:15 AM - 8:00 AM", "9:15 PM - 10:00 PM"]

  predicate IsWeekend(d: Date)
    requires 0 <= d.month < 12
  {
    Weekday(d) == 0 || Weekday(d) == 6
  }

  /** `getTimeSlots`: the slots offered on the date's weekday. */
  function GetTimeSlots(d: Date): (slots: seq<string>)
    requires 0 <= d.month < 12
  {
    if IsWeekend(d) then WEEKEND_SLOTS else WEEKDAY_SLOTS
  }

  /** Saturday and Sunday offer three morning slots, other days one morning
      and one evening slot; the slots of a day are distinct, and 7:15 AM is
      offered every day. */
  lemma TimeSlotsByWeekday(d: Date)
    requires 0 <= d.month < 12
    ensures var slots := GetTimeSlots(d);
      && (Weekday(d) == 0 || Weekday(d) == 6 ==> slots == ["7:15 AM - 8:00 AM", "8:15 AM - 9:00 AM", "9:15 AM - 10:00 AM"])
      && (1 <= Weekday(d) <= 5 ==> slots == ["7:15 AM - 8:00 AM", "9:15 PM - 10:00 PM"])
      && |slots| == (if IsWeekend(d) then 3 else 2)
      && slots[0] == "7:15 AM - 8:00 AM"
      && (forall i, j :: 0 <= i < j < |slots| ==> slots[i] != slots[j])
  {
  }

  /** 15 June 2024, a Saturday, offers the three weekend slots. */
  lemma SaturdaySlots()
    ensures GetTimeSlots(Date(2024, 5, 15)) == WEEKEND_SLOTS
  {
    WeekdayAnchors();
  }
}
