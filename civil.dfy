/** Calendar dates of the proleptic Gregorian calendar, as the pages read them off a
    JavaScript `Date` in local time (`getFullYear`, `getMonth() + 1`, `getDate`,
    `getDay`), with the day arithmetic of `date-fns` (`addDays`, `isBefore`,
    `startOfDay`, `format(d, "yyyy-MM-dd")`). The key format is the ISO 8601 extended
    calendar date (ISO 8601:2004 section 4.1.2.2). */
module Civil {
  import opened Text

  /** A calendar date; `month` runs 1..12 (one more than `getMonth()`). */
  datatype Date = Date(year: int, month: int, day: int)

  predicate IsLeap(y: int)
  {
    y % 4 == 0 && (y % 100 != 0 || y % 400 == 0)
  }

  function DaysInMonth(y: int, m: int): (n: int)
    ensures 28 <= n <= 31
  {
    if m == 2 then (if IsLeap(y) then 29 else 28)
    else if m == 4 || m == 6 || m == 9 || m == 11 then 30
    else 31
  }

  predicate ValidDate(d: Date)
  {
    d.year >= 1 && 1 <= d.month <= 12 && 1 <= d.day <= DaysInMonth(d.year, d.month)
  }

  /** `a` falls on or before `b`. */
  predicate OnOrBefore(a: Date, b: Date)
  {
    a.year < b.year || (a.year == b.year && (a.month < b.month || (a.month == b.month && a.day <= b.day)))
  }

  /** `isBefore(a, startOfDay(b))`: `a` is an earlier day than `b`. */
  predicate Before(a: Date, b: Date)
  {
    !OnOrBefore(b, a)
  }

  /** The day after `d`. */
  function NextDay(d: Date): Date
  {
    if d.day < DaysInMonth(d.year, d.month) then d.(day := d.day + 1)
    else if d.month < 12 then Date(d.year, d.month + 1, 1)
    else Date(d.year + 1, 1, 1)
  }

  /** `addDays(d, n)` for `n >= 0`. */
  function AddDays(d: Date, n: nat): Date
  {
    if n == 0 then d else NextDay(AddDays(d, n - 1))
  }

  /** Days of the years before `y`. */
  function DaysBeforeYear(y: int): int
    requires y >= 1
  {
    var p := y - 1;
    365 * p + p / 4 - p / 100 + p / 400
  }

  /** Days of the months of year `y` before month `m`. */
  function DaysBeforeMonth(y: int, m: int): (r: int)
    ensures r >= 0
  {
    if m <= 1 then 0 else DaysBeforeMonth(y, m - 1) + DaysInMonth(y, m - 1)
  }

  /** The number of days from 0001-01-01 to `d`. */
  function DayNumber(d: Date): int
    requires d.year >= 1
  {
    DaysBeforeYear(d.year) + DaysBeforeMonth(d.year, d.month) + d.day - 1
  }

  /** `getDay()`: 0 for Sunday through 6 for Saturday (0001-01-01 was a Monday). */
  function Weekday(d: Date): (w: int)
    requires d.year >= 1
    ensures 0 <= w < 7
  {
    (DayNumber(d) + 1) % 7
  }

  predicate IsWeekend(d: Date)
    requires d.year >= 1
  {
    Weekday(d) == 0 || Weekday(d) == 6
  }

  /** A date `format(d, "yyyy-MM-dd")` prints with four year digits. */
  predicate KeyDate(d: Date)
  {
    ValidDate(d) && d.year < 10000
  }

  /** `format(d, "yyyy-MM-dd")`. */
  function Key(d: Date): (k: string)
    requires KeyDate(d)
    ensures |k| == 10 && k[4] == '-' && k[7] == '-'
  {
    Pad4(d.year) + "-" + Pad2(d.month) + "-" + Pad2(d.day)
  }

  /** Different dates have different keys. */
  lemma KeyInjective(a: Date, b: Date)
    requires KeyDate(a) && KeyDate(b) && Key(a) == Key(b)
    ensures a == b
  {
    var ka, kb := Key(a), Key(b);
    assert Pad4(a.year) == ka[..4] && Pad4(b.year) == kb[..4];
    assert Pad2(a.month) == ka[5..7] && Pad2(b.month) == kb[5..7];
    assert Pad2(a.day) == ka[8..10] && Pad2(b.day) == kb[8..10];
  }

  /** Counting down by `k` loses one more step exactly at the multiples of `k`. */
  lemma DivStep(y: int, k: int)
    requires y >= 1 && (k == 4 || k == 100 || k == 400)
    ensures y / k - (y - 1) / k == if y % k == 0 then 1 else 0
  {
    if k == 4 {
    } else if k == 100 {
    } else {
    }
  }

  /** Year `y` has 366 days when leap, else 365. */
  lemma DaysBeforeNextYear(y: int)
    requires y >= 1
    ensures DaysBeforeYear(y + 1) == DaysBeforeYear(y) + (if IsLeap(y) then 366 else 365)
  {
    var p := y - 1;
    assert DaysBeforeYear(y) == 365 * p + p / 4 - p / 100 + p / 400;
    assert DaysBeforeYear(y + 1) == 365 * y + y / 4 - y / 100 + y / 400;
    DivStep(y, 4);
    DivStep(y, 100);
    DivStep(y, 400);
    if y % 400 == 0 {
      DividesMultiple(y, 100, 4);
      DividesMultiple(y, 4, 100);
    } else if y % 100 == 0 {
      DividesMultiple(y, 4, 25);
    }
  }

  /** A multiple of `a * b` is a multiple of `a`. */
  lemma DividesMultiple(y: int, a: int, b: int)
    requires a > 0 && b > 0 && y % (a * b) == 0
    ensures y % a == 0
  {
    var q := y / (a * b);
    assert y == (a * b) * q;
    assert y == a * (b * q);
  }

  /** December starts 334 days into the year, 335 in a leap year. */
  lemma DaysBeforeDecember(y: int)
    ensures DaysBeforeMonth(y, 12) == if IsLeap(y) then 335 else 334
  {
    var leap := if IsLeap(y) then 1 else 0;
    assert DaysBeforeMonth(y, 2) == 31;
    assert DaysBeforeMonth(y, 3) == 59 + leap;
    assert DaysBeforeMonth(y, 4) == 90 + leap;
    assert DaysBeforeMonth(y, 5) == 120 + leap;
    assert DaysBeforeMonth(y, 6) == 151 + leap;
    assert DaysBeforeMonth(y, 7) == 181 + leap;
    assert DaysBeforeMonth(y, 8) == 212 + leap;
    assert DaysBeforeMonth(y, 9) == 243 + leap;
    assert DaysBeforeMonth(y, 10) == 273 + leap;
    assert DaysBeforeMonth(y, 11) == 304 + leap;
  }

  /** The last day of a year is followed by the first day of the next. */
  lemma NewYearStep(d: Date)
    requires ValidDate(d) && d.month == 12 && d.day == 31
    ensures DayNumber(Date(d.year + 1, 1, 1)) == DayNumber(d) + 1
  {
    DaysBeforeNextYear(d.year);
    DaysBeforeDecember(d.year);
  }

  /** The day after a valid date is a valid date, one day number later. */
  lemma NextDayNumber(d: Date)
    requires ValidDate(d)
    ensures ValidDate(NextDay(d))
    ensures DayNumber(NextDay(d)) == DayNumber(d) + 1
  {
    if d.day < DaysInMonth(d.year, d.month) {
    } else if d.month < 12 {
      assert DaysBeforeMonth(d.year, d.month + 1) == DaysBeforeMonth(d.year, d.month) + DaysInMonth(d.year, d.month);
    } else {
      NewYearStep(d);
    }
  }

  /** ... and one weekday on. */
  lemma NextDayStep(d: Date)
    requires ValidDate(d)
    ensures ValidDate(NextDay(d))
    ensures DayNumber(NextDay(d)) == DayNumber(d) + 1
    ensures Weekday(NextDay(d)) == (Weekday(d) + 1) % 7
  {
    NextDayNumber(d);
    WeekdayStep(DayNumber(d), DayNumber(NextDay(d)));
  }

  /** One day number on is one weekday on. */
  lemma WeekdayStep(n: int, m: int)
    requires m == n + 1
    ensures (m + 1) % 7 == ((n + 1) % 7 + 1) % 7
  {
  }

  /** `n` days later is a valid date `n` day numbers later. */
  lemma {:induction false} AddDaysStep(d: Date, n: nat)
    requires ValidDate(d)
    ensures ValidDate(AddDays(d, n))
    ensures DayNumber(AddDays(d, n)) == DayNumber(d) + n
  {
    if n > 0 {
      AddDaysStep(d, n - 1);
      NextDayStep(AddDays(d, n - 1));
    }
  }

  /** Over a valid date, `Before` is the order of day numbers. */
  lemma BeforeIsDayOrder(a: Date, b: Date)
    requires ValidDate(a) && ValidDate(b)
    ensures Before(a, b) <==> DayNumber(a) < DayNumber(b)
  {
    if a.year < b.year {
      DayNumberWithinYear(a);
      YearsApart(a.year, b.year);
    } else if b.year < a.year {
      DayNumberWithinYear(b);
      YearsApart(b.year, a.year);
    } else if a.month < b.month {
      MonthsApart(a.year, a.month, b.month);
    } else if b.month < a.month {
      MonthsApart(a.year, b.month, a.month);
    }
  }

  /** A valid date lies within its year. */
  lemma DayNumberWithinYear(d: Date)
    requires ValidDate(d)
    ensures DayNumber(d) < DaysBeforeYear(d.year + 1)
  {
    MonthsApart(d.year, d.month, 13);
    DaysBeforeNextYear(d.year);
    DaysBeforeDecember(d.year);
  }

  /** A later year starts after every day of an earlier one. */
  lemma {:induction false} YearsApart(y1: int, y2: int)
    requires 1 <= y1 < y2
    ensures DaysBeforeYear(y1 + 1) <= DaysBeforeYear(y2)
    decreases y2 - y1
  {
    if y1 + 1 < y2 {
      YearsApart(y1 + 1, y2);
      DaysBeforeNextYear(y1 + 1);
    }
  }

  /** A later month starts after every day of an earlier one. */
  lemma {:induction false} MonthsApart(y: int, m1: int, m2: int)
    requires 1 <= m1 < m2 <= 13
    ensures DaysBeforeMonth(y, m1) + DaysInMonth(y, m1) <= DaysBeforeMonth(y, m2)
    decreases m2 - m1
  {
    if m1 + 1 < m2 {
      MonthsApart(y, m1 + 1, m2);
    }
  }

  /** Day numbers identify valid dates. */
  lemma DayNumberInjective(a: Date, b: Date)
    requires ValidDate(a) && ValidDate(b) && DayNumber(a) == DayNumber(b)
    ensures a == b
  {
    BeforeIsDayOrder(a, b);
    BeforeIsDayOrder(b, a);
  }

  /** 1970-01-01 was a Thursday: the weekday numbering agrees with `getDay()`. */
  lemma EpochIsThursday(d: Date)
    requires d == Date(1970, 1, 1)
    ensures Weekday(d) == 4
  {
    assert DaysBeforeYear(1970) == 719162;
  }
}
